/** The virtual RTC's counters, packed into the `flags` and `file_pos` words of a file
    descriptor (rtc.c).  Words are numbers below 2^32; `FreqMasks` and the
    lemmas after it show that the source's mask-and-shift macros compute these quotients and
    remainders. */
module RtcFields {
  type word = w: nat | w < 0x1_0000_0000

  const MAX_FREQ_HZ := 1024

  // ---------- flags: ticked (bit 31), frequency (bits 24-27), file bits (0-23) ----------

  /** `rtc_virt_get_freq` */
  function Freq(flags: word): (f: nat)
    ensures f < 16
  {
    flags / 0x1000000 % 16
  }

  /** `rtc_virt_set_freq` */
  function SetFreq(flags: word, freq: nat): word {
    flags % 0x1000000 + freq % 16 * 0x1000000 + flags / 0x10000000 * 0x10000000
  }

  /** `rtc_virt_has_ticked` */
  predicate HasTicked(flags: word) {
    flags / 0x80000000 == 1
  }

  /** `rtc_virt_clr_ticked` */
  function ClrTicked(flags: word): word {
    flags % 0x80000000
  }

  /** `rtc_virt_set_ticked` */
  function SetTicked(flags: word): word {
    flags % 0x80000000 + 0x80000000
  }

  // ---------- file_pos: pending ticks (bits 16-31), countdown (bits 0-15) ----------

  /** `rtc_virt_ticks` */
  function Ticks(pos: word): (t: nat)
    ensures t < 0x10000
  {
    pos / 0x10000
  }

  /** `rtc_virt_set_ticks` */
  function SetTicks(pos: word, ticks: nat): word {
    pos % 0x10000 + ticks % 0x10000 * 0x10000
  }

  /** `rtc_virt_get_ctr` */
  function Ctr(pos: word): (c: nat)
    ensures c < 0x10000
  {
    pos % 0x10000
  }

  /** `rtc_virt_set_ctr` */
  function SetCtr(pos: word, ctr: nat): word {
    pos / 0x10000 * 0x10000 + ctr % 0x10000
  }

  // ---------- the macros ----------

  // The macros' masks and shifts, on 32-bit words.

  lemma FreqMasks(w: bv32, v: bv32)
    ensures (w & 0x0F000000) >> 24 == w / 0x1000000 % 16
    ensures (w & 0xF0FFFFFF) | ((v & 0x0F) << 24) ==
            w % 0x1000000 + v % 16 * 0x1000000 + w / 0x10000000 * 0x10000000
  {
  }

  lemma TickedMasks(w: bv32)
    ensures w & 0x80000000 != 0 <==> w / 0x80000000 == 1
    ensures w & !0x80000000 == w % 0x80000000
    ensures w | 0x80000000 == w % 0x80000000 + 0x80000000
  {
  }

  lemma TicksMasks(w: bv32, v: bv32)
    ensures (w & 0xFFFF0000) >> 16 == w / 0x10000
    ensures (w & 0x0000FFFF) | ((v & 0xFFFF) << 16) == w % 0x10000 + v % 0x10000 * 0x10000
  {
  }

  lemma CtrMasks(w: bv32, v: bv32)
    ensures w & 0xFFFF == w % 0x10000
    ensures (w & 0xFFFF0000) | (v & 0xFFFF) == w / 0x10000 * 0x10000 + v % 0x10000
  {
  }

  // ---------- the layout ----------

  /** A descriptor's two words, field by field.  `file` holds the file layer's bits of `flags`,
      `spare` the three bits nobody uses. */
  datatype Fields = Fields(file: nat, freq: nat, spare: nat, ticked: bool, ticks: nat, ctr: nat)

  predicate InWidth(f: Fields) {
    f.file < 0x1000000 && f.freq < 16 && f.spare < 8 && f.ticks < 0x10000 && f.ctr < 0x10000
  }

  function FlagsOf(f: Fields): word
    requires InWidth(f)
  {
    f.file + f.freq * 0x1000000 + f.spare * 0x10000000 + if f.ticked then 0x80000000 else 0
  }

  function PosOf(f: Fields): word
    requires InWidth(f)
  {
    f.ticks * 0x10000 + f.ctr
  }

  // Each macro reads or writes its own field, truncated to its width, and disturbs no other.

  lemma FreqField(f: Fields, v: nat)
    requires InWidth(f)
    ensures Freq(FlagsOf(f)) == f.freq
    ensures SetFreq(FlagsOf(f), v) == FlagsOf(f.(freq := v % 16))
  {
    var high := f.spare + if f.ticked then 8 else 0;
    var w := FlagsOf(f);
    assert w == f.file + 0x1000000 * (f.freq + 16 * high);
    assert w / 0x1000000 == f.freq + 16 * high && w % 0x1000000 == f.file;
    assert w / 0x10000000 == high;
  }

  lemma TickedField(f: Fields)
    requires InWidth(f)
    ensures HasTicked(FlagsOf(f)) == f.ticked
    ensures ClrTicked(FlagsOf(f)) == FlagsOf(f.(ticked := false))
    ensures SetTicked(FlagsOf(f)) == FlagsOf(f.(ticked := true))
  {
    var low := FlagsOf(f.(ticked := false));
    assert low < 0x80000000;
    assert FlagsOf(f) == low + if f.ticked then 0x80000000 else 0;
  }

  lemma TicksField(f: Fields, v: nat)
    requires InWidth(f)
    ensures Ticks(PosOf(f)) == f.ticks
    ensures SetTicks(PosOf(f), v) == PosOf(f.(ticks := v % 0x10000))
  {
  }

  lemma CtrField(f: Fields, v: nat)
    requires InWidth(f)
    ensures Ctr(PosOf(f)) == f.ctr
    ensures SetCtr(PosOf(f), v) == PosOf(f.(ctr := v % 0x10000))
  {
  }
}
