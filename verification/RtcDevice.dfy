/** One virtual RTC: how it divides the hardware's 1024 Hz interrupts, and that no tick is lost
    or invented between interrupts and reads (rtc.c). */
module RtcDevice {
  import opened RtcFields

  /** `n >> k` */
  function Shr(n: nat, k: nat): nat {
    if k == 0 then n else Shr(n / 2, k - 1)
  }

  function Pow2(k: nat): (p: nat)
    ensures p > 0
  {
    if k == 0 then 1 else 2 * Pow2(k - 1)
  }

  // ---------- on the packed words, as the source does it ----------

  datatype Packed = Packed(flags: word, pos: word)

  function Pack(f: Fields): Packed
    requires InWidth(f)
  {
    Packed(FlagsOf(f), PosOf(f))
  }

  /** `rtc_virt_rst_ctr` */
  function ReloadWords(r: Packed): Packed {
    r.(pos := SetCtr(r.pos, Shr(MAX_FREQ_HZ, Freq(r.flags))))
  }

  /** `rtc_virt_decr_ctr` */
  function DecrementWords(r: Packed): Packed {
    if Ctr(r.pos) > 0 then r.(pos := SetCtr(r.pos, Ctr(r.pos) - 1)) else r
  }

  /** The body of the loop in `rtc_handle_interrupt`. */
  function InterruptWords(r: Packed): Packed {
    var r1 := DecrementWords(r);
    if Ctr(r1.pos) != 0 then r1 else
      var r2 := ReloadWords(r1);
      Packed(SetTicked(r2.flags), SetTicks(r2.pos, Ticks(r2.pos) + 1))
  }

  /** The part of `rtc_read` after the wait: the ticks are handed over and cleared. */
  function CollectWords(r: Packed): Packed {
    Packed(ClrTicked(r.flags), SetTicks(r.pos, 0))
  }

  /** What an accepted `rtc_write` of 2^s, and with s = 1 `rtc_open`, does to the counters. */
  function ProgramWords(r: Packed, s: nat): Packed {
    ReloadWords(Packed(ClrTicked(SetFreq(r.flags, s)), SetTicks(r.pos, 0)))
  }

  // ---------- on the fields ----------

  function Reload(f: Fields): (g: Fields)
    requires InWidth(f)
    ensures InWidth(g)
  {
    Periods(f.freq);
    f.(ctr := Shr(MAX_FREQ_HZ, f.freq))
  }

  /** Whether the next interrupt is a virtual tick. */
  predicate Fires(f: Fields) {
    f.ctr <= 1
  }

  function Interrupt(f: Fields): (g: Fields)
    requires InWidth(f)
    ensures InWidth(g)
  {
    if Fires(f) then Reload(f).(ticked := true, ticks := (f.ticks + 1) % 0x10000) else f.(ctr := f.ctr - 1)
  }

  function Collect(f: Fields): (g: Fields)
    requires InWidth(f)
    ensures InWidth(g)
  {
    f.(ticked := false, ticks := 0)
  }

  function Program(f: Fields, s: nat): (g: Fields)
    requires InWidth(f)
    ensures InWidth(g)
  {
    Reload(f.(freq := s % 16, ticked := false, ticks := 0))
  }

  /** The word operations do to the packed fields what the field operations say. */
  lemma ReloadPacked(f: Fields)
    requires InWidth(f)
    ensures ReloadWords(Pack(f)) == Pack(Reload(f))
  {
    Periods(f.freq);
    FreqField(f, 0);
    CtrField(f, Shr(MAX_FREQ_HZ, f.freq));
  }

  lemma DecrementPacked(f: Fields)
    requires InWidth(f)
    ensures DecrementWords(Pack(f)) == Pack(f.(ctr := if f.ctr > 0 then f.ctr - 1 else 0))
  {
    CtrField(f, if f.ctr > 0 then f.ctr - 1 else 0);
  }

  lemma TickPacked(f: Fields)
    requires InWidth(f)
    ensures var r := Pack(f);
            Packed(SetTicked(r.flags), SetTicks(r.pos, Ticks(r.pos) + 1)) ==
            Pack(f.(ticked := true, ticks := (f.ticks + 1) % 0x10000))
  {
    TicksField(f, f.ticks + 1);
    TickedField(f);
  }

  /** `InterruptWords` as the chain of its three updates. */
  lemma InterruptChain(r: Packed, r1: Packed, r2: Packed)
    requires r1 == DecrementWords(r) && r2 == ReloadWords(r1)
    ensures InterruptWords(r) ==
            if Ctr(r1.pos) != 0 then r1 else Packed(SetTicked(r2.flags), SetTicks(r2.pos, Ticks(r2.pos) + 1))
  {
  }

  lemma InterruptPacked(f: Fields)
    requires InWidth(f)
    ensures InterruptWords(Pack(f)) == Pack(Interrupt(f))
  {
    hide InterruptWords, DecrementWords, ReloadWords, SetTicked, SetTicks, Ticks, Ctr;
    var f1 := f.(ctr := if f.ctr > 0 then f.ctr - 1 else 0);
    var f2 := Reload(f1);
    var f3 := f2.(ticked := true, ticks := (f2.ticks + 1) % 0x10000);
    assert Interrupt(f) == if f1.ctr != 0 then f1 else f3;
    DecrementPacked(f);
    ReloadPacked(f1);
    InterruptChain(Pack(f), Pack(f1), Pack(f2));
    CtrField(f1, 0);
    TickPacked(f2);
  }

  lemma CollectPacked(f: Fields)
    requires InWidth(f)
    ensures CollectWords(Pack(f)) == Pack(Collect(f))
  {
    TickedField(f);
    TicksField(f, 0);
  }

  lemma ProgramPacked(f: Fields, s: nat)
    requires InWidth(f)
    ensures ProgramWords(Pack(f), s) == Pack(Program(f, s))
  {
    FreqField(f, s);
    TickedField(f.(freq := s % 16));
    TicksField(f, 0);
    ReloadPacked(f.(freq := s % 16, ticked := false, ticks := 0));
  }

  // ---------- division ----------

  /** Hardware interrupts per virtual tick: the reload value, and 1 where that is 0. */
  function Period(freq: nat): (p: nat)
    ensures p > 0
  {
    if Shr(MAX_FREQ_HZ, freq) == 0 then 1 else Shr(MAX_FREQ_HZ, freq)
  }

  /** The exponent is kept in four bits: 2^s for s up to 10 gives 2^s ticks per second, and all
      of 2^11 to 2^15 tick at every interrupt. */
  lemma Periods(s: nat)
    ensures s <= 10 ==> Period(s) * Pow2(s) == MAX_FREQ_HZ && Shr(MAX_FREQ_HZ, s) == Period(s)
    ensures 11 <= s ==> Period(s) == 1 && Shr(MAX_FREQ_HZ, s) == 0
    ensures Shr(MAX_FREQ_HZ, s) <= MAX_FREQ_HZ
  {
    if 11 <= s {
      ShrZero(s - 11);
      assert Shr(MAX_FREQ_HZ, s) == Shr(1024 / 2, s - 1) == Shr(256, s - 2) == Shr(128, s - 3) == Shr(64, s - 4)
          == Shr(32, s - 5) == Shr(16, s - 6) == Shr(8, s - 7) == Shr(4, s - 8) == Shr(2, s - 9) == Shr(1, s - 10);
    } else {
      assert Pow2(1) == 2 && Pow2(2) == 4 && Pow2(3) == 8 && Pow2(4) == 16 && Pow2(5) == 32;
      assert Pow2(6) == 64 && Pow2(7) == 128 && Pow2(8) == 256 && Pow2(9) == 512 && Pow2(10) == 1024;
    }
  }

  lemma {:induction false} ShrZero(k: nat)
    ensures Shr(0, k) == 0
  {
    if k > 0 {
      ShrZero(k - 1);
    }
  }

  // ---------- runs ----------

  /** An interrupt, or a reader that looks for ticks. */
  datatype Op = Irq | Take

  /** A device with the history since it was programmed: interrupts seen, ticks handed out, and
      ticks lost to the width of the pending field. */
  datatype Log = Log(dev: Fields, irqs: nat, got: nat, lost: nat)

  function Step(l: Log, op: Op): (l': Log)
    requires InWidth(l.dev)
    ensures InWidth(l'.dev)
  {
    match op
    case Irq =>
      Log(Interrupt(l.dev), l.irqs + 1, l.got,
          if Fires(l.dev) && l.dev.ticks == 0xFFFF then l.lost + 0x10000 else l.lost)
    case Take =>
      // without a tick the reader goes to sleep
      if l.dev.ticked then l.(dev := Collect(l.dev), got := l.got + l.dev.ticks) else l
  }

  function Run(l: Log, ops: seq<Op>): (l': Log)
    requires InWidth(l.dev)
    ensures InWidth(l'.dev)
  {
    if ops == [] then l else Step(Run(l, ops[..|ops| - 1]), ops[|ops| - 1])
  }

  /** The number of interrupts in a schedule. */
  function Irqs(ops: seq<Op>): nat {
    if ops == [] then 0 else Irqs(ops[..|ops| - 1]) + if ops[|ops| - 1].Irq? then 1 else 0
  }

  /** The virtual ticks that fall due in a schedule. */
  function Due(ops: seq<Op>, p: nat): nat
    requires p > 0
  {
    Irqs(ops) / p
  }

  predicate Unread(ops: seq<Op>, i: nat, j: nat)
    requires i <= j <= |ops|
  {
    forall k :: i <= k < j ==> ops[k].Irq?
  }

  /** Between two places with no read in between, fewer than 65536 ticks fall due. */
  predicate InTime(ops: seq<Op>, p: nat, i: nat, j: nat)
    requires p > 0 && i <= j <= |ops|
  {
    Unread(ops, i, j) ==> Due(ops[..j], p) - Due(ops[..i], p) < 0x10000
  }

  /** The reader keeps up with the schedule. */
  predicate Timely(ops: seq<Op>, p: nat)
    requires p > 0
  {
    forall i, j {:trigger InTime(ops, p, i, j)} :: 0 <= i <= j <= |ops| ==> InTime(ops, p, i, j)
  }

  /** After `q` whole periods and `m` interrupts more: the countdown shows `m`, and each of the
      `q` ticks was handed out, is pending, or was lost when the pending field wrapped. */
  predicate Balanced(l: Log, freq: nat, q: nat, m: nat) {
    && InWidth(l.dev) && l.dev.freq == freq
    && l.irqs == Period(freq) * q + m && m < Period(freq)
    && l.dev.ctr == (if Shr(MAX_FREQ_HZ, freq) == 0 then 0 else Period(freq) - m)
    && l.got + l.dev.ticks + l.lost == q
    && (!l.dev.ticked ==> l.dev.ticks == 0)
  }

  lemma DivUnique(x: int, d: int, q: int, m: int)
    requires x == d * q + m && 0 <= m < d
    ensures x / d == q && x % d == m
  {
    var t := x / d - q;
    assert d * t == m - x % d;
    MulAway(d, t);
  }

  /** A nonzero multiple of `d` is at least `d` away from zero. */
  lemma {:induction false} MulAway(d: int, t: int)
    requires d >= 0
    ensures t == 0 || d * t >= d || d * t <= -d
    decreases if t < 0 then -t else t
  {
    if t > 1 {
      MulAway(d, t - 1);
      assert d * t == d * (t - 1) + d;
    } else if t < -1 {
      MulAway(d, t + 1);
      assert d * t == d * (t + 1) - d;
    }
  }

  lemma StepBalanced(l: Log, op: Op, freq: nat, q: nat, m: nat) returns (q': nat, m': nat)
    requires Balanced(l, freq, q, m)
    ensures Balanced(Step(l, op), freq, q', m')
    ensures q' == q + if op.Irq? && Fires(l.dev) then 1 else 0
  {
    q', m' := q, m;
    match op
    case Irq =>
      if m + 1 == Period(freq) {
        q', m' := q + 1, 0;
        assert Period(freq) * (q + 1) == Period(freq) * q + Period(freq);
      } else {
        m' := m + 1;
      }
    case Take =>
  }

  lemma {:induction false} RunBalanced(l: Log, ops: seq<Op>, freq: nat) returns (q: nat, m: nat)
    requires Balanced(l, freq, 0, 0)
    ensures Balanced(Run(l, ops), freq, q, m) && Run(l, ops).irqs == Irqs(ops)
    ensures q == Due(ops, Period(freq)) && m == Irqs(ops) % Period(freq)
    decreases |ops|
  {
    q, m := 0, 0;
    if ops != [] {
      q, m := RunBalanced(l, ops[..|ops| - 1], freq);
      q, m := StepBalanced(Run(l, ops[..|ops| - 1]), ops[|ops| - 1], freq, q, m);
    }
    DivUnique(Irqs(ops), Period(freq), q, m);
  }

  /** A programmed device before its first interrupt. */
  function Start(f: Fields, s: nat): (l: Log)
    requires InWidth(f)
    ensures Balanced(l, s % 16, 0, 0)
  {
    Periods(s % 16);
    Log(Program(f, s), 0, 0, 0)
  }

  /** For every interleaving of interrupts and reads after programming 2^s, exactly one tick per
      period has occurred, the ticks read plus those pending are all of them exactly when the
      reader kept up, and a read returns exactly when a tick has fallen due since the last one. */
  lemma Conservation(f: Fields, s: nat, ops: seq<Op>)
    requires InWidth(f)
    ensures var l, p := Run(Start(f, s), ops), Period(s % 16);
            && l.got + l.dev.ticks + l.lost == Irqs(ops) / p
            && (l.got + l.dev.ticks == Irqs(ops) / p <==> Timely(ops, p))
            && (s % 16 <= 10 ==> l.dev.ctr == p - Irqs(ops) % p)
            && (l.dev.ticked <==> Due(ops, p) > Due(ops[..LastRead(ops)], p))
            && l.dev.file == f.file && l.dev.spare == f.spare
  {
    Periods(s % 16);
    var q, m := RunBalanced(Start(f, s), ops, s % 16);
    LossExact(Start(f, s), ops, s % 16);
    TickedExact(Start(f, s), ops, s % 16);
    OthersKept(Start(f, s), ops);
  }

  /** A read finds a tick to return with if and only if one has fallen due since the last read;
      otherwise it waits. */
  lemma {:induction false} TickedExact(l: Log, ops: seq<Op>, freq: nat)
    requires Balanced(l, freq, 0, 0) && !l.dev.ticked
    ensures Run(l, ops).dev.ticked <==> Due(ops, Period(freq)) > Due(ops[..LastRead(ops)], Period(freq))
    decreases |ops|
  {
    var p := Period(freq);
    if ops == [] {
      assert ops[..0] == ops;
    } else {
      var front, op := ops[..|ops| - 1], ops[|ops| - 1];
      TickedExact(l, front, freq);
      var q, m := RunBalanced(l, front, freq);
      var q', m' := StepBalanced(Run(l, front), op, freq, q, m);
      var _, _ := RunBalanced(l, ops, freq);
      assert ops[..|ops|] == ops;
      if op.Irq? {
        assert front[..LastRead(front)] == ops[..LastRead(ops)];
        DueGrows(ops, p, LastRead(ops), |ops| - 1);
      }
    }
  }

  /** The bits of the file layer are left alone. */
  lemma {:induction false} OthersKept(l: Log, ops: seq<Op>)
    requires InWidth(l.dev)
    ensures Run(l, ops).dev.file == l.dev.file && Run(l, ops).dev.spare == l.dev.spare
    decreases |ops|
  {
    if ops != [] {
      OthersKept(l, ops[..|ops| - 1]);
    }
  }

  /** Where the last stretch without a read begins. */
  function LastRead(ops: seq<Op>): (i: nat)
    ensures i <= |ops| && Unread(ops, i, |ops|)
    ensures forall k :: 0 <= k <= |ops| && Unread(ops, k, |ops|) ==> i <= k
  {
    if ops == [] then 0
    else if ops[|ops| - 1].Take? then |ops|
    else
      var front := ops[..|ops| - 1];
      assert forall k :: 0 <= k <= |front| && Unread(ops, k, |ops|) ==> Unread(front, k, |front|);
      LastRead(front)
  }

  lemma {:induction false} DueGrows(ops: seq<Op>, p: nat, i: nat, j: nat)
    requires p > 0 && i <= j <= |ops|
    ensures Irqs(ops[..i]) <= Irqs(ops[..j]) && Due(ops[..i], p) <= Due(ops[..j], p)
    decreases j - i
  {
    if i < j {
      DueGrows(ops, p, i, j - 1);
      assert ops[..j][..j - 1] == ops[..j - 1];
      DivGrows(Irqs(ops[..i]), Irqs(ops[..j]), p);
    }
  }

  lemma DivGrows(a: nat, b: nat, p: nat)
    requires p > 0 && a <= b
    ensures a / p <= b / p
  {
    if a / p > b / p {
      MulAway(p, a / p - b / p);
    }
  }

  /** Being in time up to the end is being in time since the last read. */
  lemma TimelyMore(ops: seq<Op>, p: nat)
    requires p > 0 && ops != []
    ensures Timely(ops, p) <==>
              Timely(ops[..|ops| - 1], p) && Due(ops, p) - Due(ops[..LastRead(ops)], p) < 0x10000
  {
    hide Due, Irqs, LastRead;
    var front, r := ops[..|ops| - 1], LastRead(ops);
    assert ops[..|ops|] == ops;
    if Timely(ops, p) {
      assert InTime(ops, p, r, |ops|);
      forall i, j | 0 <= i <= j <= |front| ensures InTime(front, p, i, j) {
        PrefixInTime(ops, p, i, j);
        assert InTime(ops, p, i, j);
      }
    }
    if Timely(front, p) && Due(ops, p) - Due(ops[..r], p) < 0x10000 {
      forall i, j | 0 <= i <= j <= |ops| ensures InTime(ops, p, i, j) {
        if j <= |front| {
          assert InTime(front, p, i, j);
          PrefixInTime(ops, p, i, j);
        } else if Unread(ops, i, j) {
          DueGrows(ops, p, r, i);
        }
      }
    }
  }

  lemma PrefixInTime(ops: seq<Op>, p: nat, i: nat, j: nat)
    requires p > 0 && i <= j < |ops|
    ensures InTime(ops[..|ops| - 1], p, i, j) <==> InTime(ops, p, i, j)
  {
    var front := ops[..|ops| - 1];
    assert front[..i] == ops[..i] && front[..j] == ops[..j];
    assert Unread(front, i, j) <==> Unread(ops, i, j);
  }

  /** Ticks are lost exactly when the reader falls 65536 ticks behind; until then those due since
      the last read are pending. */
  lemma {:induction false} LossExact(l: Log, ops: seq<Op>, freq: nat)
    requires Balanced(l, freq, 0, 0) && l.lost == 0 && l.dev.ticks == 0
    ensures Run(l, ops).lost == 0 <==> Timely(ops, Period(freq))
    ensures Run(l, ops).lost == 0 ==>
              Run(l, ops).dev.ticks == Due(ops, Period(freq)) - Due(ops[..LastRead(ops)], Period(freq))
    decreases |ops|
  {
    var p := Period(freq);
    if ops == [] {
      assert ops[..0] == ops;
      assert forall i, j :: 0 <= i <= j <= |ops| ==> InTime(ops, p, i, j);
    } else {
      var front, op := ops[..|ops| - 1], ops[|ops| - 1];
      LossExact(l, front, freq);
      TimelyMore(ops, p);
      var q, m := RunBalanced(l, front, freq);
      var q', m' := StepBalanced(Run(l, front), op, freq, q, m);
      var _, _ := RunBalanced(l, ops, freq);
      assert ops[..|ops|] == ops;
      if op.Irq? {
        assert front[..LastRead(front)] == ops[..LastRead(ops)];
      }
    }
  }

  lemma {:induction false} AllIrqs(n: nat)
    ensures Irqs(seq(n, _ => Irq)) == n
  {
    if n > 0 {
      var ops := seq(n, _ => Irq);
      assert ops[..n - 1] == seq(n - 1, _ => Irq);
      AllIrqs(n - 1);
    }
  }

  /** A reader that sleeps through 65536 ticks loses them. */
  lemma SleeperLoses(f: Fields, s: nat)
    requires InWidth(f)
    ensures Run(Start(f, s), seq(0x10000 * Period(s % 16), _ => Irq)).lost > 0
  {
    var p := Period(s % 16);
    var ops := seq(0x10000 * p, _ => Irq);
    AllIrqs(|ops|);
    DivUnique(|ops|, p, 0x10000, 0);
    assert ops[..|ops|] == ops && Due(ops[..0], p) == 0;
    assert !InTime(ops, p, 0, |ops|);
    LossExact(Start(f, s), ops, s % 16);
  }

  // ---------- rtc_write ----------

  /** `1 << sc`; the processor takes the count modulo 32. */
  function OneShifted(sc: nat): nat {
    Pow2(sc % 32)
  }

  lemma {:induction false} Pow2Grows(j: nat, k: nat)
    requires j < k
    ensures Pow2(j) < Pow2(k)
    decreases k
  {
    if j < k - 1 {
      Pow2Grows(j, k - 1);
    }
  }

  /** Shifting right by `k` leaves something exactly of the numbers from 2^k on. */
  lemma {:induction false} ShrPositive(n: nat, k: nat)
    ensures Shr(n, k) > 0 <==> n >= Pow2(k)
    decreases k
  {
    if k > 0 {
      ShrPositive(n / 2, k - 1);
    }
  }

  lemma {:induction false} ShrOnce(n: nat, k: nat)
    ensures Shr(n, k + 1) == Shr(n, k) / 2
    decreases k
  {
    if k > 0 {
      ShrOnce(n / 2, k - 1);
    }
  }

  lemma Pow2Word()
    ensures Pow2(32) == 0x1_0000_0000
  {
    assert Pow2(4) == 16 && Pow2(8) == 0x100 && Pow2(12) == 0x1000 && Pow2(16) == 0x1_0000;
    assert Pow2(20) == 0x10_0000 && Pow2(24) == 0x100_0000 && Pow2(28) == 0x1000_0000;
  }

  /** The loop of `rtc_write` that counts how often the request can be shifted. */
  method ShiftCount(req: word) returns (sc: nat)
    ensures sc <= 32 && req < Pow2(sc) && (sc > 0 ==> Pow2(sc - 1) <= req)
  {
    var freq: nat := req;
    sc := 0;
    while freq > 0
      invariant freq == Shr(req, sc) && sc <= 32
      invariant sc > 0 ==> Shr(req, sc - 1) > 0
      decreases 32 - sc
    {
      Pow2Word();
      ShrPositive(req, 32);
      ShrOnce(req, sc);
      freq := freq / 2;
      sc := sc + 1;
    }
    ShrPositive(req, sc);
    if sc > 0 {
      ShrPositive(req, sc - 1);
    }
  }

  lemma OneLess(count: nat)
    requires count <= 32
    ensures var sc := (count + 0xFFFF_FFFF) % 0x1_0000_0000;
            sc % 32 == (if count == 0 then 31 else count - 1) && (count > 0 ==> sc == count - 1)
    ensures Pow2(0) == 1
  {
  }

  /** The test of `rtc_write` on the requested frequency: accepted exactly when it is a power of
      two, whose exponent is then returned. */
  method Exponent(req: word) returns (ok: bool, s: nat)
    ensures ok <==> exists k :: Pow2(k) == req
    ensures ok ==> Pow2(s) == req && s < 32
  {
    hide Pow2;
    var count := ShiftCount(req);
    OneLess(count);
    // one less, on a 32-bit word
    var sc: nat := (count + 0xFFFF_FFFF) % 0x1_0000_0000;
    ok, s := req == OneShifted(sc), sc % 32;
    if count > 0 {
      Between(req, count - 1);
    }
  }

  /** Between two neighbouring powers only the lower one is a power. */
  lemma Between(req: nat, sc: nat)
    requires Pow2(sc) <= req < Pow2(sc + 1)
    ensures (exists k :: Pow2(k) == req) <==> req == Pow2(sc)
  {
    forall k: nat | Pow2(k) == req ensures k == sc {
      if k < sc {
        Pow2Grows(k, sc);
      } else if sc + 1 < k {
        Pow2Grows(sc + 1, k);
      }
    }
  }
}
