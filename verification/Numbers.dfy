/** Printing numbers: `itoa` writes the digits of a number backwards and `strrev` turns them round
    in place (lib.c). */
module Numbers {

  const WORD := 0x1_0000_0000

  const LOOKUP := "0123456789ABCDEFGHIJKLMNOPQRSTUVWXYZ"

  /** The digit written for `d`. */
  function Digit(d: nat): (c: char)
    requires d < 36
    ensures '0' <= c <= '9' || 'A' <= c <= 'Z'
  {
    if d < 10 then '0' + d as char else 'A' + (d - 10) as char
  }

  /** The value of a digit, for a reader of numbers. */
  function ValueOf(c: char): nat
    requires '0' <= c <= '9' || 'A' <= c <= 'Z'
  {
    if c <= '9' then c as nat - '0' as nat else c as nat - 'A' as nat + 10
  }

  lemma DigitValue(d: nat)
    requires d < 36
    ensures ValueOf(Digit(d)) == d && Digit(d) == LOOKUP[d]
  {
  }

  /** The number with the given digits, most significant first. */
  function Value(ds: seq<nat>, radix: nat): nat {
    if ds == [] then 0 else Value(ds[..|ds| - 1], radix) * radix + ds[|ds| - 1]
  }

  predicate Below(ds: seq<nat>, radix: nat) {
    forall i :: 0 <= i < |ds| ==> ds[i] < radix
  }

  /** The digits of a number, most significant first; none for zero. */
  function DigitsOf(n: nat, radix: nat): (ds: seq<nat>)
    requires 2 <= radix
    ensures Below(ds, radix)
  {
    if n == 0 then [] else DigitsOf(n / radix, radix) + [n % radix]
  }

  /** Digits as text. */
  function Text(ds: seq<nat>): (s: string)
    requires Below(ds, 36)
    ensures |s| == |ds| && forall i :: 0 <= i < |s| ==> s[i] == Digit(ds[i])
  {
    seq(|ds|, i requires 0 <= i < |ds| => Digit(ds[i]))
  }

  predicate IsNumeral(s: string) {
    forall i :: 0 <= i < |s| ==> '0' <= s[i] <= '9' || 'A' <= s[i] <= 'Z'
  }

  /** Read a numeral. */
  function Parse(s: string, radix: nat): nat
    requires IsNumeral(s)
  {
    Value(seq(|s|, i requires 0 <= i < |s| => ValueOf(s[i])), radix)
  }

  function Reversed<T>(s: seq<T>): (r: seq<T>)
    ensures |r| == |s| && forall i :: 0 <= i < |s| ==> r[i] == s[|s| - 1 - i]
  {
    seq(|s|, i requires 0 <= i < |s| => s[|s| - 1 - i])
  }

  lemma {:induction false} DigitsValue(n: nat, radix: nat)
    requires 2 <= radix
    ensures Value(DigitsOf(n, radix), radix) == n
    decreases n
  {
    if n > 0 {
      DivSmaller(n, radix);
      DigitsValue(n / radix, radix);
      ValueMore(DigitsOf(n / radix, radix), n % radix, radix);
    }
  }

  lemma ValueMore(ds: seq<nat>, d: nat, radix: nat)
    ensures Value(ds + [d], radix) == Value(ds, radix) * radix + d
  {
    assert (ds + [d])[..|ds|] == ds;
  }

  lemma DivSmaller(n: nat, d: nat)
    requires 2 <= d && n > 0
    ensures 0 <= n / d < n && n == n / d * d + n % d
  {
  }

  /** The leading digit is not zero. */
  lemma {:induction false} NoLeadingZero(n: nat, radix: nat)
    requires 2 <= radix && n > 0
    ensures DigitsOf(n, radix) != [] && DigitsOf(n, radix)[0] != 0
    decreases n
  {
    if n / radix > 0 {
      NoLeadingZero(n / radix, radix);
    }
  }

  lemma TextBack(ds: seq<nat>, radix: nat)
    requires Below(ds, 36)
    ensures IsNumeral(Text(ds)) && Parse(Text(ds), radix) == Value(ds, radix)
  {
    var s := Text(ds);
    var back := seq(|s|, i requires 0 <= i < |s| => ValueOf(s[i]));
    forall i | 0 <= i < |ds| ensures back[i] == ds[i] {
      DigitValue(ds[i]);
    }
    assert back == ds;
  }

  /** The number of digits grows with the powers of the radix. */
  lemma {:induction false} DigitsLength(n: nat, radix: nat, k: nat)
    requires 2 <= radix && n < Power(radix, k)
    ensures |DigitsOf(n, radix)| <= k
    decreases k
  {
    if n > 0 && k > 0 {
      QuotientBelow(n, radix, Power(radix, k - 1));
      DigitsLength(n / radix, radix, k - 1);
    }
  }

  function Power(b: nat, k: nat): nat {
    if k == 0 then 1 else b * Power(b, k - 1)
  }

  lemma QuotientBelow(n: nat, d: nat, p: nat)
    requires d > 0 && n < d * p
    ensures n / d < p
  {
    assert d * (n / d) <= n;
  }

  // ---------- buffers ----------

  /** The text up to the terminating null. */
  predicate Holds(buf: array<char>, at: nat, s: string)
    reads buf
  {
    at + |s| < buf.Length && buf[at..at + |s|] == s && buf[at + |s|] == '\0' && '\0' !in s
  }

  /** `strlen` */
  method StrLen(buf: array<char>, at: nat, ghost s: string) returns (len: nat)
    requires Holds(buf, at, s)
    ensures len == |s|
  {
    len := 0;
    while buf[at + len] != '\0'
      invariant len <= |s|
      decreases |s| - len
    {
      assert buf[at + len] == buf[at..at + |s|][len];
      len := len + 1;
    }
    assert buf[at..at + |s|] == s;
  }

  /** The `i`th character of a text whose outer `k` pairs have been swapped. */
  function Swapped(s: string, k: nat, i: nat): char
    requires i < |s|
  {
    if i < k || |s| - 1 - k < i then s[|s| - 1 - i] else s[i]
  }

  predicate Turned(b: seq<char>, at: nat, s: string, k: nat) {
    at + |s| <= |b| && forall i :: 0 <= i < |s| ==> b[at + i] == Swapped(s, k, i)
  }

  lemma SwapOne(b: seq<char>, at: nat, s: string, k: nat)
    requires Turned(b, at, s, k) && k < |s| - 1 - k
    ensures var end := |s| - 1 - k; Turned(b[at + end := b[at + k]][at + k := b[at + end]], at, s, k + 1)
  {
    var end := |s| - 1 - k;
    assert b[at + k] == Swapped(s, k, k) && b[at + end] == Swapped(s, k, end);
    var b', k' := b[at + end := b[at + k]][at + k := b[at + end]], k + 1;
    forall i | 0 <= i < |s| ensures b'[at + i] == Swapped(s, k', i) {
      assert b[at + i] == Swapped(s, k, i);
    }
  }

  lemma AllTurned(b: seq<char>, at: nat, s: string, k: nat)
    requires Turned(b, at, s, k) && k >= |s| - 1 - k && '\0' !in s
    ensures b[at..at + |s|] == Reversed(s) && '\0' !in Reversed(s)
  {
    forall i | 0 <= i < |s| ensures b[at + i] == Reversed(s)[i] {
      assert b[at + i] == Swapped(s, k, i);
    }
  }

  /** `strrev` */
  method StrRev(buf: array<char>, at: nat, ghost s: string)
    requires Holds(buf, at, s)
    modifies buf
    ensures Holds(buf, at, Reversed(s))
    ensures buf[..at] == old(buf[..at]) && buf[at + |s| + 1..] == old(buf[at + |s| + 1..])
  {
    hide Turned;
    var n: int := StrLen(buf, at, s);
    var beg: nat, end := 0, n - 1;
    NoneTurned(buf[..], at, s);
    while beg < end
      invariant end == n - 1 - beg && Turned(buf[..], at, s, beg)
      invariant forall j :: 0 <= j < at || at + n <= j < buf.Length ==> buf[j] == old(buf[j])
    {
      SwapOne(buf[..], at, s, beg);
      ghost var was := buf[..];
      var tmp := buf[at + end];
      buf[at + end] := buf[at + beg];
      buf[at + beg] := tmp;
      assert buf[..] == was[at + end := was[at + beg]][at + beg := was[at + end]];
      beg := beg + 1;
      end := end - 1;
    }
    AllTurned(buf[..], at, s, beg);
  }

  lemma NoneTurned(b: seq<char>, at: nat, s: string)
    requires at + |s| <= |b| && b[at..at + |s|] == s
    ensures Turned(b, at, s, 0)
  {
    forall i | 0 <= i < |s| ensures b[at + i] == Swapped(s, 0, i) {
      assert b[at..at + |s|][i] == b[at + i];
    }
  }

  // ---------- itoa ----------

  /** What `itoa` prints. */
  function Shown(n: nat, radix: nat): (s: string)
    requires 2 <= radix <= 36
  {
    if n == 0 then "0" else Text(DigitsOf(n, radix))
  }

  /** Reading the printed number back gives the number, and only zero starts with a zero. */
  lemma RoundTrip(n: nat, radix: nat)
    requires 2 <= radix <= 36
    ensures var s := Shown(n, radix);
            s != "" && IsNumeral(s) && Parse(s, radix) == n && (s[0] == '0' <==> n == 0)
  {
    if n == 0 {
      assert Shown(n, radix) == Text([0]);
      TextBack([0], radix);
    } else {
      DigitsValue(n, radix);
      TextBack(DigitsOf(n, radix), radix);
      NoLeadingZero(n, radix);
      DigitValue(DigitsOf(n, radix)[0]);
    }
  }

  /** Half way through the loop: the digits written, least significant first, then those to come. */
  predicate Emitted(value: nat, rest: nat, ds: seq<nat>, radix: nat)
    requires 2 <= radix
  {
    Below(ds, radix) && DigitsOf(value, radix) == DigitsOf(rest, radix) + Reversed(ds)
  }

  lemma EmitOne(value: nat, rest: nat, ds: seq<nat>, radix: nat)
    requires 2 <= radix && rest > 0 && Emitted(value, rest, ds, radix)
    ensures Emitted(value, rest / radix, ds + [rest % radix], radix)
    ensures |ds| < |DigitsOf(value, radix)|
    ensures 0 <= rest / radix < rest
  {
    DivSmaller(rest, radix);
    assert Reversed(ds + [rest % radix]) == [rest % radix] + Reversed(ds);
  }

  lemma ReversedText(ds: seq<nat>)
    requires Below(ds, 36)
    ensures Below(Reversed(ds), 36) && Reversed(Text(ds)) == Text(Reversed(ds)) && '\0' !in Text(ds)
  {
  }

  lemma EmittedAll(value: nat, ds: seq<nat>, radix: nat)
    requires 2 <= radix <= 36 && Emitted(value, 0, ds, radix)
    ensures DigitsOf(value, radix) == Reversed(ds)
  {
  }

  /** A 32-bit number has at most 32 digits in any radix, and at most 8 hexadecimal ones. */
  lemma WordLength(n: nat, radix: nat)
    requires 2 <= radix && n < WORD
    ensures |DigitsOf(n, radix)| <= 32
    ensures radix == 16 ==> |DigitsOf(n, radix)| <= 8
  {
    PowerGrows(radix, 32);
    assert Power(2, 4) == 16 && Power(2, 8) == 0x100 && Power(2, 12) == 0x1000 && Power(2, 16) == 0x1_0000;
    assert Power(2, 20) == 0x10_0000 && Power(2, 24) == 0x100_0000 && Power(2, 28) == 0x1000_0000;
    assert Power(2, 32) == WORD;
    DigitsLength(n, radix, 32);
    if radix == 16 {
      assert Power(16, 4) == 0x1_0000 && Power(16, 8) == WORD;
      DigitsLength(n, 16, 8);
    }
  }

  lemma {:induction false} PowerGrows(radix: nat, k: nat)
    requires 2 <= radix
    ensures Power(2, k) <= Power(radix, k)
  {
    if k > 0 {
      PowerGrows(radix, k - 1);
      MulMono(radix, Power(2, k - 1), Power(radix, k - 1));
    }
  }

  lemma MulMono(radix: nat, p: nat, q: nat)
    requires 2 <= radix && p <= q
    ensures 2 * p <= radix * q
  {
    assert radix * q == 2 * q + (radix - 2) * q;
  }

  /** The digit loop of `itoa`. */
  method WriteDigits(value: nat, buf: array<char>, at: nat, radix: nat) returns (ghost ds: seq<nat>)
    requires 2 <= radix <= 36 && at + |DigitsOf(value, radix)| < buf.Length
    modifies buf
    ensures Emitted(value, 0, ds, radix) && Holds(buf, at, Text(ds))
  {
    var newval: nat, p := value, at;
    ds := [];
    while newval > 0
      invariant p == at + |ds| < buf.Length && Emitted(value, newval, ds, radix)
      invariant forall j :: at <= j < p ==> buf[j] == Digit(ds[j - at])
    {
      EmitOne(value, newval, ds, radix);
      ds := ds + [newval % radix];
      buf[p] := Digit(newval % radix);
      p := p + 1;
      newval := newval / radix;
    }
    buf[p] := '\0';
    ReversedText(ds);
    assert buf[at..p] == Text(ds);
  }

  /** `itoa`, into a buffer with room for the number and the null. */
  method Itoa(value: nat, buf: array<char>, at: nat, radix: nat)
    requires 2 <= radix <= 36 && at + |Shown(value, radix)| < buf.Length
    modifies buf
    ensures Holds(buf, at, Shown(value, radix))
  {
    if value == 0 {
      buf[at] := '0';
      buf[at + 1] := '\0';
    } else {
      ghost var ds := WriteDigits(value, buf, at, radix);
      EmittedAll(value, ds, radix);
      ReversedText(ds);
      StrRev(buf, at, Text(ds));
    }
  }

  // ---------- %#x ----------

  lemma {:induction false} LeadingZeros(k: nat, ds: seq<nat>, radix: nat)
    ensures Value(seq(k, _ => 0) + ds, radix) == Value(ds, radix)
    decreases k + |ds|
  {
    var z := seq(k, _ => 0);
    if ds != [] {
      assert (z + ds)[..k + |ds| - 1] == z + ds[..|ds| - 1];
      LeadingZeros(k, ds[..|ds| - 1], radix);
    } else if k > 0 {
      assert (z + ds)[..k - 1] == seq(k - 1, _ => 0) + [];
      LeadingZeros(k - 1, [], radix);
    }
  }

  /** The `%#x` conversion of `printf`: always eight digits, of the same value. */
  method PrintHex(value: nat) returns (out: string)
    requires value < WORD
    ensures |out| == 8 && IsNumeral(out) && Parse(out, 16) == value
  {
    var buf := new char[64];
    WordLength(value, 16);
    Itoa(value, buf, 8, 16);
    ghost var s := Shown(value, 16);
    var start := StrLen(buf, 8, s);
    var i := start;
    while i < 8
      invariant start <= i <= 8
      invariant forall j :: start <= j < i ==> buf[j] == '0'
      invariant buf[8..8 + start] == s
    {
      buf[i] := '0';
      i := i + 1;
    }
    out := buf[start..8 + start];
    assert out == seq(8 - start, _ => '0') + s by {
      assert out == buf[start..8] + buf[8..8 + start];
      assert buf[start..8] == seq(8 - start, _ => '0');
    }
    Padded(value, out);
  }

  /** The digits that `itoa` shows: those of the number, and one for zero. */
  function ShownDigits(n: nat, radix: nat): (ds: seq<nat>)
    requires 2 <= radix
    ensures Below(ds, radix)
  {
    if n == 0 then [0] else DigitsOf(n, radix)
  }

  lemma ShownText(n: nat, radix: nat)
    requires 2 <= radix <= 36
    ensures Below(ShownDigits(n, radix), 36) && Shown(n, radix) == Text(ShownDigits(n, radix))
  {
    if n == 0 {
      assert Text([0]) == "0";
    }
  }

  lemma ShownValue(n: nat, radix: nat)
    requires 2 <= radix
    ensures Value(ShownDigits(n, radix), radix) == n
  {
    DigitsValue(n, radix);
  }

  lemma ZeroText(k: nat, ds: seq<nat>)
    requires Below(ds, 36)
    ensures Below(seq(k, _ => 0) + ds, 36) && Text(seq(k, _ => 0) + ds) == seq(k, _ => '0') + Text(ds)
  {
  }

  lemma Padded(value: nat, out: string)
    requires |Shown(value, 16)| <= 8 && out == seq(8 - |Shown(value, 16)|, _ => '0') + Shown(value, 16)
    ensures IsNumeral(out) && Parse(out, 16) == value
  {
    hide DigitsOf, Value, Shown, ShownDigits;
    var ds := ShownDigits(value, 16);
    var k: nat := 8 - |Shown(value, 16)|;
    ShownText(value, 16);
    ShownValue(value, 16);
    ZeroText(k, ds);
    TextBack(seq(k, _ => 0) + ds, 16);
    LeadingZeros(k, ds, 16);
  }
}
