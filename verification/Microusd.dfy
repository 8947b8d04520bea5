/** Micro-dollar amounts: the parser of decimal dollars, with the 64-bit arithmetic it
    uses, and the printer. */
module Microusd {
  import opened Wrappers
  import opened Text

  const MAX_INT64 := 0x7FFF_FFFF_FFFF_FFFF
  const MICROS := 1_000_000

  function Wrap64(x: int): (r: int)
    ensures -0x8000_0000_0000_0000 <= r <= MAX_INT64
    ensures -0x8000_0000_0000_0000 <= x <= MAX_INT64 ==> r == x
  {
    (x + 0x8000_0000_0000_0000) % 0x1_0000_0000_0000_0000 - 0x8000_0000_0000_0000
  }

  // ----- What a decimal means

  predicate AllDigits(s: string) {
    forall i :: 0 <= i < |s| ==> IsDigit(s[i])
  }

  function Digit(c: char): (d: int)
    requires IsDigit(c)
    ensures 0 <= d <= 9
  {
    c as int - '0' as int
  }

  function Value(s: string): (v: nat)
    requires AllDigits(s)
  {
    if s == "" then 0 else Value(s[..|s| - 1]) * 10 + Digit(s[|s| - 1])
  }

  function Pow10(n: nat): (p: nat)
    ensures p >= 1
  {
    if n == 0 then 1 else 10 * Pow10(n - 1)
  }

  /** `s` is the digits `whole`, or those, a point and up to six digits. */
  ghost predicate Reads(s: string, whole: string, fraction: Option<string>) {
    && whole != "" && AllDigits(whole)
    && match fraction
       case None => s == whole
       case Some(f) => s == whole + "." + f && AllDigits(f) && |f| <= 6
  }

  /** The amount in millionths. */
  ghost function Amount(whole: string, fraction: Option<string>): int
    requires AllDigits(whole) && (fraction.Some? ==> AllDigits(fraction.value) && |fraction.value| <= 6)
  {
    Value(whole) * MICROS + match fraction case None => 0 case Some(f) => Value(f) * Pow10(6 - |f|)
  }

  ghost predicate Denotes(s: string, v: int) {
    exists whole, fraction :: Reads(s, whole, fraction) && v == Amount(whole, fraction)
  }

  /** The point of a decimal, if it has one, comes right after the whole part. */
  lemma PointAt(s: string, whole: string, fraction: Option<string>)
    requires Reads(s, whole, fraction)
    ensures fraction.Some? <==> '.' in s
    ensures forall k :: 0 <= k < |s| ==>
            (s[k] == '.' || IsDigit(s[k])) && (s[k] == '.' <==> fraction.Some? && k == |whole|)
    ensures whole == s[..|whole|] && (fraction.Some? ==> |whole| < |s| && fraction.value == s[|whole| + 1..])
  {
    if fraction.Some? {
      assert s[|whole|] == '.';
    }
  }

  lemma ReadsOneWay(s: string, a: string, f: Option<string>, b: string, g: Option<string>)
    requires Reads(s, a, f) && Reads(s, b, g)
    ensures a == b && f == g
  {
    PointAt(s, a, f);
    PointAt(s, b, g);
    if f.Some? {
      assert s[|a|] == '.';
    }
  }

  /** A string denotes at most one amount. */
  lemma DenotesOnce(s: string, v: int, w: int)
    requires Denotes(s, v) && Denotes(s, w)
    ensures v == w
  {
    var a, f :| Reads(s, a, f) && v == Amount(a, f);
    var b, g :| Reads(s, b, g) && w == Amount(b, g);
    ReadsOneWay(s, a, f, b, g);
  }

  // ----- Digit strings

  lemma Horner(x: int, p: int, y: int, d: int)
    ensures (x * p + y) * 10 + d == x * (10 * p) + (y * 10 + d)
  {
    assert x * (10 * p) == 10 * (x * p);
  }

  lemma {:induction false} ValueConcat(a: string, b: string)
    requires AllDigits(a) && AllDigits(b)
    ensures AllDigits(a + b) && Value(a + b) == Value(a) * Pow10(|b|) + Value(b)
  {
    if b == "" {
      assert a + b == a;
    } else {
      var front := b[..|b| - 1];
      ValueConcat(a, front);
      assert (a + b)[..|a + b| - 1] == a + front;
      Horner(Value(a), Pow10(|front|), Value(front), Digit(b[|b| - 1]));
    }
  }

  lemma {:induction false} ValueZeros(n: nat)
    ensures Value(Zeros(n)) == 0
  {
    if n > 0 {
      assert Zeros(n)[..n - 1] == Zeros(n - 1);
      ValueZeros(n - 1);
    }
  }

  lemma {:induction false} ValueBound(s: string)
    requires AllDigits(s)
    ensures Value(s) < Pow10(|s|)
  {
    if s != "" {
      ValueBound(s[..|s| - 1]);
    }
  }

  lemma {:induction false} ValuePrefix(s: string, i: nat)
    requires AllDigits(s) && i <= |s|
    ensures Value(s[..i]) <= Value(s)
  {
    if i == |s| {
      assert s[..i] == s;
    } else {
      ValuePrefix(s[..|s| - 1], i);
      assert s[..|s| - 1][..i] == s[..i];
    }
  }

  // ----- The parser

  /** The parts, each followed by a point. */
  ghost function Pointed(parts: seq<string>): string {
    if parts == [] then "" else Pointed(parts[..|parts| - 1]) + parts[|parts| - 1] + "."
  }

  /** The parts have no points, and joined by points they are the text. */
  ghost predicate SplitInto(s: string, parts: seq<string>) {
    && parts != [] && s == Pointed(parts[..|parts| - 1]) + parts[|parts| - 1]
    && forall k :: 0 <= k < |parts| ==> '.' !in parts[k]
  }

  lemma PointedSnoc(parts: seq<string>, part: string)
    ensures Pointed(parts + [part]) == Pointed(parts) + part + "."
  {
    assert (parts + [part])[..|parts|] == parts;
  }

  /** The text up to `from` has been cut into parts. */
  ghost predicate CutInto(s: string, from: int, parts: seq<string>) {
    && 0 <= from <= |s| && s[..from] == Pointed(parts)
    && forall k :: 0 <= k < |parts| ==> '.' !in parts[k]
  }

  lemma Cut(s: string, from: nat, parts: seq<string>, i: nat)
    requires CutInto(s, from, parts) && from <= i < |s| && s[i] == '.'
    requires forall k :: from <= k < i ==> s[k] != '.'
    ensures CutInto(s, i + 1, parts + [s[from..i]])
  {
    PointedSnoc(parts, s[from..i]);
    assert s[..i + 1] == s[..from] + s[from..i] + ".";
  }

  lemma LastPart(s: string, from: nat, parts: seq<string>)
    requires CutInto(s, from, parts) && forall k :: from <= k < |s| ==> s[k] != '.'
    ensures SplitInto(s, parts + [s[from..]])
  {
    assert s == s[..from] + s[from..];
    assert (parts + [s[from..]])[..|parts|] == parts;
  }

  /** strings.Split on a point. */
  method SplitOnPoint(s: string) returns (parts: seq<string>)
    ensures SplitInto(s, parts)
  {
    parts := [];
    var from, i := 0, 0;
    while i < |s|
      invariant 0 <= from <= i <= |s| && CutInto(s, from, parts)
      invariant forall k :: from <= k < i ==> s[k] != '.'
    {
      if s[i] == '.' {
        Cut(s, from, parts, i);
        parts := parts + [s[from..i]];
        from := i + 1;
      }
      i := i + 1;
    }
    LastPart(s, from, parts);
    parts := parts + [s[from..]];
  }

  /** One part has no point, two have one between them, and more have another before the last. */
  lemma FewParts(s: string, parts: seq<string>)
    requires SplitInto(s, parts)
    ensures |parts| == 1 ==> s == parts[0]
    ensures |parts| == 2 ==> s == parts[0] + "." + parts[1]
    ensures |parts| > 2 ==> exists a, b :: 0 <= a < b < |s| && s[a] == s[b] == '.'
  {
    var n := |parts| - 1;
    if n >= 1 {
      var front := parts[..n];
      PointedSnoc(front[..n - 1], parts[n - 1]);
      assert front == front[..n - 1] + [parts[n - 1]];
      if n >= 2 {
        var first := front[..n - 1];
        PointedSnoc(first[..n - 2], parts[n - 2]);
        assert first == first[..n - 2] + [parts[n - 2]];
        assert s[|Pointed(first)| - 1] == '.' && s[|Pointed(front)| - 1] == '.';
      }
    }
  }

  method CheckDigits(s: string) returns (ok: bool)
    ensures ok <==> AllDigits(s)
  {
    for i := 0 to |s|
      invariant AllDigits(s[..i])
    {
      if s[i] < '0' || s[i] > '9' {
        return false;
      }
    }
    assert s[..|s|] == s;
    return true;
  }

  /** strconv.ParseInt in base ten with 64 bits, on a string of digits. */
  method ParseInt(s: string) returns (r: Option<int>)
    requires AllDigits(s)
    ensures r == if Value(s) <= MAX_INT64 then Some(Value(s)) else None
  {
    var n := 0;
    for i := 0 to |s|
      invariant n == Value(s[..i]) <= MAX_INT64
    {
      assert s[..i + 1][..i] == s[..i];
      n := n * 10 + Digit(s[i]);
      if n > MAX_INT64 {
        ValuePrefix(s, i + 1);
        return None;
      }
    }
    assert s[..|s|] == s;
    return Some(n);
  }

  lemma MicrosIsPower()
    ensures Pow10(6) == MICROS
  {
    assert Pow10(2) == 100 && Pow10(4) == 10000;
  }

  lemma PaddedFraction(f: string)
    requires AllDigits(f) && |f| <= 6
    ensures AllDigits(f + Zeros(6 - |f|))
    ensures Value(f + Zeros(6 - |f|)) == Value(f) * Pow10(6 - |f|) < MICROS
  {
    ValueConcat(f, Zeros(6 - |f|));
    ValueZeros(6 - |f|);
    ValueBound(f + Zeros(6 - |f|));
    MicrosIsPower();
  }

  /** The arithmetic of the parser, on checked digits. */
  method Combine(wholeDigits: string, fractionDigits: string) returns (r: Option<int>)
    requires AllDigits(wholeDigits) && AllDigits(fractionDigits) && |fractionDigits| <= 6
    ensures var amount := Value(wholeDigits) * MICROS + Value(fractionDigits) * Pow10(6 - |fractionDigits|);
            r == if 1 <= amount <= MAX_INT64 then Some(amount) else None
  {
    PaddedFraction(fractionDigits);
    var whole := ParseInt(wholeDigits);
    if whole.None? || whole.value > MAX_INT64 / MICROS {
      return None;
    }
    var fraction := fractionDigits + Zeros(6 - |fractionDigits|);
    var fractional := ParseInt(fraction);
    var result := Wrap64(whole.value * MICROS + fractional.value);
    if result < 1 {
      return None;
    }
    return Some(result);
  }

  /** A decimal splits into its whole part and its fraction. */
  lemma ReadsParts(s: string, whole: string, fraction: Option<string>, parts: seq<string>)
    requires Reads(s, whole, fraction) && SplitInto(s, parts)
    ensures parts == match fraction case None => [whole] case Some(f) => [whole, f]
  {
    PointAt(s, whole, fraction);
    FewParts(s, parts);
    if |parts| == 2 {
      assert s[|parts[0]|] == '.';
      assert parts[0] == s[..|parts[0]|] && parts[1] == s[|parts[0]| + 1..];
    }
  }

  /** A string whose parts fail one of the checks denotes nothing. */
  lemma NotRead(s: string, parts: seq<string>)
    requires SplitInto(s, parts)
    requires |parts| > 2 || parts[0] == "" || !AllDigits(parts[0])
             || (|parts| == 2 && (|parts[1]| > 6 || !AllDigits(parts[1])))
    ensures forall v :: !Denotes(s, v)
  {
    forall v ensures !Denotes(s, v) {
      if Denotes(s, v) {
        var whole, fraction :| Reads(s, whole, fraction) && v == Amount(whole, fraction);
        ReadsParts(s, whole, fraction, parts);
      }
    }
  }

  /** Accepts exactly the decimals that denote between one and 2^63 - 1 millionths, and
      returns that amount, although its 64-bit sum may wrap. */
  method ParseMicrousd(text: string) returns (r: Option<int>)
    ensures r.Some? ==> 1 <= r.value <= MAX_INT64 && Denotes(TrimSpace(text), r.value)
    ensures forall v :: 1 <= v <= MAX_INT64 && Denotes(TrimSpace(text), v) ==> r == Some(v)
  {
    var value := TrimSpace(text);
    var parts := SplitOnPoint(value);
    if |parts| > 2 || parts[0] == "" || (|parts| == 2 && |parts[1]| > 6) {
      NotRead(value, parts);
      return None;
    }
    var wholeOk := CheckDigits(parts[0]);
    var fractionOk := true;
    if |parts| == 2 {
      fractionOk := CheckDigits(parts[1]);
    }
    if !wholeOk || !fractionOk {
      NotRead(value, parts);
      return None;
    }
    FewParts(value, parts);
    ghost var given := if |parts| == 2 then Some(parts[1]) else None;
    assert Reads(value, parts[0], given);
    assert Denotes(value, Amount(parts[0], given));
    forall v | Denotes(value, v) ensures v == Amount(parts[0], given) {
      DenotesOnce(value, v, Amount(parts[0], given));
    }
    r := Combine(parts[0], if |parts| == 2 then parts[1] else "");
  }

  // ----- The printer

  function Decimal(n: nat): (s: string)
    ensures s != "" && AllDigits(s)
  {
    if n < 10 then [(n + '0' as int) as char] else Decimal(n / 10) + [(n % 10 + '0' as int) as char]
  }

  /** Pads with zeros up to `width` characters. */
  function Padded(s: string, width: nat): (r: string) {
    if |s| >= width then s else Zeros(width - |s|) + s
  }

  /** fmt's %d and %06d of a signed integer. */
  function Signed(n: int, width: nat): (s: string) {
    if n >= 0 then Padded(Decimal(n), width)
    else "-" + Padded(Decimal(-n), if width > 0 then width - 1 else 0)
  }

  /** formatMicrousd; Go's division and remainder truncate towards zero. */
  function FormatMicrousd(v: int): (s: string) {
    if v >= 0 then Signed(v / MICROS, 0) + "." + Signed(v % MICROS, 6)
    else Signed(-((-v) / MICROS), 0) + "." + Signed(-((-v) % MICROS), 6)
  }

  lemma {:induction false} DecimalValue(n: nat)
    ensures Value(Decimal(n)) == n
  {
    if n < 10 {
      assert Decimal(n)[..0] == "";
    } else {
      DecimalValue(n / 10);
      assert Decimal(n)[..|Decimal(n)| - 1] == Decimal(n / 10);
    }
  }

  lemma {:induction false} DecimalLength(n: nat, k: nat)
    requires k >= 1 && n < Pow10(k)
    ensures |Decimal(n)| <= k
  {
    if n >= 10 {
      DecimalLength(n / 10, k - 1);
    }
  }

  lemma ZerosInFront(n: nat, s: string)
    requires AllDigits(s)
    ensures AllDigits(Zeros(n) + s) && Value(Zeros(n) + s) == Value(s)
  {
    ValueConcat(Zeros(n), s);
    ValueZeros(n);
    assert 0 * Pow10(|s|) == 0;
  }

  /** The six digits after the point. */
  lemma SixDigits(m: nat)
    requires m < MICROS
    ensures var f := Signed(m, 6); |f| == 6 && AllDigits(f) && Value(f) == m
  {
    MicrosIsPower();
    DecimalLength(m, 6);
    DecimalValue(m);
    if |Decimal(m)| < 6 {
      ZerosInFront(6 - |Decimal(m)|, Decimal(m));
    }
  }

  /** Digits, a point and six digits denote exactly one amount and have no spaces to trim. */
  lemma FullDecimal(s: string, whole: string, f: string)
    requires whole != "" && AllDigits(whole) && AllDigits(f) && |f| == 6 && s == whole + "." + f
    ensures TrimSpace(s) == s
    ensures forall w :: Denotes(s, w) <==> w == Value(whole) * MICROS + Value(f)
  {
    assert Reads(s, whole, Some(f));
    PointAt(s, whole, Some(f));
    assert !IsSpace(s[0]) && !IsSpace(s[|s| - 1]);
    var v := Value(whole) * MICROS + Value(f);
    assert Amount(whole, Some(f)) == v;
    assert Denotes(s, v);
    forall w | Denotes(s, w) ensures w == v {
      DenotesOnce(s, w, v);
    }
  }

  /** A printed amount that is not negative denotes itself and nothing else. */
  lemma FormatDenotes(v: nat)
    ensures TrimSpace(FormatMicrousd(v)) == FormatMicrousd(v)
    ensures forall w :: Denotes(FormatMicrousd(v), w) <==> w == v
  {
    SixDigits(v % MICROS);
    DecimalValue(v / MICROS);
    FullDecimal(FormatMicrousd(v), Decimal(v / MICROS), Signed(v % MICROS, 6));
  }

  lemma {:induction false} NoLeadingZero(n: nat)
    ensures Decimal(n)[0] == '0' <==> n == 0
  {
    if n >= 10 {
      NoLeadingZero(n / 10);
    }
  }

  /** How an amount that is not negative is printed: its dollars without leading zeros, a point
      and six digits of millionths. */
  lemma FormatShape(v: nat) returns (dollars: string, millionths: string)
    ensures FormatMicrousd(v) == dollars + "." + millionths
    ensures dollars != "" && AllDigits(dollars) && Value(dollars) == v / 1_000_000
    ensures dollars[0] == '0' ==> dollars == "0"
    ensures |millionths| == 6 && AllDigits(millionths) && Value(millionths) == v % 1_000_000
  {
    dollars, millionths := Decimal(v / MICROS), Signed(v % MICROS, 6);
    SixDigits(v % MICROS);
    DecimalValue(v / MICROS);
    NoLeadingZero(v / MICROS);
  }

  lemma SignedNegative(n: int, width: nat)
    requires n < 0
    ensures var s := Signed(n, width); |s| >= 2 && s[0] == '-' && IsDigit(s[|s| - 1])
  {
    var digits := Padded(Decimal(-n), if width > 0 then width - 1 else 0);
    assert IsDigit(digits[|digits| - 1]);
  }

  lemma MinusUnread(s: string, k: nat)
    requires k < |s| && s[k] == '-' && !IsSpace(s[0]) && !IsSpace(s[|s| - 1])
    ensures TrimSpace(s) == s && forall w :: !Denotes(s, w)
  {
    forall w ensures !Denotes(s, w) {
      if Denotes(s, w) {
        var whole, fraction :| Reads(s, whole, fraction) && w == Amount(whole, fraction);
        PointAt(s, whole, fraction);
      }
    }
  }

  lemma AroundPoint(left: string, right: string)
    requires left != "" && right != ""
    ensures var s := left + "." + right;
            s[0] == left[0] && s[|left| + 1] == right[0] && s[|s| - 1] == right[|right| - 1]
  {
  }

  /** A minus sign before or after the point makes a text unreadable. */
  lemma MinusAround(left: string, right: string)
    requires left != "" && !IsSpace(left[0]) && right != "" && !IsSpace(right[|right| - 1])
    requires left[0] == '-' || right[0] == '-'
    ensures var s := left + "." + right; TrimSpace(s) == s && forall w :: !Denotes(s, w)
  {
    AroundPoint(left, right);
    MinusUnread(left + "." + right, if left[0] == '-' then 0 else |left| + 1);
  }

  lemma SignedEnds(n: int, width: nat)
    ensures var s := Signed(n, width);
            && s != "" && !IsSpace(s[0]) && !IsSpace(s[|s| - 1])
            && (n < 0 ==> s[0] == '-')
  {
    if n < 0 {
      SignedNegative(n, width);
    } else {
      var digits := Padded(Decimal(n), width);
      assert IsDigit(digits[0]) && IsDigit(digits[|digits| - 1]);
    }
  }

  lemma PaddedValue(n: nat, width: nat)
    ensures var s := Padded(Decimal(n), width);
            s != "" && AllDigits(s) && Value(s) == n && |s| >= width && s[0] != '-'
  {
    DecimalValue(n);
    if |Decimal(n)| < width {
      ZerosInFront(width - |Decimal(n)|, Decimal(n));
    }
    assert IsDigit(Padded(Decimal(n), width)[0]);
  }

  lemma SignedParts(n: int, width: nat)
    requires n <= 0
    ensures var s := Signed(n, width);
            && s != "" && (s[0] == '-' <==> n < 0) && |s| >= width
            && var digits := if s[0] == '-' then s[1..] else s;
               AllDigits(digits) && Value(digits) == -n
  {
    var width' := if n < 0 then (if width > 0 then width - 1 else 0) else width;
    PaddedValue(-n, width');
    if n < 0 {
      assert Signed(n, width)[1..] == Padded(Decimal(-n), width');
    }
  }

  /** How a negative amount is printed: each part that is not zero has a minus sign of its own. */
  lemma NegativeShape(v: int) returns (dollars: string, millionths: string)
    requires v < 0
    ensures FormatMicrousd(v) == dollars + "." + millionths && dollars != "" && millionths != ""
    ensures dollars[0] == '-' <==> -v >= 1_000_000
    ensures millionths[0] == '-' <==> -v % 1_000_000 != 0
    ensures var digits := if dollars[0] == '-' then dollars[1..] else dollars;
            AllDigits(digits) && Value(digits) == -v / 1_000_000
    ensures var digits := if millionths[0] == '-' then millionths[1..] else millionths;
            AllDigits(digits) && Value(digits) == -v % 1_000_000 && |millionths| >= 6
  {
    var q, m := (-v) / MICROS, (-v) % MICROS;
    dollars, millionths := Signed(-q, 0), Signed(-m, 6);
    SignedParts(-q, 0);
    SignedParts(-m, 6);
  }

  /** A printed negative amount denotes nothing. */
  lemma NegativeUnread(v: int)
    requires v < 0
    ensures forall w :: !Denotes(TrimSpace(FormatMicrousd(v)), w)
  {
    var q, m := (-v) / MICROS, (-v) % MICROS;
    SignedEnds(-q, 0);
    SignedEnds(-m, 6);
    MinusAround(Signed(-q, 0), Signed(-m, 6));
  }

  /** Printing and parsing: every 64-bit amount of at least one millionth comes back, and the
      others are refused. */
  method Reparse(v: int) returns (r: Option<int>)
    requires -0x8000_0000_0000_0000 <= v <= MAX_INT64
    ensures r == if v >= 1 then Some(v) else None
  {
    if v >= 0 {
      FormatDenotes(v);
    } else {
      NegativeUnread(v);
    }
    r := ParseMicrousd(FormatMicrousd(v));
  }
}
