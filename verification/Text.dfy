/** The string operations the program borrows from its standard library. */
module Text {

  /** unicode.IsSpace. */
  predicate IsSpace(c: char) {
    || '\t' <= c <= '\r'
    || c == ' '
    || c == '\U{85}' || c == '\U{A0}' || c == '\U{1680}'
    || '\U{2000}' <= c <= '\U{200A}'
    || c == '\U{2028}' || c == '\U{2029}' || c == '\U{202F}' || c == '\U{205F}' || c == '\U{3000}'
  }

  /** The code points with the property White_Space. */
  lemma SpacesAre(c: char)
    ensures IsSpace(c) <==>
            var n := c as int;
            || 9 <= n <= 13 || n == 32 || n == 133 || n == 160 || n == 5760 || 8192 <= n <= 8202
            || n == 8232 || n == 8233 || n == 8239 || n == 8287 || n == 12288
  {
  }

  /** strings.TrimSpace: the text between its first and last characters that are not spaces. */
  function TrimSpace(s: string): (t: string)
    ensures t == "" || (!IsSpace(t[0]) && !IsSpace(t[|t| - 1]))
    ensures |t| <= |s|
  {
    if s == "" then ""
    else if IsSpace(s[0]) then TrimSpace(s[1..])
    else if IsSpace(s[|s| - 1]) then TrimSpace(s[..|s| - 1])
    else s
  }

  predicate Trimmed(s: string) {
    s == "" || (!IsSpace(s[0]) && !IsSpace(s[|s| - 1]))
  }

  /** Trimming changes exactly the texts that begin or end with a space. */
  lemma TrimmedIff(s: string)
    ensures Trimmed(s) <==> TrimSpace(s) == s
  {
  }

  predicate IsDigit(c: char) {
    '0' <= c <= '9'
  }

  function Zeros(n: nat): (s: string)
    ensures |s| == n && forall i :: 0 <= i < n ==> s[i] == '0'
  {
    seq(n, _ => '0')
  }

  /** ASCII without capital letters. */
  predicate IsLower(s: string) {
    forall i :: 0 <= i < |s| ==> s[i] < '\U{80}' && !('A' <= s[i] <= 'Z')
  }

  /** ASCII without small letters. */
  predicate IsUpper(s: string) {
    forall i :: 0 <= i < |s| ==> s[i] < '\U{80}' && !('a' <= s[i] <= 'z')
  }

  /** Simple case folding, as far as an ASCII letter can meet it: the upper-case letters, the
      Kelvin sign and the long s. */
  function Fold(c: char): char {
    if 'A' <= c <= 'Z' then (c as int + 32) as char
    else if c == '\U{212A}' then 'k'
    else if c == '\U{17F}' then 's'
    else c
  }

  predicate EqualFold(a: string, b: string) {
    |a| == |b| && forall i :: 0 <= i < |a| ==> Fold(a[i]) == Fold(b[i])
  }

  predicate IsHexDigit(c: char) {
    IsDigit(c) || 'a' <= c <= 'f' || 'A' <= c <= 'F'
  }

  predicate IsHex(s: string) {
    |s| % 2 == 0 && forall i :: 0 <= i < |s| ==> IsHexDigit(s[i])
  }

  /** String comparison, character by character. */
  predicate Before(a: string, b: string) {
    if b == "" then false
    else if a == "" then true
    else if a[0] != b[0] then a[0] < b[0]
    else Before(a[1..], b[1..])
  }

  /** Comparison is total: of two different strings exactly one comes first. */
  lemma {:induction false} BeforeTotal(a: string, b: string)
    ensures Before(a, b) || Before(b, a) || a == b
    ensures !(Before(a, b) && Before(b, a)) && !Before(a, a)
  {
    if a != "" && b != "" && a[0] == b[0] {
      BeforeTotal(a[1..], b[1..]);
      assert a == [a[0]] + a[1..] && b == [b[0]] + b[1..];
    }
    if a != "" {
      BeforeTotal(a[1..], a[1..]);
    }
  }

  lemma {:induction false} BeforeTransitive(a: string, b: string, c: string)
    requires Before(a, b) && Before(b, c)
    ensures Before(a, c)
  {
    if a != "" && a[0] == b[0] == c[0] {
      BeforeTransitive(a[1..], b[1..], c[1..]);
    }
  }

  /** Where the two strings first differ, `a` has ended or has the smaller character. */
  ghost predicate DiffersAt(a: string, b: string, k: nat) {
    k <= |a| && k < |b| && a[..k] == b[..k] && (k == |a| || a[k] < b[k])
  }

  ghost predicate Precedes(a: string, b: string) {
    exists k: nat :: DiffersAt(a, b, k)
  }

  lemma FirstCharacter(a: string, b: string)
    requires a == "" || b == "" || a[0] != b[0]
    ensures Precedes(a, b) <==> b != "" && (a == "" || a[0] < b[0])
  {
    if b != "" && (a == "" || a[0] < b[0]) {
      assert DiffersAt(a, b, 0);
    } else {
      forall k: nat ensures !DiffersAt(a, b, k) {
        if 0 < k <= |a| && k <= |b| {
          assert a[..k][0] == a[0] && b[..k][0] == b[0];
        }
      }
    }
  }

  /** Comparison is decided at the first difference. */
  lemma {:induction false} BeforeIff(a: string, b: string)
    ensures Before(a, b) <==> Precedes(a, b)
  {
    if b != "" && a != "" && a[0] == b[0] {
      BeforeIff(a[1..], b[1..]);
      if Precedes(a[1..], b[1..]) {
        var k: nat :| DiffersAt(a[1..], b[1..], k);
        assert a[..k + 1] == [a[0]] + a[1..][..k] && b[..k + 1] == [b[0]] + b[1..][..k];
        assert DiffersAt(a, b, k + 1);
      }
      if Precedes(a, b) {
        var k: nat :| DiffersAt(a, b, k);
        assert a[1..][..k - 1] == a[..k][1..] && b[1..][..k - 1] == b[..k][1..];
        assert DiffersAt(a[1..], b[1..], k - 1);
      }
    } else {
      FirstCharacter(a, b);
    }
  }

  /** `t` is what lies between `from` and `to`, and all else is spaces. */
  ghost predicate Between(s: string, t: string, from: nat, to: nat) {
    && from <= to <= |s| && t == s[from..to]
    && forall i :: 0 <= i < from || to <= i < |s| ==> IsSpace(s[i])
  }

  lemma SpaceBefore(c: char, s: string, t: string, from: nat, to: nat)
    requires IsSpace(c) && Between(s, t, from, to)
    ensures Between([c] + s, t, from + 1, to + 1)
  {
    assert ([c] + s)[from + 1..to + 1] == s[from..to];
  }

  lemma SpaceAfter(c: char, s: string, t: string, from: nat, to: nat)
    requires IsSpace(c) && Between(s, t, from, to)
    ensures Between(s + [c], t, from, to)
  {
    assert (s + [c])[from..to] == s[from..to];
  }

  /** Trimming takes away spaces at both ends, all of them and nothing else. */
  lemma {:induction false} TrimSpaceExact(s: string) returns (from: nat, to: nat)
    ensures Between(s, TrimSpace(s), from, to) && Trimmed(TrimSpace(s))
  {
    if s == "" || (!IsSpace(s[0]) && !IsSpace(s[|s| - 1])) {
      from, to := 0, |s|;
    } else if IsSpace(s[0]) {
      from, to := TrimSpaceExact(s[1..]);
      SpaceBefore(s[0], s[1..], TrimSpace(s[1..]), from, to);
      assert s == [s[0]] + s[1..];
      from, to := from + 1, to + 1;
    } else {
      from, to := TrimSpaceExact(s[..|s| - 1]);
      SpaceAfter(s[|s| - 1], s[..|s| - 1], TrimSpace(s[..|s| - 1]), from, to);
      assert s == s[..|s| - 1] + [s[|s| - 1]];
    }
  }

  /** `small` is the small letter of the capital `c`. */
  ghost predicate CaseOf(c: char, small: char) {
    'A' <= c <= 'Z' && small as int == c as int + 32
  }

  lemma FoldAscii(c: char, d: char)
    requires c < '\U{80}' && d < '\U{80}'
    ensures Fold(c) == Fold(d) <==> c == d || CaseOf(c, d) || CaseOf(d, c)
  {
  }

  /** Two ASCII texts fold alike exactly when they differ at most in the case of letters. */
  lemma FoldsAlikeIff(a: string, b: string)
    requires (forall i :: 0 <= i < |a| ==> a[i] < '\U{80}') && (forall i :: 0 <= i < |b| ==> b[i] < '\U{80}')
    ensures EqualFold(a, b) <==>
            |a| == |b| && forall i :: 0 <= i < |a| ==> a[i] == b[i] || CaseOf(a[i], b[i]) || CaseOf(b[i], a[i])
  {
    if |a| == |b| {
      forall i | 0 <= i < |a|
        ensures Fold(a[i]) == Fold(b[i]) <==> a[i] == b[i] || CaseOf(a[i], b[i]) || CaseOf(b[i], a[i])
      {
        FoldAscii(a[i], b[i]);
      }
    }
  }
}
