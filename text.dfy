/** The handful of JavaScript string operations the application relies on:
    `Number.prototype.toString()` for non-negative integers, `padStart`,
    `split` on a one-character separator and `trim`. */
module Text {
  import opened Wrappers

  /** JavaScript truthiness of a string that may be `null` or `undefined`:
      present and non-empty. */
  predicate Truthy(s: Option<string>) { s.Some? && s.value != "" }

  /** `s || fallback` for a string that may be absent. */
  function OrElse(s: Option<string>, fallback: string): (r: string)
    ensures Truthy(s) ==> r == s.value
    ensures !Truthy(s) ==> r == fallback
  {
    if Truthy(s) then s.value else fallback
  }

  predicate IsDigit(c: char) { '0' <= c <= '9' }

  predicate AllDigits(s: string) { forall i :: 0 <= i < |s| ==> IsDigit(s[i]) }

  function DigitChar(d: nat): (c: char)
    requires d < 10
    ensures IsDigit(c) && c as int - '0' as int == d
  {
    (48 + d) as char
  }

  function DigitValue(c: char): nat
    requires IsDigit(c)
  {
    c as int - '0' as int
  }

  /** Decimal rendering of a non-negative integer: digits only, never empty,
      and no leading zero except for zero itself. */
  function NatToString(n: nat): (r: string)
    ensures |r| >= 1 && AllDigits(r)
    ensures r[0] == '0' <==> n == 0
  {
    if n < 10 then [DigitChar(n)] else NatToString(n / 10) + [DigitChar(n % 10)]
  }

  /** Reads a string of decimal digits back as a number (the partner of NatToString). */
  function ParseDecimal(s: string): nat
    requires AllDigits(s)
  {
    if s == [] then 0 else ParseDecimal(s[..|s| - 1]) * 10 + DigitValue(s[|s| - 1])
  }

  lemma {:induction false} ParseNatToString(n: nat)
    ensures ParseDecimal(NatToString(n)) == n
  {
    if n >= 10 {
      var s := NatToString(n);
      assert s[..|s| - 1] == NatToString(n / 10);
      ParseNatToString(n / 10);
    }
  }

  /** Leading zeros do not change the value of a digit string. */
  lemma {:induction false} ParseLeadingZeros(z: string, s: string)
    requires forall i :: 0 <= i < |z| ==> z[i] == '0'
    requires AllDigits(s)
    ensures AllDigits(z + s) && ParseDecimal(z + s) == ParseDecimal(s)
  {
    if s == [] {
      assert z + s == z;
      if z != [] {
        ParseLeadingZeros(z[..|z| - 1], []);
        assert z[..|z| - 1] + [] == z[..|z| - 1];
      }
    } else {
      ParseLeadingZeros(z, s[..|s| - 1]);
      assert (z + s)[..|z + s| - 1] == z + s[..|s| - 1];
    }
  }

  function Repeat(c: char, n: nat): (r: string)
    ensures |r| == n && forall i :: 0 <= i < n ==> r[i] == c
  {
    seq(n, _ => c)
  }

  /** `s.padStart(width, pad)` for a one-character pad. */
  function PadStart(s: string, width: nat, pad: char): (r: string)
    ensures |r| == if |s| >= width then |s| else width
    ensures r[|r| - |s|..] == s
    ensures forall i :: 0 <= i < |r| - |s| ==> r[i] == pad
  {
    if |s| >= width then s else Repeat(pad, width - |s|) + s
  }

  /** `s.split(sep)` for a one-character separator: the pieces between
      separators, at least one piece, none containing the separator. */
  function Split(s: string, sep: char): (r: seq<string>)
    ensures |r| >= 1
    ensures forall k :: 0 <= k < |r| ==> sep !in r[k]
    ensures |r| > 1 <==> sep in s
    ensures |r[0]| <= |s| && s[..|r[0]|] == r[0]
    ensures |r[0]| < |s| ==> s[|r[0]|] == sep
  {
    if s == [] then [[]]
    else
      var rest := Split(s[1..], sep);
      assert s == [s[0]] + s[1..];
      if s[0] == sep then [[]] + rest
      else
        assert s[..1 + |rest[0]|] == [s[0]] + s[1..][..|rest[0]|];
        [[s[0]] + rest[0]] + rest[1..]
  }

  /** `parts.join(sep)`, the inverse of Split. */
  function Join(parts: seq<string>, sep: char): string
  {
    if |parts| == 0 then []
    else if |parts| == 1 then parts[0]
    else parts[0] + [sep] + Join(parts[1..], sep)
  }

  lemma {:induction false} JoinSplit(s: string, sep: char)
    ensures Join(Split(s, sep), sep) == s
  {
    if s != [] {
      var rest := Split(s[1..], sep);
      JoinSplit(s[1..], sep);
      assert s == [s[0]] + s[1..];
      if s[0] == sep {
        assert Split(s, sep) == [[]] + rest;
        assert (([[]] + rest)[1..]) == rest;
      } else {
        var r := Split(s, sep);
        assert r == [[s[0]] + rest[0]] + rest[1..];
        if |rest| > 1 {
          assert r[1..] == rest[1..];
        }
      }
    }
  }

  /** The first piece of a split runs up to the first separator. */
  lemma FirstPiece(s: string, k: nat, sep: char)
    requires k <= |s| && sep !in s[..k] && (k == |s| || s[k] == sep)
    ensures Split(s, sep)[0] == s[..k]
  {
  }

  /** The second piece of `head + sep + tail`, for a separator-free `head`,
      is the first piece of `tail`. */
  lemma {:induction false} SecondPiece(head: string, tail: string, sep: char)
    requires sep !in head
    ensures |Split(head + [sep] + tail, sep)| >= 2
    ensures Split(head + [sep] + tail, sep)[1] == Split(tail, sep)[0]
  {
    var s := head + [sep] + tail;
    if head == [] {
      assert s == [sep] + tail && s[1..] == tail;
    } else {
      SecondPiece(head[1..], tail, sep);
      assert s[1..] == head[1..] + [sep] + tail;
    }
  }

  /** `s.split(sep)[k]`: the k-th piece, or `undefined` (None) past the last one. */
  function Segment(s: string, sep: char, k: nat): (r: Option<string>)
    ensures r.Some? ==> sep !in r.value
    ensures k == 0 ==> r.Some? && |r.value| <= |s| && s[..|r.value|] == r.value
    ensures k == 1 ==> (r.Some? <==> sep in s)
  {
    var parts := Split(s, sep);
    if k < |parts| then Some(parts[k]) else None
  }

  /** The characters `String.prototype.trim` removes: ECMAScript's WhiteSpace
      and LineTerminator code points. */
  predicate IsWhiteSpace(c: char) {
    var n := c as int;
    || 0x09 <= n <= 0x0D   // tab, line feed, vertical tab, form feed, carriage return
    || n == 0x20 || n == 0xA0 || n == 0x1680
    || 0x2000 <= n <= 0x200A
    || n == 0x2028 || n == 0x2029 || n == 0x202F || n == 0x205F || n == 0x3000
    || n == 0xFEFF
  }

  function TrimStart(s: string): (r: string)
    ensures |r| <= |s| && r == s[|s| - |r|..]
    ensures forall i :: 0 <= i < |s| - |r| ==> IsWhiteSpace(s[i])
    ensures r == [] || !IsWhiteSpace(r[0])
  {
    if s != [] && IsWhiteSpace(s[0]) then TrimStart(s[1..]) else s
  }

  function TrimEnd(s: string): (r: string)
    ensures |r| <= |s| && r == s[..|r|]
    ensures forall i :: |r| <= i < |s| ==> IsWhiteSpace(s[i])
    ensures r == [] || !IsWhiteSpace(r[|r| - 1])
  {
    if s != [] && IsWhiteSpace(s[|s| - 1]) then TrimEnd(s[..|s| - 1]) else s
  }

  /** `r` is `s` with `lead` white-space characters cut from the front, only
      white space cut from the back, and no white space left at either end. */
  ghost predicate StrippedBy(s: string, r: string, lead: nat) {
    && lead + |r| <= |s|
    && r == s[lead..lead + |r|]
    && (forall i :: 0 <= i < lead ==> IsWhiteSpace(s[i]))
    && (forall i :: lead + |r| <= i < |s| ==> IsWhiteSpace(s[i]))
    && (r == [] || (!IsWhiteSpace(r[0]) && !IsWhiteSpace(r[|r| - 1])))
  }

  /** Cutting white space from the front and then from the back strips both ends. */
  lemma StripBothEnds(s: string, t: string, r: string)
    requires |t| <= |s| && t == s[|s| - |t|..]
    requires forall i :: 0 <= i < |s| - |t| ==> IsWhiteSpace(s[i])
    requires t == [] || !IsWhiteSpace(t[0])
    requires |r| <= |t| && r == t[..|r|]
    requires forall i :: |r| <= i < |t| ==> IsWhiteSpace(t[i])
    requires r == [] || !IsWhiteSpace(r[|r| - 1])
    ensures StrippedBy(s, r, |s| - |t|)
  {
    var lead := |s| - |t|;
    forall i | lead + |r| <= i < |s| ensures IsWhiteSpace(s[i]) {
      assert s[i] == t[i - lead];
    }
    assert r == [] || r[0] == t[0];
  }

  /** `s.trim()`. */
  function Trim(s: string): (r: string)
    ensures StrippedBy(s, r, |s| - |TrimStart(s)|)
  {
    var t := TrimStart(s);
    var r := TrimEnd(t);
    StripBothEnds(s, t, r);
    r
  }
}
