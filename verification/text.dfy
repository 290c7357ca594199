/** String helpers with the semantics the source relies on: ASCII case folding,
  * JavaScript's String.prototype.trim, substring search, joining and decimal digits. */
module Text {

  /** ASCII case folding of one character; every other character is left as it is. */
  function LowerChar(c: char): (r: char)
    ensures 'A' <= c <= 'Z' ==> r as int == c as int + 32
    ensures !('A' <= c <= 'Z') ==> r == c
    ensures !('A' <= r <= 'Z')
  {
    if 'A' <= c <= 'Z' then (c as int + 32) as char else c
  }

  function ToLower(s: string): (r: string)
    ensures |r| == |s|
    ensures forall i | 0 <= i < |s| :: r[i] == LowerChar(s[i])
  {
    seq(|s|, i requires 0 <= i < |s| => LowerChar(s[i]))
  }

  /** `needle` occurs in `hay` starting at position `i`. */
  predicate OccursAt(hay: string, needle: string, i: nat)
  {
    i + |needle| <= |hay| && hay[i..i + |needle|] == needle
  }

  /** JavaScript's `hay.includes(needle)`. */
  predicate Contains(hay: string, needle: string)
  {
    exists i: nat | i <= |hay| :: OccursAt(hay, needle, i)
  }

  lemma ContainsEmpty(hay: string)
    ensures Contains(hay, "")
  {
    assert OccursAt(hay, "", 0);
  }

  /** The characters JavaScript's trim removes: WhiteSpace and LineTerminator of ECMA-262. */
  predicate IsSpace(c: char)
  {
    c == ' ' || c == '\t' || c == '\n' || c == '\r' || c == '\U{B}' || c == '\U{C}'
    || c == '\U{A0}' || c == '\U{1680}' || ('\U{2000}' <= c <= '\U{200A}')
    || c == '\U{2028}' || c == '\U{2029}' || c == '\U{202F}' || c == '\U{205F}'
    || c == '\U{3000}' || c == '\U{FEFF}'
  }

  predicate AllSpace(s: string)
  {
    forall i | 0 <= i < |s| :: IsSpace(s[i])
  }

  /** The number of white-space characters `s` starts with. */
  function LeadingSpaces(s: string): (n: nat)
    ensures n <= |s|
  {
    if s != [] && IsSpace(s[0]) then 1 + LeadingSpaces(s[1..]) else 0
  }

  /** The number of white-space characters `s` ends with. */
  function TrailingSpaces(s: string): (n: nat)
    ensures n <= |s|
  {
    if s != [] && IsSpace(s[|s| - 1]) then 1 + TrailingSpaces(s[..|s| - 1]) else 0
  }

  /** `LeadingSpaces` counts white space only, and stops at the first other character. */
  lemma {:induction false} LeadingSpacesCount(s: string)
    ensures AllSpace(s[..LeadingSpaces(s)])
    ensures LeadingSpaces(s) < |s| ==> !IsSpace(s[LeadingSpaces(s)])
  {
    if s != [] && IsSpace(s[0]) {
      var n := LeadingSpaces(s);
      LeadingSpacesCount(s[1..]);
      assert s[..n] == [s[0]] + s[1..][..n - 1];
      if n < |s| {
        assert s[n] == s[1..][n - 1];
      }
    }
  }

  /** `TrailingSpaces` counts white space only, and stops at the last other character. */
  lemma {:induction false} TrailingSpacesCount(s: string)
    ensures AllSpace(s[|s| - TrailingSpaces(s)..])
    ensures TrailingSpaces(s) < |s| ==> !IsSpace(s[|s| - TrailingSpaces(s) - 1])
  {
    if s != [] && IsSpace(s[|s| - 1]) {
      var init, n := s[..|s| - 1], TrailingSpaces(s);
      TrailingSpacesCount(init);
      assert s[|s| - n..] == init[|init| - (n - 1)..] + [s[|s| - 1]];
      if n < |s| {
        assert s[|s| - n - 1] == init[|init| - (n - 1) - 1];
      }
    }
  }

  /** Where the text `Trim` keeps ends: the first non-white-space character comes before the
    * white space at the end. */
  lemma TrimBounds(s: string)
    requires LeadingSpaces(s) < |s|
    ensures LeadingSpaces(s) < |s| - TrailingSpaces(s)
  {
    LeadingSpacesCount(s);
    TrailingSpacesCount(s);
  }

  /** JavaScript's `s.trim()`: `s` without the white space at its two ends. */
  function Trim(s: string): (r: string)
    ensures r != [] ==> !IsSpace(r[0]) && !IsSpace(r[|r| - 1])
    ensures r == [] <==> AllSpace(s)
  {
    LeadingSpacesCount(s);
    TrailingSpacesCount(s);
    if LeadingSpaces(s) == |s| then
      assert s[..|s|] == s;
      []
    else
      TrimBounds(s);
      s[LeadingSpaces(s)..|s| - TrailingSpaces(s)]
  }

  /** What Trim removes is white space at the two ends, and nothing from the middle. */
  lemma TrimIsMiddleSlice(s: string)
    ensures exists i, j | 0 <= i <= j <= |s| :: Trim(s) == s[i..j] && AllSpace(s[..i]) && AllSpace(s[j..])
  {
    LeadingSpacesCount(s);
    TrailingSpacesCount(s);
    var i := LeadingSpaces(s);
    if i == |s| {
      assert Trim(s) == s[i..i] && AllSpace(s[..i]) && AllSpace(s[i..]);
    } else {
      TrimBounds(s);
      var j := |s| - TrailingSpaces(s);
      assert Trim(s) == s[i..j] && AllSpace(s[..i]) && AllSpace(s[j..]);
    }
  }

  /** JavaScript's `parts.join(sep)`. */
  function Join(sep: string, parts: seq<string>): (r: string)
    ensures parts == [] ==> r == ""
    ensures |parts| == 1 ==> r == parts[0]
  {
    if parts == [] then ""
    else if |parts| == 1 then parts[0]
    else parts[0] + sep + Join(sep, parts[1..])
  }

  lemma {:induction false} JoinAppend(sep: string, parts: seq<string>, last: string)
    requires parts != []
    ensures Join(sep, parts + [last]) == Join(sep, parts) + sep + last
  {
    if |parts| == 1 {
      assert parts + [last] == [parts[0], last];
    } else {
      assert (parts + [last])[1..] == parts[1..] + [last];
      JoinAppend(sep, parts[1..], last);
    }
  }

  /** The joined text starts with the first part. */
  lemma JoinStartsWithFirst(sep: string, parts: seq<string>)
    requires parts != []
    ensures |Join(sep, parts)| >= |parts[0]| && Join(sep, parts)[..|parts[0]|] == parts[0]
  {
    if |parts| > 1 {
      assert Join(sep, parts) == parts[0] + (sep + Join(sep, parts[1..]));
    }
  }

  /** An occurrence stays one when text is put in front. */
  lemma OccursAfter(prefix: string, hay: string, needle: string, i: nat)
    requires OccursAt(hay, needle, i)
    ensures OccursAt(prefix + hay, needle, |prefix| + i)
  {
    assert (prefix + hay)[|prefix| + i..|prefix| + i + |needle|] == hay[i..i + |needle|];
  }

  /** Every part occurs in the joined text. */
  lemma {:induction false} JoinContainsPart(sep: string, parts: seq<string>, k: nat)
    requires k < |parts|
    ensures Contains(Join(sep, parts), parts[k])
  {
    var joined := Join(sep, parts);
    if |parts| == 1 {
      assert OccursAt(joined, parts[k], 0);
    } else if k == 0 {
      assert joined == parts[0] + (sep + Join(sep, parts[1..]));
      assert OccursAt(joined, parts[0], 0);
    } else {
      JoinContainsPart(sep, parts[1..], k - 1);
      var i: nat :| i <= |Join(sep, parts[1..])| && OccursAt(Join(sep, parts[1..]), parts[k], i);
      OccursAfter(parts[0] + sep, Join(sep, parts[1..]), parts[k], i);
      assert joined == (parts[0] + sep) + Join(sep, parts[1..]);
    }
  }

  predicate IsDigit(c: char) { '0' <= c <= '9' }

  predicate AllDigits(s: string) { forall i | 0 <= i < |s| :: IsDigit(s[i]) }

  function DigitChar(d: nat): (c: char)
    requires d < 10
    ensures IsDigit(c)
  {
    ('0' as int + d) as char
  }

  function DigitValue(c: char): (d: nat)
    requires IsDigit(c)
    ensures d < 10 && DigitChar(d) == c
  {
    c as int - '0' as int
  }

  /** JavaScript's `n.toString()` for a non-negative integer: decimal, no leading zeros. */
  function NatToString(n: nat): (r: string)
    ensures |r| >= 1 && AllDigits(r)
    ensures |r| == 1 <==> n < 10
  {
    if n < 10 then [DigitChar(n)] else NatToString(n / 10) + [DigitChar(n % 10)]
  }

  /** The value of a string of decimal digits. */
  function ParseNat(s: string): nat
    requires AllDigits(s)
  {
    if s == [] then 0 else ParseNat(s[..|s| - 1]) * 10 + DigitValue(s[|s| - 1])
  }

  lemma {:induction false} ParseNatToString(n: nat)
    ensures ParseNat(NatToString(n)) == n
  {
    if n >= 10 {
      var s := NatToString(n);
      assert s[..|s| - 1] == NatToString(n / 10);
      ParseNatToString(n / 10);
    }
  }

  /** JavaScript's `s.padStart(2, '0')`. */
  function PadStart2(s: string): (r: string)
    ensures |s| >= 2 ==> r == s
    ensures |s| < 2 ==> |r| == 2 && r[2 - |s|..] == s && r[..2 - |s|] == seq(2 - |s|, _ => '0')
  {
    if |s| >= 2 then s else if |s| == 1 then ['0'] + s else "00"
  }
}
