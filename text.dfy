/**
 * The handful of Python string operations the bot relies on, restricted to
 * ASCII: str.isspace, str.strip/lstrip/rstrip, str.lower, str.isdigit,
 * int() of a digit string, str() of a natural number, the substring test
 * `sub in s`, str.join and str.rfind.
 */
module Text {

  /** str.isspace() on one ASCII character: space, \t \n \v \f \r and the
      information separators \x1c..\x1f. */
  predicate IsSpace(c: char) {
    c == ' ' || (9 <= c as int <= 13) || (28 <= c as int <= 31)
  }

  predicate AllSpace(s: string) {
    forall i :: 0 <= i < |s| ==> IsSpace(s[i])
  }

  /** str.lstrip(): drops the leading whitespace and nothing else. */
  function LStrip(s: string): (r: string)
    ensures |r| <= |s| && r == s[|s| - |r|..]
    ensures AllSpace(s[..|s| - |r|])
    ensures r == [] || !IsSpace(r[0])
  {
    if s != [] && IsSpace(s[0]) then
      var r := LStrip(s[1..]);
      assert s[..|s| - |r|] == [s[0]] + s[1..][..|s| - 1 - |r|];
      r
    else
      assert s[..0] == [];
      s
  }

  /** str.rstrip(): drops the trailing whitespace and nothing else. */
  function RStrip(s: string): (r: string)
    ensures |r| <= |s| && r == s[..|r|]
    ensures AllSpace(s[|r|..])
    ensures r == [] || !IsSpace(r[|r| - 1])
  {
    if s != [] && IsSpace(s[|s| - 1]) then
      var r := RStrip(s[..|s| - 1]);
      assert s[|r|..] == s[..|s| - 1][|r|..] + [s[|s| - 1]];
      r
    else
      assert s[|s|..] == [];
      s
  }

  /** r is s[i..i + |r|] and only whitespace lies outside that slice. */
  predicate TrimmedSlice(s: string, i: int, r: string) {
    0 <= i && i + |r| <= |s| && r == s[i..i + |r|]
    && AllSpace(s[..i]) && AllSpace(s[i + |r|..])
  }

  /** str.strip(): the slice of s left after dropping whitespace from both
      ends; it has no whitespace at either end and is empty exactly when s
      is all whitespace. */
  function Strip(s: string): (r: string)
    ensures exists i :: TrimmedSlice(s, i, r)
    ensures r == [] <==> AllSpace(s)
    ensures r != [] ==> !IsSpace(r[0]) && !IsSpace(r[|r| - 1])
  {
    var t := LStrip(s);
    var r := RStrip(t);
    StripSlice(s, t, r);
    r
  }

  /** What lstrip followed by rstrip leaves of s. */
  lemma StripSlice(s: string, t: string, r: string)
    requires |t| <= |s| && t == s[|s| - |t|..] && AllSpace(s[..|s| - |t|])
    requires t == [] || !IsSpace(t[0])
    requires |r| <= |t| && r == t[..|r|] && AllSpace(t[|r|..])
    requires r == [] || !IsSpace(r[|r| - 1])
    ensures TrimmedSlice(s, |s| - |t|, r)
    ensures r == [] <==> AllSpace(s)
    ensures r != [] ==> !IsSpace(r[0]) && !IsSpace(r[|r| - 1])
  {
    var i := |s| - |t|;
    assert s[i + |r|..] == t[|r|..];
    if r == [] {
      assert s == s[..i] + t;
    } else {
      assert r[0] == t[0];
    }
  }

  lemma SpaceBefore(s: string, i: nat, k: nat)
    requires i <= |s| && k < |s| && AllSpace(s[..i]) && !IsSpace(s[k])
    ensures i <= k
  {
    if k < i {
      assert false;
    }
  }

  lemma SpaceAfter(s: string, j: nat, k: nat)
    requires j <= |s| && k < |s| && AllSpace(s[j..]) && !IsSpace(s[k])
    ensures k < j
  {
    if j <= k {
      assert false;
    }
  }

  /** Any slice of s with only whitespace outside it holds all of strip(s). */
  lemma StripWithin(s: string, i: nat, j: nat)
    requires i <= j <= |s| && AllSpace(s[..i]) && AllSpace(s[j..])
    ensures |Strip(s)| <= j - i
  {
    var r := Strip(s);
    if r != [] {
      var k :| TrimmedSlice(s, k, r);
      SliceEnds(s, k, r);
      SpaceBefore(s, i, k);
      SpaceAfter(s, j, k + |r| - 1);
    }
  }

  lemma SliceEnds(s: string, k: int, r: string)
    requires TrimmedSlice(s, k, r) && r != []
    ensures 0 <= k && k + |r| <= |s| && s[k] == r[0] && s[k + |r| - 1] == r[|r| - 1]
  {
  }

  /** A string with no whitespace at either end is its own strip. */
  lemma StripKeeps(s: string)
    requires s == [] || (!IsSpace(s[0]) && !IsSpace(s[|s| - 1]))
    ensures Strip(s) == s
  {
    assert LStrip(s) == s;
    assert RStrip(s) == s;
  }

  /** No decimal digit is whitespace, so str(n) is its own strip. */
  lemma DecimalStripped(n: nat)
    ensures Strip(DecimalString(n)) == DecimalString(n)
  {
    var s := DecimalString(n);
    assert IsDigit(s[0]) && IsDigit(s[|s| - 1]);
    StripKeeps(s);
  }

  /** str.lower() on ASCII: A..Z become a..z, every other character stays. */
  function LowerChar(c: char): char {
    if 'A' <= c <= 'Z' then (c as int + 32) as char else c
  }

  function Lower(s: string): (r: string)
    ensures |r| == |s| && forall i :: 0 <= i < |s| ==> r[i] == LowerChar(s[i])
  {
    seq(|s|, i requires 0 <= i < |s| => LowerChar(s[i]))
  }

  /** y, e, s, each letter in either case. */
  predicate SpellsYes(t: string) {
    |t| == 3 && (t[0] == 'y' || t[0] == 'Y') && (t[1] == 'e' || t[1] == 'E')
    && (t[2] == 's' || t[2] == 'S')
  }

  /** n, o, each letter in either case. */
  predicate SpellsNo(t: string) {
    |t| == 2 && (t[0] == 'n' || t[0] == 'N') && (t[1] == 'o' || t[1] == 'O')
  }

  /** t.lower() == "yes" exactly for the eight spellings yes, Yes, yEs, ..., YES. */
  lemma LowerIsYes(t: string)
    ensures Lower(t) == "yes" <==> SpellsYes(t)
  {
    if SpellsYes(t) {
      assert Lower(t) == [Lower(t)[0], Lower(t)[1], Lower(t)[2]];
    }
    if Lower(t) == "yes" {
      assert Lower(t)[0] == 'y' && Lower(t)[1] == 'e' && Lower(t)[2] == 's';
    }
  }

  /** t.lower() == "no" exactly for no, No, nO and NO. */
  lemma LowerIsNo(t: string)
    ensures Lower(t) == "no" <==> SpellsNo(t)
  {
    if SpellsNo(t) {
      assert Lower(t) == [Lower(t)[0], Lower(t)[1]];
    }
    if Lower(t) == "no" {
      assert Lower(t)[0] == 'n' && Lower(t)[1] == 'o';
    }
  }

  predicate OccursAt(s: string, sub: string, i: nat) {
    i + |sub| <= |s| && s[i..i + |sub|] == sub
  }

  /** Python's `sub in s` for strings. */
  predicate Contains(s: string, sub: string) {
    exists i: nat | i <= |s| :: OccursAt(s, sub, i)
  }

  predicate IsDigit(c: char) {
    '0' <= c <= '9'
  }

  predicate AllDigits(s: string) {
    forall i :: 0 <= i < |s| ==> IsDigit(s[i])
  }

  /** str.isdigit() on ASCII: non-empty and made of decimal digits only. */
  predicate IsDigits(s: string) {
    |s| > 0 && AllDigits(s)
  }

  function DigitValue(c: char): nat
    requires IsDigit(c)
  {
    c as int - '0' as int
  }

  /** int(s) for a string of decimal digits (leading zeros allowed). */
  function DigitsValue(s: string): nat
    requires AllDigits(s)
  {
    if s == [] then 0 else DigitsValue(s[..|s| - 1]) * 10 + DigitValue(s[|s| - 1])
  }

  /** str(n) for a natural number. */
  function DecimalString(n: nat): (s: string)
    ensures IsDigits(s)
  {
    var last := [('0' as int + n % 10) as char];
    if n < 10 then last else DecimalString(n / 10) + last
  }

  /** int(str(n)) == n. */
  lemma {:induction false} DecimalRoundTrip(n: nat)
    ensures DigitsValue(DecimalString(n)) == n
  {
    var s := DecimalString(n);
    if n >= 10 {
      DecimalRoundTrip(n / 10);
      assert s[..|s| - 1] == DecimalString(n / 10);
    } else {
      assert s[..|s| - 1] == [];
    }
  }

  /** A digit string denotes a positive number exactly when one of its
      digits is not '0'. */
  lemma {:induction false} DigitsPositiveIff(s: string)
    requires AllDigits(s)
    ensures DigitsValue(s) > 0 <==> exists i :: 0 <= i < |s| && s[i] != '0'
  {
    if s != [] {
      var init := s[..|s| - 1];
      DigitsPositiveIff(init);
      if DigitsValue(s) > 0 && s[|s| - 1] == '0' {
        var i :| 0 <= i < |init| && init[i] != '0';
        assert s[i] != '0';
      }
      if exists i :: 0 <= i < |s| && s[i] != '0' {
        var i :| 0 <= i < |s| && s[i] != '0';
        if i < |s| - 1 {
          assert init[i] != '0';
        }
      }
    }
  }

  /** A string occurs in any string it begins. */
  lemma StartsWith(sub: string, rest: string)
    ensures Contains(sub + rest, sub)
  {
    assert OccursAt(sub + rest, sub, 0);
  }

  /** An occurrence survives putting text in front. */
  lemma Within(a: string, s: string, sub: string)
    requires Contains(s, sub)
    ensures Contains(a + s, sub)
  {
    var i: nat :| i <= |s| && OccursAt(s, sub, i);
    assert (a + s)[|a| + i..|a| + i + |sub|] == s[i..i + |sub|];
    assert OccursAt(a + s, sub, |a| + i);
  }

  /** ", ".join(parts) with an arbitrary separator: every part occurs in
      the result, which is empty only when nothing non-empty is joined. */
  function Join(sep: string, parts: seq<string>): (r: string)
    ensures forall i :: 0 <= i < |parts| ==> Contains(r, parts[i])
    ensures |parts| == 0 ==> r == ""
  {
    if |parts| == 0 then ""
    else if |parts| == 1 then
      assert parts[0] == parts[0] + "";
      StartsWith(parts[0], "");
      parts[0]
    else
      var rest := Join(sep, parts[1..]);
      StartsWith(parts[0], sep + rest);
      forall i | 1 <= i < |parts|
        ensures Contains(parts[0] + (sep + rest), parts[i])
      {
        assert parts[1..][i - 1] == parts[i];
        Within(sep, rest, parts[i]);
        Within(parts[0], sep + rest, parts[i]);
      }
      assert parts[0] + sep + rest == parts[0] + (sep + rest);
      parts[0] + sep + rest
  }

  /** Joining two non-empty runs of parts is joining each run and putting
      one separator between them; with a single part this says the parts
      are laid out in order with exactly one separator between neighbours. */
  lemma {:induction false} JoinAppend(sep: string, a: seq<string>, b: seq<string>)
    requires a != [] && b != []
    ensures Join(sep, a + b) == Join(sep, a) + sep + Join(sep, b)
    decreases |a|
  {
    assert (a + b)[1..] == a[1..] + b;
    if |a| > 1 {
      JoinAppend(sep, a[1..], b);
    }
  }

  /** s.rfind(c, 0, end) for a single character c: the last index below
      `end` holding c, or -1 when there is none. */
  function RFind(s: string, c: char, end: nat): (r: int)
    requires end <= |s|
    ensures -1 <= r < end
    ensures r >= 0 ==> s[r] == c
    ensures forall k :: r < k < end ==> s[k] != c
  {
    if end == 0 then -1
    else if s[end - 1] == c then end - 1
    else RFind(s, c, end - 1)
  }
}
