/** The few Python string operations the core uses, on `string` (a sequence of
    characters). Case mapping and whitespace are the ASCII subset of Python's
    Unicode tables. */
module Text {
  import opened Wrappers

  /** `c.lower()` for one character (ASCII letters only). */
  function LowerChar(c: char): char {
    if 'A' <= c <= 'Z' then (c as int + 32) as char else c
  }

  /** `c.upper()` for one character (ASCII letters only). */
  function UpperChar(c: char): char {
    if 'a' <= c <= 'z' then (c as int - 32) as char else c
  }

  /** `s.lower()`. */
  function Lower(s: string): (r: string)
    ensures |r| == |s|
    ensures forall i :: 0 <= i < |s| ==> r[i] == LowerChar(s[i])
  {
    seq(|s|, i requires 0 <= i < |s| => LowerChar(s[i]))
  }

  /** `s.replace(a, b)` for single characters. */
  function ReplaceChar(s: string, a: char, b: char): (r: string)
    ensures |r| == |s|
    ensures forall i :: 0 <= i < |s| ==> r[i] == (if s[i] == a then b else s[i])
  {
    seq(|s|, i requires 0 <= i < |s| => if s[i] == a then b else s[i])
  }

  /** `s.capitalize()`: first character upper-cased, the rest lower-cased. */
  function Capitalize(s: string): string {
    if s == [] then [] else [UpperChar(s[0])] + Lower(s[1..])
  }

  /** `s[:n]`. */
  function Take<T>(s: seq<T>, n: nat): (r: seq<T>)
    ensures |r| == if n <= |s| then n else |s|
    ensures r <= s
  {
    if n <= |s| then s[..n] else s
  }

  /** `needle in s` for strings: `needle` occurs as a contiguous piece of `s`. */
  predicate Contains(s: string, needle: string) {
    exists i | 0 <= i <= |s| - |needle| :: OccursAt(s, needle, i)
  }

  /** `needle` occurs in `s` starting at index `i`. */
  predicate OccursAt(s: string, needle: string, i: int) {
    0 <= i && i + |needle| <= |s| && s[i..i + |needle|] == needle
  }

  lemma ContainsAt(s: string, needle: string, i: int)
    requires 0 <= i && i + |needle| <= |s| && s[i..i + |needle|] == needle
    ensures Contains(s, needle)
  {
    assert OccursAt(s, needle, i);
  }

  /** An occurrence inside a piece of `s` is an occurrence in `s`. */
  lemma ContainsTransitive(s: string, mid: string, needle: string)
    requires Contains(s, mid) && Contains(mid, needle)
    ensures Contains(s, needle)
  {
    var i :| 0 <= i <= |s| - |mid| && OccursAt(s, mid, i);
    var j :| 0 <= j <= |mid| - |needle| && OccursAt(mid, needle, j);
    forall k | 0 <= k < |needle|
      ensures s[i + j + k] == needle[k]
    {
      assert s[i..i + |mid|][j + k] == mid[j + k];
      assert mid[j..j + |needle|][k] == needle[k];
    }
    assert s[i + j..i + j + |needle|] == needle;
    ContainsAt(s, needle, i + j);
  }

  /** Every prefix and every suffix of `s` is a piece of `s`. */
  lemma PrefixContained(s: string, n: nat)
    requires n <= |s|
    ensures Contains(s, s[..n])
  {
    assert OccursAt(s, s[..n], 0);
  }

  lemma SelfContained(s: string)
    ensures Contains(s, s)
  {
    assert OccursAt(s, s, 0);
  }

  /** The first index at or after `from` where `needle` occurs. */
  function IndexFrom(s: string, needle: string, from: nat): (r: Option<nat>)
    decreases |s| - from
    ensures r.Some? ==> from <= r.value && OccursAt(s, needle, r.value)
    ensures r.Some? ==> forall j :: from <= j < r.value ==> !OccursAt(s, needle, j)
    ensures r.None? ==> forall j :: from <= j <= |s| - |needle| ==> !OccursAt(s, needle, j)
  {
    if from + |needle| > |s| then None
    else if s[from..from + |needle|] == needle then Some(from)
    else IndexFrom(s, needle, from + 1)
  }

  /** `s.find(needle)`, with `None` for Python's -1. */
  function IndexOf(s: string, needle: string): (r: Option<nat>)
    ensures r.Some? ==> OccursAt(s, needle, r.value)
    ensures r.Some? ==> forall j :: 0 <= j < r.value ==> !OccursAt(s, needle, j)
    ensures r.None? <==> !Contains(s, needle)
  {
    IndexFrom(s, needle, 0)
  }

  /** `s.split(sep)[0]`: the part of `s` before the first `sep`, or `s` when there is none. */
  function SplitFirst(s: string, sep: string): (r: string)
    requires sep != []
    ensures r <= s
    ensures !Contains(r, sep)
    ensures !Contains(s, sep) ==> r == s
    ensures Contains(s, sep) ==> OccursAt(s, sep, |r|) && forall j | 0 <= j < |r| :: !OccursAt(s, sep, j)
  {
    match IndexOf(s, sep)
    case None => s
    case Some(i) =>
      assert forall j :: 0 <= j <= i - |sep| ==> OccursAt(s[..i], sep, j) == OccursAt(s, sep, j);
      s[..i]
  }

  /** A prefix of a string that does not contain `needle` does not contain it either. */
  lemma NotContainsPrefix(s: string, n: nat, needle: string)
    requires n <= |s| && !Contains(s, needle)
    ensures !Contains(s[..n], needle)
  {
    if Contains(s[..n], needle) {
      PrefixContained(s, n);
      ContainsTransitive(s, s[..n], needle);
    }
  }

  /** Whitespace as Python's `str.strip()` sees it, restricted to ASCII. */
  predicate IsSpace(c: char) {
    var k := c as int;
    k == 32 || 9 <= k <= 13 || 28 <= k <= 31
  }

  function StripLeft(s: string): (r: string)
    ensures r == [] || !IsSpace(r[0])
    ensures |r| <= |s| && r == s[|s| - |r|..]
    ensures forall k | 0 <= k < |s| - |r| :: IsSpace(s[k])
  {
    if s != [] && IsSpace(s[0]) then StripLeft(s[1..]) else s
  }

  function StripRight(s: string): (r: string)
    ensures r == [] || !IsSpace(r[|r| - 1])
    ensures r <= s
    ensures forall k | |r| <= k < |s| :: IsSpace(s[k])
  {
    if s != [] && IsSpace(s[|s| - 1]) then StripRight(s[..|s| - 1]) else s
  }

  /** `r` stands at position `i` of `s` with nothing but whitespace around it. */
  predicate SpaceAround(s: string, r: string, i: int) {
    0 <= i <= |s| - |r| && s[i..i + |r|] == r
    && (forall k | 0 <= k < i :: IsSpace(s[k]))
    && (forall k | i + |r| <= k < |s| :: IsSpace(s[k]))
  }

  /** `s.strip()`: `s` with its leading and trailing whitespace removed and
      nothing else, so the result neither starts nor ends with whitespace. */
  function Strip(s: string): (r: string)
    ensures |r| <= |s| && Contains(s, r)
    ensures r == [] || (!IsSpace(r[0]) && !IsSpace(r[|r| - 1]))
    ensures exists i :: SpaceAround(s, r, i)
  {
    var l := StripLeft(s);
    var r := StripRight(l);
    PieceContained(s, |s| - |l|, r);
    StripAround(s, l, r);
    r
  }

  /** A prefix `r` of a suffix `l` of `s`, with only whitespace before `l`
      and after `r` in `l`, has only whitespace around it in `s`. */
  lemma StripAround(s: string, l: string, r: string)
    requires |l| <= |s| && l == s[|s| - |l|..] && r <= l
    requires forall k | 0 <= k < |s| - |l| :: IsSpace(s[k])
    requires forall k | |r| <= k < |l| :: IsSpace(l[k])
    ensures SpaceAround(s, r, |s| - |l|)
  {
    var i := |s| - |l|;
    assert s[i..i + |r|] == r by {
      forall k | 0 <= k < |r| ensures s[i + k] == r[k] { assert s[i + k] == l[k]; }
    }
    forall k | i + |r| <= k < |s|
      ensures IsSpace(s[k])
    {
      assert s[k] == l[k - i];
    }
  }

  /** A prefix of a suffix of `s` is a piece of `s`. */
  lemma PieceContained(s: string, k: nat, r: string)
    requires k <= |s| && r <= s[k..]
    ensures Contains(s, r)
  {
    assert s[k..k + |r|] == r;
    ContainsAt(s, r, k);
  }

  /** `sep.join(items)`. */
  function Join(sep: string, items: seq<string>): string {
    if |items| == 0 then ""
    else if |items| == 1 then items[0]
    else items[0] + sep + Join(sep, items[1..])
  }

  /** A join starts with its first item. */
  lemma JoinStartsWithFirst(sep: string, items: seq<string>)
    requires items != []
    ensures items[0] <= Join(sep, items)
  {
  }

  /** Joining one more item appends the separator and the item. */
  lemma {:induction false} JoinSnoc(sep: string, items: seq<string>, x: string)
    requires items != []
    ensures Join(sep, items + [x]) == Join(sep, items) + sep + x
    decreases |items|
  {
    if |items| > 1 {
      assert (items + [x])[1..] == items[1..] + [x];
      JoinSnoc(sep, items[1..], x);
    }
  }

  /** Joining two or three items, spelled out. */
  lemma JoinUpToThree(sep: string, items: seq<string>)
    ensures |items| == 1 ==> Join(sep, items) == items[0]
    ensures |items| == 2 ==> Join(sep, items) == items[0] + sep + items[1]
    ensures |items| == 3 ==> Join(sep, items) == items[0] + sep + (items[1] + sep + items[2])
  {
    if |items| == 3 {
      assert Join(sep, items[1..]) == items[1] + sep + items[2] by {
        assert items[1..][1..] == [items[2]];
      }
    }
  }

  function DigitChar(d: nat): char
    requires d < 10
  {
    ('0' as int + d) as char
  }

  /** `str(n)` for a natural number: its decimal digits. */
  function NatToString(n: nat): (r: string)
    ensures r != []
    ensures forall i :: 0 <= i < |r| ==> '0' <= r[i] <= '9'
  {
    if n < 10 then [DigitChar(n)] else NatToString(n / 10) + [DigitChar(n % 10)]
  }

  /** Different numbers print differently. */
  lemma {:induction false} NatToStringInjective(m: nat, n: nat)
    requires NatToString(m) == NatToString(n)
    ensures m == n
  {
    var sm, sn := NatToString(m), NatToString(n);
    assert m >= 10 ==> |sm| >= 2;
    assert n >= 10 ==> |sn| >= 2;
    if m < 10 && n < 10 {
      assert sm[0] == DigitChar(m) && sn[0] == DigitChar(n);
    } else if m >= 10 && n >= 10 {
      assert sm[|sm| - 1] == DigitChar(m % 10) && sn[|sn| - 1] == DigitChar(n % 10);
      assert sm[..|sm| - 1] == NatToString(m / 10);
      assert sn[..|sn| - 1] == NatToString(n / 10);
      NatToStringInjective(m / 10, n / 10);
    }
  }
}
