/** The PHP string functions the post-processing relies on: `trim`,
    `strtolower`, `str_contains`, `implode`, the conversion of a value to a
    string, and the whitespace class `\s` of PCRE. Strings are sequences of
    characters; on valid UTF-8 input, substring tests on characters agree with
    PHP's tests on bytes. */
module PhpText {
  import opened PhpValues

  /** The characters `trim` strips by default: space, \t, \n, \r, \0, \v. */
  predicate IsTrimChar(c: char) {
    c == ' ' || c == '\t' || c == '\n' || c == '\r' || c == '\0' || c == 11 as char
  }

  /** PCRE's `\s` without the UTF flag: space, \t, \n, \v, \f, \r. */
  predicate IsRegexSpace(c: char) {
    c == ' ' || c == '\t' || c == '\n' || c == 11 as char || c == 12 as char || c == '\r'
  }

  function TrimStart(s: string): (r: string)
    ensures |r| <= |s| && r == s[|s| - |r|..]
    ensures r == [] || !IsTrimChar(r[0])
    ensures forall k :: 0 <= k < |s| - |r| ==> IsTrimChar(s[k])
  {
    if s != [] && IsTrimChar(s[0]) then TrimStart(s[1..]) else s
  }

  function TrimEnd(s: string): (r: string)
    ensures |r| <= |s| && r == s[..|r|]
    ensures r == [] || !IsTrimChar(r[|r| - 1])
    ensures forall k :: |r| <= k < |s| ==> IsTrimChar(s[k])
  {
    if s != [] && IsTrimChar(s[|s| - 1]) then TrimEnd(s[..|s| - 1]) else s
  }

  /** `r` is `s` from position `i` on, less characters `trim` strips on
      either side. */
  predicate TrimmedAt(s: string, r: string, i: int) {
    0 <= i <= |s| - |r| && r == s[i..i + |r|] &&
    (forall k :: 0 <= k < i ==> IsTrimChar(s[k])) &&
    (forall k :: i + |r| <= k < |s| ==> IsTrimChar(s[k]))
  }

  /** `trim($s)`: the part of `s` left when the characters it strips are
      cut from both ends. */
  function Trim(s: string): (r: string)
    ensures r == [] || (!IsTrimChar(r[0]) && !IsTrimChar(r[|r| - 1]))
    ensures exists i :: TrimmedAt(s, r, i)
  {
    TrimBothEnds(s);
    TrimEnd(TrimStart(s))
  }

  /** Cutting the end after the front leaves a slice between two runs of
      trim characters. */
  lemma TrimBothEnds(s: string)
    ensures TrimmedAt(s, TrimEnd(TrimStart(s)), |s| - |TrimStart(s)|)
  {
    var t := TrimStart(s);
    TrimmedSlices(s, t, TrimEnd(t), |s| - |t|);
  }

  /** A front cut `t` of `s` followed by a back cut `r` of `t`. */
  lemma TrimmedSlices(s: string, t: string, r: string, i: int)
    requires 0 <= i <= |s| && t == s[i..] && |r| <= |t| && r == t[..|r|]
    requires forall k :: 0 <= k < i ==> IsTrimChar(s[k])
    requires forall k :: |r| <= k < |t| ==> IsTrimChar(t[k])
    ensures TrimmedAt(s, r, i)
  {
    forall k | i + |r| <= k < |s|
      ensures IsTrimChar(s[k])
    {
      assert s[k] == t[k - i];
    }
  }


  /** Drop a run of `\s` at the front. */
  function DropSpaces(s: string): (r: string)
    ensures |r| <= |s| && r == s[|s| - |r|..]
    ensures r == [] || !IsRegexSpace(r[0])
    ensures forall k :: 0 <= k < |s| - |r| ==> IsRegexSpace(s[k])
  {
    if s != [] && IsRegexSpace(s[0]) then DropSpaces(s[1..]) else s
  }

  /** Drop a run of `\s` at the back. */
  function DropTrailingSpaces(s: string): (r: string)
    ensures |r| <= |s| && r == s[..|r|]
    ensures r == [] || !IsRegexSpace(r[|r| - 1])
    ensures forall k :: |r| <= k < |s| ==> IsRegexSpace(s[k])
  {
    if s != [] && IsRegexSpace(s[|s| - 1]) then DropTrailingSpaces(s[..|s| - 1]) else s
  }

  /** Text that starts and ends with a character `trim` keeps is unchanged. */
  lemma TrimKeeps(s: string)
    requires s == [] || (!IsTrimChar(s[0]) && !IsTrimChar(s[|s| - 1]))
    ensures Trim(s) == s
  {
  }

  lemma DropSpacesKeeps(s: string)
    requires s == [] || !IsRegexSpace(s[0])
    ensures DropSpaces(s) == s
  {
  }

  lemma DropSpacesSkips(c: char, s: string)
    requires IsRegexSpace(c)
    ensures DropSpaces([c] + s) == DropSpaces(s)
  {
    assert ([c] + s)[1..] == s;
  }

  lemma DropTrailingSpacesKeeps(s: string)
    requires s == [] || !IsRegexSpace(s[|s| - 1])
    ensures DropTrailingSpaces(s) == s
  {
  }

  lemma DropTrailingSpacesSkips(s: string, c: char)
    requires IsRegexSpace(c)
    ensures DropTrailingSpaces(s + [c]) == DropTrailingSpaces(s)
  {
    assert (s + [c])[..|s|] == s;
  }

  function LowerChar(c: char): char {
    if 'A' <= c <= 'Z' then (c as int - 'A' as int + 'a' as int) as char else c
  }

  /** `strtolower($s)`: ASCII letters only, as in PHP 8.2 and later. */
  function Lower(s: string): (r: string)
    ensures |r| == |s|
    ensures forall k :: 0 <= k < |s| ==> r[k] == LowerChar(s[k])
  {
    if s == [] then [] else [LowerChar(s[0])] + Lower(s[1..])
  }

  lemma {:induction false} LowerIdempotent(s: string)
    ensures Lower(Lower(s)) == Lower(s)
  {
    if s != [] {
      LowerIdempotent(s[1..]);
      assert Lower(s)[1..] == Lower(s[1..]);
    }
  }

  predicate StartsWith(s: string, prefix: string) {
    |prefix| <= |s| && s[..|prefix|] == prefix
  }

  predicate EndsWith(s: string, suffix: string) {
    |suffix| <= |s| && s[|s| - |suffix|..] == suffix
  }

  lemma PrefixOfJoined(a: string, b: string)
    ensures StartsWith(a + b, a) && (a + b)[|a|..] == b
  {
    assert (a + b)[..|a|] == a;
  }

  lemma SuffixOfJoined(a: string, b: string)
    ensures EndsWith(a + b, b) && (a + b)[..|a|] == a
  {
    assert (a + b)[|a|..] == b;
  }

  /** The needle occurs in the haystack at position `i`. */
  predicate OccursAt(haystack: string, needle: string, i: int) {
    0 <= i <= |haystack| - |needle| && haystack[i..i + |needle|] == needle
  }

  /** The needle's characters from the `k`-th on agree with the haystack's
      from position `i + k` on. */
  function MatchesFrom(haystack: string, needle: string, i: nat, k: nat): (r: bool)
    requires i + |needle| <= |haystack|
    ensures k <= |needle| ==> (r <==> haystack[i + k..i + |needle|] == needle[k..])
    decreases |needle| - k
  {
    if k >= |needle| then true
    else
      var r := haystack[i + k] == needle[k] && MatchesFrom(haystack, needle, i, k + 1);
      assert haystack[i + k..i + |needle|] == [haystack[i + k]] + haystack[i + k + 1..i + |needle|];
      assert needle[k..] == [needle[k]] + needle[k + 1..];
      r
  }

  /** The needle occurs at position `i` or later. */
  function OccursFrom(haystack: string, needle: string, i: nat): (r: bool)
    ensures r <==> exists j :: i <= j && OccursAt(haystack, needle, j)
    decreases |haystack| - i
  {
    if i + |needle| <= |haystack| then
      var here := MatchesFrom(haystack, needle, i, 0);
      assert here <==> OccursAt(haystack, needle, i);
      here || OccursFrom(haystack, needle, i + 1)
    else
      assert forall j :: i <= j ==> !OccursAt(haystack, needle, j);
      false
  }

  /** `str_contains($haystack, $needle)`: the needle occurs at some position. */
  function Contains(haystack: string, needle: string): (r: bool)
    ensures r <==> exists i :: OccursAt(haystack, needle, i)
  {
    OccursFrom(haystack, needle, 0)
  }

  /** A text containing `n` contains every piece of `n`. */
  lemma ContainsPiece(haystack: string, n: string, m: string, offset: nat)
    requires Contains(haystack, n) && OccursAt(n, m, offset)
    ensures Contains(haystack, m)
  {
    var i :| OccursAt(haystack, n, i);
    forall t | 0 <= t < |m|
      ensures haystack[i + offset + t] == m[t]
    {
      assert m[t] == n[offset..offset + |m|][t] == n[offset + t];
      assert n[offset + t] == haystack[i..i + |n|][offset + t];
    }
    assert haystack[i + offset..i + offset + |m|] == m;
    assert OccursAt(haystack, m, i + offset);
  }

  /** A needle longer than the haystack never occurs in it. */
  lemma ContainsNeedsRoom(haystack: string, needle: string)
    requires |needle| > |haystack|
    ensures !Contains(haystack, needle)
  {
  }

  /** `implode($sep, $parts)`. */
  function Join(parts: seq<string>, sep: string): (r: string)
    ensures |parts| == 1 ==> r == parts[0]
  {
    if |parts| == 0 then ""
    else if |parts| == 1 then parts[0]
    else parts[0] + sep + Join(parts[1..], sep)
  }

  /** The string PHP makes of a value when `implode` joins it or when it is
      passed to a `string` parameter. `numText` is PHP's conversion of a number
      to text. An array has none: `implode` raises "Array to string
      conversion" (an exception under the framework's error handler) and a
      `string` parameter raises a TypeError. */
  function AsText(v: Value, numText: real -> string): (r: Option<string>)
    ensures r.None? <==> v.Arr?
    ensures v.Str? ==> r == Some(v.s)
  {
    match v
    case Null => Some("")
    case Bool(b) => Some(if b then "1" else "")
    case Num(n) => Some(numText(n))
    case Str(s) => Some(s)
    case Arr(_) => None
  }

  /** The texts of all values, or nothing when one of them is an array. */
  function AllText(entries: seq<Entry>, numText: real -> string): (r: Option<seq<string>>)
    ensures r.Some? <==> forall i :: 0 <= i < |entries| ==> !entries[i].val.Arr?
    ensures r.Some? ==> |r.value| == |entries|
    ensures r.Some? ==> forall i :: 0 <= i < |entries| ==> Some(r.value[i]) == AsText(entries[i].val, numText)
  {
    if entries == [] then Some([])
    else
      match (AsText(entries[0].val, numText), AllText(entries[1..], numText))
      case (Some(t), Some(ts)) =>
        assert forall i :: 1 <= i < |entries| ==> entries[i] == entries[1..][i - 1];
        Some([t] + ts)
      case (_, _) =>
        assert forall i :: 1 <= i < |entries| ==> entries[i] == entries[1..][i - 1];
        None
  }
}
