/** The pieces of Rust's `str`/`String` API that the scanner's logic relies on:
    ASCII lower-casing, substring search, `replace`, `trim`, `trim_matches`,
    `lines`, `split(..).nth(..)`, and the ordering `Vec<String>::sort` uses. */
module Text {

  import opened Wrappers

  // ---------------------------------------------------------------- case

  /** `char::to_lowercase`, restricted to ASCII letters. */
  function LowerChar(c: char): char
  {
    if 'A' <= c <= 'Z' then (c as int + 32) as char else c
  }

  /** `str::to_lowercase`, restricted to ASCII letters. */
  function Lower(s: string): (r: string)
    ensures |r| == |s|
    ensures forall i :: 0 <= i < |s| ==> r[i] == LowerChar(s[i])
  {
    if s == [] then [] else [LowerChar(s[0])] + Lower(s[1..])
  }

  lemma LowerIdempotent(s: string)
    ensures Lower(Lower(s)) == Lower(s)
  {
    assert forall i :: 0 <= i < |s| ==> Lower(Lower(s))[i] == Lower(s)[i];
  }

  // ------------------------------------------------------------ matching

  /** `str::starts_with` */
  predicate StartsWith(s: string, p: string)
  {
    |p| <= |s| && s[..|p|] == p
  }

  /** `str::contains` with a string pattern: `p` occurs somewhere in `s`. */
  predicate Contains(s: string, p: string)
    decreases |s|
  {
    StartsWith(s, p) || (s != [] && Contains(s[1..], p))
  }

  /** Index of the first character satisfying `stop`, or `|s|` if none does. */
  function IndexWhere(s: string, stop: char -> bool): (k: nat)
    ensures k <= |s|
    ensures forall i :: 0 <= i < k ==> !stop(s[i])
    ensures k < |s| ==> stop(s[k])
  {
    if s == [] || stop(s[0]) then 0 else 1 + IndexWhere(s[1..], stop)
  }

  /** Index of the first occurrence of `c`, or `|s|` if `c` does not occur. */
  function IndexOf(s: string, c: char): (k: nat)
    ensures k <= |s|
    ensures forall i :: 0 <= i < k ==> s[i] != c
    ensures k < |s| ==> s[k] == c
  {
    IndexWhere(s, x => x == c)
  }

  /** `str::replace(pat, rep)`: non-overlapping occurrences of `pat`,
      found left to right, are replaced by `rep`. */
  function ReplaceAll(s: string, pat: string, rep: string): string
    requires pat != []
    decreases |s|
  {
    if |s| < |pat| then s
    else if s[..|pat|] == pat then rep + ReplaceAll(s[|pat|..], pat, rep)
    else [s[0]] + ReplaceAll(s[1..], pat, rep)
  }

  // ------------------------------------------------------------ trimming

  /** `char::is_whitespace`: the Unicode White_Space property. */
  predicate IsWhitespace(c: char)
  {
    || ('\t' <= c <= '\r') || c == ' ' || c == '\U{85}' || c == '\U{A0}' || c == '\U{1680}'
    || ('\U{2000}' <= c <= '\U{200A}') || c == '\U{2028}' || c == '\U{2029}'
    || c == '\U{202F}' || c == '\U{205F}' || c == '\U{3000}'
  }

  /** Drops every leading character that satisfies `drop`. */
  function StripStart(s: string, drop: char -> bool): (r: string)
    ensures |r| <= |s| && r == s[|s| - |r|..]
    ensures forall i :: 0 <= i < |s| - |r| ==> drop(s[i])
    ensures r != [] ==> !drop(r[0])
  {
    if s != [] && drop(s[0]) then
      var r := StripStart(s[1..], drop);
      assert s[1..][|s| - 1 - |r|..] == s[|s| - |r|..];
      assert forall i :: 1 <= i < |s| - |r| ==> s[i] == s[1..][i - 1];
      r
    else s
  }

  /** Drops every trailing character that satisfies `drop`. */
  function StripEnd(s: string, drop: char -> bool): (r: string)
    ensures |r| <= |s| && r == s[..|r|]
    ensures forall i :: |r| <= i < |s| ==> drop(s[i])
    ensures r != [] ==> !drop(r[|r| - 1])
  {
    if s != [] && drop(s[|s| - 1]) then StripEnd(s[..|s| - 1], drop) else s
  }

  /** The number of leading characters of `s` that satisfy `drop`. */
  function Lead(s: string, drop: char -> bool): nat
  {
    |s| - |StripStart(s, drop)|
  }

  /** Drops every leading and trailing character that satisfies `drop`;
      what remains is the slice of `s` between them. */
  function Strip(s: string, drop: char -> bool): (r: string)
    ensures r != [] ==> !drop(r[0]) && !drop(r[|r| - 1])
    ensures Lead(s, drop) + |r| <= |s| && r == s[Lead(s, drop)..Lead(s, drop) + |r|]
    ensures forall k :: 0 <= k < Lead(s, drop) ==> drop(s[k])
    ensures forall k :: Lead(s, drop) + |r| <= k < |s| ==> drop(s[k])
  {
    StripEnd(StripStart(s, drop), drop)
  }

  /** Every character left by `Strip` comes from `s`. */
  lemma StripKeepsCharacters(s: string, drop: char -> bool)
    ensures forall i :: 0 <= i < |Strip(s, drop)| ==> Strip(s, drop)[i] in s
  {
    var r := Strip(s, drop);
    var n := Lead(s, drop);
    assert r == s[n..n + |r|];
    forall i | 0 <= i < |r|
      ensures r[i] in s
    {
      assert r[i] == s[n + i];
    }
  }

  /** `str::trim` */
  function Trim(s: string): string
  {
    Strip(s, IsWhitespace)
  }

  /** `str::trim_matches(c)` with a single character `c`. */
  function TrimMatches(s: string, c: char): (r: string)
    ensures forall i :: 0 <= i < |r| ==> r[i] in s
    ensures r != [] ==> r[0] != c && r[|r| - 1] != c
  {
    StripKeepsCharacters(s, x => x == c);
    Strip(s, x => x == c)
  }

  // --------------------------------------------------------------- lines

  /** `str::lines`: split at `\n`; a `\r` right before a `\n` belongs to the
      line ending; a final line ending does not start an empty line. */
  function Lines(s: string): seq<string>
    decreases |s|
  {
    if s == [] then []
    else
      var k := IndexOf(s, '\n');
      if k == |s| then [s]
      else
        var line := s[..k];
        var line := if line != [] && line[|line| - 1] == '\r' then line[..|line| - 1] else line;
        [line] + Lines(s[k + 1..])
  }

  /** `lines()` yields a line ended by `\n` as it is, then the rest. */
  lemma LinesOfFirstLine(first: string, rest: string)
    requires '\n' !in first
    requires first == [] || first[|first| - 1] != '\r'
    ensures Lines(first + "\n" + rest) == [first] + Lines(rest)
  {
    var s := first + "\n" + rest;
    assert forall i :: 0 <= i < |first| ==> s[i] == first[i];
    assert s[|first|] == '\n';
    assert IndexOf(s, '\n') == |first|;
    assert s[..|first|] == first;
    assert s[|first| + 1..] == rest;
  }

  /** `s.split(sep).nth(1)`: the text between the first and the second
      `sep` (or the end), or None when `sep` does not occur. */
  function SecondField(s: string, sep: char): (r: Option<string>)
    ensures r.None? <==> sep !in s
    ensures r.Some? ==> sep !in r.value
  {
    var k := IndexOf(s, sep);
    if k == |s| then None
    else
      var rest := s[k + 1..];
      Some(rest[..IndexOf(rest, sep)])
  }

  // ------------------------------------------------------------ ordering

  /** The order `String` implements (`Ord`): lexicographic by character,
      which for UTF-8 agrees with the byte-wise order. */
  predicate Less(a: string, b: string)
    decreases |a|
  {
    if a == [] then b != []
    else if b == [] then false
    else if a[0] != b[0] then a[0] < b[0]
    else Less(a[1..], b[1..])
  }

  lemma {:induction false} LessIrreflexive(a: string)
    ensures !Less(a, a)
    decreases |a|
  {
    if a != [] { LessIrreflexive(a[1..]); }
  }

  lemma {:induction false} LessTransitive(a: string, b: string, c: string)
    requires Less(a, b) && Less(b, c)
    ensures Less(a, c)
    decreases |a|
  {
    if a != [] && b != [] && c != [] && a[0] == b[0] && b[0] == c[0] {
      LessTransitive(a[1..], b[1..], c[1..]);
    }
  }

  lemma {:induction false} LessTotal(a: string, b: string)
    requires a != b
    ensures Less(a, b) || Less(b, a)
    decreases |a|
  {
    if a != [] && b != [] && a[0] == b[0] {
      assert a == [a[0]] + a[1..] && b == [b[0]] + b[1..];
      LessTotal(a[1..], b[1..]);
    }
  }

  lemma LessAsymmetric(a: string, b: string)
    requires Less(a, b)
    ensures !Less(b, a)
  {
    if Less(b, a) {
      LessTransitive(a, b, a);
      LessIrreflexive(a);
    }
  }

  predicate StrictlySorted(s: seq<string>)
  {
    forall i, j :: 0 <= i < j < |s| ==> Less(s[i], s[j])
  }

  /** A strictly sorted sequence holds no element twice. */
  lemma StrictlySortedDistinct(s: seq<string>)
    requires StrictlySorted(s)
    ensures forall i, j :: 0 <= i < j < |s| ==> s[i] != s[j]
  {
    forall i, j | 0 <= i < j < |s| ensures s[i] != s[j] {
      LessIrreflexive(s[i]);
    }
  }

  /** Adds `x` to a strictly sorted sequence, unless it is already there. */
  function Insert(s: seq<string>, x: string): (r: seq<string>)
    requires StrictlySorted(s)
    ensures StrictlySorted(r)
    ensures forall y :: y in r <==> y in s || y == x
    ensures |r| <= |s| + 1
  {
    if s == [] then [x]
    else if x == s[0] then s
    else if Less(x, s[0]) then
      assert forall j :: 0 < j < |s| ==> Less(x, s[j]) by {
        forall j | 0 < j < |s| ensures Less(x, s[j]) { LessTransitive(x, s[0], s[j]); }
      }
      [x] + s
    else
      LessTotal(x, s[0]);
      var t := Insert(s[1..], x);
      assert forall y :: y in t ==> Less(s[0], y);
      [s[0]] + t
  }

  /** `v.sort(); v.dedup();` — the strictly sorted sequence of the distinct
      elements of `v`. */
  function SortDedup(v: seq<string>): (r: seq<string>)
    ensures StrictlySorted(r)
    ensures forall y :: y in r <==> y in v
    ensures |r| <= |v|
  {
    if v == [] then [] else Insert(SortDedup(v[..|v| - 1]), v[|v| - 1])
  }

  /** Two strictly sorted sequences with the same elements are equal, so
      sorting and then removing adjacent duplicates has exactly one answer. */
  lemma {:induction false} StrictlySortedUnique(a: seq<string>, b: seq<string>)
    requires StrictlySorted(a) && StrictlySorted(b)
    requires forall y :: y in a <==> y in b
    ensures a == b
    decreases |a|
  {
    assert b == [] || b[0] in b;
    if a != [] {
      assert a[0] in b && b != [];
      if a[0] != b[0] {
        assert b[0] in a;
        var k :| 0 <= k < |b| && b[k] == a[0];
        var m :| 0 <= m < |a| && a[m] == b[0];
        assert Less(b[0], a[0]) && Less(a[0], b[0]);
        LessAsymmetric(a[0], b[0]);
      }
      StrictlySortedDistinct(a);
      StrictlySortedDistinct(b);
      forall y ensures y in a[1..] <==> y in b[1..] {
        if y in a[1..] {
          var k :| 1 <= k < |a| && a[k] == y;
          assert y in b && y != b[0];
        }
        if y in b[1..] {
          var k :| 1 <= k < |b| && b[k] == y;
          assert y in a && y != a[0];
        }
      }
      StrictlySortedUnique(a[1..], b[1..]);
      assert a == [a[0]] + a[1..] && b == [b[0]] + b[1..];
    }
  }
}
