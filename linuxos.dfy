/** `parse_os_release`: look up one `KEY=value` entry of an os-release file. */
module LinuxOs {

  import opened Wrappers
  import opened Text

  /** Index of the first line that starts with `key`, or `|lines|`. */
  function FirstLineStartingWith(lines: seq<string>, key: string): (k: nat)
    ensures k <= |lines|
    ensures forall i :: 0 <= i < k ==> !StartsWith(lines[i], key)
    ensures k < |lines| ==> StartsWith(lines[k], key)
  {
    if lines == [] || StartsWith(lines[0], key) then 0
    else 1 + FirstLineStartingWith(lines[1..], key)
  }

  /** `line.split('=').nth(1).map(|val| val.trim_matches('"'))` */
  function LineValue(line: string): (r: Option<string>)
    ensures r.None? <==> '=' !in line
    ensures r.Some? ==> '=' !in r.value
    ensures r.Some? && r.value != [] ==> r.value[0] != '"' && r.value[|r.value| - 1] != '"'
  {
    match SecondField(line, '=')
    case None => None
    case Some(v) => Some(TrimMatches(v, '"'))
  }

  /** The first line that starts with `key` (a prefix test, not a test of the
      whole key), split at `=`; its second field, with every leading and
      trailing `"` removed. */
  function ParseOsRelease(content: string, key: string): (r: Option<string>)
    ensures r.Some? ==> exists line :: line in Lines(content) && StartsWith(line, key) && '=' in line
    ensures r.Some? ==> exists i ::
      && 0 <= i < |Lines(content)| && StartsWith(Lines(content)[i], key)
      && (forall j :: 0 <= j < i ==> !StartsWith(Lines(content)[j], key))
      && r == LineValue(Lines(content)[i])
    ensures r.Some? ==> '=' !in r.value
    ensures r.Some? && r.value != [] ==> r.value[0] != '"' && r.value[|r.value| - 1] != '"'
  {
    var lines := Lines(content);
    var k := FirstLineStartingWith(lines, key);
    if k == |lines| then None else LineValue(lines[k])
  }

  /** No line starts with the key: nothing is found. */
  lemma NoMatchingLine(content: string, key: string)
    requires forall line :: line in Lines(content) ==> !StartsWith(line, key)
    ensures ParseOsRelease(content, key) == None
  {
  }

  /** The first line that starts with the key, wherever it is, decides the
      answer: its value, whatever the lines after it hold. */
  lemma FirstMatchingLineDecides(content: string, key: string, i: nat)
    requires i < |Lines(content)| && StartsWith(Lines(content)[i], key)
    requires forall j :: 0 <= j < i ==> !StartsWith(Lines(content)[j], key)
    ensures ParseOsRelease(content, key) == LineValue(Lines(content)[i])
  {
    assert FirstLineStartingWith(Lines(content), key) == i;
  }

  /** Only the FIRST line that starts with the key is looked at: when it has
      no `=`, the answer is None, whatever later lines hold. */
  lemma FirstMatchWithoutEquals(content: string, key: string, i: nat)
    requires i < |Lines(content)| && StartsWith(Lines(content)[i], key)
    requires forall j :: 0 <= j < i ==> !StartsWith(Lines(content)[j], key)
    requires '=' !in Lines(content)[i]
    ensures ParseOsRelease(content, key) == None
  {
    FirstMatchingLineDecides(content, key, i);
  }

  /** `split('=').nth(1)` on `a=b` or `a=b=c` (no `=` in `a` or `b`) is `b`. */
  lemma {:induction false} SecondFieldBetweenEquals(a: string, b: string, c: string)
    requires '=' !in a && '=' !in b
    ensures SecondField(a + "=" + b, '=') == Some(b)
    ensures SecondField(a + "=" + b + "=" + c, '=') == Some(b)
  {
    var s1 := a + "=" + b;
    var s2 := a + "=" + b + "=" + c;
    assert s1[|a|] == '=' && s2[|a|] == '=';
    assert forall i :: 0 <= i < |a| ==> s1[i] == a[i] && s2[i] == a[i];
    assert IndexOf(s1, '=') == |a| && IndexOf(s2, '=') == |a|;
    assert s1[|a| + 1..] == b;
    var rest := s2[|a| + 1..];
    assert rest == b + "=" + c;
    assert rest[|b|] == '=';
    assert forall i :: 0 <= i < |b| ==> rest[i] == b[i];
    assert IndexOf(rest, '=') == |b|;
    assert IndexOf(b, '=') == |b|;
    assert b[..|b|] == b;
    assert rest[..|b|] == b;
    assert SecondField(s1, '=') == Some(b);
    assert SecondField(s2, '=') == Some(b);
  }

  /** `trim_matches('"')` removes the surrounding quotes and keeps the inner ones. */
  lemma TrimQuotesKeepsInner(q1: string, m: string, q2: string)
    requires forall i :: 0 <= i < |q1| ==> q1[i] == '"'
    requires forall i :: 0 <= i < |q2| ==> q2[i] == '"'
    requires m != [] && m[0] != '"' && m[|m| - 1] != '"'
    ensures TrimMatches(q1 + m + q2, '"') == m
  {
    var s := q1 + m + q2;
    var quote := x => x == '"';
    var t := Strip(s, quote);
    var n := Lead(s, quote);
    var first := |q1|;
    var last := |q1| + |m| - 1;
    assert s[first] == m[0] && s[last] == m[|m| - 1];
    // The first and the last character of `m` are kept, so both lie in
    // the slice `t` of `s`.
    assert n <= first;
    assert last < n + |t|;
    // Everything outside `m` is a quote, and `t` neither starts nor ends
    // with one.
    assert t[0] == s[n] && t[|t| - 1] == s[n + |t| - 1];
    assert n == first;
    assert n + |t| == last + 1;
    assert t == s[first..last + 1];
    assert s[first..last + 1] == m;
  }

  /** When the first line starts with the key, it alone decides the answer. */
  lemma {:induction false} FirstLineDecides(first: string, rest: string, key: string)
    requires StartsWith(first, key) && '\n' !in first
    requires first == [] || first[|first| - 1] != '\r'
    ensures ParseOsRelease(first + "\n" + rest, key) == LineValue(first)
  {
    LinesOfFirstLine(first, rest);
    assert FirstLineStartingWith(Lines(first + "\n" + rest), key) == 0;
  }

  /** `NAME="value"` (no `=` in the name or the value) has the value `value`. */
  lemma {:induction false} QuotedLineValue(name: string, value: string)
    requires '=' !in name && '=' !in value
    requires value != [] && value[0] != '"' && value[|value| - 1] != '"'
    ensures LineValue(name + "=" + ("\"" + value + "\"")) == Some(value)
  {
    var quoted := "\"" + value + "\"";
    assert '=' !in "\"";
    assert '=' !in quoted;
    SecondFieldBetweenEquals(name, quoted, "");
    TrimQuotesKeepsInner("\"", value, "\"");
  }

  /** A first matching line `NAME="value"` yields `value`, whatever follows. */
  lemma {:induction false} QuotedValueOfFirstMatchingLine(name: string, value: string, rest: string, key: string)
    requires StartsWith(name, key)
    requires '=' !in name && '\n' !in name && '=' !in value && '\n' !in value
    requires value != [] && value[0] != '"' && value[|value| - 1] != '"'
    ensures ParseOsRelease(name + "=\"" + value + "\"\n" + rest, key) == Some(value)
  {
    var first := name + "=" + ("\"" + value + "\"");
    assert name + "=\"" + value + "\"\n" + rest == first + "\n" + rest;
    assert StartsWith(first, key) by {
      assert first[..|key|] == name[..|key|];
    }
    assert '\n' !in first by {
      assert forall i :: 0 <= i < |first| ==> first[i] in name || first[i] == '=' || first[i] == '"' || first[i] in value;
    }
    FirstLineDecides(first, rest, key);
    QuotedLineValue(name, value);
  }

  /** The prefix quirk: asking for `VERSION` picks up a `VERSION_ID` line
      that comes first (as it can in the fallback for the build number). */
  lemma VersionKeyMatchesVersionIdLine(rest: string)
    ensures ParseOsRelease("VERSION_ID=\"22.04\"\n" + rest, "VERSION") == Some("22.04")
  {
    var line := "VERSION_ID=\"22.04\"\n";
    assert line == "VERSION_ID" + "=\"" + "22.04" + "\"\n";
    QuotedValueOfFirstMatchingLine("VERSION_ID", "22.04", rest, "VERSION");
  }

  /** The first line that starts with the key has no `=`: None, even when a
      later line (`NAME=Ubuntu`, say) would have given a value. */
  lemma FirstMatchWithoutEqualsHidesLaterLine(rest: string)
    ensures ParseOsRelease("NAME\n" + rest, "NAME") == None
  {
    var c := "NAME\n" + rest;
    assert c == "NAME" + "\n" + rest;
    LinesOfFirstLine("NAME", rest);
    assert Lines(c)[0] == "NAME";
    assert FirstLineStartingWith(Lines(c), "NAME") == 0;
    assert SecondField("NAME", '=') == None;
  }
}
