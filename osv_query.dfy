/** The OSV side of the scanner: guessing package ecosystems from a program's
    display name, generating name variations, one query per (name,
    ecosystem) pair, and the three-strategy search that turns the answers
    into a ScanResult. The OSV service itself is an oracle: a function from
    the JSON request to what came back. */
module OsvQuery {

  import opened Wrappers
  import opened Text
  import opened Programs

  // ------------------------------------------------------------ wire types

  /** The `package` object of a query. */
  datatype Package = Package(name: string, ecosystem: string)

  /** The body POSTed to the query endpoint. */
  datatype OsvRequest = OsvRequest(package: Option<Package>, version: Option<string>)

  /** One entry of a vulnerability's `severity` list (`type` is renamed). */
  datatype Severity = Severity(severityType: string, score: Option<string>)

  /** The fields of an OSV vulnerability the scanner reads. */
  datatype Vulnerability = Vulnerability(id: string, summary: Option<string>, severity: Option<seq<Severity>>)

  /** What one POST to the query endpoint comes back with. */
  datatype OsvReply =
    | SendFailed(reason: string)       // transport error or the 10-second client timeout
    | ErrorStatus(status: int)         // a response whose status is not 2xx
    | Undecodable(reason: string)      // a 2xx body that does not decode as `{ vulns: [...] }`
    | Decoded(vulns: seq<Vulnerability>)

  /** The outcome of checking one program against OSV. */
  datatype ScanResult =
    | Vulnerable(findings: seq<string>)
    | Safe
    | Unchecked(reason: string)

  /** The OSV service as the scanner sees it: building the HTTP client may
      fail (`clientError`), and each query gets a reply from `post`. */
  datatype OsvService = OsvService(clientError: Option<string>, post: OsvRequest -> OsvReply)

  /** The ecosystems the scanner knows, in the order they are tried. */
  const ECOSYSTEMS: seq<string> := ["PyPI", "npm", "NuGet", "Maven", "crates.io", "Go", "Packagist", "RubyGems"]

  /** No element occurs twice. */
  predicate Distinct(s: seq<string>)
  {
    forall i, j :: 0 <= i < j < |s| ==> s[i] != s[j]
  }

  /** `r` is `s` with some elements left out, the rest kept in order. */
  predicate Subsequence(r: seq<string>, s: seq<string>)
    decreases |s|
  {
    if r == [] then true
    else if s == [] then false
    else (r[|r| - 1] == s[|s| - 1] && Subsequence(r[..|r| - 1], s[..|s| - 1])) || Subsequence(r, s[..|s| - 1])
  }

  lemma {:induction false} SubsequenceProperties(r: seq<string>, s: seq<string>)
    requires Subsequence(r, s)
    ensures |r| <= |s|
    ensures forall x :: x in r ==> x in s
    ensures Distinct(s) ==> Distinct(r)
    decreases |s|
  {
    if r != [] {
      var s' := s[..|s| - 1];
      if r[|r| - 1] == s[|s| - 1] && Subsequence(r[..|r| - 1], s') {
        var r' := r[..|r| - 1];
        SubsequenceProperties(r', s');
        assert r == r' + [s[|s| - 1]] && s == s' + [s[|s| - 1]];
        if Distinct(s) {
          assert Distinct(s');
          assert s[|s| - 1] !in s';
        }
      } else {
        SubsequenceProperties(r, s');
        assert s == s' + [s[|s| - 1]];
      }
    }
  }

  // --------------------------------------------------- guessing ecosystems

  /** The keywords that point at each ecosystem (matched in the lower-cased
      name, as substrings). */
  function Keywords(ecosystem: string): seq<string>
  {
    if ecosystem == "PyPI" then ["python", "pip", "conda"]
    else if ecosystem == "npm" then ["node", "npm", "yarn"]
    else if ecosystem == "NuGet" then [".net", "nuget", "dotnet"]
    else if ecosystem == "Maven" then ["java", "maven", "jdk"]
    else if ecosystem == "crates.io" then ["rust", "cargo"]
    else if ecosystem == "Go" then ["golang", " go "]
    else if ecosystem == "Packagist" then ["php", "composer"]
    else if ecosystem == "RubyGems" then ["ruby", "gem"]
    else []
  }

  /** Some keyword occurs in `text`. */
  predicate MentionsAny(text: string, keywords: seq<string>)
  {
    exists k :: k in keywords && Contains(text, k)
  }

  /** `v` with `e` pushed onto its end when `hit` holds. */
  function PushIf(v: seq<string>, hit: bool, e: string): seq<string>
  {
    if hit then v + [e] else v
  }

  /** The ecosystems of `ecosystems`, in order, one of whose keywords occurs
      in `lowerName`. */
  function Matching(lowerName: string, ecosystems: seq<string>): seq<string>
  {
    if ecosystems == [] then []
    else
      var last := ecosystems[|ecosystems| - 1];
      PushIf(Matching(lowerName, ecosystems[..|ecosystems| - 1]), MentionsAny(lowerName, Keywords(last)), last)
  }

  /** The filter keeps exactly the ecosystems one of whose keywords occurs,
      each where it was. */
  lemma {:induction false} MatchingIsFilter(lowerName: string, ecosystems: seq<string>)
    ensures forall e :: e in Matching(lowerName, ecosystems) <==> e in ecosystems && MentionsAny(lowerName, Keywords(e))
    ensures Subsequence(Matching(lowerName, ecosystems), ecosystems)
    decreases |ecosystems|
  {
    if ecosystems != [] {
      var last := ecosystems[|ecosystems| - 1];
      var front := ecosystems[..|ecosystems| - 1];
      MatchingIsFilter(lowerName, front);
      assert ecosystems == front + [last];
      var m := Matching(lowerName, front);
      assert (m + [last])[..|m|] == m;
    }
  }

  /** An ecosystem at the head of the list whose keyword occurs heads the
      filtered list too. */
  lemma {:induction false} MatchingHead(lowerName: string, ecosystems: seq<string>)
    requires ecosystems != [] && MentionsAny(lowerName, Keywords(ecosystems[0]))
    ensures Matching(lowerName, ecosystems) != [] && Matching(lowerName, ecosystems)[0] == ecosystems[0]
    decreases |ecosystems|
  {
    if |ecosystems| > 1 {
      var front := ecosystems[..|ecosystems| - 1];
      assert front[0] == ecosystems[0];
      MatchingHead(lowerName, front);
    }
  }

  /** The ecosystems `guess_ecosystems` proposes for a program name. */
  function LikelyEcosystems(name: string): seq<string>
  {
    Matching(Lower(name), ECOSYSTEMS)
  }

  /** Unfolds `MentionsAny` on a keyword list of two or three entries. */
  lemma MentionsAnyListed(text: string, a: string, b: string, c: string)
    ensures MentionsAny(text, [a, b]) <==> Contains(text, a) || Contains(text, b)
    ensures MentionsAny(text, [a, b, c]) <==> Contains(text, a) || Contains(text, b) || Contains(text, c)
  {
  }

  /** One more ecosystem of the table, tested. */
  lemma MatchingStep(lowerName: string, k: nat)
    requires 0 < k <= |ECOSYSTEMS|
    ensures Matching(lowerName, ECOSYSTEMS[..k]) ==
      PushIf(Matching(lowerName, ECOSYSTEMS[..k - 1]), MentionsAny(lowerName, Keywords(ECOSYSTEMS[k - 1])), ECOSYSTEMS[k - 1])
  {
    assert ECOSYSTEMS[..k][..k - 1] == ECOSYSTEMS[..k - 1];
  }

  /** The first two keyword tests of the table. */
  lemma MatchingFirstQuarter(lowerName: string)
    ensures Matching(lowerName, ECOSYSTEMS[..2]) ==
      PushIf(PushIf([],
        MentionsAny(lowerName, ["python", "pip", "conda"]), "PyPI"),
        MentionsAny(lowerName, ["node", "npm", "yarn"]), "npm")
  {
    MatchingStep(lowerName, 1);
    MatchingStep(lowerName, 2);
  }

  /** The first four keyword tests of the table. */
  lemma MatchingFirstHalf(lowerName: string)
    ensures Matching(lowerName, ECOSYSTEMS[..4]) ==
      PushIf(PushIf(PushIf(PushIf([],
        MentionsAny(lowerName, ["python", "pip", "conda"]), "PyPI"),
        MentionsAny(lowerName, ["node", "npm", "yarn"]), "npm"),
        MentionsAny(lowerName, [".net", "nuget", "dotnet"]), "NuGet"),
        MentionsAny(lowerName, ["java", "maven", "jdk"]), "Maven")
  {
    MatchingFirstQuarter(lowerName);
    MatchingStep(lowerName, 3);
    MatchingStep(lowerName, 4);
  }

  /** The table-driven guess, spelled out as the eight keyword tests. */
  lemma MatchingUnrolled(lowerName: string)
    ensures Matching(lowerName, ECOSYSTEMS) ==
      PushIf(PushIf(PushIf(PushIf(PushIf(PushIf(PushIf(PushIf([],
        MentionsAny(lowerName, ["python", "pip", "conda"]), "PyPI"),
        MentionsAny(lowerName, ["node", "npm", "yarn"]), "npm"),
        MentionsAny(lowerName, [".net", "nuget", "dotnet"]), "NuGet"),
        MentionsAny(lowerName, ["java", "maven", "jdk"]), "Maven"),
        MentionsAny(lowerName, ["rust", "cargo"]), "crates.io"),
        MentionsAny(lowerName, ["golang", " go "]), "Go"),
        MentionsAny(lowerName, ["php", "composer"]), "Packagist"),
        MentionsAny(lowerName, ["ruby", "gem"]), "RubyGems")
  {
    MatchingFirstHalf(lowerName);
    MatchingStep(lowerName, 5);
    MatchingStep(lowerName, 6);
    MatchingStep(lowerName, 7);
    MatchingStep(lowerName, 8);
    assert ECOSYSTEMS[..8] == ECOSYSTEMS;
  }

  /** `guess_ecosystems`: one keyword test per ecosystem, in table order. */
  method GuessEcosystems(name: string) returns (ecosystems: seq<string>)
    ensures ecosystems == LikelyEcosystems(name)
  {
    var nameLower := Lower(name);
    ecosystems := [];
    if MentionsAny(nameLower, ["python", "pip", "conda"]) {
      ecosystems := ecosystems + ["PyPI"];
    }
    if MentionsAny(nameLower, ["node", "npm", "yarn"]) {
      ecosystems := ecosystems + ["npm"];
    }
    if MentionsAny(nameLower, [".net", "nuget", "dotnet"]) {
      ecosystems := ecosystems + ["NuGet"];
    }
    if MentionsAny(nameLower, ["java", "maven", "jdk"]) {
      ecosystems := ecosystems + ["Maven"];
    }
    if MentionsAny(nameLower, ["rust", "cargo"]) {
      ecosystems := ecosystems + ["crates.io"];
    }
    if MentionsAny(nameLower, ["golang", " go "]) {
      ecosystems := ecosystems + ["Go"];
    }
    if MentionsAny(nameLower, ["php", "composer"]) {
      ecosystems := ecosystems + ["Packagist"];
    }
    if MentionsAny(nameLower, ["ruby", "gem"]) {
      ecosystems := ecosystems + ["RubyGems"];
    }
    MatchingUnrolled(nameLower);
  }

  /** The guess is drawn from the table: a subsequence of ECOSYSTEMS, so in
      table order, with no ecosystem twice and at most eight entries; an
      ecosystem is in it exactly when one of its keywords occurs in the
      lower-cased name. */
  lemma {:induction false} GuessedFromCatalog(name: string)
    ensures Subsequence(LikelyEcosystems(name), ECOSYSTEMS)
    ensures Distinct(LikelyEcosystems(name))
    ensures |LikelyEcosystems(name)| <= |ECOSYSTEMS| == 8
    ensures forall e :: e in LikelyEcosystems(name) <==> e in ECOSYSTEMS && MentionsAny(Lower(name), Keywords(e))
  {
    MatchingIsFilter(Lower(name), ECOSYSTEMS);
    SubsequenceProperties(LikelyEcosystems(name), ECOSYSTEMS);
  }

  /** The guess does not depend on letter case. */
  lemma {:induction false} GuessIgnoresCase(name: string)
    ensures LikelyEcosystems(name) == LikelyEcosystems(Lower(name))
  {
    LowerIdempotent(name);
  }

  /** A name mentioning python, pip or conda, in any letter case, is looked
      up in PyPI first. */
  lemma {:induction false} PythonNamesGuessPyPI(name: string)
    requires Contains(Lower(name), "python") || Contains(Lower(name), "pip") || Contains(Lower(name), "conda")
    ensures LikelyEcosystems(name) != [] && LikelyEcosystems(name)[0] == "PyPI"
  {
    MentionsAnyListed(Lower(name), "python", "pip", "conda");
    assert Keywords(ECOSYSTEMS[0]) == ["python", "pip", "conda"];
    MatchingHead(Lower(name), ECOSYSTEMS);
  }

  /** Go is guessed exactly when the name mentions `golang` or a
      space-delimited `go`. */
  lemma {:induction false} GoGuessedOnlyForGolang(name: string)
    ensures "Go" in LikelyEcosystems(name) <==> Contains(Lower(name), "golang") || Contains(Lower(name), " go ")
  {
    GuessedFromCatalog(name);
    MentionsAnyListed(Lower(name), "golang", " go ", " go ");
    assert Keywords("Go") == ["golang", " go "];
  }

  // ------------------------------------------------------- name variations

  /** `char::is_numeric`, restricted to the ASCII digits. */
  predicate IsNumeric(c: char)
  {
    '0' <= c <= '9'
  }

  /** The lower-cased name with the words " runtime", " sdk", " framework",
      "microsoft " and " for windows" removed, in that order, then trimmed. */
  function Cleaned(name: string): string
  {
    Trim(ReplaceAll(ReplaceAll(ReplaceAll(ReplaceAll(ReplaceAll(
      Lower(name), " runtime", ""), " sdk", ""), " framework", ""), "microsoft ", ""), " for windows", ""))
  }

  /** The name up to its first digit or `.`, trimmed. */
  function WithoutVersion(name: string): string
  {
    Trim(name[..IndexWhere(name, c => IsNumeric(c) || c == '.')])
  }

  /** The spellings `get_name_variations` derives from a name. */
  datatype Spellings = Spellings(
    original: string, lower: string, cleaned: string, hyphenated: string, joined: string,
    withoutVersion: string, lowerWithoutVersion: string)

  function SpellingsOf(name: string): Spellings
  {
    Spellings(name, Lower(name), Cleaned(name), Lower(ReplaceAll(name, " ", "-")), Lower(ReplaceAll(name, " ", "")),
      WithoutVersion(name), Lower(WithoutVersion(name)))
  }

  /** The list pushed, before sorting: the cleaned form only when it differs
      from the lower-case form, the version-free form only when it differs
      from the name. */
  function Pushed(sp: Spellings): (r: seq<string>)
    ensures |r| <= 6
  {
    PushIf(PushIf([sp.original, sp.lower], sp.cleaned != sp.lower, sp.cleaned) + [sp.hyphenated, sp.joined],
      sp.withoutVersion != sp.original, sp.lowerWithoutVersion)
  }

  /** `v` is one of the spellings pushed. */
  predicate Among(sp: Spellings, v: string)
  {
    || v == sp.original
    || v == sp.lower
    || (sp.cleaned != sp.lower && v == sp.cleaned)
    || v == sp.hyphenated
    || v == sp.joined
    || (sp.withoutVersion != sp.original && v == sp.lowerWithoutVersion)
  }

  lemma PushedAreAmong(sp: Spellings)
    ensures forall v :: v in Pushed(sp) <==> Among(sp, v)
  {
    var front := PushIf([sp.original, sp.lower], sp.cleaned != sp.lower, sp.cleaned);
    assert forall v :: v in front <==> v == sp.original || v == sp.lower || (sp.cleaned != sp.lower && v == sp.cleaned);
  }

  /** `v` is one of the spellings the scanner tries for `name`. */
  predicate IsNameVariation(name: string, v: string)
  {
    Among(SpellingsOf(name), v)
  }

  /** The variations, sorted and without duplicates: they always include the
      name itself, its lower-case form, and its hyphenated and space-free
      lower-case forms; there are at most six. */
  function NameVariations(name: string): (r: seq<string>)
    ensures StrictlySorted(r)
    ensures forall v :: v in r <==> IsNameVariation(name, v)
    ensures name in r && Lower(name) in r
    ensures Lower(ReplaceAll(name, " ", "-")) in r && Lower(ReplaceAll(name, " ", "")) in r
    ensures |r| <= 6
  {
    PushedAreAmong(SpellingsOf(name));
    SortDedup(Pushed(SpellingsOf(name)))
  }

  /** Any strictly sorted list of exactly the variations is NameVariations:
      the result does not depend on the order the spellings are pushed in. */
  lemma {:induction false} NameVariationsUnique(name: string, v: seq<string>)
    requires StrictlySorted(v)
    requires forall x :: x in v <==> IsNameVariation(name, x)
    ensures v == NameVariations(name)
  {
    StrictlySortedUnique(v, NameVariations(name));
  }

  /** `get_name_variations`: push the spellings, then sort and dedup. */
  method GetNameVariations(name: string) returns (variations: seq<string>)
    ensures variations == NameVariations(name)
  {
    var sp := SpellingsOf(name);
    variations := [name, sp.lower];
    if sp.cleaned != sp.lower {
      variations := variations + [sp.cleaned];
    }
    variations := variations + [sp.hyphenated, sp.joined];
    if sp.withoutVersion != name {
      variations := variations + [sp.lowerWithoutVersion];
    }
    assert variations == Pushed(sp);
    variations := SortDedup(variations);
  }

  // ------------------------------------------------------ rendering findings

  /** Index of the first severity entry whose type mentions "CVSS", or the
      length of the list. */
  function FirstCvss(severities: seq<Severity>): (k: nat)
    ensures k <= |severities|
    ensures forall j :: 0 <= j < k ==> !Contains(severities[j].severityType, "CVSS")
    ensures k < |severities| ==> Contains(severities[k].severityType, "CVSS")
  {
    if severities == [] || Contains(severities[0].severityType, "CVSS") then 0
    else 1 + FirstCvss(severities[1..])
  }

  /** `extract_cvss_info`: the score and the type of the first severity entry
      whose type mentions "CVSS"; (None, None) when there is none. */
  function ExtractCvssInfo(v: Vulnerability): (r: (Option<string>, Option<string>))
    ensures r.1.None? ==> r.0.None?
    ensures r.1.Some? <==> v.severity.Some? && exists j :: 0 <= j < |v.severity.value| && Contains(v.severity.value[j].severityType, "CVSS")
    ensures r.1.Some? ==>
      exists j :: 0 <= j < |v.severity.value| && r == (v.severity.value[j].score, Some(v.severity.value[j].severityType))
        && Contains(v.severity.value[j].severityType, "CVSS")
        && forall i :: 0 <= i < j ==> !Contains(v.severity.value[i].severityType, "CVSS")
  {
    match v.severity
    case None => (None, None)
    case Some(severities) =>
      var k := FirstCvss(severities);
      if k == |severities| then (None, None) else (severities[k].score, Some(severities[k].severityType))
  }

  /** The score line of a finding. */
  function ScoreLine(v: Vulnerability): string
  {
    match ExtractCvssInfo(v).0
    case Some(score) => "CVSS Score: " + score + " (" + ExtractCvssInfo(v).1.GetOr("") + ")"
    case None => "No CVSS Score available"
  }

  /** The score line says "No CVSS Score available" exactly when no CVSS
      score was extracted; that includes a CVSS entry that has no score. */
  lemma {:induction false} ScoreLineWithoutScore(v: Vulnerability)
    ensures ScoreLine(v) == "No CVSS Score available" <==> ExtractCvssInfo(v).0.None?
  {
    if ExtractCvssInfo(v).0.Some? {
      var line := ScoreLine(v);
      assert line[0] == 'C';
      assert "No CVSS Score available"[0] == 'N';
    }
  }

  /** One finding: `{id} - {summary}`, a newline and a tab, the score line. */
  function RenderFinding(v: Vulnerability): string
  {
    v.id + " - " + v.summary.GetOr("No summary available") + "\n\t" + ScoreLine(v)
  }

  /** A finding starts with the vulnerability's id and ends with its score
      line; in between is the summary, or "No summary available". */
  lemma RenderFindingLayout(v: Vulnerability)
    ensures StartsWith(RenderFinding(v), v.id + " - ")
    ensures v.summary.Some? ==> StartsWith(RenderFinding(v), v.id + " - " + v.summary.value + "\n\t")
    ensures var tail := "\n\t" + ScoreLine(v);
      |tail| <= |RenderFinding(v)| && RenderFinding(v)[|RenderFinding(v)| - |tail|..] == tail
    ensures v.summary.None? ==> RenderFinding(v) == v.id + " - No summary available\n\t" + ScoreLine(v)
  {
    var head := v.id + " - ";
    var tail := "\n\t" + ScoreLine(v);
    assert RenderFinding(v) == head + v.summary.GetOr("No summary available") + tail;
    assert RenderFinding(v)[..|head|] == head;
    assert RenderFinding(v)[|RenderFinding(v)| - |tail|..] == tail;
    if v.summary.Some? {
      var shown := head + v.summary.value + "\n\t";
      assert RenderFinding(v) == shown + ScoreLine(v);
      assert RenderFinding(v)[..|shown|] == shown;
    }
  }

  /** One finding per vulnerability, in order. */
  function RenderAll(vulns: seq<Vulnerability>): (r: seq<string>)
    ensures |r| == |vulns|
    ensures forall i :: 0 <= i < |vulns| ==> r[i] == RenderFinding(vulns[i])
  {
    seq(|vulns|, i requires 0 <= i < |vulns| => RenderFinding(vulns[i]))
  }

  // --------------------------------------------------------- one query

  /** The request for a package name in an ecosystem; an empty version is
      left out rather than sent empty. */
  function BuildRequest(name: string, version: string, ecosystem: string): (r: OsvRequest)
    ensures r.package == Some(Package(name, ecosystem))
    ensures r.version.None? <==> version == []
    ensures r.version.Some? ==> r.version.value == version
  {
    OsvRequest(Some(Package(name, ecosystem)), if version == [] then None else Some(version))
  }

  /** What `query_osv_with_ecosystem` returns for a reply: transport and body
      errors propagate, an error status counts as no findings, a decoded
      body gives one finding per vulnerability. */
  function QueryOutcome(reply: OsvReply): (r: Result<seq<string>>)
    ensures r.Err? <==> reply.SendFailed? || reply.Undecodable?
    ensures reply.ErrorStatus? ==> r == Ok([])
    ensures reply.Decoded? ==> r == Ok(RenderAll(reply.vulns))
  {
    match reply
    case SendFailed(e) => Err(e)
    case ErrorStatus(_) => Ok([])
    case Undecodable(e) => Err(e)
    case Decoded(vulns) => Ok(RenderAll(vulns))
  }

  /** A package name and the ecosystem it is looked up in. */
  datatype Target = Target(name: string, ecosystem: string)

  /** The outcome of querying one target. */
  function Attempt(post: OsvRequest -> OsvReply, version: string, t: Target): Result<seq<string>>
  {
    QueryOutcome(post(BuildRequest(t.name, version, t.ecosystem)))
  }

  /** `query_osv_with_ecosystem`. */
  method QueryOsvWithEcosystem(post: OsvRequest -> OsvReply, name: string, version: string, ecosystem: string)
    returns (r: Result<seq<string>>)
    ensures r == Attempt(post, version, Target(name, ecosystem))
    ensures r.Ok? && r.value != [] ==> post(BuildRequest(name, version, ecosystem)).Decoded?
  {
    var query := BuildRequest(name, version, ecosystem);
    var response := post(query);
    match response
    case SendFailed(e) =>
      return Err(e);
    case ErrorStatus(_) =>
      return Ok([]);
    case Undecodable(e) =>
      return Err(e);
    case Decoded(vulns) =>
      if vulns == [] {
        return Ok([]);
      }
      var results := [];
      for i := 0 to |vulns|
        invariant |results| == i
        invariant forall k :: 0 <= k < i ==> results[k] == RenderFinding(vulns[k])
      {
        results := results + [RenderFinding(vulns[i])];
      }
      assert results == RenderAll(vulns);
      return Ok(results);
  }

  // ------------------------------------------------------------ the search

  /** `name` looked up in each of `ecosystems`, in order. */
  function Under(name: string, ecosystems: seq<string>): (r: seq<Target>)
    ensures |r| == |ecosystems|
    ensures forall i :: 0 <= i < |r| ==> r[i] == Target(name, ecosystems[i])
  {
    seq(|ecosystems|, i requires 0 <= i < |ecosystems| => Target(name, ecosystems[i]))
  }

  /** The elements of `s` that are not in `excluded`, in order. */
  function Outside(s: seq<string>, excluded: seq<string>): seq<string>
  {
    if s == [] then []
    else PushIf(Outside(s[..|s| - 1], excluded), s[|s| - 1] !in excluded, s[|s| - 1])
  }

  lemma {:induction false} OutsideMembers(s: seq<string>, excluded: seq<string>)
    ensures forall e :: e in Outside(s, excluded) <==> e in s && e !in excluded
    decreases |s|
  {
    if s != [] {
      OutsideMembers(s[..|s| - 1], excluded);
      assert s == s[..|s| - 1] + [s[|s| - 1]];
    }
  }

  lemma {:induction false} OutsideAppend(a: seq<string>, b: seq<string>, excluded: seq<string>)
    ensures Outside(a + b, excluded) == Outside(a, excluded) + Outside(b, excluded)
    decreases |b|
  {
    if b == [] {
      assert a + b == a;
    } else {
      var front := b[..|b| - 1];
      OutsideAppend(a, front, excluded);
      assert (a + b)[..|a + b| - 1] == a + front;
    }
  }

  /** Filtering one element further along. */
  lemma OutsideStep(s: seq<string>, excluded: seq<string>, i: nat)
    requires i < |s|
    ensures Outside(s[..i + 1], excluded) == PushIf(Outside(s[..i], excluded), s[i] !in excluded, s[i])
  {
    assert s[..i + 1][..i] == s[..i];
  }

  /** A kept element sits in the filtered sequence right after what was kept
      before it. */
  lemma {:induction false} OutsideNext(s: seq<string>, excluded: seq<string>, i: nat)
    requires i < |s| && s[i] !in excluded
    ensures |Outside(s[..i], excluded)| < |Outside(s, excluded)|
    ensures Outside(s, excluded)[|Outside(s[..i], excluded)|] == s[i]
  {
    assert s == s[..i] + ([s[i]] + s[i + 1..]);
    OutsideAppend(s[..i], [s[i]] + s[i + 1..], excluded);
    OutsideAppend([s[i]], s[i + 1..], excluded);
    assert [s[i]][..0] == [];
  }

  /** Each of `names` looked up in every ecosystem of the table. */
  function AcrossCatalog(names: seq<string>): (r: seq<Target>)
    ensures |r| == |ECOSYSTEMS| * |names|
  {
    if names == [] then []
    else AcrossCatalog(names[..|names| - 1]) + Under(names[|names| - 1], ECOSYSTEMS)
  }

  lemma {:induction false} AcrossCatalogAt(names: seq<string>, m: nat, j: nat)
    requires m < |names| && j < |ECOSYSTEMS|
    ensures AcrossCatalog(names)[|ECOSYSTEMS| * m + j] == Target(names[m], ECOSYSTEMS[j])
    decreases |names|
  {
    var front := names[..|names| - 1];
    if m < |names| - 1 {
      AcrossCatalogAt(front, m, j);
      assert |ECOSYSTEMS| * m + j < |ECOSYSTEMS| * |front| by {
        assert |ECOSYSTEMS| * (m + 1) <= |ECOSYSTEMS| * |front|;
      }
    }
  }

  /** The targets `search_vulns_osv` tries for a program called `name`,
      in order, given the ecosystems guessed for it and its name
      variations: the name in each likely ecosystem; the name in each other
      ecosystem of the table; then every variation other than the name and
      its lower-case form, in every ecosystem of the table. */
  function Plan(name: string, lowerName: string, likely: seq<string>, variations: seq<string>): seq<Target>
  {
    Under(name, likely) + Under(name, Outside(ECOSYSTEMS, likely))
      + AcrossCatalog(Outside(variations, [name, lowerName]))
  }

  function Targets(name: string): seq<Target>
  {
    Plan(name, Lower(name), LikelyEcosystems(name), NameVariations(name))
  }

  lemma PlanLength(name: string, lowerName: string, likely: seq<string>, variations: seq<string>)
    ensures |Plan(name, lowerName, likely, variations)| ==
      |likely| + |Outside(ECOSYSTEMS, likely)| + |ECOSYSTEMS| * |Outside(variations, [name, lowerName])|
  {
  }

  /** Where the second strategy's query for ecosystem `i` of the table sits
      in the plan. */
  lemma TargetOfSecondStrategy(name: string, lowerName: string, likely: seq<string>, variations: seq<string>, i: nat)
    requires i < |ECOSYSTEMS| && ECOSYSTEMS[i] !in likely
    ensures |likely| + |Outside(ECOSYSTEMS[..i], likely)| < |Plan(name, lowerName, likely, variations)|
    ensures Plan(name, lowerName, likely, variations)[|likely| + |Outside(ECOSYSTEMS[..i], likely)|] == Target(name, ECOSYSTEMS[i])
  {
    OutsideNext(ECOSYSTEMS, likely, i);
  }

  /** Where the third strategy's query for variation `i` in ecosystem `j`
      sits in the plan. */
  lemma TargetOfThirdStrategy(name: string, lowerName: string, likely: seq<string>, variations: seq<string>, i: nat, j: nat)
    requires i < |variations| && variations[i] !in [name, lowerName] && j < |ECOSYSTEMS|
    ensures
      var before := |likely| + |Outside(ECOSYSTEMS, likely)| + |ECOSYSTEMS| * |Outside(variations[..i], [name, lowerName])|;
      before + j < |Plan(name, lowerName, likely, variations)|
      && Plan(name, lowerName, likely, variations)[before + j] == Target(variations[i], ECOSYSTEMS[j])
  {
    var kept := Outside(variations, [name, lowerName]);
    var m := |Outside(variations[..i], [name, lowerName])|;
    OutsideNext(variations, [name, lowerName], i);
    AcrossCatalogAt(kept, m, j);
    assert |ECOSYSTEMS| * m + j < |ECOSYSTEMS| * |kept| by {
      assert |ECOSYSTEMS| * (m + 1) <= |ECOSYSTEMS| * |kept|;
    }
  }

  /** A non-empty list of findings. */
  predicate IsHit(r: Result<seq<string>>)
  {
    r.Ok? && r.value != []
  }

  /** No target before position `p` yields findings. */
  predicate NoHitBefore(post: OsvRequest -> OsvReply, version: string, targets: seq<Target>, p: nat)
  {
    p <= |targets| && forall k :: 0 <= k < p ==> !IsHit(Attempt(post, version, targets[k]))
  }

  /** One more target that yields nothing. */
  lemma NoHitBeforeNext(post: OsvRequest -> OsvReply, version: string, targets: seq<Target>, p: nat)
    requires NoHitBefore(post, version, targets, p) && p < |targets|
    requires !IsHit(Attempt(post, version, targets[p]))
    ensures NoHitBefore(post, version, targets, p + 1)
  {
  }

  /** The findings of the first target that yields any; a target whose query
      fails or finds nothing is passed over. */
  function FirstHit(post: OsvRequest -> OsvReply, version: string, targets: seq<Target>): (r: Option<seq<string>>)
    ensures r.None? <==> NoHitBefore(post, version, targets, |targets|)
    ensures r.Some? ==> r.value != []
  {
    if targets == [] then None
    else if IsHit(Attempt(post, version, targets[0])) then Some(Attempt(post, version, targets[0]).value)
    else
      assert forall k :: 0 < k < |targets| ==> targets[k] == targets[1..][k - 1];
      FirstHit(post, version, targets[1..])
  }

  /** When the query at position `p` is the first to find anything, its
      findings are the answer, whatever the later queries would give. */
  lemma {:induction false} FirstHitAt(post: OsvRequest -> OsvReply, version: string, targets: seq<Target>, p: nat)
    requires p < |targets| && NoHitBefore(post, version, targets, p)
    requires IsHit(Attempt(post, version, targets[p]))
    ensures FirstHit(post, version, targets) == Some(Attempt(post, version, targets[p]).value)
    decreases p
  {
    if p > 0 {
      assert !IsHit(Attempt(post, version, targets[0]));
      assert forall k :: 0 <= k < p - 1 ==> targets[1..][k] == targets[k + 1];
      FirstHitAt(post, version, targets[1..], p - 1);
    }
  }

  /** The reason given when no ecosystem was guessed and nothing was found. */
  function CheckedElsewhere(name: string): string
  {
    "\nProgram '" + name + "' was checked but not able to verify ecosystem"
  }

  /** The reason given when no ecosystem at all was queried. */
  function NotInKnownEcosystem(name: string): string
  {
    "Program '" + name + "' is not in any known package ecosystem (npm, PyPI, NuGet, etc.). "
      + "This is common for standalone Windows applications."
  }

  /** The decision once the targets are known: the first findings; else Safe
      when some ecosystem was guessed; else the reason. */
  function Decision(post: OsvRequest -> OsvReply, version: string, name: string, likely: seq<string>, targets: seq<Target>): (r: ScanResult)
    ensures r.Vulnerable? ==> r.findings != []
  {
    match FirstHit(post, version, targets)
    case Some(findings) => Vulnerable(findings)
    case None =>
      var checkedAny := likely != [] || targets != [];
      if checkedAny && likely != [] then Safe
      else if checkedAny then Unchecked(CheckedElsewhere(name))
      else Unchecked(NotInKnownEcosystem(name))
  }

  /** What `search_vulns_osv` returns: an error only when the HTTP client
      cannot be built. */
  function SearchOutcome(osv: OsvService, program: InstalledProgram): (r: Result<ScanResult>)
    ensures r.Err? <==> osv.clientError.Some?
    ensures r.Ok? && r.value.Vulnerable? ==> r.value.findings != []
  {
    if osv.clientError.Some? then Err(osv.clientError.value)
    else Ok(Decision(osv.post, program.version.GetOr(""), program.name, LikelyEcosystems(program.name), Targets(program.name)))
  }

  /** The findings of the first hit are those of some target in the list. */
  lemma {:induction false} FirstHitFrom(post: OsvRequest -> OsvReply, version: string, targets: seq<Target>)
    requires FirstHit(post, version, targets).Some?
    ensures exists k ::
      && 0 <= k < |targets| && IsHit(Attempt(post, version, targets[k]))
      && FirstHit(post, version, targets).value == Attempt(post, version, targets[k]).value
  {
    if !IsHit(Attempt(post, version, targets[0])) {
      FirstHitFrom(post, version, targets[1..]);
      var k :| 0 <= k < |targets[1..]| && IsHit(Attempt(post, version, targets[1..][k]))
        && FirstHit(post, version, targets[1..]).value == Attempt(post, version, targets[1..][k]).value;
      assert targets[1..][k] == targets[k + 1];
    }
  }

  /** Some ecosystem is always queried: with none guessed, every ecosystem
      of the table is. */
  lemma PlanNotEmpty(name: string, lowerName: string, likely: seq<string>, variations: seq<string>)
    ensures Plan(name, lowerName, likely, variations) != []
    ensures forall e :: e in ECOSYSTEMS ==> Target(name, e) in Plan(name, lowerName, likely, variations)
  {
    OutsideMembers(ECOSYSTEMS, likely);
    var plan := Plan(name, lowerName, likely, variations);
    var first := Under(name, likely);
    var rest := Outside(ECOSYSTEMS, likely);
    forall e | e in ECOSYSTEMS
      ensures Target(name, e) in plan
    {
      if e in likely {
        var i :| 0 <= i < |likely| && likely[i] == e;
        assert plan[i] == first[i];
      } else {
        var i :| 0 <= i < |rest| && rest[i] == e;
        assert plan[|likely| + i] == Under(name, rest)[i];
      }
    }
  }

  /** The two "not verified" messages are told apart by their first
      character. */
  lemma MessagesDiffer(name: string)
    ensures CheckedElsewhere(name) != NotInKnownEcosystem(name)
  {
    assert CheckedElsewhere(name)[0] == '\n';
    assert NotInKnownEcosystem(name)[0] == 'P';
  }

  /** With a non-empty plan, the decision is findings, Safe, or "checked
      but not able to verify ecosystem". */
  lemma DecisionWithTargets(post: OsvRequest -> OsvReply, version: string, name: string, likely: seq<string>, targets: seq<Target>)
    requires targets != []
    ensures
      var r := Decision(post, version, name, likely, targets);
      r.Vulnerable? || r == Safe || r == Unchecked(CheckedElsewhere(name))
    ensures Decision(post, version, name, likely, targets) != Unchecked(NotInKnownEcosystem(name))
  {
    MessagesDiffer(name);
    if FirstHit(post, version, targets).None? {
      assert Decision(post, version, name, likely, targets) == (if likely != [] then Safe else Unchecked(CheckedElsewhere(name)));
    }
  }

  /** Every answer is an error, findings, Safe, or "checked but not able to
      verify ecosystem": the "not in any known package ecosystem" branch of
      the source can never be taken. */
  lemma NeverNotInKnownEcosystem(osv: OsvService, program: InstalledProgram)
    ensures SearchOutcome(osv, program).Ok? ==>
      var r := SearchOutcome(osv, program).value;
      r.Vulnerable? || r == Safe || r == Unchecked(CheckedElsewhere(program.name))
    ensures SearchOutcome(osv, program) != Ok(Unchecked(NotInKnownEcosystem(program.name)))
  {
    var name := program.name;
    var targets := Targets(name);
    PlanNotEmpty(name, Lower(name), LikelyEcosystems(name), NameVariations(name));
    assert targets != [];
    DecisionWithTargets(osv.post, program.version.GetOr(""), name, LikelyEcosystems(name), targets);
    assert osv.clientError.None? ==>
      SearchOutcome(osv, program) == Ok(Decision(osv.post, program.version.GetOr(""), name, LikelyEcosystems(name), targets));
  }

  /** With targets to try and none of them yielding findings, the decision
      is Safe exactly when some ecosystem was guessed. */
  lemma DecisionWithoutHit(post: OsvRequest -> OsvReply, version: string, name: string, likely: seq<string>, targets: seq<Target>)
    requires targets != [] && FirstHit(post, version, targets) == None
    ensures Decision(post, version, name, likely, targets) == (if likely != [] then Safe else Unchecked(CheckedElsewhere(name)))
  {
  }

  /** A service that never answers with a decodable list yields no hit. */
  lemma SilentServiceNoHit(post: OsvRequest -> OsvReply, version: string, targets: seq<Target>)
    requires forall req :: !post(req).Decoded?
    ensures FirstHit(post, version, targets) == None
  {
    forall k | 0 <= k < |targets|
      ensures !IsHit(Attempt(post, version, targets[k]))
    {
      assert !post(BuildRequest(targets[k].name, version, targets[k].ecosystem)).Decoded?;
    }
  }

  /** When no query finds anything, the program is Safe exactly when some
      ecosystem was guessed for it. */
  lemma NothingFound(osv: OsvService, program: InstalledProgram)
    requires osv.clientError.None?
    requires FirstHit(osv.post, program.version.GetOr(""), Targets(program.name)) == None
    ensures SearchOutcome(osv, program) ==
      Ok(if LikelyEcosystems(program.name) != [] then Safe else Unchecked(CheckedElsewhere(program.name)))
  {
    var name := program.name;
    PlanNotEmpty(name, Lower(name), LikelyEcosystems(name), NameVariations(name));
    DecisionWithoutHit(osv.post, program.version.GetOr(""), name, LikelyEcosystems(name), Targets(name));
  }

  /** Failed queries are passed over, not reported: when the service never
      answers with a decodable list, a program with a guessed ecosystem is
      reported Safe. */
  lemma UnreachableServiceReportsSafe(osv: OsvService, program: InstalledProgram)
    requires osv.clientError.None?
    requires forall req :: !osv.post(req).Decoded?
    ensures SearchOutcome(osv, program) ==
      Ok(if LikelyEcosystems(program.name) != [] then Safe else Unchecked(CheckedElsewhere(program.name)))
  {
    SilentServiceNoHit(osv.post, program.version.GetOr(""), Targets(program.name));
    NothingFound(osv, program);
  }

  /** Findings in a decision are the rendering of the decoded reply to the
      query for one of the targets. */
  lemma DecisionFindings(post: OsvRequest -> OsvReply, version: string, name: string, likely: seq<string>, targets: seq<Target>)
    requires Decision(post, version, name, likely, targets).Vulnerable?
    ensures exists t ::
      && t in targets
      && post(BuildRequest(t.name, version, t.ecosystem)).Decoded?
      && Decision(post, version, name, likely, targets).findings
         == RenderAll(post(BuildRequest(t.name, version, t.ecosystem)).vulns)
  {
    FirstHitFrom(post, version, targets);
    var k :| 0 <= k < |targets| && IsHit(Attempt(post, version, targets[k]))
      && FirstHit(post, version, targets).value == Attempt(post, version, targets[k]).value;
    assert targets[k] in targets;
  }

  /** Reported findings are the rendering of the decoded reply to one of the
      queries the search makes. */
  lemma FindingsComeFromAQuery(osv: OsvService, program: InstalledProgram)
    requires SearchOutcome(osv, program).Ok? && SearchOutcome(osv, program).value.Vulnerable?
    ensures exists t ::
      && t in Targets(program.name)
      && osv.post(BuildRequest(t.name, program.version.GetOr(""), t.ecosystem)).Decoded?
      && SearchOutcome(osv, program).value.findings
         == RenderAll(osv.post(BuildRequest(t.name, program.version.GetOr(""), t.ecosystem)).vulns)
  {
    var version := program.version.GetOr("");
    var targets := Targets(program.name);
    var d := Decision(osv.post, version, program.name, LikelyEcosystems(program.name), targets);
    assert SearchOutcome(osv, program) == Ok(d);
    DecisionFindings(osv.post, version, program.name, LikelyEcosystems(program.name), targets);
    var t :| t in targets && osv.post(BuildRequest(t.name, version, t.ecosystem)).Decoded?
      && d.findings == RenderAll(osv.post(BuildRequest(t.name, version, t.ecosystem)).vulns);
    assert t in Targets(program.name);
  }

  /** The plan starts with the name in the first guessed ecosystem. */
  lemma PlanFirst(name: string, lowerName: string, likely: seq<string>, variations: seq<string>)
    requires likely != []
    ensures Plan(name, lowerName, likely, variations) != []
    ensures Plan(name, lowerName, likely, variations)[0] == Target(name, likely[0])
  {
  }

  /** A hit at the first target decides. */
  lemma DecisionFirstTarget(post: OsvRequest -> OsvReply, version: string, name: string, likely: seq<string>, targets: seq<Target>)
    requires targets != [] && IsHit(Attempt(post, version, targets[0]))
    ensures Decision(post, version, name, likely, targets) == Vulnerable(Attempt(post, version, targets[0]).value)
  {
    FirstHitAt(post, version, targets, 0);
  }

  /** A hit in the first guessed ecosystem is the answer, whatever the other
      queries would give. */
  lemma FirstLikelyHitWins(osv: OsvService, program: InstalledProgram)
    requires osv.clientError.None? && LikelyEcosystems(program.name) != []
    requires IsHit(Attempt(osv.post, program.version.GetOr(""), Target(program.name, LikelyEcosystems(program.name)[0])))
    ensures SearchOutcome(osv, program) ==
      Ok(Vulnerable(Attempt(osv.post, program.version.GetOr(""), Target(program.name, LikelyEcosystems(program.name)[0])).value))
  {
    var name := program.name;
    PlanFirst(name, Lower(name), LikelyEcosystems(name), NameVariations(name));
    DecisionFirstTarget(osv.post, program.version.GetOr(""), name, LikelyEcosystems(name), Targets(name));
  }

  /** Strategy 1 of `search_vulns_osv`: the name in each likely ecosystem,
      in order; the first non-empty list of findings ends the search. */
  method SearchLikely(post: OsvRequest -> OsvReply, version: string, name: string, likely: seq<string>,
                      ghost lowerName: string, ghost variations: seq<string>)
    returns (hit: Option<seq<string>>)
    ensures hit.Some? ==> hit == FirstHit(post, version, Plan(name, lowerName, likely, variations))
    ensures hit.None? ==> NoHitBefore(post, version, Plan(name, lowerName, likely, variations), |likely|)
  {
    ghost var targets := Plan(name, lowerName, likely, variations);
    for i := 0 to |likely|
      invariant NoHitBefore(post, version, targets, i)
    {
      assert targets[i] == Target(name, likely[i]);
      var results := QueryOsvWithEcosystem(post, name, version, likely[i]);
      if results.Ok? && results.value != [] {
        FirstHitAt(post, version, targets, i);
        return Some(results.value);
      }
      NoHitBeforeNext(post, version, targets, i);
    }
    return None;
  }

  /** Strategy 2: the name in each ecosystem of the table that was not
      guessed; `checked` tells whether any query was made. */
  method SearchCatalog(post: OsvRequest -> OsvReply, version: string, name: string, likely: seq<string>,
                       ghost lowerName: string, ghost variations: seq<string>)
    returns (hit: Option<seq<string>>, checked: bool)
    requires NoHitBefore(post, version, Plan(name, lowerName, likely, variations), |likely|)
    ensures hit.Some? ==> hit == FirstHit(post, version, Plan(name, lowerName, likely, variations))
    ensures hit.None? ==> checked == (Outside(ECOSYSTEMS, likely) != [])
    ensures hit.None? ==>
      NoHitBefore(post, version, Plan(name, lowerName, likely, variations), |likely| + |Outside(ECOSYSTEMS, likely)|)
  {
    ghost var targets := Plan(name, lowerName, likely, variations);
    checked := false;
    ghost var p: nat := |likely|;
    for i := 0 to |ECOSYSTEMS|
      invariant p == |likely| + |Outside(ECOSYSTEMS[..i], likely)|
      invariant NoHitBefore(post, version, targets, p)
      invariant checked == (p > |likely|)
    {
      var ecosystem := ECOSYSTEMS[i];
      OutsideStep(ECOSYSTEMS, likely, i);
      if ecosystem in likely {
        continue;
      }
      checked := true;
      TargetOfSecondStrategy(name, lowerName, likely, variations, i);
      var results := QueryOsvWithEcosystem(post, name, version, ecosystem);
      if results.Ok? && results.value != [] {
        FirstHitAt(post, version, targets, p);
        return Some(results.value), checked;
      }
      NoHitBeforeNext(post, version, targets, p);
      p := p + 1;
    }
    assert ECOSYSTEMS[..|ECOSYSTEMS|] == ECOSYSTEMS;
    return None, checked;
  }

  /** Strategy 3 for one variation: the variation in every ecosystem of
      the table, in order. */
  method SearchVariationEverywhere(post: OsvRequest -> OsvReply, version: string, name: string, lowerName: string,
                                   ghost likely: seq<string>, variations: seq<string>, i: nat, ghost before: nat)
    returns (hit: Option<seq<string>>)
    requires i < |variations| && variations[i] !in [name, lowerName]
    requires before == |likely| + |Outside(ECOSYSTEMS, likely)| + |ECOSYSTEMS| * |Outside(variations[..i], [name, lowerName])|
    requires NoHitBefore(post, version, Plan(name, lowerName, likely, variations), before)
    ensures hit.Some? ==> hit == FirstHit(post, version, Plan(name, lowerName, likely, variations))
    ensures hit.None? ==> NoHitBefore(post, version, Plan(name, lowerName, likely, variations), before + |ECOSYSTEMS|)
  {
    ghost var targets := Plan(name, lowerName, likely, variations);
    for j := 0 to |ECOSYSTEMS|
      invariant NoHitBefore(post, version, targets, before + j)
    {
      TargetOfThirdStrategy(name, lowerName, likely, variations, i, j);
      var results := QueryOsvWithEcosystem(post, variations[i], version, ECOSYSTEMS[j]);
      if results.Ok? && results.value != [] {
        FirstHitAt(post, version, targets, before + j);
        return Some(results.value);
      }
      NoHitBeforeNext(post, version, targets, before + j);
    }
    return None;
  }

  /** Strategy 3: every variation other than the name and its lower-case
      form, in every ecosystem of the table; `checked` tells whether any
      query was made. */
  method SearchVariations(post: OsvRequest -> OsvReply, version: string, name: string, lowerName: string,
                          ghost likely: seq<string>, variations: seq<string>)
    returns (hit: Option<seq<string>>, checked: bool)
    requires NoHitBefore(post, version, Plan(name, lowerName, likely, variations), |likely| + |Outside(ECOSYSTEMS, likely)|)
    ensures hit.Some? ==> hit == FirstHit(post, version, Plan(name, lowerName, likely, variations))
    ensures hit.None? ==> checked == (Outside(variations, [name, lowerName]) != [])
    ensures hit.None? ==> FirstHit(post, version, Plan(name, lowerName, likely, variations)) == None
  {
    ghost var targets := Plan(name, lowerName, likely, variations);
    ghost var skipped := [name, lowerName];
    ghost var start := |likely| + |Outside(ECOSYSTEMS, likely)|;
    checked := false;
    ghost var p: nat := start;
    for i := 0 to |variations|
      invariant p == start + |ECOSYSTEMS| * |Outside(variations[..i], skipped)|
      invariant NoHitBefore(post, version, targets, p)
      invariant checked == (p > start)
    {
      var nameVar := variations[i];
      OutsideStep(variations, skipped, i);
      if nameVar == name || nameVar == lowerName {
        continue;
      }
      checked := true;
      hit := SearchVariationEverywhere(post, version, name, lowerName, likely, variations, i, p);
      if hit.Some? {
        return hit, checked;
      }
      p := p + |ECOSYSTEMS|;
    }
    assert variations[..|variations|] == variations;
    PlanLength(name, lowerName, likely, variations);
    return None, checked;
  }

  /** `search_vulns_osv`: the three strategies in turn, each failed query
      skipped, the first non-empty list of findings returned at once; then
      Safe, or the reason nothing could be said. */
  method SearchVulnsOsv(osv: OsvService, program: InstalledProgram) returns (r: Result<ScanResult>)
    ensures r == SearchOutcome(osv, program)
  {
    if osv.clientError.Some? {
      return Err(osv.clientError.value);
    }
    var name := program.name;
    var version := program.version.GetOr("");
    var lowerName := Lower(name);
    ghost var variations := NameVariations(name);

    var likelyEcosystems := GuessEcosystems(name);
    var checkLikelyEcosystem := likelyEcosystems != [];
    var checkedAnyEcosystem := checkLikelyEcosystem;
    ghost var targets := Plan(name, lowerName, likelyEcosystems, variations);
    assert targets == Targets(name);

    var hit := SearchLikely(osv.post, version, name, likelyEcosystems, lowerName, variations);
    if hit.Some? {
      return Ok(Vulnerable(hit.value));
    }
    var checked;
    hit, checked := SearchCatalog(osv.post, version, name, likelyEcosystems, lowerName, variations);
    if hit.Some? {
      return Ok(Vulnerable(hit.value));
    }
    checkedAnyEcosystem := checkedAnyEcosystem || checked;
    var nameVariations := GetNameVariations(name);
    hit, checked := SearchVariations(osv.post, version, name, lowerName, likelyEcosystems, nameVariations);
    if hit.Some? {
      return Ok(Vulnerable(hit.value));
    }
    checkedAnyEcosystem := checkedAnyEcosystem || checked;
    PlanLength(name, lowerName, likelyEcosystems, variations);

    if checkedAnyEcosystem && checkLikelyEcosystem {
      return Ok(Safe);
    } else if checkedAnyEcosystem {
      return Ok(Unchecked(CheckedElsewhere(name)));
    } else {
      return Ok(Unchecked(NotInKnownEcosystem(name)));
    }
  }
}
