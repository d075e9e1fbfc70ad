/** The NVD side of the scanner: the keyword-search URL, what happens to the
    body that comes back, and the one line of text rendered per CVE. Fetching
    the body and decoding its JSON are oracles. */
module NvdQuery {

  import opened Wrappers
  import opened Text

  // ------------------------------------------------------------ wire types

  /** The CVSS v3.1 figures; the base score (an `f64`) is kept as the text
      it is displayed as. */
  datatype CvssData = CvssData(baseScore: string, vectorString: string)

  datatype CvssMetricV31 = CvssMetricV31(cvssData: CvssData)

  datatype Metrics = Metrics(cvssMetricV31: Option<seq<CvssMetricV31>>)

  datatype Description = Description(value: string)

  datatype CveData = CveData(id: string, descriptions: seq<Description>, metrics: Option<Metrics>)

  datatype NvdVulnerability = NvdVulnerability(cve: CveData)

  /** The decoded body of a keyword search. */
  datatype NvdResponse = NvdResponse(vulnerabilities: Option<seq<NvdVulnerability>>)

  /** What a GET of the search URL comes back with: a transport error (or a
      body that cannot be read as text), or the body. */
  datatype NvdReply = Unreachable(reason: string) | Body(text: string)

  /** The NVD service as the scanner sees it: `get` answers a URL, `parse`
      is the JSON decoder, and `overruns` tells whether the whole search for
      a query takes longer than the 15 seconds the caller allows. */
  datatype NvdService = NvdService(
    get: string -> NvdReply,
    parse: string -> Result<NvdResponse>,
    overruns: string -> bool)

  // ----------------------------------------------------------------- URL

  const ENDPOINT: string := "https://services.nvd.nist.gov/rest/json/cves/2.0?keywordSearch="

  /** The search URL: the endpoint followed by the query as it is, with no
      percent-encoding. */
  function SearchUrl(query: string): string
  {
    ENDPOINT + query
  }

  /** The query can be read back from the URL: it is everything after the
      endpoint, character for character. */
  lemma SearchUrlKeepsQuery(query: string)
    ensures StartsWith(SearchUrl(query), ENDPOINT)
    ensures SearchUrl(query)[|ENDPOINT|..] == query
  {
    assert SearchUrl(query)[..|ENDPOINT|] == ENDPOINT;
  }

  /** Different queries give different URLs. */
  lemma SearchUrlInjective(a: string, b: string)
    requires SearchUrl(a) == SearchUrl(b)
    ensures a == b
  {
    SearchUrlKeepsQuery(a);
    SearchUrlKeepsQuery(b);
  }

  // ----------------------------------------------------------- rendering

  /** The first description's text, or the empty string. */
  function FirstDescription(cve: CveData): string
  {
    if cve.descriptions == [] then "" else cve.descriptions[0].value
  }

  /** The score text: built from the first CVSS v3.1 metric, whichever of
      `metrics`, `cvssMetricV31` or its first entry is missing otherwise. */
  function ScoreText(cve: CveData): string
  {
    match cve.metrics
    case Some(metrics) =>
      (match metrics.cvssMetricV31
       case Some(v31) =>
         if v31 != [] then
           "Base score: " + v31[0].cvssData.baseScore + "\n\tVectorString: " + v31[0].cvssData.vectorString
         else "No CVSS Score"
       case None => "No CVSS Score")
    case None => "No CVSS Score"
  }

  /** The CVSS figures that are shown, if any: those of the first entry of
      the v3.1 metrics list. */
  function ShownCvss(cve: CveData): Option<CvssData>
  {
    if cve.metrics.Some? && cve.metrics.value.cvssMetricV31.Some? && cve.metrics.value.cvssMetricV31.value != []
    then Some(cve.metrics.value.cvssMetricV31.value[0].cvssData)
    else None
  }

  /** The score text shows the first v3.1 figures when there are any, and is
      the fallback exactly when there are none. */
  lemma ScoreTextShowsFirstMetric(cve: CveData)
    ensures ShownCvss(cve).Some? ==>
      ScoreText(cve) == "Base score: " + ShownCvss(cve).value.baseScore + "\n\tVectorString: " + ShownCvss(cve).value.vectorString
    ensures ScoreText(cve) == "No CVSS Score" <==> ShownCvss(cve).None?
  {
    if ShownCvss(cve).Some? {
      assert ScoreText(cve)[0] == 'B';
    }
  }

  /** One CVE as the scanner lists it. */
  function RenderCve(v: NvdVulnerability): string
  {
    v.cve.id + " - " + FirstDescription(v.cve) + " \n\t " + ScoreText(v.cve)
  }

  /** A CVE's line starts with its id and ends with its score text; in
      between is the first description, or nothing. */
  lemma RenderCveLayout(v: NvdVulnerability)
    ensures StartsWith(RenderCve(v), v.cve.id + " - ")
    ensures StartsWith(RenderCve(v), v.cve.id + " - " + FirstDescription(v.cve) + " \n\t ")
    ensures v.cve.descriptions != [] ==> FirstDescription(v.cve) == v.cve.descriptions[0].value
    ensures var tail := " \n\t " + ScoreText(v.cve);
      |tail| <= |RenderCve(v)| && RenderCve(v)[|RenderCve(v)| - |tail|..] == tail
    ensures v.cve.descriptions == [] ==> RenderCve(v) == v.cve.id + " -  \n\t " + ScoreText(v.cve)
  {
    var head := v.cve.id + " - ";
    var tail := " \n\t " + ScoreText(v.cve);
    assert RenderCve(v) == head + FirstDescription(v.cve) + tail;
    assert RenderCve(v)[..|head|] == head;
    assert RenderCve(v)[|RenderCve(v)| - |tail|..] == tail;
    var shown := head + FirstDescription(v.cve) + " \n\t ";
    assert RenderCve(v) == shown + ScoreText(v.cve);
    assert RenderCve(v)[..|shown|] == shown;
  }

  /** The lines for a list of CVEs: one each, in order. */
  function RenderCves(vulns: seq<NvdVulnerability>): (r: seq<string>)
    ensures |r| == |vulns|
    ensures forall i :: 0 <= i < |vulns| ==> r[i] == RenderCve(vulns[i])
  {
    seq(|vulns|, i requires 0 <= i < |vulns| => RenderCve(vulns[i]))
  }

  // -------------------------------------------------------------- search

  /** What `search_vulns_nvd` returns for a query. */
  function NvdOutcome(nvd: NvdService, query: string): Result<seq<string>>
  {
    match nvd.get(SearchUrl(query))
    case Unreachable(reason) => Err(reason)
    case Body(text) =>
      match nvd.parse(text)
      case Err(e) => Err(e)
      case Ok(resp) =>
        match resp.vulnerabilities
        case None => Ok([])
        case Some(vulns) => Ok(RenderCves(vulns))
  }

  /** The outcome case by case: a failed fetch or a body that does not
      decode is an error; a response without a `vulnerabilities` list is an
      empty list; otherwise one line per CVE, in the response's order. */
  lemma NvdOutcomeCases(nvd: NvdService, query: string)
    ensures nvd.get(SearchUrl(query)).Unreachable? ==> NvdOutcome(nvd, query).Err?
    ensures nvd.get(SearchUrl(query)).Body? && nvd.parse(nvd.get(SearchUrl(query)).text).Err? ==>
      NvdOutcome(nvd, query) == Err(nvd.parse(nvd.get(SearchUrl(query)).text).error)
    ensures NvdOutcome(nvd, query).Ok? <==>
      nvd.get(SearchUrl(query)).Body? && nvd.parse(nvd.get(SearchUrl(query)).text).Ok?
    ensures NvdOutcome(nvd, query).Ok? ==>
      var resp := nvd.parse(nvd.get(SearchUrl(query)).text).value;
      && (resp.vulnerabilities.None? ==> NvdOutcome(nvd, query).value == [])
      && (resp.vulnerabilities.Some? ==>
            |NvdOutcome(nvd, query).value| == |resp.vulnerabilities.value|
            && forall i :: 0 <= i < |resp.vulnerabilities.value| ==>
                 NvdOutcome(nvd, query).value[i] == RenderCve(resp.vulnerabilities.value[i]))
  {
  }

  /** The lines written to standard error when the body does not decode. */
  function ParseDiagnostics(url: string, text: string, error: string): seq<string>
  {
    ["\n--- NVD API ERROR ---", "URL: " + url, "Raw body:\n" + text, "JSON ERROR: " + error]
  }

  /** `search_vulns_nvd`: fetch, decode, and render each CVE in turn;
      `diagnostics` are the lines reported on standard error. */
  method SearchVulnsNvd(nvd: NvdService, query: string) returns (r: Result<seq<string>>, diagnostics: seq<string>)
    ensures r == NvdOutcome(nvd, query)
    ensures diagnostics != [] <==> nvd.get(SearchUrl(query)).Body? && nvd.parse(nvd.get(SearchUrl(query)).text).Err?
    ensures diagnostics != [] ==>
      "URL: " + SearchUrl(query) in diagnostics && "Raw body:\n" + nvd.get(SearchUrl(query)).text in diagnostics
  {
    diagnostics := [];
    var url := SearchUrl(query);
    var reply := nvd.get(url);
    if reply.Unreachable? {
      return Err(reply.reason), diagnostics;
    }
    var text := reply.text;
    var parsed := nvd.parse(text);
    if parsed.Err? {
      diagnostics := ParseDiagnostics(url, text, parsed.error);
      return Err(parsed.error), diagnostics;
    }
    var resp := parsed.value;
    if resp.vulnerabilities.None? {
      return Ok([]), diagnostics;
    }
    var vulns := resp.vulnerabilities.value;
    var list: seq<string> := [];
    for i := 0 to |vulns|
      invariant |list| == i
      invariant forall k :: 0 <= k < i ==> list[k] == RenderCve(vulns[k])
    {
      list := list + [RenderCve(vulns[i])];
    }
    assert list == RenderCves(vulns);
    return Ok(list), diagnostics;
  }
}
