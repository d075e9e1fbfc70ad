/** The three batch scans of the scanner's command line (OSV only, NVD only,
    and the hybrid OSV-then-NVD scan), the NVD call with its time limit, and
    the report file they all finish by writing. Each scan is a loop that
    folds the outcome for each program into counters and a list of
    findings; the pauses between calls are recorded in a trace of actions. */
module Scan {

  import opened Wrappers
  import opened Text
  import opened Programs
  import opened OsvQuery
  import opened NvdQuery

  // -------------------------------------------------------------- actions

  /** What a scan does to the outside world, in order. */
  datatype Action =
    | OsvSearch(program: string)     // `search_vulns_osv` for a program
    | Pause(millis: nat)             // a sleep
    | NvdSearch(query: string)       // `check_nvd_with_timeout` with this query

  /** How many NVD searches a trace holds. */
  function NvdCalls(trace: seq<Action>): nat
  {
    if trace == [] then 0
    else NvdCalls(trace[..|trace| - 1]) + (if trace[|trace| - 1].NvdSearch? then 1 else 0)
  }

  lemma {:induction false} NvdCallsAppend(a: seq<Action>, b: seq<Action>)
    ensures NvdCalls(a + b) == NvdCalls(a) + NvdCalls(b)
    decreases |b|
  {
    if b == [] {
      assert a + b == a;
    } else {
      NvdCallsAppend(a, b[..|b| - 1]);
      assert (a + b)[..|a + b| - 1] == a + b[..|b| - 1];
    }
  }

  // ---------------------------------------------------------- the NVD call

  const TIMEOUT_MESSAGE: string := "NVD request timed out after 15 seconds"

  /** The keyword query for a program: its name, a space, and its version
      (or nothing). */
  function NvdQueryText(program: InstalledProgram): string
  {
    program.name + " " + program.version.GetOr("")
  }

  /** The query starts with the name and a space; what follows is the
      version, so a program without one leaves a trailing space. */
  lemma NvdQueryTextParts(program: InstalledProgram)
    ensures StartsWith(NvdQueryText(program), program.name + " ")
    ensures NvdQueryText(program)[|program.name| + 1..] == program.version.GetOr("")
    ensures program.version.None? ==> NvdQueryText(program) == program.name + " "
  {
    var q := NvdQueryText(program);
    assert q[..|program.name| + 1] == program.name + " ";
  }

  /** What `check_nvd_with_timeout` returns: the NVD search for the
      program's query, or an error when it runs past 15 seconds. */
  function NvdCheck(nvd: NvdService, program: InstalledProgram): (r: Result<seq<string>>)
    ensures nvd.overruns(NvdQueryText(program)) ==> r == Err(TIMEOUT_MESSAGE)
    ensures !nvd.overruns(NvdQueryText(program)) ==> r == NvdOutcome(nvd, NvdQueryText(program))
  {
    var query := NvdQueryText(program);
    if nvd.overruns(query) then Err(TIMEOUT_MESSAGE) else NvdOutcome(nvd, query)
  }

  /** `check_nvd_with_timeout` */
  method CheckNvdWithTimeout(nvd: NvdService, program: InstalledProgram) returns (r: Result<seq<string>>)
    ensures r == NvdCheck(nvd, program)
  {
    var version := program.version.GetOr("");
    var query := program.name + " " + version;
    if nvd.overruns(query) {
      return Err(TIMEOUT_MESSAGE);
    }
    var diagnostics;
    r, diagnostics := SearchVulnsNvd(nvd, query);
  }

  // ---------------------------------------------------------- the report

  /** The report's text: each line followed by a newline. */
  function Report(lines: seq<string>): string
  {
    if lines == [] then "" else lines[0] + "\n" + Report(lines[1..])
  }

  lemma {:induction false} ReportAppend(lines: seq<string>, line: string)
    ensures Report(lines + [line]) == Report(lines) + line + "\n"
    decreases |lines|
  {
    if lines == [] {
      assert [] + [line] == [line];
    } else {
      assert (lines + [line])[1..] == lines[1..] + [line];
      ReportAppend(lines[1..], line);
    }
  }

  /** The report reads back, line by line, as the list it was written from,
      when no entry holds a line break of its own. */
  lemma {:induction false} ReportReadsBack(lines: seq<string>)
    requires forall i :: 0 <= i < |lines| ==> '\n' !in lines[i]
    requires forall i :: 0 <= i < |lines| ==> lines[i] == [] || lines[i][|lines[i]| - 1] != '\r'
    ensures Lines(Report(lines)) == lines
    decreases |lines|
  {
    if lines != [] {
      ReportReadsBack(lines[1..]);
      LinesOfFirstLine(lines[0], Report(lines[1..]));
    }
  }

  /** Where entry `i` starts in the report: after each earlier entry and
      its newline. */
  function Offset(lines: seq<string>, i: nat): nat
    requires i <= |lines|
  {
    if i == 0 then 0 else |lines[0]| + 1 + Offset(lines[1..], i - 1)
  }

  /** The report is exactly as long as the entries and their newlines. */
  lemma {:induction false} ReportLength(lines: seq<string>)
    ensures |Report(lines)| == Offset(lines, |lines|)
    decreases |lines|
  {
    if lines != [] {
      ReportLength(lines[1..]);
    }
  }

  /** Every entry, whatever characters it holds (the rendered findings hold
      line breaks of their own), stands in the report at its offset, followed
      by a newline. */
  lemma {:induction false} ReportHoldsEachEntry(lines: seq<string>, i: nat)
    requires i < |lines|
    ensures Offset(lines, i) + |lines[i]| < |Report(lines)|
    ensures Report(lines)[Offset(lines, i)..Offset(lines, i) + |lines[i]|] == lines[i]
    ensures Report(lines)[Offset(lines, i) + |lines[i]|] == '\n'
    decreases i
  {
    var tail := Report(lines[1..]);
    assert Report(lines) == lines[0] + "\n" + tail;
    if i > 0 {
      ReportHoldsEachEntry(lines[1..], i - 1);
      assert lines[1..][i - 1] == lines[i];
      assert Report(lines)[|lines[0]| + 1..] == tail;
    }
  }

  /** The file `vulnerable.txt`. */
  class ReportFile {
    var content: string

    constructor (existing: string)
      ensures content == existing
    {
      content := existing;
    }

    /** `write_file`: the old file is removed, then each entry is appended
        with a newline. */
    method WriteFile(vulns: seq<string>)
      modifies this
      ensures content == Report(vulns)
    {
      content := "";
      for i := 0 to |vulns|
        invariant content == Report(vulns[..i])
      {
        ReportAppend(vulns[..i], vulns[i]);
        assert vulns[..i + 1] == vulns[..i] + [vulns[i]];
        content := content + vulns[i] + "\n";
      }
      assert vulns[..|vulns|] == vulns;
    }
  }

  // ------------------------------------------------------- pacing of NVD

  /** Every NVD search but the first comes right after a 6-second pause,
      and every pause comes right before an NVD search. */
  predicate Paced(trace: seq<Action>)
  {
    && (forall k :: 0 <= k < |trace| && trace[k].NvdSearch? ==>
          (k > 0 && trace[k - 1] == Pause(6000) <==> NvdCalls(trace[..k]) > 0))
    && (forall k :: 0 <= k < |trace| && trace[k].Pause? ==> k + 1 < |trace| && trace[k + 1].NvdSearch?)
  }

  lemma PacedOsvSearch(trace: seq<Action>, name: string)
    requires Paced(trace)
    ensures Paced(trace + [OsvSearch(name)])
  {
    var t := trace + [OsvSearch(name)];
    forall k | 0 <= k < |trace|
      ensures t[k] == trace[k] && t[..k] == trace[..k]
    {
    }
    assert t[|trace|].OsvSearch?;
  }

  /** An NVD search after an OSV search, with the pause the hybrid scan puts
      before every NVD search but the first, keeps the trace paced. */
  lemma {:induction false} PacedNvdSearch(trace: seq<Action>, query: string)
    requires Paced(trace) && trace != [] && trace[|trace| - 1].OsvSearch?
    ensures Paced((if NvdCalls(trace) > 0 then trace + [Pause(6000)] else trace) + [NvdSearch(query)])
  {
    var before := if NvdCalls(trace) > 0 then trace + [Pause(6000)] else trace;
    var t := before + [NvdSearch(query)];
    forall k | 0 <= k < |trace|
      ensures t[k] == trace[k] && t[..k] == trace[..k]
    {
    }
    var m := |before|;
    assert t[..m] == before;
    NvdCallsAppend(trace, [Pause(6000)]);
    assert NvdCalls([Pause(6000)]) == 0 by {
      assert [Pause(6000)][..0] == [];
    }
    forall k | 0 <= k < |t| && t[k].NvdSearch?
      ensures k > 0 && t[k - 1] == Pause(6000) <==> NvdCalls(t[..k]) > 0
    {
      if k < |trace| {
        assert t[k] == trace[k];
        if k > 0 {
          assert t[k - 1] == trace[k - 1];
        }
      }
    }
    forall k | 0 <= k < |t| && t[k].Pause?
      ensures k + 1 < |t| && t[k + 1].NvdSearch?
    {
      if k < |trace| {
        assert t[k] == trace[k];
        if k + 1 < |trace| {
          assert t[k + 1] == trace[k + 1];
        }
      }
    }
  }

  // ------------------------------------------------------------ hybrid

  /** The counters, the findings list and the trace of `hybrid_scan`. */
  datatype HybridRun = HybridRun(
    scanned: nat, vulnerable: nat, safe: nat, nvdChecked: nat,
    findings: seq<string>, trace: seq<Action>)

  /** An OSV answer that settles a program: Vulnerable or Safe. */
  predicate SettledByOsv(o: Result<ScanResult>)
  {
    o.Ok? && (o.value.Vulnerable? || o.value.Safe?)
  }

  /** One program of the hybrid scan, given its OSV and NVD answers. A
      program OSV settles is counted and skipped (its findings are not kept);
      any other goes to NVD, after a pause unless it is the first to. */
  function HybridStep(run: HybridRun, program: InstalledProgram, osvResult: Result<ScanResult>, nvdResult: Result<seq<string>>): HybridRun
  {
    var run := run.(scanned := run.scanned + 1, trace := run.trace + [OsvSearch(program.name)]);
    if osvResult.Ok? && osvResult.value.Vulnerable? then run.(vulnerable := run.vulnerable + 1)
    else if osvResult.Ok? && osvResult.value.Safe? then run.(safe := run.safe + 1)
    else
      var nvdChecked := run.nvdChecked + 1;
      var paused := if nvdChecked > 1 then run.trace + [Pause(6000)] else run.trace;
      var run := run.(nvdChecked := nvdChecked, trace := paused + [NvdSearch(NvdQueryText(program))]);
      if nvdResult.Ok? && nvdResult.value == [] then run.(safe := run.safe + 1)
      else if nvdResult.Ok? then run.(vulnerable := run.vulnerable + 1, findings := run.findings + nvdResult.value)
      else run
  }

  /** The state of the hybrid scan after `programs`. */
  function HybridFold(search: InstalledProgram -> Result<ScanResult>, nvd: NvdService, programs: seq<InstalledProgram>): HybridRun
  {
    if programs == [] then HybridRun(0, 0, 0, 0, [], [])
    else
      var program := programs[|programs| - 1];
      HybridStep(HybridFold(search, nvd, programs[..|programs| - 1]), program, search(program), NvdCheck(nvd, program))
  }

  /** `hybrid_scan`: OSV first for each program, NVD for those OSV does not
      settle; then the report is written. */
  method HybridScan(search: InstalledProgram -> Result<ScanResult>, nvd: NvdService, programs: seq<InstalledProgram>, report: ReportFile)
    returns (run: HybridRun)
    modifies report
    ensures run == HybridFold(search, nvd, programs)
    ensures report.content == Report(run.findings)
  {
    var vulnerableCount := 0;
    var safeCount := 0;
    var nvdCheckedCount := 0;
    var scannedCount := 0;
    var vulnerablePrograms: seq<string> := [];
    var trace: seq<Action> := [];
    for i := 0 to |programs|
      invariant HybridRun(scannedCount, vulnerableCount, safeCount, nvdCheckedCount, vulnerablePrograms, trace)
        == HybridFold(search, nvd, programs[..i])
    {
      var program := programs[i];
      assert programs[..i + 1][..i] == programs[..i];
      assert HybridFold(search, nvd, programs[..i + 1])
        == HybridStep(HybridFold(search, nvd, programs[..i]), program, search(program), NvdCheck(nvd, program));
      scannedCount := scannedCount + 1;
      trace := trace + [OsvSearch(program.name)];
      var osvResult := search(program);
      if osvResult.Ok? && osvResult.value.Vulnerable? {
        vulnerableCount := vulnerableCount + 1;
        continue;
      }
      if osvResult.Ok? && osvResult.value.Safe? {
        safeCount := safeCount + 1;
        continue;
      }
      nvdCheckedCount := nvdCheckedCount + 1;
      if nvdCheckedCount > 1 {
        trace := trace + [Pause(6000)];
      }
      trace := trace + [NvdSearch(NvdQueryText(program))];
      var nvdResult := CheckNvdWithTimeout(nvd, program);
      if nvdResult.Ok? {
        if nvdResult.value == [] {
          safeCount := safeCount + 1;
        } else {
          vulnerableCount := vulnerableCount + 1;
          vulnerablePrograms := vulnerablePrograms + nvdResult.value;
        }
      }
    }
    assert programs[..|programs|] == programs;
    report.WriteFile(vulnerablePrograms);
    run := HybridRun(scannedCount, vulnerableCount, safeCount, nvdCheckedCount, vulnerablePrograms, trace);
  }

  /** How many of `programs` OSV leaves unsettled. */
  function Unsettled(search: InstalledProgram -> Result<ScanResult>, programs: seq<InstalledProgram>): nat
  {
    if programs == [] then 0
    else Unsettled(search, programs[..|programs| - 1]) + (if SettledByOsv(search(programs[|programs| - 1])) then 0 else 1)
  }

  /** How many of `programs` OSV leaves unsettled and NVD then fails on. */
  function NvdFailures(search: InstalledProgram -> Result<ScanResult>, nvd: NvdService, programs: seq<InstalledProgram>): nat
  {
    if programs == [] then 0
    else
      var p := programs[|programs| - 1];
      NvdFailures(search, nvd, programs[..|programs| - 1])
        + (if !SettledByOsv(search(p)) && NvdCheck(nvd, p).Err? then 1 else 0)
  }

  /** The findings NVD gives for the programs OSV leaves unsettled, in order. */
  function NvdFindingsOf(search: InstalledProgram -> Result<ScanResult>, nvd: NvdService, programs: seq<InstalledProgram>): seq<string>
  {
    if programs == [] then []
    else
      var p := programs[|programs| - 1];
      NvdFindingsOf(search, nvd, programs[..|programs| - 1])
        + (if !SettledByOsv(search(p)) && NvdCheck(nvd, p).Ok? then NvdCheck(nvd, p).value else [])
  }

  /** What an NVD search comes back with: an empty list, findings, or an
      error. */
  datatype NvdKind = NoneFound | SomeFound | SearchFailed

  function NvdKindOf(r: Result<seq<string>>): NvdKind
  {
    if r.Err? then SearchFailed else if r.value == [] then NoneFound else SomeFound
  }

  /** How a program ends in the hybrid scan: settled by OSV as vulnerable
      or safe, or passed on to NVD with the given outcome. */
  datatype HybridKind = SettledVulnerable | SettledSafe | PassedToNvd(outcome: NvdKind)

  function HybridKindOf(osvResult: Result<ScanResult>, nvdResult: Result<seq<string>>): HybridKind
  {
    if osvResult.Ok? && osvResult.value.Vulnerable? then SettledVulnerable
    else if osvResult.Ok? && osvResult.value.Safe? then SettledSafe
    else PassedToNvd(NvdKindOf(nvdResult))
  }

  /** How many of `programs` end the hybrid scan as `k`. */
  function HybridCount(search: InstalledProgram -> Result<ScanResult>, nvd: NvdService, programs: seq<InstalledProgram>, k: HybridKind): nat
  {
    if programs == [] then 0
    else
      var p := programs[|programs| - 1];
      HybridCount(search, nvd, programs[..|programs| - 1], k) + (if HybridKindOf(search(p), NvdCheck(nvd, p)) == k then 1 else 0)
  }

  /** Which counter one program of the hybrid scan moves: an OSV Vulnerable
      or Safe answer moves `vulnerable` or `safe` and goes no further; an NVD
      search moves `nvdChecked`, then `safe` for an empty list, `vulnerable`
      for findings (which are kept), and nothing else for an error. */
  lemma HybridStepOutcome(run: HybridRun, program: InstalledProgram, osvResult: Result<ScanResult>, nvdResult: Result<seq<string>>)
    ensures var next := HybridStep(run, program, osvResult, nvdResult);
      var k := HybridKindOf(osvResult, nvdResult);
      && next.vulnerable == run.vulnerable + (if k == SettledVulnerable || k == PassedToNvd(SomeFound) then 1 else 0)
      && next.safe == run.safe + (if k == SettledSafe || k == PassedToNvd(NoneFound) then 1 else 0)
      && next.nvdChecked == run.nvdChecked + (if k.PassedToNvd? then 1 else 0)
      && next.findings == run.findings + (if k == PassedToNvd(SomeFound) then nvdResult.value else [])
  {
  }

  /** The hybrid counters by outcome: `vulnerable` counts the programs OSV
      finds vulnerable and those NVD has findings for; `safe` those OSV finds
      safe and those NVD has nothing for; `nvdChecked` every program passed
      to NVD, whatever NVD answers. */
  lemma {:induction false} HybridCountsByOutcome(search: InstalledProgram -> Result<ScanResult>, nvd: NvdService, programs: seq<InstalledProgram>)
    ensures HybridFold(search, nvd, programs).vulnerable
      == HybridCount(search, nvd, programs, SettledVulnerable) + HybridCount(search, nvd, programs, PassedToNvd(SomeFound))
    ensures HybridFold(search, nvd, programs).safe
      == HybridCount(search, nvd, programs, SettledSafe) + HybridCount(search, nvd, programs, PassedToNvd(NoneFound))
    ensures HybridFold(search, nvd, programs).nvdChecked
      == HybridCount(search, nvd, programs, PassedToNvd(NoneFound)) + HybridCount(search, nvd, programs, PassedToNvd(SomeFound))
         + HybridCount(search, nvd, programs, PassedToNvd(SearchFailed))
    decreases |programs|
  {
    if programs != [] {
      var front := programs[..|programs| - 1];
      var p := programs[|programs| - 1];
      HybridCountsByOutcome(search, nvd, front);
      HybridStepOutcome(HybridFold(search, nvd, front), p, search(p), NvdCheck(nvd, p));
    }
  }

  /** The counters after one program of the hybrid scan. */
  lemma HybridStepCounts(run: HybridRun, program: InstalledProgram, osvResult: Result<ScanResult>, nvdResult: Result<seq<string>>)
    requires NvdCalls(run.trace) == run.nvdChecked
    ensures var next := HybridStep(run, program, osvResult, nvdResult);
      && next.scanned == run.scanned + 1
      && next.nvdChecked == run.nvdChecked + (if SettledByOsv(osvResult) then 0 else 1)
      && NvdCalls(next.trace) == next.nvdChecked
      && next.vulnerable + next.safe
         == run.vulnerable + run.safe + (if !SettledByOsv(osvResult) && nvdResult.Err? then 0 else 1)
  {
    var t := run.trace + [OsvSearch(program.name)];
    var n := NvdQueryText(program);
    NvdCallsAppend(run.trace, [OsvSearch(program.name)]);
    NvdCallsAppend(t, [Pause(6000)]);
    NvdCallsAppend(t + [Pause(6000)], [NvdSearch(n)]);
    NvdCallsAppend(t, [NvdSearch(n)]);
    assert [OsvSearch(program.name)][..0] == [];
    assert [Pause(6000)][..0] == [];
    assert [NvdSearch(n)][..0] == [];
  }

  /** Every program is scanned once; NVD is consulted exactly for those OSV
      does not settle, once per NVD search in the trace; each program is
      counted vulnerable or safe unless NVD fails on it. */
  lemma {:induction false} HybridCounts(search: InstalledProgram -> Result<ScanResult>, nvd: NvdService, programs: seq<InstalledProgram>)
    ensures HybridFold(search, nvd, programs).scanned == |programs|
    ensures HybridFold(search, nvd, programs).nvdChecked == Unsettled(search, programs)
    ensures NvdCalls(HybridFold(search, nvd, programs).trace) == HybridFold(search, nvd, programs).nvdChecked
    ensures HybridFold(search, nvd, programs).vulnerable + HybridFold(search, nvd, programs).safe
      + NvdFailures(search, nvd, programs) == |programs|
    ensures HybridFold(search, nvd, programs).vulnerable + HybridFold(search, nvd, programs).safe
      <= HybridFold(search, nvd, programs).scanned
    decreases |programs|
  {
    if programs != [] {
      var front := programs[..|programs| - 1];
      var p := programs[|programs| - 1];
      HybridCounts(search, nvd, front);
      HybridStepCounts(HybridFold(search, nvd, front), p, search(p), NvdCheck(nvd, p));
    }
  }

  /** The hybrid report holds only NVD findings: findings OSV reports are
      counted but never kept. */
  lemma {:induction false} HybridFindingsComeFromNvd(search: InstalledProgram -> Result<ScanResult>, nvd: NvdService, programs: seq<InstalledProgram>)
    ensures HybridFold(search, nvd, programs).findings == NvdFindingsOf(search, nvd, programs)
    decreases |programs|
  {
    if programs != [] {
      HybridFindingsComeFromNvd(search, nvd, programs[..|programs| - 1]);
    }
  }

  /** When OSV settles every program, NVD is never consulted and the report
      is empty, however many vulnerabilities OSV found. */
  lemma {:induction false} HybridAllSettled(search: InstalledProgram -> Result<ScanResult>, nvd: NvdService, programs: seq<InstalledProgram>)
    requires forall i :: 0 <= i < |programs| ==> SettledByOsv(search(programs[i]))
    ensures HybridFold(search, nvd, programs).findings == []
    ensures HybridFold(search, nvd, programs).nvdChecked == 0
    decreases |programs|
  {
    if programs != [] {
      var front := programs[..|programs| - 1];
      assert forall i :: 0 <= i < |front| ==> front[i] == programs[i];
      HybridAllSettled(search, nvd, front);
    }
  }

  /** One program of the hybrid scan keeps the trace paced, given that
      the NVD counter agrees with the trace. */
  lemma HybridStepPaced(run: HybridRun, program: InstalledProgram, osvResult: Result<ScanResult>, nvdResult: Result<seq<string>>)
    requires Paced(run.trace) && NvdCalls(run.trace) == run.nvdChecked
    ensures Paced(HybridStep(run, program, osvResult, nvdResult).trace)
  {
    var t := run.trace + [OsvSearch(program.name)];
    PacedOsvSearch(run.trace, program.name);
    if !SettledByOsv(osvResult) {
      PacedNvdSearch(t, NvdQueryText(program));
      NvdCallsAppend(run.trace, [OsvSearch(program.name)]);
      assert [OsvSearch(program.name)][..0] == [];
    }
  }

  /** In the hybrid scan every NVD search but the first comes right after a
      6-second pause, and no pause comes anywhere else. */
  lemma {:induction false} HybridPaced(search: InstalledProgram -> Result<ScanResult>, nvd: NvdService, programs: seq<InstalledProgram>)
    ensures Paced(HybridFold(search, nvd, programs).trace)
    decreases |programs|
  {
    if programs != [] {
      var front := programs[..|programs| - 1];
      var p := programs[|programs| - 1];
      HybridPaced(search, nvd, front);
      HybridCounts(search, nvd, front);
      HybridStepPaced(HybridFold(search, nvd, front), p, search(p), NvdCheck(nvd, p));
    }
  }

  // ---------------------------------------------------------- OSV scan

  /** The counters, the findings list and the trace of `scan_with_osv`. */
  datatype OsvRun = OsvRun(
    scanned: nat, vulnerable: nat, safe: nat, unverified: nat, unchecked: nat,
    findings: seq<string>, trace: seq<Action>)

  /** One program of the OSV scan: exactly one counter moves; the findings
      of a vulnerable program are kept; a 100 ms pause follows the search. */
  function OsvStep(run: OsvRun, program: InstalledProgram, osvResult: Result<ScanResult>): OsvRun
  {
    var run := run.(scanned := run.scanned + 1, trace := run.trace + [OsvSearch(program.name)]);
    var run :=
      match osvResult
      case Ok(Vulnerable(vulns)) => run.(vulnerable := run.vulnerable + 1, findings := run.findings + vulns)
      case Ok(Safe) => run.(safe := run.safe + 1)
      case Ok(Unchecked(_)) => run.(unverified := run.unverified + 1)
      case Err(_) => run.(unchecked := run.unchecked + 1);
    run.(trace := run.trace + [Pause(100)])
  }

  /** The state of the OSV scan after `programs`. */
  function OsvFold(search: InstalledProgram -> Result<ScanResult>, programs: seq<InstalledProgram>): OsvRun
  {
    if programs == [] then OsvRun(0, 0, 0, 0, 0, [], [])
    else
      var program := programs[|programs| - 1];
      OsvStep(OsvFold(search, programs[..|programs| - 1]), program, search(program))
  }

  /** The warning that most programs could not be checked: more programs
      were left unverified, or more failed, than were settled. */
  predicate CoverageWarning(run: OsvRun)
  {
    run.unverified > run.safe + run.vulnerable || run.unchecked > run.safe + run.vulnerable
  }

  /** `scan_with_osv`: each program searched in turn, then the report is
      written; `warned` tells whether the coverage warning is printed. */
  method ScanWithOsv(search: InstalledProgram -> Result<ScanResult>, programs: seq<InstalledProgram>, report: ReportFile)
    returns (run: OsvRun, warned: bool)
    modifies report
    ensures run == OsvFold(search, programs)
    ensures warned == CoverageWarning(run)
    ensures report.content == Report(run.findings)
  {
    var vulnerableCount := 0;
    var safeCount := 0;
    var uncheckedCount := 0;
    var unverifiedCount := 0;
    var scannedCount := 0;
    var vulnerablePrograms: seq<string> := [];
    var trace: seq<Action> := [];
    for i := 0 to |programs|
      invariant OsvRun(scannedCount, vulnerableCount, safeCount, unverifiedCount, uncheckedCount, vulnerablePrograms, trace)
        == OsvFold(search, programs[..i])
    {
      var program := programs[i];
      assert programs[..i + 1][..i] == programs[..i];
      scannedCount := scannedCount + 1;
      trace := trace + [OsvSearch(program.name)];
      var osvResult := search(program);
      match osvResult {
        case Ok(Vulnerable(vulns)) =>
          vulnerableCount := vulnerableCount + 1;
          vulnerablePrograms := vulnerablePrograms + vulns;
        case Ok(Safe) =>
          safeCount := safeCount + 1;
        case Ok(Unchecked(_)) =>
          unverifiedCount := unverifiedCount + 1;
        case Err(_) =>
          uncheckedCount := uncheckedCount + 1;
      }
      trace := trace + [Pause(100)];
    }
    assert programs[..|programs|] == programs;
    report.WriteFile(vulnerablePrograms);
    run := OsvRun(scannedCount, vulnerableCount, safeCount, unverifiedCount, uncheckedCount, vulnerablePrograms, trace);
    warned := unverifiedCount > safeCount + vulnerableCount || uncheckedCount > safeCount + vulnerableCount;
  }

  /** A search whose Vulnerable answers always carry findings. */
  ghost predicate FindingsNonEmpty(search: InstalledProgram -> Result<ScanResult>)
  {
    forall p :: search(p).Ok? && search(p).value.Vulnerable? ==> search(p).value.findings != []
  }

  /** `search_vulns_osv` is such a search. */
  lemma OsvSearchHasFindings(osv: OsvService)
    ensures FindingsNonEmpty(p => SearchOutcome(osv, p))
  {
    forall p | SearchOutcome(osv, p).Ok? && SearchOutcome(osv, p).value.Vulnerable?
      ensures SearchOutcome(osv, p).value.findings != []
    {
    }
  }

  /** Each program moves exactly one of the four counters, so they add up
      to the number scanned, which is the number of programs. */
  lemma {:induction false} OsvScanCounts(search: InstalledProgram -> Result<ScanResult>, programs: seq<InstalledProgram>)
    ensures OsvFold(search, programs).scanned == |programs|
    ensures var run := OsvFold(search, programs);
      run.vulnerable + run.safe + run.unverified + run.unchecked == run.scanned
    decreases |programs|
  {
    if programs != [] {
      OsvScanCounts(search, programs[..|programs| - 1]);
    }
  }

  /** Which counter of the OSV scan a search outcome moves. */
  datatype OsvKind = OsvVulnerable | OsvSafe | OsvUnverified | OsvFailed

  function OsvKindOf(o: Result<ScanResult>): OsvKind
  {
    match o
    case Ok(Vulnerable(_)) => OsvVulnerable
    case Ok(Safe) => OsvSafe
    case Ok(Unchecked(_)) => OsvUnverified
    case Err(_) => OsvFailed
  }

  /** How many of `programs` have a search outcome of kind `k`. */
  function OsvCount(search: InstalledProgram -> Result<ScanResult>, programs: seq<InstalledProgram>, k: OsvKind): nat
  {
    if programs == [] then 0
    else OsvCount(search, programs[..|programs| - 1], k) + (if OsvKindOf(search(programs[|programs| - 1])) == k then 1 else 0)
  }

  /** The findings of the programs found vulnerable, in program order. */
  function VulnerableFindingsOf(search: InstalledProgram -> Result<ScanResult>, programs: seq<InstalledProgram>): seq<string>
  {
    if programs == [] then []
    else
      var o := search(programs[|programs| - 1]);
      VulnerableFindingsOf(search, programs[..|programs| - 1])
        + (if o.Ok? && o.value.Vulnerable? then o.value.findings else [])
  }

  /** Each counter counts the programs with its outcome: Vulnerable,
      Safe, Unchecked (`unverified`) and an error (`unchecked`). */
  lemma {:induction false} OsvScanCountsByOutcome(search: InstalledProgram -> Result<ScanResult>, programs: seq<InstalledProgram>)
    ensures OsvFold(search, programs).vulnerable == OsvCount(search, programs, OsvVulnerable)
    ensures OsvFold(search, programs).safe == OsvCount(search, programs, OsvSafe)
    ensures OsvFold(search, programs).unverified == OsvCount(search, programs, OsvUnverified)
    ensures OsvFold(search, programs).unchecked == OsvCount(search, programs, OsvFailed)
    decreases |programs|
  {
    if programs != [] {
      OsvScanCountsByOutcome(search, programs[..|programs| - 1]);
    }
  }

  /** The report of the OSV scan is the findings of the vulnerable programs
      and nothing else, in the order the programs were scanned. */
  lemma {:induction false} OsvScanKeepsVulnerableFindings(search: InstalledProgram -> Result<ScanResult>, programs: seq<InstalledProgram>)
    ensures OsvFold(search, programs).findings == VulnerableFindingsOf(search, programs)
    decreases |programs|
  {
    if programs != [] {
      OsvScanKeepsVulnerableFindings(search, programs[..|programs| - 1]);
    }
  }

  /** With a search whose Vulnerable answers carry findings, the report is
      empty exactly when no program was found vulnerable, and holds at least
      one line per vulnerable program. */
  lemma {:induction false} OsvScanFindings(search: InstalledProgram -> Result<ScanResult>, programs: seq<InstalledProgram>)
    requires FindingsNonEmpty(search)
    ensures OsvFold(search, programs).findings == [] <==> OsvFold(search, programs).vulnerable == 0
    ensures |OsvFold(search, programs).findings| >= OsvFold(search, programs).vulnerable
    decreases |programs|
  {
    if programs != [] {
      OsvScanFindings(search, programs[..|programs| - 1]);
      var p := programs[|programs| - 1];
      assert search(p).Ok? && search(p).value.Vulnerable? ==> search(p).value.findings != [];
    }
  }

  /** The trace alternates: a search for each program, in order, each
      followed by a 100 ms pause. */
  lemma {:induction false} OsvScanTrace(search: InstalledProgram -> Result<ScanResult>, programs: seq<InstalledProgram>)
    ensures |OsvFold(search, programs).trace| == 2 * |programs|
    ensures forall i :: 0 <= i < |programs| ==>
      OsvFold(search, programs).trace[2 * i] == OsvSearch(programs[i].name)
      && OsvFold(search, programs).trace[2 * i + 1] == Pause(100)
    decreases |programs|
  {
    if programs != [] {
      var front := programs[..|programs| - 1];
      OsvScanTrace(search, front);
      var t := OsvFold(search, front).trace;
      assert OsvFold(search, programs).trace == t + [OsvSearch(programs[|programs| - 1].name)] + [Pause(100)];
      forall i | 0 <= i < |front|
        ensures OsvFold(search, programs).trace[2 * i] == OsvSearch(programs[i].name)
        ensures OsvFold(search, programs).trace[2 * i + 1] == Pause(100)
      {
        assert front[i] == programs[i];
      }
    }
  }

  /** The warning is printed only when fewer than half of the programs were
      found vulnerable or safe; a scan that settles every program never
      warns. */
  lemma WarningMeansMostUnsettled(search: InstalledProgram -> Result<ScanResult>, programs: seq<InstalledProgram>)
    ensures CoverageWarning(OsvFold(search, programs)) ==>
      2 * (OsvFold(search, programs).safe + OsvFold(search, programs).vulnerable) < |programs|
    ensures OsvFold(search, programs).safe + OsvFold(search, programs).vulnerable == |programs| ==>
      !CoverageWarning(OsvFold(search, programs))
  {
    OsvScanCounts(search, programs);
  }

  // ---------------------------------------------------------- NVD scan

  /** The counters, the findings list and the trace of `get_vulns_nvd`. */
  datatype NvdRun = NvdRun(
    scanned: nat, vulnerable: nat, safe: nat, failed: nat,
    findings: seq<string>, trace: seq<Action>)

  /** One program of the NVD scan: a 6-second pause, the search, one
      counter; `scanned` goes up once more on a successful search (it is
      incremented in the success branch and again after the match). */
  function NvdStep(run: NvdRun, program: InstalledProgram, nvdResult: Result<seq<string>>): NvdRun
  {
    var run := run.(trace := run.trace + [Pause(6000)] + [NvdSearch(NvdQueryText(program))]);
    var run :=
      match nvdResult
      case Ok(vulns) =>
        var run := if vulns == [] then run.(safe := run.safe + 1)
                   else run.(findings := run.findings + vulns, vulnerable := run.vulnerable + 1);
        run.(scanned := run.scanned + 1)
      case Err(_) => run.(failed := run.failed + 1);
    run.(scanned := run.scanned + 1)
  }

  /** The state of the NVD scan after `programs`. */
  function NvdFold(nvd: NvdService, programs: seq<InstalledProgram>): NvdRun
  {
    if programs == [] then NvdRun(0, 0, 0, 0, [], [])
    else
      var program := programs[|programs| - 1];
      NvdStep(NvdFold(nvd, programs[..|programs| - 1]), program, NvdCheck(nvd, program))
  }

  /** `get_vulns_nvd`: each program searched in turn after a pause, then
      the report is written. */
  method GetVulnsNvd(nvd: NvdService, programs: seq<InstalledProgram>, report: ReportFile) returns (run: NvdRun)
    modifies report
    ensures run == NvdFold(nvd, programs)
    ensures report.content == Report(run.findings)
  {
    var vulnerableCount := 0;
    var safeCount := 0;
    var failedCount := 0;
    var scannedCount := 0;
    var vulnerablePrograms: seq<string> := [];
    var trace: seq<Action> := [];
    for i := 0 to |programs|
      invariant NvdRun(scannedCount, vulnerableCount, safeCount, failedCount, vulnerablePrograms, trace)
        == NvdFold(nvd, programs[..i])
    {
      var program := programs[i];
      assert programs[..i + 1][..i] == programs[..i];
      trace := trace + [Pause(6000)];
      trace := trace + [NvdSearch(NvdQueryText(program))];
      var nvdResult := CheckNvdWithTimeout(nvd, program);
      match nvdResult {
        case Ok(vulns) =>
          if vulns == [] {
            safeCount := safeCount + 1;
          } else {
            vulnerablePrograms := vulnerablePrograms + vulns;
            vulnerableCount := vulnerableCount + 1;
          }
          scannedCount := scannedCount + 1;
        case Err(_) =>
          failedCount := failedCount + 1;
      }
      scannedCount := scannedCount + 1;
    }
    assert programs[..|programs|] == programs;
    report.WriteFile(vulnerablePrograms);
    run := NvdRun(scannedCount, vulnerableCount, safeCount, failedCount, vulnerablePrograms, trace);
  }

  /** Each program is counted safe, vulnerable or failed; `scanned` ends as
      the number of programs plus the number of successful searches. */
  lemma {:induction false} NvdScanCounts(nvd: NvdService, programs: seq<InstalledProgram>)
    ensures var run := NvdFold(nvd, programs);
      && run.safe + run.vulnerable + run.failed == |programs|
      && run.scanned == |programs| + run.safe + run.vulnerable
    decreases |programs|
  {
    if programs != [] {
      NvdScanCounts(nvd, programs[..|programs| - 1]);
    }
  }

  /** Every search, the first included, comes right after a 6-second
      pause, one per program, in order. */
  lemma {:induction false} NvdScanTrace(nvd: NvdService, programs: seq<InstalledProgram>)
    ensures |NvdFold(nvd, programs).trace| == 2 * |programs|
    ensures forall i :: 0 <= i < |programs| ==>
      NvdFold(nvd, programs).trace[2 * i] == Pause(6000)
      && NvdFold(nvd, programs).trace[2 * i + 1] == NvdSearch(NvdQueryText(programs[i]))
    decreases |programs|
  {
    if programs != [] {
      var front := programs[..|programs| - 1];
      NvdScanTrace(nvd, front);
      var t := NvdFold(nvd, front).trace;
      assert NvdFold(nvd, programs).trace == t + [Pause(6000)] + [NvdSearch(NvdQueryText(programs[|programs| - 1]))];
      forall i | 0 <= i < |front|
        ensures NvdFold(nvd, programs).trace[2 * i] == Pause(6000)
        ensures NvdFold(nvd, programs).trace[2 * i + 1] == NvdSearch(NvdQueryText(programs[i]))
      {
        assert front[i] == programs[i];
      }
    }
  }

  /** How many of `programs` get an NVD outcome of kind `k`. */
  function NvdCount(nvd: NvdService, programs: seq<InstalledProgram>, k: NvdKind): nat
  {
    if programs == [] then 0
    else NvdCount(nvd, programs[..|programs| - 1], k) + (if NvdKindOf(NvdCheck(nvd, programs[|programs| - 1])) == k then 1 else 0)
  }

  /** The findings of the successful NVD searches, in program order. */
  function SuccessfulFindingsOf(nvd: NvdService, programs: seq<InstalledProgram>): seq<string>
  {
    if programs == [] then []
    else
      var r := NvdCheck(nvd, programs[|programs| - 1]);
      SuccessfulFindingsOf(nvd, programs[..|programs| - 1]) + (if r.Ok? then r.value else [])
  }

  /** Each counter counts the programs with its outcome: an empty list
      (`safe`), findings (`vulnerable`) and an error or a timeout (`failed`). */
  lemma {:induction false} NvdScanCountsByOutcome(nvd: NvdService, programs: seq<InstalledProgram>)
    ensures NvdFold(nvd, programs).safe == NvdCount(nvd, programs, NoneFound)
    ensures NvdFold(nvd, programs).vulnerable == NvdCount(nvd, programs, SomeFound)
    ensures NvdFold(nvd, programs).failed == NvdCount(nvd, programs, SearchFailed)
    decreases |programs|
  {
    if programs != [] {
      NvdScanCountsByOutcome(nvd, programs[..|programs| - 1]);
    }
  }

  /** The report is the findings of the successful searches, in program
      order; it is empty exactly when no program was found vulnerable. */
  lemma {:induction false} NvdScanFindings(nvd: NvdService, programs: seq<InstalledProgram>)
    ensures NvdFold(nvd, programs).findings == [] <==> NvdFold(nvd, programs).vulnerable == 0
    ensures NvdFold(nvd, programs).findings == SuccessfulFindingsOf(nvd, programs)
    decreases |programs|
  {
    if programs != [] {
      NvdScanFindings(nvd, programs[..|programs| - 1]);
    }
  }
}
