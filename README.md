# bluescan, modelled in Dafny

bluescan is a command-line scanner. It lists the programs installed on a
machine and looks each one up in two vulnerability databases:

- OSV (osv.dev), queried by package name and package ecosystem;
- the NVD (nvd.nist.gov), queried by keyword search.

This project models the decision logic of the scanner and proves
properties of it. The model covers:

- **OSV resolution** (`osv_query.dfy`, module `OsvQuery`):
  - `guess_ecosystems`, the keyword table that proposes likely package
    ecosystems for a program name;
  - `get_name_variations`, the alternative spellings of a name, sorted and
    without duplicates;
  - `extract_cvss_info` and the text rendered for each finding;
  - `query_osv_with_ecosystem`, the request built for one name and
    ecosystem, and what each kind of reply turns into;
  - `search_vulns_osv`, three strategies tried in turn, ending in a
    decision of Vulnerable, Safe or Unchecked.
- **NVD search** (`nvd_query.dfy`, module `NvdQuery`):
  - the keyword-search URL;
  - what happens to a body that does not decode, or that has no
    vulnerability list;
  - the line rendered for each CVE.
- **The batch scans** (`main.dfy`, module `Scan`):
  - `hybrid_scan`, `scan_with_osv` and `get_vulns_nvd`, each a loop that
    folds per-program outcomes into counters and a findings list;
  - `check_nvd_with_timeout`;
  - `write_file`, which replaces the report file `vulnerable.txt`.
- **os-release parsing** (`linuxos.dfy`, module `LinuxOs`):
  `parse_os_release`, the `KEY=value` lookup in `/etc/os-release`.
- **Shared pieces:** `text.dfy` (module `Text`) models the Rust string
  operations these use. They are ASCII lower-casing, `contains`,
  `replace`, `trim`, `trim_matches`, `lines`, `split(..).nth(1)`, and
  byte-wise string order with sort and dedup. `wrappers.dfy` holds
  `Option` and `Result`. `program.dfy` holds the `InstalledProgram`
  record.

## How the model is built

- **The network is a set of parameters.**
  - The OSV endpoint is a function `post` from request to reply. The
    reply is one of: a send failure, a non-success status, a body that
    does not decode, or the decoded vulnerability list. A failure to build
    the HTTP client is `clientError`.
  - The NVD endpoint is a function `get` from URL to body. The JSON
    decoder is a function `parse`.
  - Whether a search runs past the 15-second limit is a predicate
    `overruns` on the query.
- **Pauses are recorded, not taken.** Every search and every sleep is
  appended to a trace of actions. The trace is a real out-parameter of
  the scan methods, so pacing can be stated and proved.
- **Loops become methods proved against folds.** The loops that build up
  state step by step (the three scans, the strategy loops of
  `search_vulns_osv`, the rendering loops and the report write) become
  methods with `for` or `while` loops. Each method's `ensures` says the
  result equals a function that folds one step per element:
  - `HybridFold` and `HybridStep` for `hybrid_scan`;
  - `OsvFold` and `OsvStep` for `scan_with_osv`;
  - `NvdFold` and `NvdStep` for `get_vulns_nvd`;
  - `FirstHit` over the query plan `Plan` / `Targets` for
    `search_vulns_osv`;
  - `Report` for `write_file`.

  The lemmas then state the counter invariants, pacing and findings as
  properties of those folds. Two searches that only look for a first match
  are recursive functions instead: the loop over severities in
  `extract_cvss_info` (`FirstCvss`) and `lines().find()` in
  `parse_os_release` (`FirstLineStartingWith`).
- **The report file is a class.** `ReportFile` has a `content` field that
  `WriteFile` replaces.
- **Source quirks are modelled as written:**
  - in hybrid mode, findings that OSV returns are counted but never
    written to the report (`HybridFindingsComeFromNvd`);
  - in NVD mode, `scanned_count` is incremented twice for every
    successful search (`NvdScanCounts`);
  - the "not in any known package ecosystem" branch of `search_vulns_osv`
    can never be taken (`NeverNotInKnownEcosystem`).

## Model

| member | source | states |
|---|---|---|
| OsvQuery.GuessEcosystems | src/osv_query.rs:235-294 | the conditional pushes give exactly the keyword filter of the ecosystem table, `LikelyEcosystems(name)` |
| OsvQuery.GuessedFromCatalog | src/osv_query.rs:53-62 | the guess is a subsequence of ECOSYSTEMS, so it keeps table order; it has no duplicates and at most 8 entries; an ecosystem is in it iff one of its keywords occurs in the lower-cased name |
| OsvQuery.MatchingIsFilter | src/osv_query.rs:242-287 | the keyword filter keeps exactly the ecosystems one of whose keywords occurs, and keeps them in order (it is a subsequence) |
| OsvQuery.GuessIgnoresCase | src/osv_query.rs:236 | a name and its lower-case form get the same guess |
| OsvQuery.PythonNamesGuessPyPI | src/osv_query.rs:242-245 | a name containing python, pip or conda, in any case, has PyPI as its first guess |
| OsvQuery.GoGuessedOnlyForGolang | src/osv_query.rs:272-275 | Go is guessed iff the lower-cased name contains "golang" or " go " with both spaces |
| OsvQuery.NameVariations | src/osv_query.rs:297-344 | the variations are strictly sorted, so there are no duplicates; they are exactly the spellings the source pushes; they contain the name, its lower case, and its hyphenated and space-free lower-case forms; there are at most 6 |
| OsvQuery.NameVariationsUnique | src/osv_query.rs:340-341 | any strictly sorted list of exactly those spellings equals the result, so the order they are pushed in does not matter |
| OsvQuery.GetNameVariations | src/osv_query.rs:297-344 | the pushes, including the two conditional ones, followed by sort and dedup, give `NameVariations(name)` |
| OsvQuery.FirstCvss | src/osv_query.rs:221-229 | the index found is that of the first severity whose type contains "CVSS"; no earlier entry has one |
| OsvQuery.ExtractCvssInfo | src/osv_query.rs:220-232 | a type is returned iff some severity type contains "CVSS"; the pair comes from the first such entry; (None, None) when the list is absent or has no CVSS entry |
| OsvQuery.ScoreLineWithoutScore | src/osv_query.rs:202-206 | the score line is "No CVSS Score available" iff no score was extracted, including when a CVSS entry matched but had no score |
| OsvQuery.RenderFindingLayout | src/osv_query.rs:198-213 | a finding starts with "{id} - " and ends with "\n\t" and the score line; a missing summary reads "No summary available" |
| OsvQuery.RenderAll | src/osv_query.rs:198-214 | one finding per vulnerability, in response order |
| OsvQuery.BuildRequest | src/osv_query.rs:161-171 | the package is (name, ecosystem); the version is left out exactly when it is empty, and is sent verbatim otherwise |
| OsvQuery.QueryOutcome | src/osv_query.rs:175-216 | send and decode failures are errors; a non-success status is an empty list; a decoded body gives one finding per vulnerability |
| OsvQuery.QueryOsvWithEcosystem | src/osv_query.rs:153-217 | the result is the outcome of the reply to the request for (name, version, ecosystem); findings come only from a decoded reply |
| OsvQuery.OutsideMembers | src/osv_query.rs:101-104 | the ecosystems of strategy 2 are exactly those of the table not guessed |
| OsvQuery.TargetOfSecondStrategy | src/osv_query.rs:101-113 | the strategy-2 query for table entry i sits in the plan right after the likely queries and the strategy-2 queries before it |
| OsvQuery.TargetOfThirdStrategy | src/osv_query.rs:119-134 | the strategy-3 query for variation i in ecosystem j sits in the plan after strategies 1 and 2 and eight queries for each earlier kept variation |
| OsvQuery.FirstHit | src/osv_query.rs:85-134 | no findings iff no target in the plan yields a non-empty list; any findings returned are non-empty |
| OsvQuery.FirstHitAt | src/osv_query.rs:85-134 | when the query at position p is the first to find anything, its findings are the answer, whatever later queries would give |
| OsvQuery.FirstHitFrom | src/osv_query.rs:85-134 | the findings returned are those of some target in the plan |
| OsvQuery.SearchOutcome | src/osv_query.rs:65-150 | an error iff the HTTP client cannot be built; Vulnerable always carries a non-empty list |
| OsvQuery.PlanNotEmpty | src/osv_query.rs:101-105 | some ecosystem is always queried: the name itself is queried in every ecosystem of the table, in a guessed one by strategy 1 or in another by strategy 2 (so with nothing guessed strategy 2 queries the whole table) |
| OsvQuery.DecisionWithTargets | src/osv_query.rs:137-149 | with at least one query made, the decision is findings, Safe, or "checked but not able to verify ecosystem" |
| OsvQuery.NeverNotInKnownEcosystem | src/osv_query.rs:143-148 | `search_vulns_osv` never answers "not in any known package ecosystem" |
| OsvQuery.DecisionWithoutHit | src/osv_query.rs:137-142 | with queries made and no findings, the decision is Safe iff some ecosystem was guessed |
| OsvQuery.SilentServiceNoHit | src/osv_query.rs:85-134 | a service that never returns a decodable list yields no findings: failed queries are skipped |
| OsvQuery.NothingFound | src/osv_query.rs:137-142 | when no query finds anything, the program is Safe iff some ecosystem was guessed, and otherwise "checked but not able to verify ecosystem" |
| OsvQuery.UnreachableServiceReportsSafe | src/osv_query.rs:80-139 | even if every query fails, a program with a guessed ecosystem is reported Safe |
| OsvQuery.DecisionFindings | src/osv_query.rs:87-90 | reported findings are the rendering of the decoded reply to one of the targets |
| OsvQuery.FindingsComeFromAQuery | src/osv_query.rs:85-134 | Vulnerable findings are the rendered reply to a query `search_vulns_osv` makes |
| OsvQuery.FirstLikelyHitWins | src/osv_query.rs:85-91 | findings for the name in the first guessed ecosystem are the answer, whatever else would be found |
| OsvQuery.SearchLikely | src/osv_query.rs:85-93 | strategy 1 returns the first findings of the plan, or leaves no findings among its first `|likely|` targets |
| OsvQuery.SearchCatalog | src/osv_query.rs:101-113 | strategy 2 returns the first findings of the plan, or covers its part of the plan with none; it marks a query made iff some table entry was not guessed |
| OsvQuery.SearchVariationEverywhere | src/osv_query.rs:124-133 | one variation in all eight ecosystems returns the first findings of the plan, or extends the finding-free prefix by eight |
| OsvQuery.SearchVariations | src/osv_query.rs:119-134 | strategy 3 returns the first findings of the plan, or the whole plan has none; it marks a query made iff some variation other than the name or its lower case exists |
| OsvQuery.SearchVulnsOsv | src/osv_query.rs:65-150 | the three strategies with their flags and early returns compute `SearchOutcome(osv, program)` |
| NvdQuery.SearchUrlKeepsQuery | src/nvd_query.rs:50-53 | the URL is the fixed endpoint followed by the query, character for character, with no encoding |
| NvdQuery.SearchUrlInjective | src/nvd_query.rs:50-53 | different queries give different URLs |
| NvdQuery.ScoreTextShowsFirstMetric | src/nvd_query.rs:79-91 | the score shows the first CVSS v3.1 entry's base score and vector; it is "No CVSS Score" iff metrics, the v3.1 list, or its first entry is missing |
| NvdQuery.RenderCveLayout | src/nvd_query.rs:77-98 | a CVE line starts with "{id} - " and ends with " \n\t " and the score; with no descriptions the description is empty |
| NvdQuery.RenderCves | src/nvd_query.rs:75-101 | exactly one line per CVE, in response order |
| NvdQuery.NvdOutcomeCases | src/nvd_query.rs:57-73 | a failed fetch or a body that does not decode is an error, the decoder's error when decoding fails; an absent vulnerability list is an empty list; otherwise one line per CVE |
| NvdQuery.SearchVulnsNvd | src/nvd_query.rs:49-102 | the loop computes `NvdOutcome`; diagnostics are reported iff the body does not decode, and they include the URL and the raw body |
| Scan.NvdQueryTextParts | src/main.rs:202-203 | the NVD query is the name, a space, then the version; a missing version leaves a trailing space |
| Scan.NvdCheck | src/main.rs:201-215 | a search that runs past the limit is the timeout error; otherwise it is the NVD search for the query |
| Scan.CheckNvdWithTimeout | src/main.rs:201-215 | the method computes `NvdCheck` |
| Scan.ReportAppend | src/main.rs:366-369 | appending one more entry appends the entry and a newline to the report |
| Scan.ReportReadsBack | src/main.rs:356-371 | for entries without line breaks of their own, the report read back line by line is the list written; rendered findings do hold line breaks, so for them `ReportHoldsEachEntry` is the read-back |
| Scan.ReportLength | src/main.rs:366-369 | the report is as long as the entries plus one newline each |
| Scan.ReportHoldsEachEntry | src/main.rs:366-369 | every entry, line breaks included, stands in the report at its offset (after the earlier entries and their newlines) and is followed by "\n" |
| Scan.ReportFile.WriteFile | src/main.rs:356-371 | after the write the content is each entry followed by "\n"; earlier content is discarded |
| Scan.HybridScan | src/main.rs:106-199 | the loop with its `continue`s computes `HybridFold`; the report holds the run's findings |
| Scan.HybridStepCounts | src/main.rs:117-176 | one program adds one to `scanned`, adds one NVD call iff OSV does not settle it, and adds one to vulnerable + safe unless NVD fails on it |
| Scan.HybridStepOutcome | src/main.rs:125-176 | which counter one program moves: OSV Vulnerable or Safe moves `vulnerable` or `safe`; a program passed to NVD moves `nvdChecked`, then `safe` for an empty list, `vulnerable` for findings (which are appended), and nothing else for an error |
| Scan.HybridCountsByOutcome | src/main.rs:117-176 | `vulnerable` = programs OSV finds vulnerable + programs NVD has findings for; `safe` = programs OSV finds safe + programs NVD finds nothing for; `nvdChecked` = programs passed to NVD, whatever it answers |
| Scan.HybridCounts | src/main.rs:117-176 | `scanned` is the number of programs; `nvdChecked` equals the number of programs OSV leaves unsettled and the number of NVD searches in the trace (which programs those are is `HybridStepOutcome`); vulnerable + safe + NVD failures = programs, so vulnerable + safe ≤ scanned |
| Scan.HybridFindingsComeFromNvd | src/main.rs:125-176 | the hybrid report holds exactly the NVD findings of the unsettled programs, in order; OSV findings are never kept |
| Scan.HybridAllSettled | src/main.rs:125-138 | when OSV settles every program, NVD is never called and the report is empty |
| Scan.PacedNvdSearch | src/main.rs:151-159 | an NVD search preceded by a 6-second pause when it is not the first keeps the trace paced |
| Scan.HybridStepPaced | src/main.rs:117-159 | one program of the hybrid scan keeps the trace paced |
| Scan.HybridPaced | src/main.rs:150-159 | every NVD search but the first comes right after a 6-second pause, and every pause comes right before an NVD search |
| Scan.ScanWithOsv | src/main.rs:276-354 | the loop computes `OsvFold`; `warned` is the coverage-warning condition; the report holds the run's findings |
| Scan.OsvSearchHasFindings | src/osv_query.rs:85-134 | `search_vulns_osv` never answers Vulnerable with an empty list |
| Scan.OsvScanCounts | src/main.rs:287-317 | vulnerable, safe, unverified and unchecked sum to scanned, which is the number of programs |
| Scan.OsvScanCountsByOutcome | src/main.rs:294-317 | each counter counts the programs with its outcome: Vulnerable, Safe, Unchecked (`unverified`), an error (`unchecked`) |
| Scan.OsvScanKeepsVulnerableFindings | src/main.rs:295-302 | the report is the findings of the Vulnerable programs and nothing else, in program order |
| Scan.OsvScanFindings | src/main.rs:295-302 | the report is empty iff no program was vulnerable, and holds at least one line per vulnerable program |
| Scan.OsvScanTrace | src/main.rs:287-321 | each program is searched in order, and each search is followed by a 100 ms pause |
| Scan.WarningMeansMostUnsettled | src/main.rs:345 | the warning implies fewer than half the programs were settled; a scan that settles every program never warns |
| Scan.GetVulnsNvd | src/main.rs:217-274 | the loop computes `NvdFold`; the report holds the run's findings |
| Scan.NvdScanCounts | src/main.rs:225-251 | safe + vulnerable + failed = programs; `scanned` ends as programs plus successful searches |
| Scan.NvdScanTrace | src/main.rs:225-227 | every search, the first included, comes right after a 6-second pause, one per program, in order |
| Scan.NvdScanCountsByOutcome | src/main.rs:227-248 | `safe` counts the empty answers, `vulnerable` the answers with findings, `failed` the errors and timeouts |
| Scan.NvdScanFindings | src/main.rs:228-242 | the report is the findings of the successful searches, in program order; it is empty iff no program was found vulnerable |
| LinuxOs.FirstLineStartingWith | src/linux/linuxos.rs:137-138 | the index found is that of the first line starting with the key; no earlier line does |
| LinuxOs.LineValue | src/linux/linuxos.rs:139-140 | None iff the line has no `=`; a value has no `=` and neither starts nor ends with `"` |
| LinuxOs.ParseOsRelease | src/linux/linuxos.rs:135-141 | a value is the value of the first line that starts with the key, a line that holds `=`; it has no `=` and neither starts nor ends with `"` |
| LinuxOs.FirstMatchingLineDecides | src/linux/linuxos.rs:136-140 | the first line that starts with the key, wherever it is, decides: the result is that line's value, whatever later lines hold |
| LinuxOs.NoMatchingLine | src/linux/linuxos.rs:138 | with no line starting with the key, the result is None |
| LinuxOs.FirstMatchWithoutEquals | src/linux/linuxos.rs:138-139 | when the first matching line has no `=`, the result is None, whatever later lines hold |
| LinuxOs.SecondFieldBetweenEquals | src/linux/linuxos.rs:139 | the value is the text between the first and second `=` |
| LinuxOs.TrimQuotesKeepsInner | src/linux/linuxos.rs:140 | all leading and trailing quotes are removed and the inner text is kept |
| LinuxOs.FirstLineDecides | src/linux/linuxos.rs:137-139 | a first line that starts with the key alone decides the result |
| LinuxOs.QuotedLineValue | src/linux/linuxos.rs:139-140 | `NAME="value"` yields `value` |
| LinuxOs.QuotedValueOfFirstMatchingLine | src/linux/linuxos.rs:135-141 | a first matching line `NAME="value"` yields `value`, whatever follows |
| LinuxOs.VersionKeyMatchesVersionIdLine | src/linux/linuxos.rs:135-141 | matching is by prefix: key VERSION picks up a VERSION_ID line that comes first |
| LinuxOs.FirstMatchWithoutEqualsHidesLaterLine | src/linux/linuxos.rs:138-139 | a first matching line without `=` hides a later `NAME=…` line |

## Left out

- HTTP (reqwest) and JSON decoding (serde) are not modelled. They are the function parameters `post`, `get`, `parse` and `overruns`, so the model holds for every behaviour of the services.
- The scan counters are `i32` in the source; the model counts with unbounded `nat`, so counter width and overflow are not modelled (no realistic program list reaches 2^31 entries).
- The client-side 10-second OSV timeout and the tokio 15-second NVD timeout are not modelled as time. They appear as a send failure and as `overruns` respectively.
- Sleeps are not taken. The 6-second and 100 ms pauses are recorded as `Pause` actions in the trace.
- Console output is not modelled: `println!`, colours, progress lines, and the printed summaries and lists. The `eprintln!` diagnostics of the NVD search are returned as a list of lines.
- The NVD `base_score` is an `f64` in the source. Here it is the string it is displayed as, with no float formatting.
- Lower: models `to_lowercase` on ASCII letters only; other characters are unchanged, so full Unicode case mapping is not captured.
- IsNumeric: models `char::is_numeric` on the ASCII digits only.
- The scans take the per-program OSV outcome as a function parameter `search` rather than calling `SearchVulnsOsv`. `OsvSearchHasFindings` connects the two.
- HybridScan, ScanWithOsv and GetVulnsNvd: do not model a failure of `write_file`, which the source prints and ignores. `WriteFile` does not model the panics on a file that cannot be opened or written.
- The command-line dispatch in `main` (src/main.rs:33-76) is not modelled.
- OS identification and program enumeration are not modelled: `get_system_info`, the Windows registry and WMI readers, the macOS and os-info wrappers. They are thin wrappers over system calls. src/windows/os_info.rs, src/os_info.rs, src/get_os_info.rs, src/installed_programs.rs and src/macos/macos_programs.rs are not part of this model.
- The commented-out keyword search in src/osv_query.rs:346-374 and the commented-out package-manager helpers in src/linux/linuxos.rs are not live code.
- SearchLikely, SearchCatalog, SearchVariations: the three strategy loops of `search_vulns_osv` are separate methods called in sequence, with the same flags and early returns.
- HybridScan, ScanWithOsv, GetVulnsNvd: the OSV and NVD answers are functions of the program record (`search(program)`, `NvdCheck(nvd, program)`), so two identical records in one batch get the same answer, which the live services do not promise. No proved property depends on this.
- The version shown in progress lines (`"unknown"` when missing) is only printed, so it is not modelled.
