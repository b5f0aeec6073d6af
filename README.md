# Dispatch registry and Topcoder handler

This project models two parts of the online-judge helper library:

- **The dispatch registry** (`onlinejudge/dispatch.py`). It holds four ordered lists of handler types: services, submissions, problems and contests.
  - `submission_from_url`, `problem_from_url` and `contest_from_url` return the entity of the first handler in their list whose `from_url` accepts the URL.
  - `service_from_url` tries the service handlers first. If none accepts, it falls back to the service of a matching submission, then to that of a matching problem.
- **The Topcoder handler** (`onlinejudge/service/topcoder.py`). It covers:
  - the service and problem URL matchers;
  - the canonical problem URL;
  - `_convert_to_greed`, which rewrites a Topcoder literal into the Greed test format;
  - `_download_data`, which walks a problem statement page to read the Definition fields and turns the Examples into test cases.

## Files

- `wrappers.dfy`: `Option` and `Result`.
- `pystr.dfy` (module `PyStr`): the Python builtins the handler uses: `isspace`, `strip`, `startswith`, `split`, `join`, `str(n)` and `int(s)`. Each follows CPython's behaviour on the inputs the handler gives it; the one limit is that `int(s)` reads ASCII digits only (see below). Alongside them are the facts the proofs need, such as `split` undoing `join` and `int(str(n)) == n`.
- `dispatch.dfy` (module `Dispatch`):
  - `FirstMatch`, the specification of a first-match search;
  - `FindFirst`, the `for cls in ...: ... return` loop, proved against `FirstMatch`;
  - `ResolveService`, the fallback chain of `service_from_url`;
  - the class `Registry`, whose four list fields are appended to by the `Register*` methods. Its `*FromUrl` methods have no `modifies` clause, so resolution cannot change the lists.
- `topcoder.dfy` (module `Topcoder`):
  - the matchers;
  - `ConvertToGreed`;
  - the statement page, given as the few things the walk looks at;
  - `ReadDefinition`, `CollectPres`, `ReadExamples`, `ToTestCases`, `DownloadData` and `DownloadSampleCases`. These are imperative methods with the source's loops, each proved equal to a specification function (`ReadFields`, `ParseExample`, `WalkExamples`, `TestCasesOf`, `ArenaDataOf`);
  - lemmas stating what those functions compute;
  - `Register`, the two `+=` lines at the end of the module.
- `topcoder_scenarios.dfy` (module `TopcoderScenarios`): the documented examples as lemmas:
  - the three normalisation examples;
  - the two URL forms of problem 10760;
  - small statement pages that read successfully, lack the Examples heading, or number their examples wrongly.

## Modelling choices

- The library functions `urllib.parse.urlparse`, `urllib.parse.parse_qs` and `utils.normpath` are passed to the matchers as function values in a `UrlLib`. Facts about the URLs that are actually used appear as preconditions, such as "`urlparse` splits this URL into these components".
- A matcher is modelled as `string -> Option<E>`. A registry list is a `seq` of matchers.
- Exceptions the walk raises without meaning to are modelled as `Crash` failures. These are the `AttributeError` on `None` when a Definition label, a label's value, a header `td` or a `<pre>` string is missing, and the `TypeError` from `re.sub` on a `None` method signature. They are kept apart from the deliberate `SampleParseError` failures.
- `_TopcoderArenaData.__init__` stores the converted test cases in `raw_sample_cases` (topcoder.py:43). The model does the same: `ArenaData.rawSampleCases` is the list of test cases, and `DownloadIsComplete` states this.
- `int()` is modelled as done on ASCII digits: surrounding white space, an optional sign, and digits with single underscores between them. The white space `int()` skips is narrower than what `strip()` removes: ASCII space, `\t` to `\r`, and non-ASCII white space, but not the separators U+001C to U+001F. `PyStr.IntSpace` is that set, and `PyStr.ParseIntKeepsSeparator` shows a string that `strip()` cleans but `int()` rejects.
- Integers are unbounded, like Python's.
- Strings are `seq<char>`.

## Model

| member | source | states |
|---|---|---|
| Dispatch.FirstMatch | onlinejudge/dispatch.py:54-60 | specifies the first-match search; stated by `FirstMatchIsEarliest` and `FirstMatchNoneIff` |
| Dispatch.FirstMatchIsEarliest | onlinejudge/dispatch.py:54-58 | resolution yields `e` iff some handler yields `e` and every handler before it declines |
| Dispatch.LaterMatchersNotConsulted | onlinejudge/dispatch.py:54-58 | once the k-th handler is the earliest to accept, handlers after it play no part: any list agreeing up to k resolves the same way |
| Dispatch.FirstMatchNoneIff | onlinejudge/dispatch.py:54-60 | the result is `None` iff every registered handler declines; there is no error path |
| Dispatch.FirstMatchAppend | onlinejudge/dispatch.py:54-60 | resolving against `a + b` is resolving against `a`, and against `b` only when `a` declines |
| Dispatch.RegisterLastNeverShadows | onlinejudge/dispatch.py:54-60 | appending a handler never changes a non-`None` result; a `None` result becomes the new handler's answer |
| Dispatch.FindFirst | onlinejudge/dispatch.py:33-39 | the early-return loop computes the first match |
| Dispatch.ResolveService | onlinejudge/dispatch.py:79-92 | specifies the fallback chain of `service_from_url`; stated by the four `ResolveService*` lemmas |
| Dispatch.ResolveServicePrefersServices | onlinejudge/dispatch.py:80-84 | the earliest accepting service handler decides, whatever the submission and problem lists hold |
| Dispatch.ResolveServiceFallsBackToSubmission | onlinejudge/dispatch.py:85-87 | with all service handlers declining, the result is the service of the first matching submission |
| Dispatch.ResolveServiceFallsBackToProblem | onlinejudge/dispatch.py:88-90 | with all service and submission handlers declining, the result is the service of the first matching problem |
| Dispatch.ResolveServiceNoneIff | onlinejudge/dispatch.py:79-92 | `service_from_url` is `None` iff every handler of the three lists declines |
| Dispatch.Registry.constructor | onlinejudge/dispatch.py:29-76 | the four lists start empty |
| Dispatch.Registry.RegisterSubmission | onlinejudge/dispatch.py:29 | appends to the submission list, leaves the other three alone |
| Dispatch.Registry.RegisterContest | onlinejudge/dispatch.py:63 | appends to the contest list, leaves the other three alone |
| Dispatch.Registry.RegisterService | onlinejudge/service/topcoder.py:240 | appends to the service list, leaves the other three alone |
| Dispatch.Registry.RegisterProblem | onlinejudge/service/topcoder.py:241 | appends to the problem list, leaves the other three alone |
| Dispatch.Registry.SubmissionFromUrl | onlinejudge/dispatch.py:32-39 | first match over the submission list, without changing any list |
| Dispatch.Registry.ProblemFromUrl | onlinejudge/dispatch.py:45-60 | first match over the problem list, without changing any list |
| Dispatch.Registry.ContestFromUrl | onlinejudge/dispatch.py:66-73 | first match over the contest list, without changing any list |
| Dispatch.Registry.ServiceFromUrl | onlinejudge/dispatch.py:79-92 | the service, submission, problem fallback chain over the current lists, without changing any list |
| Topcoder.ServiceFromUrl | onlinejudge/service/topcoder.py:29-36 | a service iff the scheme is empty, `http` or `https` and the host is one of the two Topcoder hosts |
| Topcoder.ServiceUrlRecognised | onlinejudge/service/topcoder.py:22-23 | the service's own URL is recognised by the service matcher |
| Topcoder.ProblemGetUrl | onlinejudge/service/topcoder.py:203-204 | the canonical URL is the statement prefix followed by text that `int()` reads back as the problem id |
| Topcoder.ServiceGetUrl | onlinejudge/service/topcoder.py:22-23 | models `get_url`; `ServiceUrlRecognised` states that the service matcher accepts it |
| Topcoder.ProblemGetService | onlinejudge/service/topcoder.py:236-237 | models `get_service`; `ProblemServiceOwnsUrl` states that the service matcher finds it from the problem's URL |
| Topcoder.ProblemServiceOwnsUrl | onlinejudge/service/topcoder.py:203-237 | the service matcher sends a problem's canonical URL to that problem's service |
| Topcoder.FromPracticeFragment | onlinejudge/service/topcoder.py:212-224 | models the arena-fragment branch; stated by `AcceptsPracticeFragment` and `ProblemFromUrlDeclines` |
| Topcoder.FromStatQuery | onlinejudge/service/topcoder.py:225-233 | models the `/stat` query branch; stated by `AcceptsStatQuery` and `ProblemFromUrlDeclines` |
| Topcoder.ProblemFromUrl | onlinejudge/service/topcoder.py:206-237 | every problem recognised belongs to the service that the service matcher finds for the same URL |
| Topcoder.ProblemFromUrlDeclines | onlinejudge/service/topcoder.py:210-234 | each rejection case gives `None`: bad scheme or host, wrong path for the host, fragment not of the practice-code shape, non-integer fragment id, `c` not exactly `['problem_statement']`, `pm` absent, repeated or not an integer |
| Topcoder.AcceptsPracticeFragment | onlinejudge/service/topcoder.py:212-224 | an arena URL whose fragment is `/u/practiceCode/` and five integer ids gives the problem of the third id |
| Topcoder.AcceptsStatQuery | onlinejudge/service/topcoder.py:225-233 | a community URL with path `/stat`, `c` exactly `['problem_statement']` and a single `pm` that `int()` reads gives the problem of that id, whatever the order of the query |
| Topcoder.ProblemUrlRoundTrip | onlinejudge/service/topcoder.py:203-233 | `from_url(get_url(p)) == p` |
| Topcoder.ConvertToGreed | onlinejudge/service/topcoder.py:78-88 | models `_convert_to_greed`; what it returns is stated by `GreedTokenCases`, `BraceListToGreed` and `QuotedToGreed` |
| Topcoder.GreedTokenCases | onlinejudge/service/topcoder.py:82-88 | the three cases: a brace token becomes its piece count (commas plus one), a space, and its comma-separated pieces each stripped and joined by single spaces; otherwise a quoted token is the result wrapped in quotes; otherwise the token is unchanged |
| Topcoder.BraceListToGreed | onlinejudge/service/topcoder.py:82-84 | `{e0, e1, ...}` with clean elements becomes the count followed by the elements, space-separated |
| Topcoder.QuotedToGreed | onlinejudge/service/topcoder.py:85-86 | a quoted literal becomes the text between its quotes |
| Topcoder.FindStatCell | onlinejudge/service/topcoder.py:135 | a cell is found iff some cell has the label; the one found has the label and is from the table |
| Topcoder.FindStatCellIsFirst | onlinejudge/service/topcoder.py:135 | the cell found is the first one with the label: every cell before it has another text |
| Topcoder.LookupField | onlinejudge/service/topcoder.py:135-137 | models one `find(...).next_sibling.string` lookup; its outcome is stated by `ReadFieldsOutcome` |
| Topcoder.ReadFields | onlinejudge/service/topcoder.py:128-137 | models the Definition field reading; its outcome is stated by `ReadFieldsOutcome` and `ReadDefinition` |
| Topcoder.ReadFieldsOutcome | onlinejudge/service/topcoder.py:128-137 | the lookup loop succeeds iff every label is found with a value; it then maps each key to its label's value and keeps earlier unrelated entries; its failures are crashes |
| Topcoder.DefinitionOutcome | onlinejudge/service/topcoder.py:127-137 | the definition holds exactly the five keys, each with its label's value, or the download crashes |
| Topcoder.ReadDefinition | onlinejudge/service/topcoder.py:127-137 | the dictionary-filling loop computes the field reading |
| Topcoder.MissingLabelCrashes | onlinejudge/service/topcoder.py:135-137 | a missing Definition label is a crash and not a `SampleParseError` |
| Topcoder.ParseExample | onlinejudge/service/topcoder.py:175-185 | models the reading of one example row; its outcome is stated by `ParseExampleIff` and `ParseExampleNoMarker` |
| Topcoder.ParseExampleIff | onlinejudge/service/topcoder.py:175-185 | a row reads as `c` iff `c`'s inputs are the `<pre>` texts before the first marked one, in order, and its output is the marked text without the marker |
| Topcoder.ParseExampleSound | onlinejudge/service/topcoder.py:175-185 | what a row reads as is what it holds: inputs before the first marked `<pre>`, output after the marker |
| Topcoder.ParseExampleComplete | onlinejudge/service/topcoder.py:175-185 | a row holding an example reads as that example |
| Topcoder.ParseExampleNoMarker | onlinejudge/service/topcoder.py:183-184 | a row with no marked `<pre>` is a `SampleParseError` |
| Topcoder.CollectPres | onlinejudge/service/topcoder.py:175-185 | the `for ... else` loop computes the row reading |
| Topcoder.WalkExamples | onlinejudge/service/topcoder.py:159-185 | models the walk over the Examples rows; its outcome is stated by `WalkExamplesIff`, `WalkStopsAtMismatch` and `WalkStopsAtMissingRow` |
| Topcoder.WalkExamplesIff | onlinejudge/service/topcoder.py:159-185 | the walk succeeds with `cases` iff the rows are exactly those examples: the i-th in rows 2i and 2i+1 with header `i)`, followed by the end of the rows or a non-row |
| Topcoder.WalkStopsAtMismatch | onlinejudge/service/topcoder.py:167-168 | after some good examples, a header not reading the next ordinal fails with `SampleParseError` naming that ordinal |
| Topcoder.WalkStopsAtMissingRow | onlinejudge/service/topcoder.py:171-174 | after some good examples, a header reading the next ordinal with no row after it (the end of the rows or a non-row) fails with the `SampleParseError` for a missing example row |
| Topcoder.ReadExamples | onlinejudge/service/topcoder.py:159-185 | the `while True` cursor loop computes the walk |
| Topcoder.ConvertAll | onlinejudge/service/topcoder.py:193 | each item normalised, in order |
| Topcoder.ToTestCase | onlinejudge/service/topcoder.py:189-196 | models the building of one test case; its fields are stated by `TestCaseLines` |
| Topcoder.TestCasesOf | onlinejudge/service/topcoder.py:188-196 | one test case per example |
| Topcoder.TestCasesOfAt | onlinejudge/service/topcoder.py:189-196 | case i is example i converted, named after its position |
| Topcoder.TestCaseLines | onlinejudge/service/topcoder.py:190-196 | name `Example #i`, labels `input`/`output`, for every example; when it has an argument and no normalised argument holds a newline, the input splits into the normalised arguments plus one empty piece after the final newline; the output is the normalised result with nothing added |
| Topcoder.ToTestCases | onlinejudge/service/topcoder.py:188-196 | the conversion loop computes the test cases |
| Topcoder.ArenaDataOf | onlinejudge/service/topcoder.py:108-198 | models `_download_data` on a parsed page; its outcome is stated by `DownloadIsComplete`, `SampleParseErrors` and `MissingLabelCrashes` |
| Topcoder.DownloadData | onlinejudge/service/topcoder.py:108-198 | the whole walk, in the source's order of checks, computes `ArenaDataOf` |
| Topcoder.DownloadSampleCases | onlinejudge/service/topcoder.py:200-201 | the sample cases of a successful download, or its failure |
| Topcoder.DownloadIsComplete | onlinejudge/service/topcoder.py:108-198 | a successful download has one problem text; its definition has the five keys; its test cases are exactly the examples laid out in the rows; `raw_sample_cases` equals `sample_cases` |
| Topcoder.SampleParseErrors | onlinejudge/service/topcoder.py:108-157 | a problem-text cell that is not unique, a missing Definition heading and a missing Examples heading are `SampleParseError`s |
| Topcoder.Register | onlinejudge/service/topcoder.py:240-241 | the two handlers are appended at the end of the service and problem lists; the others are untouched |
| Topcoder.RegisteredProblemResolves | onlinejudge/service/topcoder.py:241 | behind handlers that all decline, the problem handler decides; behind one that accepts, it changes nothing |
| PyStr.Split | onlinejudge/service/topcoder.py:83 | `str.split(sep)`: at least one piece, no piece holds the separator; `SplitCount` and `JoinSplit` state the rest |
| PyStr.Join | onlinejudge/service/topcoder.py:84 | `sep.join(xs)`; `JoinSplit` and `SplitJoin` state it undoes and is undone by `split` |
| PyStr.Strip | onlinejudge/service/topcoder.py:84 | `str.strip()`; `StripTrims` states what it removes |
| PyStr.StripTrims | onlinejudge/service/topcoder.py:84 | `strip()` keeps one contiguous slice of the string; everything before and after that slice is white space, and the slice neither starts nor ends with white space |
| PyStr.SplitCount | onlinejudge/service/topcoder.py:83 | `split` gives one piece more than there are separators |
| PyStr.SplitJoin | onlinejudge/service/topcoder.py:213 | splitting a join of separator-free pieces gives the pieces back |
| PyStr.JoinSplit | onlinejudge/service/topcoder.py:83 | joining the pieces of a split with the separator gives the string back |
| PyStr.LStripRemovesLeadingSpace | onlinejudge/service/topcoder.py:84 | `lstrip` drops exactly the leading white space |
| PyStr.RStripRemovesTrailingSpace | onlinejudge/service/topcoder.py:84 | `rstrip` drops exactly the trailing white space |
| PyStr.NatToString | onlinejudge/service/topcoder.py:84 | `str(n)`: digits only, no leading zero |
| PyStr.IntToString | onlinejudge/service/topcoder.py:204 | a minus sign exactly for a negative number; ends with a digit |
| PyStr.NatToStringValue | onlinejudge/service/topcoder.py:229 | the decimal text of `n` is a digit string whose value is `n` |
| PyStr.ParseInt | onlinejudge/service/topcoder.py:216-229 | models `int(s)` for decimal text, `None` where it raises `ValueError`; stated by `ParseIntToString` and `ParseIntKeepsSeparator` |
| PyStr.IntStripUnpadded | onlinejudge/service/topcoder.py:229 | text with no white space of `int()`'s kind at either end is left as it is by `int()`'s stripping |
| PyStr.ParseIntKeepsSeparator | onlinejudge/service/topcoder.py:229 | `strip()` removes a leading U+001C but `int()` does not skip it, so `int()` rejects the text |
| PyStr.ParseIntToString | onlinejudge/service/topcoder.py:229 | `int(str(n)) == n` for every integer |
| TopcoderScenarios.ConvertBraceExample | onlinejudge/service/topcoder.py:79 | `{1, 0, 1, 1, 0}` becomes `5 1 0 1 1 0` |
| TopcoderScenarios.ConvertQuotedExample | onlinejudge/service/topcoder.py:80 | `"foo"` becomes `foo` |
| TopcoderScenarios.ConvertPlainExample | onlinejudge/service/topcoder.py:81 | `2` stays `2` |
| TopcoderScenarios.ArenaExampleIs10760 | onlinejudge/service/topcoder.py:208 | the arena example URL names problem 10760 |
| TopcoderScenarios.CommunityExampleIs10760 | onlinejudge/service/topcoder.py:209 | the community example URL names problem 10760 and is its canonical URL, so both forms give the same `get_url` |
| TopcoderScenarios.ReorderedQueryIs10760 | onlinejudge/service/topcoder.py:227-233 | the community URL with `pm` before `c` in its query still names problem 10760 |
| TopcoderScenarios.SeparatorIdDeclines | onlinejudge/service/topcoder.py:228-231 | a `pm` value beginning with U+001C is rejected, so the URL is declined |
| TopcoderScenarios.DefinitionCellsRead | onlinejudge/service/topcoder.py:128-137 | a table with all five labels reads successfully, with the five keys |
| TopcoderScenarios.ExamplePresRead | onlinejudge/service/topcoder.py:146-149 | the commented example row reads as three inputs and the output `40.0` |
| TopcoderScenarios.ExampleCaseConverted | onlinejudge/service/topcoder.py:188-196 | that example becomes `Example #0` with input `2 5 8\nfoo\n3.5\n` and output `40.0` |
| TopcoderScenarios.SinglePageReads | onlinejudge/service/topcoder.py:108-198 | a page whose sections both read successfully gives its definition and its test cases |
| TopcoderScenarios.OneExamplePage | onlinejudge/service/topcoder.py:139-196 | a page with the commented example yields exactly that one test case |
| TopcoderScenarios.NoExamplesPage | onlinejudge/service/topcoder.py:155-157 | a page without the Examples heading is a `SampleParseError` |
| TopcoderScenarios.MisnumberedPage | onlinejudge/service/topcoder.py:167-168 | a page whose second header reads `2)` fails with `SampleParseError` expecting `1)` |

## Left out

- HTTP: fetching the page, the session and decoding the response (topcoder.py:99-106) are I/O. The walk starts from the parsed page.
- HTML parsing: BeautifulSoup and its tree navigation are not modelled. A page is given as its `problemText` cells. Each cell holds the Definition table's label cells with the `.string` of their next sibling, and the siblings after the Examples heading's row, each either not a `tr` or a row with its first `td` and its `<pre>` strings. A `next_sibling` that is a text node rather than a tag is not distinguished from a non-row.
- `urllib.parse.urlparse`, `urllib.parse.parse_qs` and `utils.normpath` are taken as uninterpreted function parameters. The `params` component of `urlparse` is not represented.
- `_TopcoderArenaData.__print_hint`: the code hint it logs is not modelled. Only its `TypeError` on a `None` method signature is kept, because that ends the download.
- Logging in both files is a diagnostic side effect only.
- `.encode()` of the test-case bodies: bodies are strings.
- `int()`: non-ASCII digits and CPython's limit on the length of integer strings are not modelled.
- Exceptions raised inside a registered handler's `from_url` are not modelled: matchers are total functions.
- `get_name` is modelled as `Topcoder.ServiceGetName` without a property.
- Dispatch.Registry.SubmissionFromUrl: resolution leaving the lists alone is carried by the lack of a `modifies` clause, not by an `ensures`.
- Topcoder.ProblemFromUrl: its own contract states only the service relation. The declines are stated by `ProblemFromUrlDeclines`. The accepted forms are stated by `AcceptsPracticeFragment` for the arena fragment and by `AcceptsStatQuery` for the `/stat` query. Both are stated under the preconditions on `urlparse`, `parse_qs` and `normpath` that those lemmas name.
- TopcoderScenarios.ArenaExampleIs10760: how `urlparse` splits the example URL, and `normpath` leaving its path and fragment alone, are preconditions, because the library is not modelled.
