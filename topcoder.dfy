/**
 * The Topcoder handler: the service and problem URL matchers, the canonical problem
 * URL, the normalisation of Topcoder literals into the Greed test format, and the walk
 * over a problem statement page that recovers the Definition fields and the Examples
 * as test cases.
 *
 * The URL library functions (`urllib.parse.urlparse`, `urllib.parse.parse_qs` and the
 * project's `utils.normpath`) are not part of this model: the matchers receive them as
 * function values in a `UrlLib`.  The HTML tree is not modelled either: a statement page
 * is given as the few things the walk looks at (the `problemText` cells, the cells of
 * the Definition table, the rows that follow the Examples heading).
 */
module Topcoder {
  import opened Wrappers
  import opened PyStr
  import Dispatch

  // ===========================================================================
  // URLs

  /** The components of `urllib.parse.urlparse(url)` that the matchers read. */
  datatype ParseResult = ParseResult(scheme: string, netloc: string, path: string, query: string, fragment: string)

  /** `urlparse`, `parse_qs` (a key to its list of values) and `utils.normpath`. */
  datatype UrlLib = UrlLib(
    urlparse: string -> ParseResult,
    parseQs: string -> map<string, seq<string>>,
    normpath: string -> string)

  const ArenaHost := "arena.topcoder.com"
  const CommunityHost := "community.topcoder.com"

  /** The schemes both matchers accept: none, `http` and `https`. */
  predicate AcceptedScheme(scheme: string) {
    scheme == "" || scheme == "http" || scheme == "https"
  }

  /** The one Topcoder service. */
  datatype TopcoderArenaService = TopcoderArenaService

  /** `TopcoderArenaService.get_url`. */
  function ServiceGetUrl(): string {
    "https://arena.topcoder.com/"
  }

  /** `TopcoderArenaService.get_name`. */
  function ServiceGetName(): string {
    "Topcoder"
  }

  /** `TopcoderArenaService.from_url`: an allow-list of schemes and of the two Topcoder hosts. */
  function ServiceFromUrl(url: string, lib: UrlLib): (r: Option<TopcoderArenaService>)
    ensures r.Some? <==>
              && AcceptedScheme(lib.urlparse(url).scheme)
              && (lib.urlparse(url).netloc == ArenaHost || lib.urlparse(url).netloc == CommunityHost)
  {
    var result := lib.urlparse(url);
    if AcceptedScheme(result.scheme) then
      if result.netloc in [ArenaHost, CommunityHost] then Some(TopcoderArenaService) else None
    else None
  }

  /** The service's own URL is one that the service recognises, given that `urlparse` splits it the standard way. */
  lemma ServiceUrlRecognised(lib: UrlLib)
    requires lib.urlparse(ServiceGetUrl()) == ParseResult("https", ArenaHost, "/", "", "")
    ensures ServiceFromUrl(ServiceGetUrl(), lib) == Some(TopcoderArenaService)
  {
  }

  /** A Topcoder problem, identified by its numeric problem id. */
  datatype TopcoderArenaProblem = TopcoderArenaProblem(problemId: int)

  /** The canonical problem URL up to the id. */
  const StatementUrlPrefix := "https://community.topcoder.com/stat?c=problem_statement&pm="

  /**
   * `TopcoderArenaProblem.get_url`: the problem statement URL on the community host,
   * from whose `pm` parameter the problem id reads back.
   */
  function ProblemGetUrl(p: TopcoderArenaProblem): (r: string)
    ensures |StatementUrlPrefix| <= |r| && r[..|StatementUrlPrefix|] == StatementUrlPrefix
    ensures ParseInt(r[|StatementUrlPrefix|..]) == Some(p.problemId)
  {
    var r := StatementUrlPrefix + IntToString(p.problemId);
    assert r[|StatementUrlPrefix|..] == IntToString(p.problemId);
    ParseIntToString(p.problemId);
    r
  }

  /** `TopcoderArenaProblem.get_service`. */
  function ProblemGetService(p: TopcoderArenaProblem): TopcoderArenaService {
    TopcoderArenaService
  }

  /** The fragment `/u/practiceCode/<round>/<component>/<problem>/<division>/<room>` split at `/`. */
  predicate PracticeCodeShape(dirs: seq<string>) {
    |dirs| == 8 && dirs[0] == "" && dirs[1] == "u" && dirs[2] == "practiceCode"
  }

  /** The arena form: `https://arena.topcoder.com/index.html#/u/practiceCode/...`; the third id is the problem. */
  function FromPracticeFragment(u: ParseResult, lib: UrlLib): Option<TopcoderArenaProblem> {
    if u.netloc == ArenaHost && lib.normpath(u.path) in ["/", "/index.html"] then
      var dirs := Split(lib.normpath(u.fragment), '/');
      if PracticeCodeShape(dirs) && forall i | 3 <= i < 8 :: ParseInt(dirs[i]).Some? then
        Some(TopcoderArenaProblem(ParseInt(dirs[5]).value))
      else None
    else None
  }

  /** The community form: `https://community.topcoder.com/stat?c=problem_statement&pm=<id>`. */
  function FromStatQuery(u: ParseResult, lib: UrlLib): Option<TopcoderArenaProblem> {
    if u.netloc == CommunityHost && lib.normpath(u.path) == "/stat" then
      var query := lib.parseQs(u.query);
      if "c" in query && query["c"] == ["problem_statement"] && "pm" in query && |query["pm"]| == 1 then
        var id := ParseInt(query["pm"][0]);
        if id.Some? then Some(TopcoderArenaProblem(id.value)) else None
      else None
    else None
  }

  /**
   * `TopcoderArenaProblem.from_url`.  Every problem it recognises belongs to the
   * service that `ServiceFromUrl` finds for the same URL.
   */
  function ProblemFromUrl(url: string, lib: UrlLib): (r: Option<TopcoderArenaProblem>)
    ensures r.Some? ==> ServiceFromUrl(url, lib) == Some(ProblemGetService(r.value))
  {
    var result := lib.urlparse(url);
    if AcceptedScheme(result.scheme) then
      var fromFragment := FromPracticeFragment(result, lib);
      if fromFragment.Some? then fromFragment else FromStatQuery(result, lib)
    else None
  }

  /**
   * Given that `urlparse` returns, `from_url` never fails: every URL it does not
   * recognise is declined with `None`.
   * It declines a bad scheme or host; on the arena host, a path other than `/` or
   * `/index.html`, a fragment not of the practice-code shape, or a fragment id that is
   * not an integer; on the community host, a path other than `/stat`, a `c` parameter
   * other than exactly `['problem_statement']`, and a `pm` parameter that is absent,
   * repeated or not an integer.
   */
  lemma ProblemFromUrlDeclines(url: string, lib: UrlLib)
    ensures !AcceptedScheme(lib.urlparse(url).scheme) ==> ProblemFromUrl(url, lib).None?
    ensures lib.urlparse(url).netloc !in [ArenaHost, CommunityHost] ==> ProblemFromUrl(url, lib).None?
    ensures var u := lib.urlparse(url); var dirs := Split(lib.normpath(u.fragment), '/');
            u.netloc == ArenaHost ==>
              && (lib.normpath(u.path) !in ["/", "/index.html"] ==> ProblemFromUrl(url, lib).None?)
              && (!PracticeCodeShape(dirs) ==> ProblemFromUrl(url, lib).None?)
              && (PracticeCodeShape(dirs) && (exists i | 3 <= i < 8 :: ParseInt(dirs[i]).None?) ==>
                    ProblemFromUrl(url, lib).None?)
    ensures var u := lib.urlparse(url); var query := lib.parseQs(u.query);
            u.netloc == CommunityHost ==>
              && (lib.normpath(u.path) != "/stat" ==> ProblemFromUrl(url, lib).None?)
              && (("c" !in query || query["c"] != ["problem_statement"]) ==> ProblemFromUrl(url, lib).None?)
              && (("pm" !in query || |query["pm"]| != 1) ==> ProblemFromUrl(url, lib).None?)
              && ("pm" in query && |query["pm"]| == 1 && ParseInt(query["pm"][0]).None? ==>
                    ProblemFromUrl(url, lib).None?)
  {
  }

  /** The practice-code fragment built from five ids splits back into its eight parts. */
  lemma PracticeFragmentSplits(ids: seq<string>)
    requires |ids| == 5 && forall i | 0 <= i < 5 :: '/' !in ids[i]
    ensures Split(Join(["", "u", "practiceCode"] + ids, "/"), '/') == ["", "u", "practiceCode"] + ids
  {
    var dirs := ["", "u", "practiceCode"] + ids;
    forall i | 0 <= i < |dirs| ensures '/' !in dirs[i] {
      if i >= 3 {
        assert dirs[i] == ids[i - 3];
      }
    }
    SplitJoin(dirs, '/');
  }

  /** The eight parts of such a fragment have the practice-code shape, and their five ids parse. */
  lemma PracticeFragmentIds(ids: seq<string>)
    requires |ids| == 5 && forall i | 0 <= i < 5 :: ParseInt(ids[i]).Some?
    ensures PracticeCodeShape(["", "u", "practiceCode"] + ids)
    ensures var dirs := ["", "u", "practiceCode"] + ids; forall i | 3 <= i < 8 :: ParseInt(dirs[i]).Some?
  {
    var dirs := ["", "u", "practiceCode"] + ids;
    forall i | 3 <= i < 8 ensures ParseInt(dirs[i]).Some? {
      assert dirs[i] == ids[i - 3];
    }
  }

  /** On the arena host, a fragment that splits into the practice-code parts gives the third id. */
  lemma PracticeFragmentAccepted(u: ParseResult, lib: UrlLib, ids: seq<string>)
    requires u.netloc == ArenaHost && lib.normpath(u.path) in ["/", "/index.html"]
    requires |ids| == 5 && forall i | 0 <= i < 5 :: ParseInt(ids[i]).Some?
    requires Split(lib.normpath(u.fragment), '/') == ["", "u", "practiceCode"] + ids
    ensures FromPracticeFragment(u, lib) == Some(TopcoderArenaProblem(ParseInt(ids[2]).value))
  {
    var dirs := Split(lib.normpath(u.fragment), '/');
    PracticeFragmentIds(ids);
    assert dirs[5] == ids[2];
  }

  /** The arena form with five integer ids is accepted, and its problem id is the third. */
  lemma AcceptsPracticeFragment(url: string, lib: UrlLib, ids: seq<string>)
    requires AcceptedScheme(lib.urlparse(url).scheme) && lib.urlparse(url).netloc == ArenaHost
    requires lib.normpath(lib.urlparse(url).path) in ["/", "/index.html"]
    requires |ids| == 5 && forall i | 0 <= i < 5 :: '/' !in ids[i] && ParseInt(ids[i]).Some?
    requires lib.normpath(lib.urlparse(url).fragment) == Join(["", "u", "practiceCode"] + ids, "/")
    ensures ProblemFromUrl(url, lib) == Some(TopcoderArenaProblem(ParseInt(ids[2]).value))
  {
    PracticeFragmentSplits(ids);
    PracticeFragmentAccepted(lib.urlparse(url), lib, ids);
  }

  /**
   * The community form is accepted whatever the order of its parameters: a `/stat`
   * URL on the community host whose `c` is exactly `['problem_statement']` and whose
   * single `pm` is an integer gives the problem of that id.
   */
  lemma AcceptsStatQuery(url: string, lib: UrlLib)
    requires AcceptedScheme(lib.urlparse(url).scheme) && lib.urlparse(url).netloc == CommunityHost
    requires lib.normpath(lib.urlparse(url).path) == "/stat"
    requires var query := lib.parseQs(lib.urlparse(url).query);
             && "c" in query && query["c"] == ["problem_statement"]
             && "pm" in query && |query["pm"]| == 1 && ParseInt(query["pm"][0]).Some?
    ensures var query := lib.parseQs(lib.urlparse(url).query);
            ProblemFromUrl(url, lib) == Some(TopcoderArenaProblem(ParseInt(query["pm"][0]).value))
  {
  }

  /**
   * The service of a problem owns the problem's canonical URL: the service matcher
   * accepts it, given that `urlparse` splits it the standard way.
   */
  lemma ProblemServiceOwnsUrl(p: TopcoderArenaProblem, lib: UrlLib)
    requires lib.urlparse(ProblemGetUrl(p)) ==
               ParseResult("https", CommunityHost, "/stat", "c=problem_statement&pm=" + IntToString(p.problemId), "")
    ensures ServiceFromUrl(ProblemGetUrl(p), lib) == Some(ProblemGetService(p))
  {
  }

  /**
   * `from_url(get_url(p))` recovers `p`, given that the URL library splits the canonical
   * URL the standard way and that `normpath` leaves `/stat` alone.
   */
  lemma ProblemUrlRoundTrip(p: TopcoderArenaProblem, lib: UrlLib)
    requires lib.urlparse(ProblemGetUrl(p)) ==
               ParseResult("https", CommunityHost, "/stat", "c=problem_statement&pm=" + IntToString(p.problemId), "")
    requires lib.parseQs("c=problem_statement&pm=" + IntToString(p.problemId)) ==
               map["c" := ["problem_statement"], "pm" := [IntToString(p.problemId)]]
    requires lib.normpath("/stat") == "/stat"
    ensures ProblemFromUrl(ProblemGetUrl(p), lib) == Some(p)
  {
    ParseIntToString(p.problemId);
  }

  // ===========================================================================
  // Literal normalisation

  /** `map(lambda y: y.strip(), ys)`. */
  function StripAll(ys: seq<string>): (r: seq<string>)
    ensures |r| == |ys| && forall i :: 0 <= i < |ys| ==> r[i] == Strip(ys[i])
  {
    seq(|ys|, i requires 0 <= i < |ys| => Strip(ys[i]))
  }

  /**
   * `_convert_to_greed`: a brace list becomes its element count followed by its
   * elements; a quoted string loses its quotes; any other token is left as it is.
   */
  function ConvertToGreed(x: string): string
  {
    if StartsWith(x, "{") && EndsWith(x, "}") then
      var ys := Split(Inner(x), ',');
      Join([NatToString(|ys|)] + StripAll(ys), " ")
    else if StartsWith(x, "\"") && EndsWith(x, "\"") then
      Inner(x)
    else
      x
  }

  /**
   * The three cases of the normalisation: a token in braces starts with the number of
   * its comma-separated pieces (one more than its commas) and a space; otherwise a
   * token in double quotes loses exactly its first and last character; otherwise the
   * token is left as it is.
   */
  lemma GreedTokenCases(x: string)
    ensures StartsWith(x, "{") && EndsWith(x, "}") ==>
              ConvertToGreed(x) == NatToString(CountChar(Inner(x), ',') + 1) + " " + Join(StripAll(Split(Inner(x), ',')), " ")
    ensures !(StartsWith(x, "{") && EndsWith(x, "}")) && StartsWith(x, "\"") && EndsWith(x, "\"") ==>
              && (|x| >= 2 ==> x == "\"" + ConvertToGreed(x) + "\"")
              && (|x| < 2 ==> ConvertToGreed(x) == "")
    ensures !(StartsWith(x, "{") && EndsWith(x, "}")) && !(StartsWith(x, "\"") && EndsWith(x, "\"")) ==>
              ConvertToGreed(x) == x
  {
    if StartsWith(x, "{") && EndsWith(x, "}") {
      var ys := Split(Inner(x), ',');
      SplitCount(Inner(x), ',');
      var head := NatToString(|ys|);
      JoinCons(head, StripAll(ys), " ");
    } else if StartsWith(x, "\"") && EndsWith(x, "\"") && |x| >= 2 {
      assert x[..1] == "\"" && x[|x| - 1..] == "\"";
      assert x == [x[0]] + x[1..|x| - 1] + [x[|x| - 1]];
    }
  }

  /** The elements of a brace list as Topcoder prints them: after the first, each follows a space. */
  function SpaceAfterComma(elems: seq<string>): (r: seq<string>)
    requires |elems| >= 1
    ensures |r| == |elems| && r[0] == elems[0]
    ensures forall i :: 1 <= i < |elems| ==> r[i] == " " + elems[i]
  {
    [elems[0]] + seq(|elems| - 1, i requires 0 <= i < |elems| - 1 => " " + elems[i + 1])
  }

  lemma {:induction false} JoinCommaSpace(elems: seq<string>)
    requires |elems| >= 1
    ensures Join(elems, ", ") == Join(SpaceAfterComma(elems), ",")
  {
    if |elems| > 1 {
      JoinCommaSpace(elems[1..]);
      var t := SpaceAfterComma(elems[1..]);
      assert SpaceAfterComma(elems)[1..] == [" " + t[0]] + t[1..];
      if |elems| > 2 {
        assert Join([" " + t[0]] + t[1..], ",") == " " + t[0] + "," + Join(t[1..], ",");
        assert ([" " + t[0]] + t[1..])[1..] == t[1..];
      }
    }
  }

  /** Elements without commas stay without commas once a space is put in front. */
  lemma SpaceAfterCommaFree(elems: seq<string>)
    requires |elems| >= 1 && forall i :: 0 <= i < |elems| ==> ',' !in elems[i]
    ensures forall i :: 0 <= i < |elems| ==> ',' !in SpaceAfterComma(elems)[i]
  {
    var padded := SpaceAfterComma(elems);
    forall i | 0 <= i < |padded| ensures ',' !in padded[i] {
      if i > 0 {
        assert padded[i] == " " + elems[i];
      }
    }
  }

  /** An element without outer white space comes out of `strip()` unchanged, with or without a space in front. */
  lemma StripSpaced(e: string)
    requires e == [] || (!IsSpace(e[0]) && !IsSpace(e[|e| - 1]))
    ensures Strip(e) == e && Strip(" " + e) == e
  {
    StripUnpadded(e);
    StripLeadingSpace(' ', e);
  }

  /** Stripping undoes the added space, provided the elements have no outer white space. */
  lemma SpaceAfterCommaStrips(elems: seq<string>)
    requires |elems| >= 1
    requires forall i :: 0 <= i < |elems| ==> elems[i] == [] || (!IsSpace(elems[i][0]) && !IsSpace(elems[i][|elems[i]| - 1]))
    ensures StripAll(SpaceAfterComma(elems)) == elems
  {
    var padded := SpaceAfterComma(elems);
    var stripped := StripAll(padded);
    forall i | 0 <= i < |elems| ensures stripped[i] == elems[i] {
      StripSpaced(elems[i]);
      if i == 0 {
        assert padded[i] == elems[i];
      } else {
        assert padded[i] == " " + elems[i];
      }
    }
    assert |stripped| == |elems|;
  }

  /** The text between the braces of a printed brace list. */
  lemma BraceListShape(elems: seq<string>)
    requires |elems| >= 1
    ensures var x := "{" + Join(elems, ", ") + "}";
            StartsWith(x, "{") && EndsWith(x, "}") && Inner(x) == Join(elems, ", ")
  {
    var x := "{" + Join(elems, ", ") + "}";
    assert x[..1] == "{" && x[|x| - 1..] == "}";
  }

  /** The brace branch of the normalisation. */
  lemma BraceTokenToGreed(x: string)
    requires StartsWith(x, "{") && EndsWith(x, "}")
    ensures ConvertToGreed(x) == Join([NatToString(|Split(Inner(x), ',')|)] + StripAll(Split(Inner(x), ',')), " ")
  {
  }

  /** Splitting `e0, e1, ...` at the commas gives the elements, each after the first with its space. */
  lemma SplitBraceElements(elems: seq<string>)
    requires |elems| >= 1 && forall i :: 0 <= i < |elems| ==> ',' !in elems[i]
    ensures Split(Join(elems, ", "), ',') == SpaceAfterComma(elems)
  {
    JoinCommaSpace(elems);
    SpaceAfterCommaFree(elems);
    SplitJoin(SpaceAfterComma(elems), ',');
  }

  /**
   * A brace list `{e0, e1, ...}` of elements without commas or outer white space
   * normalises to the count followed by the elements, separated by single spaces.
   */
  lemma BraceListToGreed(elems: seq<string>)
    requires |elems| >= 1
    requires forall i :: 0 <= i < |elems| ==>
               ',' !in elems[i] && (elems[i] == [] || (!IsSpace(elems[i][0]) && !IsSpace(elems[i][|elems[i]| - 1])))
    ensures ConvertToGreed("{" + Join(elems, ", ") + "}") == Join([NatToString(|elems|)] + elems, " ")
  {
    var x := "{" + Join(elems, ", ") + "}";
    BraceListShape(elems);
    BraceTokenToGreed(x);
    SplitBraceElements(elems);
    SpaceAfterCommaStrips(elems);
  }

  /** A quoted literal normalises to the text between the quotes. */
  lemma QuotedToGreed(s: string)
    ensures ConvertToGreed("\"" + s + "\"") == s
  {
    var x := "\"" + s + "\"";
    assert x[0] == '"';
    assert Inner(x) == s;
  }

  // ===========================================================================
  // The statement page, as far as the walk looks at it

  /** A node's `.string`: its text when it has a single text child, `None` otherwise. */
  type NodeString = Option<string>

  /**
   * A `<td class="statText">` of the table after the Definition heading: its `.string`,
   * and the `.string` of its next sibling (`None` when it has no next sibling).
   */
  datatype StatCell = StatCell(text: NodeString, next: Option<NodeString>)

  /** What follows the Definition heading: no heading, a heading with no table after it, or the table's cells. */
  datatype DefinitionSection = NoDefinitionHeading | NoDefinitionTable | DefinitionTable(cells: seq<StatCell>)

  /** The first `<td>` of a row (`row.find('td')`): none, or one with its `.string`. */
  datatype FirstTd = NoTd | Td(text: NodeString)

  /** A sibling after the Examples heading's row: something that is not a `<tr>`, or a row. */
  datatype Sibling = NotRow | Row(firstTd: FirstTd, pres: seq<NodeString>)

  /** What follows the Examples heading: no heading, or the siblings after its row, in order. */
  datatype ExamplesSection = NoExamplesHeading | ExampleRows(rows: seq<Sibling>)

  /** A `<td class="problemText">` cell. */
  datatype ProblemText = ProblemText(definition: DefinitionSection, examples: ExamplesSection)

  /** A problem statement page: all of its `problemText` cells. */
  datatype StatementPage = StatementPage(problemTexts: seq<ProblemText>)

  /** The reasons `SampleParseError` is raised with. */
  datatype ParseFailure =
    | ProblemTextNotUnique
    | DefinitionNotFound
    | ExamplesNotFound
    | HeaderMismatch(expected: nat)
    | ExampleRowMissing
    | ReturnsNotFound

  /** The Python exceptions the walk raises without meaning to (attribute access on `None`, `re.sub` on `None`). */
  datatype CrashCause =
    | DefinitionTableMissing
    | LabelNotFound(labelText: string)
    | LabelValueMissing(labelText: string)
    | HeaderRowWithoutTd
    | PreWithoutString
    | SignatureMissing

  /** How a download fails: a deliberate `SampleParseError`, or an uncaught exception. */
  datatype Failure = SampleParseError(reason: ParseFailure) | Crash(cause: CrashCause)

  // ===========================================================================
  // The Definition section

  /** The Definition labels, in the order the source looks them up, and the keys their values are stored under. */
  const DefinitionFields: seq<(string, string)> := [
    ("Class:", "class"),
    ("Method:", "method"),
    ("Parameters:", "parameters"),
    ("Returns:", "returns"),
    ("Method signature:", "method_signature")
  ]

  const DefinitionKeys: set<string> := {"class", "method", "parameters", "returns", "method_signature"}

  /** `find('td', class_='statText', text=label)`: the first cell whose text is the label. */
  function FindStatCell(cells: seq<StatCell>, labelText: string): (r: Option<StatCell>)
    ensures r.Some? <==> exists i :: 0 <= i < |cells| && cells[i].text == Some(labelText)
    ensures r.Some? ==> r.value.text == Some(labelText) && r.value in cells
  {
    if cells == [] then None
    else if cells[0].text == Some(labelText) then Some(cells[0])
    else FindStatCell(cells[1..], labelText)
  }

  /** The cell found is the first one with the label: every cell before it has another text. */
  lemma {:induction false} FindStatCellIsFirst(cells: seq<StatCell>, labelText: string)
    ensures FindStatCell(cells, labelText).Some? ==>
              exists i :: 0 <= i < |cells| && FindStatCell(cells, labelText).value == cells[i]
                          && forall j :: 0 <= j < i ==> cells[j].text != Some(labelText)
  {
    if cells != [] && cells[0].text != Some(labelText) {
      FindStatCellIsFirst(cells[1..], labelText);
      if FindStatCell(cells, labelText).Some? {
        var i :| 0 <= i < |cells[1..]| && FindStatCell(cells[1..], labelText).value == cells[1..][i]
                 && forall j :: 0 <= j < i ==> cells[1..][j].text != Some(labelText);
        assert forall j :: 1 <= j < i + 1 ==> cells[j] == cells[1..][j - 1];
        assert FindStatCell(cells, labelText).value == cells[i + 1];
      }
    }
  }

  /** The value of one label: `td.next_sibling.string`, where a missing cell or sibling crashes. */
  function LookupField(cells: seq<StatCell>, labelText: string): Result<NodeString, Failure> {
    var td := FindStatCell(cells, labelText);
    if td.None? then Err(Crash(LabelNotFound(labelText)))
    else if td.value.next.None? then Err(Crash(LabelValueMissing(labelText)))
    else Ok(td.value.next.value)
  }

  /** The lookup loop from the given field on, with the fields read so far in `acc`. */
  function ReadFields(cells: seq<StatCell>, fields: seq<(string, string)>, acc: map<string, NodeString>)
    : Result<map<string, NodeString>, Failure>
  {
    if fields == [] then Ok(acc)
    else
      var value := LookupField(cells, fields[0].0);
      if value.Err? then Err(value.error)
      else ReadFields(cells, fields[1..], acc[fields[0].1 := value.value])
  }

  /** The keys of a list of fields. */
  function FieldKeys(fields: seq<(string, string)>): set<string> {
    set i | 0 <= i < |fields| :: fields[i].1
  }

  /** The keys of a list of fields: the first key and the keys of the rest. */
  lemma FieldKeysCons(fields: seq<(string, string)>)
    requires |fields| >= 1
    ensures FieldKeys(fields) == {fields[0].1} + FieldKeys(fields[1..])
  {
    var all := FieldKeys(fields);
    var rest := FieldKeys(fields[1..]);
    forall k | k in all ensures k in {fields[0].1} + rest {
      var i :| 0 <= i < |fields| && fields[i].1 == k;
      if i > 0 {
        assert fields[1..][i - 1].1 == k;
      }
    }
    forall k | k in rest ensures k in all {
      var i :| 0 <= i < |fields[1..]| && fields[1..][i].1 == k;
      assert fields[i + 1].1 == k;
    }
  }

  /**
   * Reading the Definition fields succeeds exactly when every label is found with a
   * value; it then holds one entry per field key, with that label's value, and keeps
   * every earlier entry whose key is not a field key.  It never raises
   * `SampleParseError`: a missing label or value is an uncaught exception.
   */
  lemma {:induction false} ReadFieldsOutcome(cells: seq<StatCell>, fields: seq<(string, string)>, acc: map<string, NodeString>)
    requires forall i, j :: 0 <= i < j < |fields| ==> fields[i].1 != fields[j].1
    ensures ReadFields(cells, fields, acc).Ok? <==>
              forall i :: 0 <= i < |fields| ==> LookupField(cells, fields[i].0).Ok?
    ensures ReadFields(cells, fields, acc).Err? ==> ReadFields(cells, fields, acc).error.Crash?
    ensures ReadFields(cells, fields, acc).Ok? ==>
              && ReadFields(cells, fields, acc).value.Keys == acc.Keys + FieldKeys(fields)
              && (forall i :: 0 <= i < |fields| ==>
                    ReadFields(cells, fields, acc).value[fields[i].1] == LookupField(cells, fields[i].0).value)
              && (forall k :: k in acc && k !in FieldKeys(fields) ==> ReadFields(cells, fields, acc).value[k] == acc[k])
  {
    if fields != [] {
      var value := LookupField(cells, fields[0].0);
      var rest := fields[1..];
      assert forall i :: 1 <= i < |fields| ==> fields[i] == rest[i - 1];
      FieldKeysCons(fields);
      if value.Ok? {
        var acc' := acc[fields[0].1 := value.value];
        ReadFieldsOutcome(cells, rest, acc');
        var r := ReadFields(cells, fields, acc);
        if r.Ok? {
          assert fields[0].1 !in FieldKeys(rest);
          assert r.value[fields[0].1] == value.value;
        }
      } else {
        assert !LookupField(cells, fields[0].0).Ok?;
      }
    }
  }

  /** The five Definition fields, read the way the source's loop reads them. */
  method ReadDefinition(cells: seq<StatCell>) returns (r: Result<map<string, NodeString>, Failure>)
    ensures r == ReadFields(cells, DefinitionFields, map[])
  {
    var definition: map<string, NodeString> := map[];
    var i := 0;
    while i < |DefinitionFields|
      invariant 0 <= i <= |DefinitionFields|
      invariant ReadFields(cells, DefinitionFields[i..], definition) == ReadFields(cells, DefinitionFields, map[])
    {
      var (text, key) := DefinitionFields[i];
      var td := FindStatCell(cells, text);
      if td.None? {
        return Err(Crash(LabelNotFound(text)));
      }
      if td.value.next.None? {
        return Err(Crash(LabelValueMissing(text)));
      }
      assert DefinitionFields[i..][1..] == DefinitionFields[i + 1..];
      definition := definition[key := td.value.next.value];
      i := i + 1;
    }
    return Ok(definition);
  }

  /** The five labels are stored under five different keys, and those are the definition's keys. */
  lemma DefinitionFieldKeys()
    ensures forall i, j :: 0 <= i < j < |DefinitionFields| ==> DefinitionFields[i].1 != DefinitionFields[j].1
    ensures FieldKeys(DefinitionFields) == DefinitionKeys
  {
    var keys := FieldKeys(DefinitionFields);
    assert DefinitionFields[0].1 in keys && DefinitionFields[1].1 in keys && DefinitionFields[2].1 in keys;
    assert DefinitionFields[3].1 in keys && DefinitionFields[4].1 in keys;
  }

  /** The definition read from a table holds exactly the five keys, each with its label's value, or it crashes. */
  lemma DefinitionOutcome(cells: seq<StatCell>)
    ensures ReadFields(cells, DefinitionFields, map[]).Ok? <==>
              forall i :: 0 <= i < |DefinitionFields| ==> LookupField(cells, DefinitionFields[i].0).Ok?
    ensures ReadFields(cells, DefinitionFields, map[]).Err? ==> ReadFields(cells, DefinitionFields, map[]).error.Crash?
    ensures ReadFields(cells, DefinitionFields, map[]).Ok? ==>
              && ReadFields(cells, DefinitionFields, map[]).value.Keys == DefinitionKeys
              && forall i :: 0 <= i < |DefinitionFields| ==>
                   ReadFields(cells, DefinitionFields, map[]).value[DefinitionFields[i].1]
                   == LookupField(cells, DefinitionFields[i].0).value
  {
    DefinitionFieldKeys();
    ReadFieldsOutcome(cells, DefinitionFields, map[]);
  }

  // ===========================================================================
  // The Examples section

  /** The prefix that marks the `<pre>` holding an example's expected result. */
  const ReturnsMarker := "Returns: "

  /** One example as it is read: its argument literals and its result literal. */
  datatype RawCase = RawCase(inputs: seq<string>, output: string)

  /** `'{})'.format(k)`: the header text of the `k`-th example. */
  function Ordinal(k: nat): string {
    NatToString(k) + ")"
  }

  /**
   * The `for pre in row.find_all('pre') ... else` loop: the texts before the first one
   * that starts with the marker are the inputs, and that one without the marker is the output.
   */
  function ParseExample(pres: seq<NodeString>): Result<RawCase, Failure> {
    if pres == [] then Err(SampleParseError(ReturnsNotFound))
    else if pres[0].None? then Err(Crash(PreWithoutString))
    else if StartsWith(pres[0].value, ReturnsMarker) then Ok(RawCase([], pres[0].value[|ReturnsMarker|..]))
    else PrependInputs([pres[0].value], ParseExample(pres[1..]))
  }

  /** Puts `items` in front of the inputs of a successfully read example. */
  function PrependInputs(items: seq<string>, r: Result<RawCase, Failure>): Result<RawCase, Failure> {
    if r.Ok? then Ok(RawCase(items + r.value.inputs, r.value.output)) else r
  }

  /**
   * `c` is what a row with these `<pre>` texts holds: its inputs are the texts before
   * the first marked one, in order, none of them marked, and its output is the marked
   * text after the marker.
   */
  ghost predicate ExampleBody(pres: seq<NodeString>, c: RawCase) {
    && |c.inputs| < |pres|
    && pres[|c.inputs|] == Some(ReturnsMarker + c.output)
    && forall j :: 0 <= j < |c.inputs| ==> pres[j] == Some(c.inputs[j]) && !StartsWith(c.inputs[j], ReturnsMarker)
  }

  /** What a row reads as is what the row holds. */
  lemma {:induction false} ParseExampleSound(pres: seq<NodeString>, c: RawCase)
    requires ParseExample(pres) == Ok(c)
    ensures ExampleBody(pres, c)
  {
    var s := pres[0].value;
    if StartsWith(s, ReturnsMarker) {
      assert s == ReturnsMarker + s[|ReturnsMarker|..];
    } else {
      var c' := ParseExample(pres[1..]).value;
      ParseExampleSound(pres[1..], c');
      assert c.inputs == [s] + c'.inputs;
      assert forall j :: 1 <= j < |c.inputs| ==> pres[j] == pres[1..][j - 1] && c.inputs[j] == c'.inputs[j - 1];
    }
  }

  /** A row holding `c` reads as `c`. */
  lemma {:induction false} ParseExampleComplete(pres: seq<NodeString>, c: RawCase)
    requires ExampleBody(pres, c)
    ensures ParseExample(pres) == Ok(c)
  {
    if c.inputs == [] {
      assert pres[0].value == ReturnsMarker + c.output;
      assert StartsWith(pres[0].value, ReturnsMarker);
      assert pres[0].value[|ReturnsMarker|..] == c.output;
    } else {
      assert pres[0] == Some(c.inputs[0]);
      var c' := RawCase(c.inputs[1..], c.output);
      assert forall j :: 0 <= j < |c'.inputs| ==> pres[1..][j] == pres[j + 1] && c'.inputs[j] == c.inputs[j + 1];
      ParseExampleComplete(pres[1..], c');
      assert [c.inputs[0]] + c'.inputs == c.inputs;
    }
  }

  /** Reading an example row yields `c` exactly when `c` is what the row holds. */
  lemma {:induction false} ParseExampleIff(pres: seq<NodeString>, c: RawCase)
    ensures ParseExample(pres) == Ok(c) <==> ExampleBody(pres, c)
  {
    if ParseExample(pres) == Ok(c) {
      ParseExampleSound(pres, c);
    }
    if ExampleBody(pres, c) {
      ParseExampleComplete(pres, c);
    }
  }

  /** A row whose `<pre>` texts are all present and none marked is a `SampleParseError`. */
  lemma {:induction false} ParseExampleNoMarker(pres: seq<NodeString>)
    requires forall j :: 0 <= j < |pres| ==> pres[j].Some? && !StartsWith(pres[j].value, ReturnsMarker)
    ensures ParseExample(pres) == Err(SampleParseError(ReturnsNotFound))
  {
    if pres != [] {
      ParseExampleNoMarker(pres[1..]);
    }
  }

  /** Putting nothing in front changes nothing; putting `a` in front of `b` in front is putting `a + b` in front. */
  lemma PrependInputsCompose(a: seq<string>, b: seq<string>, r: Result<RawCase, Failure>)
    ensures PrependInputs([], r) == r
    ensures PrependInputs(a, PrependInputs(b, r)) == PrependInputs(a + b, r)
  {
    if r.Ok? {
      assert [] + r.value.inputs == r.value.inputs;
      assert a + (b + r.value.inputs) == (a + b) + r.value.inputs;
    }
  }

  /** The `for ... else` loop over one row's `<pre>` texts. */
  method CollectPres(pres: seq<NodeString>) returns (r: Result<RawCase, Failure>)
    ensures r == ParseExample(pres)
  {
    var inputItems: seq<string> := [];
    var i := 0;
    assert pres[0..] == pres;
    PrependInputsCompose([], [], ParseExample(pres));
    while i < |pres|
      invariant 0 <= i <= |pres|
      invariant PrependInputs(inputItems, ParseExample(pres[i..])) == ParseExample(pres)
    {
      assert pres[i..][0] == pres[i];
      if pres[i].None? {
        return Err(Crash(PreWithoutString));
      }
      var text := pres[i].value;
      if StartsWith(text, ReturnsMarker) {
        assert inputItems + [] == inputItems;
        return Ok(RawCase(inputItems, text[|ReturnsMarker|..]));
      }
      assert pres[i..][1..] == pres[i + 1..];
      PrependInputsCompose(inputItems, [text], ParseExample(pres[i + 1..]));
      inputItems := inputItems + [text];
      i := i + 1;
    }
    assert pres[i..] == [];
    return Err(SampleParseError(ReturnsNotFound));
  }

  /**
   * The `while True` loop over the rows after the Examples heading, the `k`-th
   * example first: it stops at the first sibling that is absent or not a row; a
   * header row must read `k)` and must be followed by a row of `<pre>` texts.
   */
  function WalkExamples(rows: seq<Sibling>, k: nat): Result<seq<RawCase>, Failure> {
    if rows == [] || rows[0].NotRow? then Ok([])
    else if rows[0].firstTd.NoTd? then Err(Crash(HeaderRowWithoutTd))
    else if rows[0].firstTd.text != Some(Ordinal(k)) then Err(SampleParseError(HeaderMismatch(k)))
    else if |rows| < 2 || rows[1].NotRow? then Err(SampleParseError(ExampleRowMissing))
    else
      var example := ParseExample(rows[1].pres);
      if example.Err? then Err(example.error)
      else PrependCases([example.value], WalkExamples(rows[2..], k + 1))
  }

  /** Puts `done` in front of the examples of a successful walk. */
  function PrependCases(done: seq<RawCase>, r: Result<seq<RawCase>, Failure>): Result<seq<RawCase>, Failure> {
    if r.Ok? then Ok(done + r.value) else r
  }

  /** The `i`-th example (counting from `k`) sits in rows `2i` and `2i+1` and holds `c`. */
  ghost predicate ExampleAt(rows: seq<Sibling>, k: nat, i: nat, c: RawCase) {
    && 2 * i + 1 < |rows|
    && rows[2 * i].Row? && rows[2 * i].firstTd == Td(Some(Ordinal(k + i)))
    && rows[2 * i + 1].Row? && ParseExample(rows[2 * i + 1].pres) == Ok(c)
  }

  /**
   * The rows hold exactly the examples `cases`, numbered from `k`: each in its pair of
   * rows, and after the last pair the rows end or a non-row follows.
   */
  ghost predicate ExamplesLayout(rows: seq<Sibling>, k: nat, cases: seq<RawCase>) {
    && (forall i :: 0 <= i < |cases| ==> ExampleAt(rows, k, i, cases[i]))
    && 2 * |cases| <= |rows|
    && (2 * |cases| == |rows| || rows[2 * |cases|].NotRow?)
  }

  lemma ExampleAtShift(rows: seq<Sibling>, k: nat, i: nat, c: RawCase)
    requires |rows| >= 2
    ensures ExampleAt(rows, k, i + 1, c) <==> ExampleAt(rows[2..], k + 1, i, c)
  {
    if 2 * i + 3 < |rows| {
      assert rows[2..][2 * i] == rows[2 * i + 2];
      assert rows[2..][2 * i + 1] == rows[2 * i + 3];
    }
  }

  /** The walk succeeds with `cases` exactly when the rows are laid out as those examples. */
  lemma {:induction false} WalkExamplesIff(rows: seq<Sibling>, k: nat, cases: seq<RawCase>)
    ensures WalkExamples(rows, k) == Ok(cases) <==> ExamplesLayout(rows, k, cases)
  {
    if rows == [] || rows[0].NotRow? {
      if cases != [] {
        assert !ExampleAt(rows, k, 0, cases[0]);
      }
    } else if rows[0].firstTd.NoTd? || rows[0].firstTd.text != Some(Ordinal(k))
           || |rows| < 2 || rows[1].NotRow? || ParseExample(rows[1].pres).Err? {
      if cases != [] {
        assert !ExampleAt(rows, k, 0, cases[0]);
      }
    } else {
      var c := ParseExample(rows[1].pres).value;
      var tail := rows[2..];
      if cases == [] {
        assert !ExamplesLayout(rows, k, cases);
      } else {
        var cases' := cases[1..];
        WalkExamplesIff(tail, k + 1, cases');
        forall i | 0 <= i < |cases'| ensures ExampleAt(rows, k, i + 1, cases'[i]) <==> ExampleAt(tail, k + 1, i, cases'[i]) {
          ExampleAtShift(rows, k, i, cases'[i]);
        }
        if ExamplesLayout(rows, k, cases) {
          assert ExampleAt(rows, k, 0, cases[0]);
          assert cases[0] == c;
          forall i | 0 <= i < |cases'| ensures ExampleAt(tail, k + 1, i, cases'[i]) {
            assert ExampleAt(rows, k, i + 1, cases[i + 1]);
          }
          assert 2 * |cases'| == |tail| || tail[2 * |cases'|] == rows[2 * |cases|];
          assert ExamplesLayout(tail, k + 1, cases');
          assert [c] + cases' == cases;
        }
        if WalkExamples(rows, k) == Ok(cases) {
          assert WalkExamples(tail, k + 1).Ok?;
          assert [c] + WalkExamples(tail, k + 1).value == cases;
          assert WalkExamples(tail, k + 1).value == cases';
          assert ExampleAt(rows, k, 0, cases[0]);
          forall i | 0 <= i < |cases| ensures ExampleAt(rows, k, i, cases[i]) {
            if i > 0 {
              assert ExampleAt(tail, k + 1, i - 1, cases'[i - 1]);
            }
          }
          assert 2 * |cases'| == |tail| || rows[2 * |cases|] == tail[2 * |cases'|];
        }
      }
    }
  }

  /**
   * After the examples `done`, a header row whose text is not the next ordinal stops
   * the walk there with `SampleParseError`; the mismatch is never skipped.
   */
  lemma {:induction false} WalkStopsAtMismatch(rows: seq<Sibling>, k: nat, done: seq<RawCase>, text: NodeString)
    requires forall i :: 0 <= i < |done| ==> ExampleAt(rows, k, i, done[i])
    requires 2 * |done| < |rows| && rows[2 * |done|].Row? && rows[2 * |done|].firstTd == Td(text)
    requires text != Some(Ordinal(k + |done|))
    ensures WalkExamples(rows, k) == Err(SampleParseError(HeaderMismatch(k + |done|)))
  {
    if done != [] {
      assert ExampleAt(rows, k, 0, done[0]);
      forall i | 0 <= i < |done[1..]| ensures ExampleAt(rows[2..], k + 1, i, done[1..][i]) {
        ExampleAtShift(rows, k, i, done[1..][i]);
        assert ExampleAt(rows, k, i + 1, done[i + 1]);
      }
      assert rows[2..][2 * |done[1..]|] == rows[2 * |done|];
      WalkStopsAtMismatch(rows[2..], k + 1, done[1..], text);
    }
  }

  /**
   * After the examples `done`, a header row that reads the next ordinal but is followed
   * by no row stops the walk with `SampleParseError`.
   */
  lemma {:induction false} WalkStopsAtMissingRow(rows: seq<Sibling>, k: nat, done: seq<RawCase>)
    requires forall i :: 0 <= i < |done| ==> ExampleAt(rows, k, i, done[i])
    requires 2 * |done| < |rows| && rows[2 * |done|].Row? && rows[2 * |done|].firstTd == Td(Some(Ordinal(k + |done|)))
    requires 2 * |done| + 1 == |rows| || rows[2 * |done| + 1].NotRow?
    ensures WalkExamples(rows, k) == Err(SampleParseError(ExampleRowMissing))
  {
    if done != [] {
      assert ExampleAt(rows, k, 0, done[0]);
      forall i | 0 <= i < |done[1..]| ensures ExampleAt(rows[2..], k + 1, i, done[1..][i]) {
        ExampleAtShift(rows, k, i, done[1..][i]);
        assert ExampleAt(rows, k, i + 1, done[i + 1]);
      }
      assert rows[2..][2 * |done[1..]|] == rows[2 * |done|];
      if 2 * |done| + 1 < |rows| {
        assert rows[2..][2 * |done[1..]| + 1] == rows[2 * |done| + 1];
      }
      WalkStopsAtMissingRow(rows[2..], k + 1, done[1..]);
    }
  }

  /** Putting nothing in front changes nothing; putting `a` in front of `b` in front is putting `a + b` in front. */
  lemma PrependCasesCompose(a: seq<RawCase>, b: seq<RawCase>, r: Result<seq<RawCase>, Failure>)
    ensures PrependCases([], r) == r
    ensures PrependCases(a, PrependCases(b, r)) == PrependCases(a + b, r)
  {
    if r.Ok? {
      assert [] + r.value == r.value;
      assert a + (b + r.value) == (a + b) + r.value;
    }
  }

  /** The walk from position `cursor` of the rows, one step unfolded. */
  lemma WalkFrom(rows: seq<Sibling>, cursor: nat, k: nat)
    requires cursor <= |rows|
    ensures WalkExamples(rows[cursor..], k) ==
              if cursor == |rows| || rows[cursor].NotRow? then Ok([])
              else if rows[cursor].firstTd.NoTd? then Err(Crash(HeaderRowWithoutTd))
              else if rows[cursor].firstTd.text != Some(Ordinal(k)) then Err(SampleParseError(HeaderMismatch(k)))
              else if cursor + 1 == |rows| || rows[cursor + 1].NotRow? then Err(SampleParseError(ExampleRowMissing))
              else if ParseExample(rows[cursor + 1].pres).Err? then Err(ParseExample(rows[cursor + 1].pres).error)
              else PrependCases([ParseExample(rows[cursor + 1].pres).value], WalkExamples(rows[cursor + 2..], k + 1))
  {
    var tail := rows[cursor..];
    if cursor < |rows| {
      assert tail[0] == rows[cursor];
      if cursor + 1 < |rows| {
        assert tail[1] == rows[cursor + 1];
        assert tail[2..] == rows[cursor + 2..];
      }
    }
  }

  /** The Examples loop: `cursor` is the position of the next sibling, `rawSampleCases` grows by one per example. */
  method ReadExamples(rows: seq<Sibling>) returns (r: Result<seq<RawCase>, Failure>)
    ensures r == WalkExamples(rows, 0)
  {
    var rawSampleCases: seq<RawCase> := [];
    var cursor := 0;
    assert rows[0..] == rows;
    PrependCasesCompose([], [], WalkExamples(rows, 0));
    while true
      invariant cursor == 2 * |rawSampleCases| <= |rows|
      invariant PrependCases(rawSampleCases, WalkExamples(rows[cursor..], |rawSampleCases|)) == WalkExamples(rows, 0)
      decreases |rows| - cursor
    {
      WalkFrom(rows, cursor, |rawSampleCases|);
      // the header row, like "0)"
      if cursor == |rows| || rows[cursor].NotRow? {
        break;
      }
      var header := rows[cursor];
      if header.firstTd.NoTd? {
        return Err(Crash(HeaderRowWithoutTd));
      }
      if header.firstTd.text != Some(Ordinal(|rawSampleCases|)) {
        return Err(SampleParseError(HeaderMismatch(|rawSampleCases|)));
      }
      // the row of <pre>s
      if cursor + 1 == |rows| || rows[cursor + 1].NotRow? {
        return Err(SampleParseError(ExampleRowMissing));
      }
      var example := CollectPres(rows[cursor + 1].pres);
      if example.Err? {
        return Err(example.error);
      }
      PrependCasesCompose(rawSampleCases, [example.value], WalkExamples(rows[cursor + 2..], |rawSampleCases| + 1));
      rawSampleCases := rawSampleCases + [example.value];
      cursor := cursor + 2;
    }
    assert rawSampleCases + [] == rawSampleCases;
    return Ok(rawSampleCases);
  }

  // ===========================================================================
  // Test cases

  /** A sample case in the project's test-case format. */
  datatype TestCase = TestCase(name: string, inputName: string, inputData: string, outputName: string, outputData: string)

  /** `map(_convert_to_greed, items)`. */
  function ConvertAll(items: seq<string>): (r: seq<string>)
    ensures |r| == |items| && forall i :: 0 <= i < |items| ==> r[i] == ConvertToGreed(items[i])
  {
    if items == [] then [] else [ConvertToGreed(items[0])] + ConvertAll(items[1..])
  }

  /** The `i`-th example as a test case. */
  function ToTestCase(i: nat, c: RawCase): TestCase {
    TestCase("Example #" + NatToString(i), "input", Join(ConvertAll(c.inputs), "\n") + "\n",
             "output", ConvertToGreed(c.output))
  }

  lemma {:induction false} JoinAppend(xs: seq<string>, y: string, sep: string)
    requires |xs| >= 1
    ensures Join(xs + [y], sep) == Join(xs, sep) + sep + y
  {
    if |xs| > 1 {
      assert (xs + [y])[1..] == xs[1..] + [y];
      JoinAppend(xs[1..], y, sep);
    } else {
      assert (xs + [y])[1..] == [y];
    }
  }

  /** Lines without newlines, each ended by a newline, split back into those lines and a last empty piece. */
  lemma LinesSplit(items: seq<string>)
    requires |items| >= 1 && forall j :: 0 <= j < |items| ==> '\n' !in items[j]
    ensures Split(Join(items, "\n") + "\n", '\n') == items + [""]
  {
    var lines := items + [""];
    forall j | 0 <= j < |lines| ensures '\n' !in lines[j] {
      if j < |items| {
        assert lines[j] == items[j];
      }
    }
    SplitJoin(lines, '\n');
    JoinAppend(items, "", "\n");
    assert Join(items, "\n") + "\n" + "" == Join(items, "\n") + "\n";
  }

  /**
   * A test case's input holds one normalised argument per line, each line ended by a
   * newline, as long as no normalised argument has a newline of its own (an example
   * without arguments gives a single newline); its output is the normalised result with
   * nothing added.
   */
  lemma TestCaseLines(i: nat, c: RawCase)
    ensures ToTestCase(i, c).name == "Example #" + NatToString(i)
    ensures ToTestCase(i, c).inputName == "input" && ToTestCase(i, c).outputName == "output"
    ensures c.inputs != [] && (forall j :: 0 <= j < |c.inputs| ==> '\n' !in ConvertToGreed(c.inputs[j])) ==>
              Split(ToTestCase(i, c).inputData, '\n') == ConvertAll(c.inputs) + [""]
    ensures c.inputs == [] ==> ToTestCase(i, c).inputData == "\n"
    ensures ToTestCase(i, c).outputData == ConvertToGreed(c.output)
  {
    if c.inputs != [] && forall j :: 0 <= j < |c.inputs| ==> '\n' !in ConvertToGreed(c.inputs[j]) {
      LinesSplit(ConvertAll(c.inputs));
    }
  }

  /** The test cases of a list of examples, numbered from 0 in order. */
  function TestCasesOf(raw: seq<RawCase>): (cases: seq<TestCase>)
    ensures |cases| == |raw|
  {
    if raw == [] then [] else TestCasesOf(raw[..|raw| - 1]) + [ToTestCase(|raw| - 1, raw[|raw| - 1])]
  }

  /** The `i`-th test case is the `i`-th example, named after its position. */
  lemma {:induction false} TestCasesOfAt(raw: seq<RawCase>, i: nat)
    requires i < |raw|
    ensures TestCasesOf(raw)[i] == ToTestCase(i, raw[i])
  {
    if i < |raw| - 1 {
      TestCasesOfAt(raw[..|raw| - 1], i);
    }
  }

  /** The loop that turns the examples into test cases. */
  method ToTestCases(raw: seq<RawCase>) returns (cases: seq<TestCase>)
    ensures cases == TestCasesOf(raw)
  {
    cases := [];
    var i := 0;
    while i < |raw|
      invariant 0 <= i <= |raw|
      invariant cases == TestCasesOf(raw[..i])
    {
      assert raw[..i + 1][..i] == raw[..i];
      cases := cases + [ToTestCase(i, raw[i])];
      i := i + 1;
    }
    assert raw[..i] == raw;
  }

  // ===========================================================================
  // The download

  /**
   * `_TopcoderArenaData`.  As in the source, the raw field is given the converted test
   * cases, not the raw input and output literals.
   */
  datatype ArenaData = ArenaData(definition: map<string, NodeString>, rawSampleCases: seq<TestCase>, sampleCases: seq<TestCase>)

  /** What `_download_data` produces from a statement page, or how it fails. */
  function ArenaDataOf(page: StatementPage): Result<ArenaData, Failure> {
    if |page.problemTexts| != 1 then Err(SampleParseError(ProblemTextNotUnique))
    else
      var problemText := page.problemTexts[0];
      match problemText.definition
      case NoDefinitionHeading => Err(SampleParseError(DefinitionNotFound))
      case NoDefinitionTable => Err(Crash(DefinitionTableMissing))
      case DefinitionTable(cells) =>
        var definition := ReadFields(cells, DefinitionFields, map[]);
        if definition.Err? then Err(definition.error)
        else match problemText.examples
          case NoExamplesHeading => Err(SampleParseError(ExamplesNotFound))
          case ExampleRows(rows) =>
            var raw := WalkExamples(rows, 0);
            if raw.Err? then Err(raw.error)
            else
              var cases := TestCasesOf(raw.value);
              // the hint printer calls re.sub on the method signature
              if "method_signature" !in definition.value || definition.value["method_signature"].None? then
                Err(Crash(SignatureMissing))
              else Ok(ArenaData(definition.value, cases, cases))
  }

  /** `_download_data`, from the point where the page has been fetched and parsed. */
  method DownloadData(page: StatementPage) returns (r: Result<ArenaData, Failure>)
    ensures r == ArenaDataOf(page)
  {
    if |page.problemTexts| != 1 {
      return Err(SampleParseError(ProblemTextNotUnique));
    }
    var problemText := page.problemTexts[0];
    // the Definition section
    if problemText.definition.NoDefinitionHeading? {
      return Err(SampleParseError(DefinitionNotFound));
    }
    if problemText.definition.NoDefinitionTable? {
      return Err(Crash(DefinitionTableMissing));
    }
    var definition := ReadDefinition(problemText.definition.cells);
    if definition.Err? {
      return Err(definition.error);
    }
    // the Examples section
    if problemText.examples.NoExamplesHeading? {
      return Err(SampleParseError(ExamplesNotFound));
    }
    var raw := ReadExamples(problemText.examples.rows);
    if raw.Err? {
      return Err(raw.error);
    }
    var sampleCases := ToTestCases(raw.value);
    if "method_signature" !in definition.value || definition.value["method_signature"].None? {
      return Err(Crash(SignatureMissing));
    }
    return Ok(ArenaData(definition.value, sampleCases, sampleCases));
  }

  /** `download_sample_cases`: the test cases of the page, or how reading them failed. */
  method DownloadSampleCases(page: StatementPage) returns (r: Result<seq<TestCase>, Failure>)
    ensures ArenaDataOf(page).Ok? ==> r == Ok(ArenaDataOf(page).value.sampleCases)
    ensures ArenaDataOf(page).Err? ==> r == Err(ArenaDataOf(page).error)
  {
    var data := DownloadData(page);
    if data.Err? {
      return Err(data.error);
    }
    return Ok(data.value.sampleCases);
  }

  /**
   * A download that succeeds returns every example of the page and nothing else: the
   * rows are laid out as exactly those examples, each becomes the test case of its
   * position, and the definition holds the five fields.
   */
  lemma DownloadIsComplete(page: StatementPage)
    requires ArenaDataOf(page).Ok?
    ensures |page.problemTexts| == 1
    ensures page.problemTexts[0].definition.DefinitionTable? && page.problemTexts[0].examples.ExampleRows?
    ensures ArenaDataOf(page).value.definition.Keys == DefinitionKeys
    ensures exists raw :: && ExamplesLayout(page.problemTexts[0].examples.rows, 0, raw)
                          && ArenaDataOf(page).value.sampleCases == TestCasesOf(raw)
    ensures ArenaDataOf(page).value.rawSampleCases == ArenaDataOf(page).value.sampleCases
  {
    var pt := page.problemTexts[0];
    DefinitionOutcome(pt.definition.cells);
    var raw := WalkExamples(pt.examples.rows, 0).value;
    WalkExamplesIff(pt.examples.rows, 0, raw);
  }

  /** The structural failures that the source reports as `SampleParseError`. */
  lemma SampleParseErrors(page: StatementPage)
    ensures |page.problemTexts| != 1 ==> ArenaDataOf(page) == Err(SampleParseError(ProblemTextNotUnique))
    ensures |page.problemTexts| == 1 && page.problemTexts[0].definition.NoDefinitionHeading? ==>
              ArenaDataOf(page) == Err(SampleParseError(DefinitionNotFound))
    ensures |page.problemTexts| == 1 && page.problemTexts[0].definition.DefinitionTable?
            && ReadFields(page.problemTexts[0].definition.cells, DefinitionFields, map[]).Ok?
            && page.problemTexts[0].examples.NoExamplesHeading? ==>
              ArenaDataOf(page) == Err(SampleParseError(ExamplesNotFound))
  {
  }

  /** A Definition label that is missing crashes the download; it is not a `SampleParseError`. */
  lemma MissingLabelCrashes(page: StatementPage, i: nat)
    requires |page.problemTexts| == 1 && page.problemTexts[0].definition.DefinitionTable?
    requires i < |DefinitionFields|
    requires forall c :: c in page.problemTexts[0].definition.cells ==> c.text != Some(DefinitionFields[i].0)
    ensures ArenaDataOf(page).Err? && ArenaDataOf(page).error.Crash?
  {
    var cells := page.problemTexts[0].definition.cells;
    DefinitionOutcome(cells);
    assert FindStatCell(cells, DefinitionFields[i].0).None?;
    assert LookupField(cells, DefinitionFields[i].0).Err?;
  }

  // ===========================================================================
  // Registration

  /** The service handler as the dispatch registry holds it, its entities seen as `S`. */
  function ServiceMatcher<S>(lib: UrlLib, asService: TopcoderArenaService -> S): Dispatch.Matcher<S> {
    url => MapOption(ServiceFromUrl(url, lib), asService)
  }

  /** The problem handler as the dispatch registry holds it, its entities seen as `P`. */
  function ProblemMatcher<P>(lib: UrlLib, asProblem: TopcoderArenaProblem -> P): Dispatch.Matcher<P> {
    url => MapOption(ProblemFromUrl(url, lib), asProblem)
  }

  /** Loading the module appends the two handlers to the end of their registries. */
  method Register<S, Sub, P, C>(
    registry: Dispatch.Registry<S, Sub, P, C>, lib: UrlLib,
    asService: TopcoderArenaService -> S, asProblem: TopcoderArenaProblem -> P)
    modifies registry
    ensures registry.services == old(registry.services) + [ServiceMatcher(lib, asService)]
    ensures registry.problems == old(registry.problems) + [ProblemMatcher(lib, asProblem)]
    ensures registry.submissions == old(registry.submissions) && registry.contests == old(registry.contests)
  {
    registry.RegisterService(ServiceMatcher(lib, asService));
    registry.RegisterProblem(ProblemMatcher(lib, asProblem));
  }

  /**
   * Once registered behind handlers that all decline a URL, the problem handler decides
   * it; behind a handler that accepts, it changes nothing.
   */
  lemma RegisteredProblemResolves<P>(hs: seq<Dispatch.Matcher<P>>, lib: UrlLib, asProblem: TopcoderArenaProblem -> P, url: string)
    ensures (forall i :: 0 <= i < |hs| ==> hs[i](url).None?) ==>
              Dispatch.FirstMatch(hs + [ProblemMatcher(lib, asProblem)], url) == MapOption(ProblemFromUrl(url, lib), asProblem)
    ensures Dispatch.FirstMatch(hs, url).Some? ==>
              Dispatch.FirstMatch(hs + [ProblemMatcher(lib, asProblem)], url) == Dispatch.FirstMatch(hs, url)
  {
    Dispatch.FirstMatchNoneIff(hs, url);
    Dispatch.RegisterLastNeverShadows(hs, ProblemMatcher(lib, asProblem), url);
  }
}
