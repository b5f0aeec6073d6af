/**
 * The worked examples of the Topcoder handler: the three literals its normalisation
 * documents, the two documented URL forms of problem 10760, and small statement pages
 * that read successfully, lack the Examples heading, or number their examples wrongly.
 */
module TopcoderScenarios {
  import opened Wrappers
  import opened PyStr
  import opened Topcoder

  // ===========================================================================
  // Literal normalisation

  lemma BraceExampleInner()
    ensures "{" + Join(["1", "0", "1", "1", "0"], ", ") + "}" == "{1, 0, 1, 1, 0}"
  {
    JoinCons("1", ["0"], ", ");
    JoinCons("1", ["1", "0"], ", ");
    JoinCons("0", ["1", "1", "0"], ", ");
    JoinCons("1", ["0", "1", "1", "0"], ", ");
  }

  lemma BraceExampleOutput()
    ensures Join([NatToString(5)] + ["1", "0", "1", "1", "0"], " ") == "5 1 0 1 1 0"
  {
    var out := [NatToString(5)] + ["1", "0", "1", "1", "0"];
    assert NatToString(5) == "5";
    assert Join(out[5..], " ") == "0";
    assert Join(out[4..], " ") == "1 0";
    assert Join(out[3..], " ") == "1 1 0";
    assert Join(out[2..], " ") == "0 1 1 0";
    assert Join(out[1..], " ") == "1 0 1 1 0";
  }

  /** `{1, 0, 1, 1, 0}` becomes `5 1 0 1 1 0`. */
  lemma ConvertBraceExample()
    ensures ConvertToGreed("{1, 0, 1, 1, 0}") == "5 1 0 1 1 0"
  {
    BraceExampleInner();
    BraceListToGreed(["1", "0", "1", "1", "0"]);
    BraceExampleOutput();
  }

  /** `"foo"` becomes `foo`. */
  lemma ConvertQuotedExample()
    ensures ConvertToGreed("\"foo\"") == "foo"
  {
    QuotedToGreed("foo");
  }

  /** `2` stays `2`. */
  lemma ConvertPlainExample()
    ensures ConvertToGreed("2") == "2"
  {
    GreedTokenCases("2");
  }

  // ===========================================================================
  // The documented URLs of problem 10760

  /** A natural number's decimal text has no `/` and reads back as the number. */
  lemma IdText(n: nat)
    ensures '/' !in IntToString(n) && ParseInt(IntToString(n)) == Some(n)
  {
    ParseIntToString(n);
  }

  lemma Id10760Text()
    ensures IntToString(10760) == "10760"
  {
    assert NatToString(1) == "1" && NatToString(10) == "10" && NatToString(107) == "107";
    assert NatToString(1076) == "1076" && NatToString(10760) == "10760";
  }

  /** The decimal texts of some numbers. */
  function IdTexts(ns: seq<nat>): (r: seq<string>)
    ensures |r| == |ns| && forall i :: 0 <= i < |ns| ==> r[i] == IntToString(ns[i])
  {
    seq(|ns|, i requires 0 <= i < |ns| => IntToString(ns[i]))
  }

  lemma IdTextsParse(ns: seq<nat>)
    ensures forall i | 0 <= i < |ns| :: '/' !in IdTexts(ns)[i] && ParseInt(IdTexts(ns)[i]) == Some(ns[i])
  {
    forall i | 0 <= i < |ns| ensures '/' !in IdTexts(ns)[i] && ParseInt(IdTexts(ns)[i]) == Some(ns[i]) {
      IdText(ns[i]);
    }
  }

  /** The five ids of `https://arena.topcoder.com/index.html#/u/practiceCode/14230/10838/10760/1/303803`. */
  function ArenaIds(): seq<string> {
    IdTexts([14230, 10838, 10760, 1, 303803])
  }

  /**
   * The arena form of the documented URL names problem 10760, given that `urlparse`
   * splits it the standard way and `normpath` leaves its path and fragment alone.
   */
  lemma ArenaExampleIs10760(url: string, lib: UrlLib)
    requires lib.urlparse(url) ==
               ParseResult("https", ArenaHost, "/index.html", "", Join(["", "u", "practiceCode"] + ArenaIds(), "/"))
    requires lib.normpath("/index.html") == "/index.html"
    requires lib.normpath(lib.urlparse(url).fragment) == lib.urlparse(url).fragment
    ensures ProblemFromUrl(url, lib) == Some(TopcoderArenaProblem(10760))
  {
    IdTextsParse([14230, 10838, 10760, 1, 303803]);
    AcceptsPracticeFragment(url, lib, ArenaIds());
  }

  /**
   * The community form `https://community.topcoder.com/stat?c=problem_statement&pm=10760`
   * is the canonical URL of problem 10760 and names it, given that `urlparse` and
   * `parse_qs` split it the standard way and `normpath` leaves `/stat` alone.
   */
  lemma CommunityExampleIs10760(lib: UrlLib)
    requires lib.urlparse(StatementUrlPrefix + "10760") ==
               ParseResult("https", CommunityHost, "/stat", "c=problem_statement&pm=" + "10760", "")
    requires lib.parseQs("c=problem_statement&pm=" + "10760") == map["c" := ["problem_statement"], "pm" := ["10760"]]
    requires lib.normpath("/stat") == "/stat"
    ensures ProblemGetUrl(TopcoderArenaProblem(10760)) == StatementUrlPrefix + "10760"
    ensures ProblemFromUrl(StatementUrlPrefix + "10760", lib) == Some(TopcoderArenaProblem(10760))
  {
    Id10760Text();
    ProblemUrlRoundTrip(TopcoderArenaProblem(10760), lib);
  }

  /** `https://community.topcoder.com/stat?pm=10760&c=problem_statement`, its parameters the other way round, also names problem 10760. */
  lemma ReorderedQueryIs10760(url: string, lib: UrlLib)
    requires lib.urlparse(url) == ParseResult("https", CommunityHost, "/stat", "pm=10760&c=problem_statement", "")
    requires lib.parseQs("pm=10760&c=problem_statement") == map["pm" := ["10760"], "c" := ["problem_statement"]]
    requires lib.normpath("/stat") == "/stat"
    ensures ProblemFromUrl(url, lib) == Some(TopcoderArenaProblem(10760))
  {
    Id10760Text();
    IdText(10760);
    AcceptsStatQuery(url, lib);
  }

  /** A `pm` whose text starts with U+001C is not an integer to `int()`, so the URL is declined. */
  lemma SeparatorIdDeclines(url: string, lib: UrlLib)
    requires lib.urlparse(url).netloc == CommunityHost
    requires lib.parseQs(lib.urlparse(url).query) == map["c" := ["problem_statement"], "pm" := ["\U{1c}10760"]]
    ensures ProblemFromUrl(url, lib) == None
  {
    var id := "\U{1c}10760";
    IntStripUnpadded(id);
    assert ParseInt(id) == None;
    ProblemFromUrlDeclines(url, lib);
  }

  // ===========================================================================
  // Statement pages

  /** A Definition table in which every label has the value `v`. */
  function DefinitionCells(v: string): seq<StatCell> {
    [StatCell(Some("Class:"), Some(Some(v))), StatCell(Some("Method:"), Some(Some(v))),
     StatCell(Some("Parameters:"), Some(Some(v))), StatCell(Some("Returns:"), Some(Some(v))),
     StatCell(Some("Method signature:"), Some(Some(v)))]
  }

  lemma DefinitionCellsRead(v: string)
    ensures ReadFields(DefinitionCells(v), DefinitionFields, map[]).Ok?
    ensures ReadFields(DefinitionCells(v), DefinitionFields, map[]).value.Keys == DefinitionKeys
    ensures ReadFields(DefinitionCells(v), DefinitionFields, map[]).value["method_signature"] == Some(v)
    ensures DefinitionReads(DefinitionCells(v), ReadFields(DefinitionCells(v), DefinitionFields, map[]).value)
  {
    var cells := DefinitionCells(v);
    forall i | 0 <= i < |DefinitionFields| ensures LookupField(cells, DefinitionFields[i].0) == Ok(Some(v)) {
      assert cells[i].text == Some(DefinitionFields[i].0);
    }
    DefinitionOutcome(cells);
    assert DefinitionFields[4].1 == "method_signature";
  }

  /** The example row of the Examples layout comment: three arguments, then the result. */
  const ExamplePres: seq<NodeString> := [Some("{5, 8}"), Some("\"foo\""), Some("3.5"), Some("Returns: 40.0")]

  const ExampleCase := RawCase(["{5, 8}", "\"foo\"", "3.5"], "40.0")

  lemma ExamplePresRead()
    ensures ParseExample(ExamplePres) == Ok(ExampleCase)
  {
    assert !StartsWith("{5, 8}", ReturnsMarker) && !StartsWith("\"foo\"", ReturnsMarker) && !StartsWith("3.5", ReturnsMarker);
    assert StartsWith("Returns: 40.0", ReturnsMarker);
    assert ExamplePres[3].value == ReturnsMarker + "40.0";
    ParseExampleIff(ExamplePres, ExampleCase);
  }

  /** The rows after the Examples heading: the header `0)`, the example row, then something that is not a row. */
  const ExampleRowsA: seq<Sibling> := [Row(Td(Some("0)")), []), Row(NoTd, ExamplePres), NotRow]

  lemma OrdinalZero()
    ensures Ordinal(0) == "0)"
  {
    assert NatToString(0) == "0";
  }

  lemma ExampleRowsARead()
    ensures WalkExamples(ExampleRowsA, 0) == Ok([ExampleCase])
  {
    OrdinalZero();
    ExamplePresRead();
    assert ExampleRowsA[2..] == [NotRow];
    assert WalkExamples([NotRow], 1) == Ok([]);
    assert [ExampleCase] + [] == [ExampleCase];
  }

  /** `{5, 8}` becomes `2 5 8`. */
  lemma ConvertPairExample()
    ensures ConvertToGreed("{5, 8}") == "2 5 8"
  {
    assert "{" + Join(["5", "8"], ", ") + "}" == "{5, 8}";
    BraceListToGreed(["5", "8"]);
    assert NatToString(2) == "2";
    assert Join(["2", "5", "8"], " ") == "2 5 8";
  }

  /** `map(_convert_to_greed, items)` is the list of the items' conversions. */
  lemma ConvertAllIs(items: seq<string>, outs: seq<string>)
    requires |items| == |outs| && forall i :: 0 <= i < |items| ==> ConvertToGreed(items[i]) == outs[i]
    ensures ConvertAll(items) == outs
  {
  }

  lemma ExampleInputsConverted()
    ensures ConvertAll(ExampleCase.inputs) == ["2 5 8", "foo", "3.5"]
  {
    var items := ExampleCase.inputs;
    var outs := ["2 5 8", "foo", "3.5"];
    forall i | 0 <= i < 3 ensures ConvertToGreed(items[i]) == outs[i] {
      if i == 0 {
        ConvertPairExample();
      } else if i == 1 {
        QuotedToGreed("foo");
      } else {
        GreedTokenCases("3.5");
      }
    }
    ConvertAllIs(items, outs);
  }

  lemma ExampleInputData()
    ensures Join(["2 5 8", "foo", "3.5"], "\n") + "\n" == "2 5 8\nfoo\n3.5\n"
  {
    JoinCons("foo", ["3.5"], "\n");
    JoinCons("2 5 8", ["foo", "3.5"], "\n");
  }

  lemma ExampleName()
    ensures "Example #" + NatToString(0) == "Example #0"
  {
    assert NatToString(0) == "0";
  }

  lemma ExampleTestCase()
    ensures ToTestCase(0, ExampleCase) == TestCase("Example #0", "input", "2 5 8\nfoo\n3.5\n", "output", "40.0")
  {
    ExampleInputsConverted();
    ExampleInputData();
    GreedTokenCases("40.0");
    ExampleName();
  }

  /** The example row becomes the test case `Example #0`. */
  lemma ExampleCaseConverted()
    ensures TestCasesOf([ExampleCase]) == [TestCase("Example #0", "input", "2 5 8\nfoo\n3.5\n", "output", "40.0")]
  {
    ExampleTestCase();
    TestCasesOfAt([ExampleCase], 0);
  }

  /** A Definition table that reads successfully, with a method signature. */
  predicate DefinitionReads(cells: seq<StatCell>, definition: map<string, NodeString>) {
    ReadFields(cells, DefinitionFields, map[]) == Ok(definition)
    && "method_signature" in definition && definition["method_signature"].Some?
  }

  /** A page with one problem text, with the given Definition table and Examples section. */
  function SinglePage(cells: seq<StatCell>, examples: ExamplesSection): StatementPage {
    StatementPage([ProblemText(DefinitionTable(cells), examples)])
  }

  /** A single-problem page whose two sections read successfully yields their test cases. */
  lemma SinglePageReads(cells: seq<StatCell>, definition: map<string, NodeString>, rows: seq<Sibling>, raw: seq<RawCase>)
    requires DefinitionReads(cells, definition)
    requires WalkExamples(rows, 0) == Ok(raw)
    ensures ArenaDataOf(SinglePage(cells, ExampleRows(rows))) == Ok(ArenaData(definition, TestCasesOf(raw), TestCasesOf(raw)))
  {
    var page := SinglePage(cells, ExampleRows(rows));
    var problemText := page.problemTexts[0];
    assert |page.problemTexts| == 1;
    assert problemText.definition == DefinitionTable(cells);
    assert problemText.examples == ExampleRows(rows);
  }

  /** A page with one well-formed example reads as that one test case. */
  lemma OneExamplePage(cells: seq<StatCell>, definition: map<string, NodeString>)
    requires DefinitionReads(cells, definition)
    ensures ArenaDataOf(SinglePage(cells, ExampleRows(ExampleRowsA))).Ok?
    ensures ArenaDataOf(SinglePage(cells, ExampleRows(ExampleRowsA))).value.sampleCases
            == [TestCase("Example #0", "input", "2 5 8\nfoo\n3.5\n", "output", "40.0")]
  {
    ExampleRowsARead();
    SinglePageReads(cells, definition, ExampleRowsA, [ExampleCase]);
    ExampleCaseConverted();
  }

  /** A page without an Examples heading is a `SampleParseError`. */
  lemma NoExamplesPage(cells: seq<StatCell>, definition: map<string, NodeString>)
    requires DefinitionReads(cells, definition)
    ensures ArenaDataOf(SinglePage(cells, NoExamplesHeading)) == Err(SampleParseError(ExamplesNotFound))
  {
    SampleParseErrors(SinglePage(cells, NoExamplesHeading));
  }

  /** After example `0)`, a header reading `2)` where `1)` is due. */
  const MisnumberedRows: seq<Sibling> := [Row(Td(Some("0)")), []), Row(NoTd, ExamplePres), Row(Td(Some("2)")), [])]

  lemma OrdinalOne()
    ensures Ordinal(1) == "1)"
  {
    assert NatToString(1) == "1";
  }

  lemma MisnumberedRowsRead()
    ensures WalkExamples(MisnumberedRows, 0) == Err(SampleParseError(HeaderMismatch(1)))
  {
    OrdinalZero();
    OrdinalOne();
    ExamplePresRead();
    assert ExampleAt(MisnumberedRows, 0, 0, ExampleCase);
    WalkStopsAtMismatch(MisnumberedRows, 0, [ExampleCase], Some("2)"));
  }

  /** Misnumbered examples are a `SampleParseError` naming the number that was due. */
  lemma MisnumberedPage(cells: seq<StatCell>, definition: map<string, NodeString>)
    requires DefinitionReads(cells, definition)
    ensures ArenaDataOf(SinglePage(cells, ExampleRows(MisnumberedRows))) == Err(SampleParseError(HeaderMismatch(1)))
  {
    MisnumberedRowsRead();
  }
}
