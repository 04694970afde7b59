/** The converter from dbt's run_results.json to a JUnit XML report
    (dbt/scripts/dbt_test_to_junit.py): one testcase per result, with a
    failure, error or skipped child by the result's status. */
module DbtJunit {
  import opened Outcomes

  /** A member of a JSON object: missing, present with the value null, or
      present with a value. */
  datatype Member<T> = Absent | Null | Given(value: T)

  /** One entry of "results". executionTime holds the text str() gives for
      the "execution_time" value. */
  datatype DbtResult = DbtResult(uniqueId: Member<string>, status: Member<string>,
                                 executionTime: Member<string>, message: Member<string>)

  /** The parsed run_results.json: its "results" member. */
  datatype RunResults = RunResults(results: Member<seq<DbtResult>>)

  /** An XML element: tag, attributes in order, text and children. An
      attribute value None is Python's None, which the writer refuses. */
  datatype Element = Element(tag: string, attrs: seq<(string, Option<string>)>, text: Option<string>,
                             children: seq<Element>)

  /** How a JUnit reader classifies a testcase. */
  datatype Verdict = Passed | Failed(message: string) | Errored(message: string) | Skipped

  /** dict.get(key, default): the default for a missing member, None for a
      null one, the value otherwise. */
  function Get<T>(m: Member<T>, default: T): (v: Option<T>)
    ensures v.None? <==> m.Null?
    ensures m.Absent? ==> v == Some(default)
    ensures m.Given? ==> v == Some(m.value)
  {
    match m
    case Absent => Some(default)
    case Null => None
    case Given(x) => Some(x)
  }

  /** The value of an attribute, the first with that name; None when there
      is no such attribute. */
  function Attr(e: Element, name: string): (v: Option<Option<string>>)
    ensures v.Some? ==> exists i :: 0 <= i < |e.attrs| && e.attrs[i] == (name, v.value)
    ensures v.None? ==> forall i :: 0 <= i < |e.attrs| ==> e.attrs[i].0 != name
  {
    AttrFrom(e.attrs, name)
  }

  function AttrFrom(attrs: seq<(string, Option<string>)>, name: string): (v: Option<Option<string>>)
    ensures v.Some? ==> exists i :: 0 <= i < |attrs| && attrs[i] == (name, v.value)
    ensures v.None? ==> forall i :: 0 <= i < |attrs| ==> attrs[i].0 != name
  {
    if attrs == [] then None
    else if attrs[0].0 == name then Some(attrs[0].1)
    else
      var v := AttrFrom(attrs[1..], name);
      if v.Some? then
        var i :| 0 <= i < |attrs[1..]| && attrs[1..][i] == (name, v.value);
        assert attrs[i + 1] == (name, v.value);
        v
      else
        assert forall i :: 1 <= i < |attrs| ==> attrs[i] == attrs[1..][i - 1];
        v
  }

  /** ElementTree.write serialises the element: every attribute value of
      the tree is a string. */
  predicate Writable(e: Element)
  {
    && (forall i :: 0 <= i < |e.attrs| ==> e.attrs[i].1.Some?)
    && (forall i :: 0 <= i < |e.children| ==> Writable(e.children[i]))
  }

  /** `result.get("message") or default`: a missing, null or empty message
      is falsy. */
  function OrDefault(x: Member<string>, default: string): (s: string)
    ensures x.Given? && x.value != "" ==> s == x.value
    ensures !x.Given? || x.value == "" ==> s == default
  {
    if x.Given? && x.value != "" then x.value else default
  }

  /** `str(result.get("execution_time", 0))`: "0" when missing, "None" when
      null, the value's text otherwise. */
  function TimeText(m: Member<string>): (s: string)
    ensures m.Absent? ==> s == "0"
    ensures m.Null? ==> s == "None"
    ensures m.Given? ==> s == m.value
  {
    match m
    case Absent => "0"
    case Null => "None"
    case Given(t) => t
  }

  /** The status of a result: "unknown" when missing, None when null. */
  function Status(r: DbtResult): (s: Option<string>)
    ensures s.None? <==> r.status.Null?
    ensures r.status.Absent? ==> s == Some("unknown")
    ensures r.status.Given? ==> s == Some(r.status.value)
  {
    Get(r.status, "unknown")
  }

  /** The testcase element of one result. Its name is None for a null
      unique_id, and then the report cannot be written. */
  function TestCase(r: DbtResult): (e: Element)
    ensures e.tag == "testcase" && |e.children| <= 1
    ensures Writable(e) <==> !r.uniqueId.Null?
  {
    var attrs := [("name", Get(r.uniqueId, "unknown")), ("time", Some(TimeText(r.executionTime)))];
    var status := Status(r);
    var children :=
      if status == Some("fail") then
        var message := OrDefault(r.message, "dbt test failed");
        [Element("failure", [("message", Some(message))], Some(message), [])]
      else if status == Some("error") then
        var message := OrDefault(r.message, "dbt test error");
        [Element("error", [("message", Some(message))], Some(message), [])]
      else if status == Some("skipped") then
        [Element("skipped", [("message", Some("skipped"))], None, [])]
      else
        [];
    assert forall i :: 0 <= i < |children| ==> Writable(children[i]);
    assert attrs[0].1.None? <==> r.uniqueId.Null?;
    assert attrs[1].1.Some?;
    Element("testcase", attrs, None, children)
  }

  /** The testsuite element the results make. */
  function Suite(results: seq<DbtResult>): Element
  {
    Element("testsuite", [("name", Some("dbt tests"))], None,
            seq(|results|, i requires 0 <= i < |results| => TestCase(results[i])))
  }

  /** The report can be written exactly when no result has a null
      unique_id. */
  lemma SuiteWritable(results: seq<DbtResult>)
    ensures Writable(Suite(results)) <==> forall i :: 0 <= i < |results| ==> !results[i].uniqueId.Null?
  {
    var s := Suite(results);
    assert forall i :: 0 <= i < |results| ==> s.children[i] == TestCase(results[i]);
  }

  /** The message attribute of a child, "" when it has none. */
  function MessageOf(c: Element): string
  {
    match Attr(c, "message")
    case Some(Some(m)) => m
    case _ => ""
  }

  /** How a JUnit reader classifies a testcase element: by its child. */
  function ReadVerdict(e: Element): Verdict
  {
    if e.children == [] then Passed
    else
      var c := e.children[0];
      if c.tag == "failure" then Failed(MessageOf(c))
      else if c.tag == "error" then Errored(MessageOf(c))
      else if c.tag == "skipped" then Skipped
      else Passed
  }

  /** What a result's status means: "fail", "error" and "skipped" are
      reported, and any other status (success, pass, warn, unknown, null)
      passes. */
  function Meaning(r: DbtResult): Verdict
  {
    if Status(r) == Some("fail") then Failed(OrDefault(r.message, "dbt test failed"))
    else if Status(r) == Some("error") then Errored(OrDefault(r.message, "dbt test error"))
    else if Status(r) == Some("skipped") then Skipped
    else Passed
  }

  /** A reader of the report gets back each result's name, time and
      meaning; a failure or error always carries a non-empty message, which
      is also its text. */
  lemma TestCaseRoundTrip(r: DbtResult)
    ensures Attr(TestCase(r), "name") == Some(Get(r.uniqueId, "unknown"))
    ensures Attr(TestCase(r), "time") == Some(Some(TimeText(r.executionTime)))
    ensures ReadVerdict(TestCase(r)) == Meaning(r)
    ensures Meaning(r) == Passed ==> TestCase(r).children == []
    ensures Meaning(r) == Skipped ==> TestCase(r).children == [Element("skipped", [("message", Some("skipped"))], None, [])]
    ensures ReadVerdict(TestCase(r)).Failed? || ReadVerdict(TestCase(r)).Errored? ==>
              ReadVerdict(TestCase(r)).message != "" && TestCase(r).children[0].text == Some(ReadVerdict(TestCase(r)).message)
  {
    var attrs := TestCase(r).attrs;
    assert AttrFrom(attrs[1..], "time") == Some(Some(TimeText(r.executionTime)));
  }

  /** A null execution_time is reported as the text "None", a missing one
      as "0". */
  lemma NullTimeIsNone(r: DbtResult)
    ensures r.executionTime.Null? ==> Attr(TestCase(r), "time") == Some(Some("None"))
    ensures r.executionTime.Absent? ==> Attr(TestCase(r), "time") == Some(Some("0"))
  {
    TestCaseRoundTrip(r);
  }

  /** The number of results whose status is s. */
  function CountStatus(results: seq<DbtResult>, s: string): nat
  {
    if results == [] then 0
    else CountStatus(results[..|results| - 1], s) + (if Status(results[|results| - 1]) == Some(s) then 1 else 0)
  }

  /** The number of elements with a child tagged t. */
  function CountChild(cases: seq<Element>, t: string): nat
  {
    if cases == [] then 0
    else CountChild(cases[..|cases| - 1], t) +
         (if cases[|cases| - 1].children != [] && cases[|cases| - 1].children[0].tag == t then 1 else 0)
  }

  /** The report holds one testcase per result, in order, and as many
      failure, error and skipped children as there are results with the
      statuses "fail", "error" and "skipped". */
  lemma {:induction false} SuiteCounts(results: seq<DbtResult>)
    ensures |Suite(results).children| == |results|
    ensures CountChild(Suite(results).children, "failure") == CountStatus(results, "fail")
    ensures CountChild(Suite(results).children, "error") == CountStatus(results, "error")
    ensures CountChild(Suite(results).children, "skipped") == CountStatus(results, "skipped")
  {
    if results != [] {
      var n := |results|;
      SuiteCounts(results[..n - 1]);
      assert Suite(results).children[..n - 1] == Suite(results[..n - 1]).children;
    }
  }

  /** The loop of main: a testsuite named "dbt tests" with a SubElement
      testcase appended per result. */
  method BuildTestSuite(results: seq<DbtResult>) returns (testsuite: Element)
    ensures testsuite == Suite(results)
  {
    testsuite := Element("testsuite", [("name", Some("dbt tests"))], None, []);
    for i := 0 to |results|
      invariant testsuite == Suite(results[..i])
    {
      var result := results[i];
      var testName := Get(result.uniqueId, "unknown");
      var status := Get(result.status, "unknown");
      var timeValue := TimeText(result.executionTime);
      var testcase := Element("testcase", [("name", testName), ("time", Some(timeValue))], None, []);
      if status == Some("fail") {
        var message := OrDefault(result.message, "dbt test failed");
        testcase := testcase.(children := testcase.children + [Element("failure", [("message", Some(message))], Some(message), [])]);
      } else if status == Some("error") {
        var message := OrDefault(result.message, "dbt test error");
        testcase := testcase.(children := testcase.children + [Element("error", [("message", Some(message))], Some(message), [])]);
      } else if status == Some("skipped") {
        testcase := testcase.(children := testcase.children + [Element("skipped", [("message", Some("skipped"))], None, [])]);
      }
      assert testcase == TestCase(result);
      assert results[..i + 1][..i] == results[..i];
      testsuite := testsuite.(children := testsuite.children + [testcase]);
    }
    assert results[..|results|] == results;
  }

  /** main: exit status 2, nothing read and nothing written unless given
      exactly an input and an output path. Otherwise the input is read; a
      null "results" cannot be iterated and a report with a None attribute
      cannot be written, and either TypeError ends the process with status
      1 and no report; else the report of the results (none when "results"
      is missing) is written to the output path, status 0. */
  method Convert(argv: seq<string>, load: string -> RunResults)
    returns (code: int, read: Option<string>, written: Option<(string, Element)>)
    ensures code == 2 <==> |argv| != 3
    ensures code == 2 ==> read == None && written == None
    ensures |argv| == 3 ==> read == Some(argv[1])
    ensures code == 0 <==> |argv| == 3 && Get(load(argv[1]).results, []).Some?
                           && Writable(Suite(Get(load(argv[1]).results, []).value))
    ensures code == 0 ==> written == Some((argv[2], Suite(Get(load(argv[1]).results, []).value)))
    ensures code != 0 ==> written == None
    ensures code == 0 || code == 1 || code == 2
  {
    if |argv| != 3 {
      return 2, None, None;
    }
    var inputPath := argv[1];
    var outputPath := argv[2];
    var payload := load(inputPath);
    var results := Get(payload.results, []);
    if results.None? {
      return 1, Some(inputPath), None;
    }
    var testsuite := BuildTestSuite(results.value);
    if !Writable(testsuite) {
      return 1, Some(inputPath), None;
    }
    return 0, Some(inputPath), Some((outputPath, testsuite));
  }
}
