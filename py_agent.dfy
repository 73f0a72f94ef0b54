/** The Python agent's `run_test_tool` and its pydantic models `TestStep`
    and `TestOutput`. */
module PyAgent {
  import opened Wrappers
  import opened Json
  import opened PyHarness

  /** `TestOutput(success, failure_output)`; `None` is None. */
  datatype TestOutput = TestOutput(success: bool, failureOutput: Option<string>)

  /** How the tool call ends: it returns a `TestOutput`, or an exception
      outside `Exception` passes through it. */
  datatype ToolOutcome = Output(output: TestOutput) | Propagated(error: PyExc)

  const DomHeader := "\n\nDOM SNAPSHOT:\n"
  const A11yHeader := "\n\nACCESSIBILITY SNAPSHOT:\n"

  /** A snapshot section, added whenever the attribute exists, whatever it holds. */
  function Section(header: string, v: Option<PyValue>): string {
    if v.Some? then header + Str(v.value) else ""
  }

  /** `str(e)`, then the DOM section, then the accessibility section. */
  function FailureOutput(e: PyExc): string {
    e.text + Section(DomHeader, e.dom) + Section(A11yHeader, e.a11y)
  }

  /** The tool's result for one ending of `run_test`. */
  function ToolResult(r: Outcome): ToolOutcome {
    match r
    case Returned => Output(TestOutput(true, None))
    case Raises(e) => if e.isException then Output(TestOutput(false, Some(FailureOutput(e)))) else Propagated(e)
  }

  /** `run_test_tool(test_name, test_code)`. */
  method RunTestTool(testName: string, testCode: string, fx: Effects)
    returns (trace: PyHarness.Trace, out: ToolOutcome)
    ensures var (t, r) := PyHarness.Attempt("", Code(testCode), fx, false);
      trace == t && out == ToolResult(r)
  {
    var result;
    trace, result := PyHarness.RunTest("", Code(testCode), fx, headless := false, debugStdout := true);
    if result.Raises? {
      var e := result.error;
      if !e.isException {
        return trace, Propagated(e);
      }
      var output := e.text;
      if e.dom.Some? {
        output := output + (DomHeader + Str(e.dom.value));
      }
      assert output == e.text + Section(DomHeader, e.dom);
      if e.a11y.Some? {
        output := output + (A11yHeader + Str(e.a11y.value));
      }
      assert output == FailureOutput(e);
      return trace, Output(TestOutput(false, Some(output)));
    }
    out := Output(TestOutput(true, None));
  }

  /** A normal return reports success without output; every `Exception`,
      including those raised before the browser starts, reports failure
      with an output; nothing else is turned into a result. */
  lemma ToolResultCases(r: Outcome)
    ensures ToolResult(r) == Output(TestOutput(true, None)) <==> r.Returned?
    ensures ToolResult(r).Output? && !ToolResult(r).output.success
        <==> r.Raises? && r.error.isException
    ensures ToolResult(r).Output? ==> (ToolResult(r).output.success <==> ToolResult(r).output.failureOutput.None?)
  {
  }

  /** The output starts with `str(e)`; the DOM section is present exactly
      when the attribute exists, and it comes first. */
  lemma FailureOutputShape(e: PyExc)
    ensures var out := FailureOutput(e);
      && e.text <= out
      && (out == e.text <==> e.dom.None? && e.a11y.None?)
      && (e.dom.Some? ==> DomHeader + Str(e.dom.value) <= out[|e.text|..])
  {
    var out := FailureOutput(e);
    var s := Section(DomHeader, e.dom);
    assert out == e.text + (s + Section(A11yHeader, e.a11y));
    assert out[|e.text|..] == s + Section(A11yHeader, e.a11y);
  }

  /** Presence, not truthiness: an empty DOM snapshot still adds its header. */
  lemma EmptySnapshotKeepsHeader(e: PyExc)
    requires e.dom == Some(PyStr("")) && e.a11y.None?
    ensures FailureOutput(e) == e.text + DomHeader
  {
  }

  /** End to end: when the test raises an `Exception` and both reads
      succeed, the output is the message followed by both snapshots. */
  lemma ToolReportsPage(testCode: string, fx: Effects, e: PyExc)
    requires fx.exec(testCode).ExecDone?
    requires FirstCoroutine(fx.exec(testCode).namespace).Some?
    requires var ns := fx.exec(testCode).namespace;
      fx.run(Selected(ns[FirstCoroutine(ns).value].1)) == Raised(e)
    requires e.isException && fx.html.Got? && fx.a11y.Got?
    ensures ToolResult(PyHarness.Attempt("", Code(testCode), fx, false).1)
         == Output(TestOutput(false, Some(e.text + DomHeader + fx.html.value + A11yHeader + Str(fx.a11y.value))))
  {
    var ns := fx.exec(testCode).namespace;
    var fn := Selected(ns[FirstCoroutine(ns).value].1);
    assert Prepare("", Code(testCode), fx.exec) == Ready(fn, ShownName("", ns));
    assert Attempt("", Code(testCode), fx, false).1 == Closing(ShownName("", ns), fx.run(fn), fx).1;
    var d := Decorated(e, fx);
    assert Closing(ShownName("", ns), fx.run(fn), fx).1 == Raises(d);
    assert d == Attach(e, fx.html.value, fx.a11y.value);
    assert FailureOutput(d) == e.text + (DomHeader + fx.html.value) + (A11yHeader + Str(fx.a11y.value));
    assert FailureOutput(d) == e.text + DomHeader + fx.html.value + A11yHeader + Str(fx.a11y.value);
    assert d.isException;
    assert ToolResult(Raises(d)) == Output(TestOutput(false, Some(FailureOutput(d))));
  }

  /** `TestStep`: `target_element`, `input_data` and `notes` default to None. */
  datatype TestStep = TestStep(
    stepNumber: int,
    action: string,
    targetElement: Option<string>,
    inputData: Option<string>,
    expectedResult: string,
    notes: Option<string>)

  /** A required `str` field. */
  function StrAt(m: map<string, Json>, key: string): Option<string> {
    if key in m && m[key].JString? then Some(m[key].s) else None
  }

  /** A required `int` field. */
  function IntAt(m: map<string, Json>, key: string): Option<int> {
    if key in m && m[key].JNumber? then Some(m[key].n) else None
  }

  /** A `str | None = None` field: a missing key and null both give None. */
  function OptionalAt(m: map<string, Json>, key: string): Option<Option<string>> {
    if key !in m then Some(None)
    else match m[key]
      case JNull => Some(None)
      case JString(s) => Some(Some(s))
      case _ => None
  }

  /** Validating a JSON object as a `TestStep`. */
  function ParseStep(j: Json): Option<TestStep> {
    if !j.JObject? then None
    else
      var m := j.fields;
      var n := IntAt(m, "step_number");
      var a := StrAt(m, "action");
      var t := OptionalAt(m, "target_element");
      var i := OptionalAt(m, "input_data");
      var e := StrAt(m, "expected_result");
      var o := OptionalAt(m, "notes");
      if n.Some? && a.Some? && t.Some? && i.Some? && e.Some? && o.Some?
      then Some(TestStep(n.value, a.value, t.value, i.value, e.value, o.value))
      else None
  }

  function OptionalJson(v: Option<string>): Json {
    if v.Some? then JString(v.value) else JNull
  }

  /** The JSON form of a step, as `model_dump` gives it: None is null. */
  function StepJson(st: TestStep): Json {
    JObject(map["step_number" := JNumber(st.stepNumber), "action" := JString(st.action),
                "target_element" := OptionalJson(st.targetElement), "input_data" := OptionalJson(st.inputData),
                "expected_result" := JString(st.expectedResult), "notes" := OptionalJson(st.notes)])
  }

  lemma OptionalRoundTrip(m: map<string, Json>, key: string, v: Option<string>)
    requires key in m && m[key] == OptionalJson(v)
    ensures OptionalAt(m, key) == Some(v)
  {
  }

  lemma StepJsonRequired(st: TestStep)
    ensures var m := StepJson(st).fields;
      && IntAt(m, "step_number") == Some(st.stepNumber)
      && StrAt(m, "action") == Some(st.action)
      && StrAt(m, "expected_result") == Some(st.expectedResult)
  {
  }

  lemma StepJsonOptional(st: TestStep)
    ensures var m := StepJson(st).fields;
      && m["target_element"] == OptionalJson(st.targetElement)
      && m["input_data"] == OptionalJson(st.inputData)
      && m["notes"] == OptionalJson(st.notes)
  {
  }

  /** A step survives its dumped form. */
  lemma StepRoundTrip(st: TestStep)
    ensures ParseStep(StepJson(st)) == Some(st)
  {
    var m := StepJson(st).fields;
    StepJsonRequired(st);
    StepJsonOptional(st);
    OptionalRoundTrip(m, "target_element", st.targetElement);
    OptionalRoundTrip(m, "input_data", st.inputData);
    OptionalRoundTrip(m, "notes", st.notes);
  }

  /** Leaving an optional field out and sending null are the same. */
  lemma AbsentIsNull(m: map<string, Json>, key: string)
    requires key in {"target_element", "input_data", "notes"}
    ensures ParseStep(JObject(m - {key})) == ParseStep(JObject(m[key := JNull]))
  {
    var m1, m2 := m - {key}, m[key := JNull];
    assert IntAt(m1, "step_number") == IntAt(m2, "step_number");
    assert StrAt(m1, "action") == StrAt(m2, "action");
    assert StrAt(m1, "expected_result") == StrAt(m2, "expected_result");
    assert OptionalAt(m1, "target_element") == OptionalAt(m2, "target_element");
    assert OptionalAt(m1, "input_data") == OptionalAt(m2, "input_data");
    assert OptionalAt(m1, "notes") == OptionalAt(m2, "notes");
  }

  /** The three required fields must be present. */
  lemma RequiredFields(m: map<string, Json>)
    requires ParseStep(JObject(m)).Some?
    ensures "step_number" in m && "action" in m && "expected_result" in m
  {
  }
}
