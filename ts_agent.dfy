/** The TypeScript agent's own logic: the `run_test_tool` result, the
    `emit_steps` result, and what `testWriterAgent` does with the agent's
    final output. */
module TsAgent {
  import opened Wrappers
  import opened JsValues
  import opened Json
  import opened TsSchema
  import Slug
  import TsHarness
  import JsMaterialise

  /** `{ success, failure_output }`; `failure_output: null` is None. */
  datatype ToolOutput = ToolOutput(success: bool, failureOutput: Option<string>)

  /** The options the tool runs every test with. */
  const ToolOptions := TsHarness.RunOptions(Some(false), Some(true))

  const DomHeader := "\n\nDOM SNAPSHOT:\n"
  const A11yHeader := "\n\nACCESSIBILITY SNAPSHOT:\n"

  /** A snapshot section, added only when the property is truthy. */
  function Section(header: string, v: JsValue): string {
    if Truthy(v) then header + ToString(v) else ""
  }

  /** The text reported for a caught value: its string form, then the DOM
      section, then the accessibility section. */
  function FailureOutput(e: JsValue): string
    requires !Nullish(e)
  {
    ToString(e) + Section(DomHeader, DomProperty(e)) + Section(A11yHeader, A11yProperty(e))
  }

  /** The result `run_test_tool` resolves to for one settlement of `runTest`. */
  function ToolResult(r: TsHarness.Completion): ToolOutput
    requires r.Threw? ==> Truthy(r.value)
  {
    if r.Returned? then ToolOutput(true, None) else ToolOutput(false, Some(FailureOutput(r.value)))
  }

  /** `runTestTool.execute({ test_code })`: run the code with the tool's
      options and report. It never throws: `runTest` only throws truthy
      values, so the property reads on the caught value always succeed. */
  method RunTestTool(testName: string, testCode: string, fx: TsHarness.Effects)
    returns (trace: TsHarness.Trace, out: ToolOutput)
    ensures var (t, r) := TsHarness.Attempt("", TsHarness.Source(testCode), ToolOptions, fx);
      && trace == t
      && (r.Threw? ==> Truthy(r.value))
      && out == ToolResult(r)
  {
    var result;
    trace, result := TsHarness.RunTest("", TsHarness.Source(testCode), fx, ToolOptions);
    if result.Returned? {
      return trace, ToolOutput(true, None);
    }
    var error := result.value;
    var output := ToString(error);
    if Truthy(DomProperty(error)) {
      output := output + (DomHeader + ToString(DomProperty(error)));
    }
    assert output == ToString(error) + Section(DomHeader, DomProperty(error));
    if Truthy(A11yProperty(error)) {
      output := output + (A11yHeader + ToString(A11yProperty(error)));
    }
    assert output == FailureOutput(error);
    out := ToolOutput(false, Some(output));
  }

  /** The tool succeeds exactly when the test returned normally, and a
      success carries no output while a failure always carries one. */
  lemma ToolSuccess(r: TsHarness.Completion)
    requires r.Threw? ==> Truthy(r.value)
    ensures ToolResult(r).success <==> r.Returned?
    ensures ToolResult(r).failureOutput.None? <==> ToolResult(r).success
  {
  }

  /** The output starts with the value's string form; it is exactly that
      when neither snapshot is truthy, and otherwise the DOM section comes
      first whenever the DOM snapshot is truthy. */
  lemma FailureOutputShape(e: JsValue)
    requires !Nullish(e)
    ensures var out := FailureOutput(e);
      && ToString(e) <= out
      && (out == ToString(e) <==> !Truthy(DomProperty(e)) && !Truthy(A11yProperty(e)))
      && (Truthy(DomProperty(e)) ==> DomHeader <= out[|ToString(e)|..])
  {
    var s := Section(DomHeader, DomProperty(e));
    var out := FailureOutput(e);
    assert out == ToString(e) + (s + Section(A11yHeader, A11yProperty(e)));
    assert out[|ToString(e)|..] == s + Section(A11yHeader, A11yProperty(e));
  }

  /** An empty-string snapshot adds nothing. */
  lemma EmptySnapshotSilent(o: JsObj)
    requires o.dom == Some(JsString("")) && o.a11y == Some(JsString(""))
    ensures FailureOutput(JsObject(o)) == o.text
  {
  }

  /** End to end: when the body throws an object and both reads succeed
      with a non-empty page, the tool reports the object's text followed
      by the page's HTML. */
  lemma ToolReportsPage(testCode: string, fx: TsHarness.Effects, o: JsObj)
    requires fx.construct(JsMaterialise.ExtractBody(testCode)).Built?
    requires fx.body(TsHarness.Compiled(JsMaterialise.ExtractBody(testCode))) == TsHarness.Threw(JsObject(o))
    requires fx.html.Got? && fx.html.value != "" && fx.a11y.Got?
    ensures var r := TsHarness.Attempt("", TsHarness.Source(testCode), ToolOptions, fx).1;
      ToolResult(r)
        == ToolOutput(false, Some(o.text + DomHeader + fx.html.value + Section(A11yHeader, fx.a11y.value)))
  {
    var fn := TsHarness.Compiled(JsMaterialise.ExtractBody(testCode));
    TsHarness.MaterialisedFunction("", TsHarness.Source(testCode), ToolOptions, fx);
    TsHarness.BothOrNeither("", fn, ToolOptions, fx, o);
    var e := TsHarness.Launched("", fn, ToolOptions, fx).1.value;
    ReportsSnapshots(e, fx.html.value, fx.a11y.value);
  }

  lemma ReportsSnapshots(e: JsValue, html: string, a11y: JsValue)
    requires e.JsObject? && e.obj.dom == Some(JsString(html)) && e.obj.a11y == Some(a11y) && html != ""
    ensures FailureOutput(e) == e.obj.text + DomHeader + html + Section(A11yHeader, a11y)
  {
    assert Section(DomHeader, DomProperty(e)) == DomHeader + html;
  }

  /** `{ success: true }`. */
  datatype Ack = Ack(success: bool)

  /** `emitStepsTool.execute`: whatever the steps, the result is a success. */
  function EmitSteps(steps: seq<TestStep>): (r: Ack)
    ensures r.success
  {
    Ack(true)
  }

  /** How the agent run settles: it throws, or it yields the candidate
      value for the final output. How the SDK's result object is probed for
      that candidate is not part of this model. */
  datatype AgentRun = RunThrew(error: JsValue) | RunDone(candidate: Json)

  /** The steps of `testWriterAgent` that can be seen from outside. */
  datatype AgentEvent =
    | CreateAgent                       // new Agent({...}) with both tools
    | StartRun(input: string, maxTurns: nat)  // run(agent, url, { maxTurns })
    | LogRunError(error: JsValue)       // console.error("Error running agent:", error)
    | PrintSpec(spec: E2ETestSpec)      // the specification banner
    | PrintNoOutput                     // "No final output available"
    | SaveTest(fileName: string, content: string)  // fs.writeFile under tempest/

  /** A settled call of `testWriterAgent`: the final output, null when the
      candidate is refused, or a thrown value. */
  datatype AgentOutcome = Finished(output: Option<E2ETestSpec>) | Raised(error: JsValue)

  const MaxTurns: nat := 20

  const MissingKey := JsObject(JsObj("Error: OPENAI_API_KEY environment variable is not set", None, None))

  /** `!process.env.OPENAI_API_KEY`: unset or empty. */
  predicate KeyMissing(apiKey: Option<string>) {
    apiKey.None? || apiKey == Some("")
  }

  /** A string candidate is parsed as JSON and kept as the string when
      parsing fails; anything else is used as is. */
  function Candidate(v: Json, jsonParse: string -> Option<Json>): Json {
    if v.JString? then jsonParse(v.s).GetOr(v) else v
  }

  /** What is done with an accepted specification. */
  function Report(spec: E2ETestSpec, save: bool): seq<AgentEvent> {
    [PrintSpec(spec)] + (if save then [SaveTest(Slug.SpecFileName(spec.testName), spec.code)] else [])
  }

  /** The events and the settlement of one call of `testWriterAgent`. */
  function Agent(url: string, apiKey: Option<string>, run: AgentRun,
                 jsonParse: string -> Option<Json>, save: bool): (seq<AgentEvent>, AgentOutcome)
  {
    if KeyMissing(apiKey) then ([], Raised(MissingKey))
    else
      var started := [CreateAgent, StartRun(url, MaxTurns)];
      match run
      case RunThrew(e) => (started + [LogRunError(e)], Raised(e))
      case RunDone(v) =>
        match ParseSpec(Candidate(v, jsonParse))
        case Some(spec) => (started + Report(spec, save), Finished(Some(spec)))
        case None => (started + [PrintNoOutput], Finished(None))
  }

  /** `testWriterAgent(url, instructions, save)`. The prompt built from
      `instructions` is not part of this model. */
  method TestWriterAgent(url: string, instructions: string, apiKey: Option<string>, run: AgentRun,
                         jsonParse: string -> Option<Json>, save: bool := false)
    returns (events: seq<AgentEvent>, outcome: AgentOutcome)
    ensures (events, outcome) == Agent(url, apiKey, run, jsonParse, save)
  {
    if apiKey.None? || apiKey.value == "" {
      return [], Raised(MissingKey);
    }
    events := [CreateAgent];
    events := events + [StartRun(url, MaxTurns)];
    assert events == [CreateAgent, StartRun(url, MaxTurns)];
    if run.RunThrew? {
      events := events + [LogRunError(run.error)];
      return events, Raised(run.error);
    }
    var finalOutput: Option<E2ETestSpec> := None;
    var output := run.candidate;
    if output.JString? {
      var parsed := jsonParse(output.s);
      if parsed.Some? {
        output := parsed.value;
      }
    }
    assert output == Candidate(run.candidate, jsonParse);
    var parsed := ParseSpec(output);
    if parsed.Some? {
      finalOutput := parsed;
    }
    if finalOutput.Some? {
      var spec := finalOutput.value;
      events := events + [PrintSpec(spec)];
      if save {
        var sanitized := Slug.Slug(spec.testName);
        var fileName := sanitized + ".spec.ts";
        events := events + [SaveTest(fileName, spec.code)];
      }
      assert events == [CreateAgent, StartRun(url, MaxTurns)] + Report(spec, save);
    } else {
      events := events + [PrintNoOutput];
    }
    outcome := Finished(finalOutput);
  }

  /** Without a key nothing is built or run. */
  lemma NoKeyNoAgent(url: string, apiKey: Option<string>, run: AgentRun,
                     jsonParse: string -> Option<Json>, save: bool)
    requires KeyMissing(apiKey)
    ensures Agent(url, apiKey, run, jsonParse, save) == ([], Raised(MissingKey))
  {
  }

  /** An error from the agent run is logged and rethrown unchanged, never
      turned into a null result. */
  lemma RunErrorRethrown(url: string, apiKey: Option<string>, e: JsValue,
                         jsonParse: string -> Option<Json>, save: bool)
    requires !KeyMissing(apiKey)
    ensures var (events, outcome) := Agent(url, apiKey, RunThrew(e), jsonParse, save);
      outcome == Raised(e) && events[|events| - 1] == LogRunError(e)
  {
  }

  /** With a key, the run always starts with the URL as input and a budget
      of 20 turns, right after the agent is created. */
  lemma RunStarted(url: string, apiKey: Option<string>, run: AgentRun,
                   jsonParse: string -> Option<Json>, save: bool)
    requires !KeyMissing(apiKey)
    ensures var events := Agent(url, apiKey, run, jsonParse, save).0;
      |events| >= 3 && events[..2] == [CreateAgent, StartRun(url, 20)]
  {
  }

  /** The final output is non-null exactly when the candidate passes the
      schema, and it is then the parsed specification; unknown keys of the
      candidate do not matter. */
  lemma FinalOutputAccepted(url: string, apiKey: Option<string>, v: Json,
                            jsonParse: string -> Option<Json>, save: bool, sp: E2ETestSpec)
    requires !KeyMissing(apiKey)
    ensures var c := Candidate(v, jsonParse);
      (Agent(url, apiKey, RunDone(v), jsonParse, save).1 == Finished(Some(sp)))
      <==> (c.JObject? && Agree(c.fields, SpecJson(sp).fields, SpecTextKeys) && StepsMatch(c.fields, sp.testSteps))
  {
    SpecAccepted(Candidate(v, jsonParse), sp);
  }

  /** A string that does not parse as JSON is refused, and yields null. */
  lemma UnparsableStringRefused(url: string, apiKey: Option<string>, s: string,
                                jsonParse: string -> Option<Json>, save: bool)
    requires !KeyMissing(apiKey) && jsonParse(s).None?
    ensures Agent(url, apiKey, RunDone(JString(s)), jsonParse, save).1 == Finished(None)
  {
  }

  /** An accepted specification is saved, when asked, under its sanitised
      name with `.spec.ts`, and the file holds the generated code. */
  lemma SavedUnderSlug(url: string, apiKey: Option<string>, v: Json,
                       jsonParse: string -> Option<Json>, sp: E2ETestSpec)
    requires !KeyMissing(apiKey) && ParseSpec(Candidate(v, jsonParse)) == Some(sp)
    ensures Agent(url, apiKey, RunDone(v), jsonParse, true).0
         == [CreateAgent, StartRun(url, MaxTurns), PrintSpec(sp), SaveTest(Slug.SpecFileName(sp.testName), sp.code)]
  {
  }

  /** Nothing is saved unless asked. */
  lemma SavedOnlyWhenAsked(url: string, apiKey: Option<string>, run: AgentRun,
                           jsonParse: string -> Option<Json>)
    ensures forall e :: e in Agent(url, apiKey, run, jsonParse, false).0 ==> !e.SaveTest?
  {
  }
}
