/** The zod schemas `TestStepSchema` and `E2ETestSpecSchema`: which JSON
    values they accept and the typed value they produce. Objects are parsed
    in zod's default mode, which drops keys the schema does not name. */
module TsSchema {
  import opened Wrappers
  import opened Json

  /** A `z.string().nullable().optional()` field of the parsed value. */
  datatype Field = Absent | Null | Text(s: string)

  /** `TestStep`. */
  datatype TestStep = TestStep(
    stepNumber: int,
    action: string,
    targetElement: Field,
    inputData: Field,
    expectedResult: string,
    notes: Field)

  /** `E2ETestSpec`. */
  datatype E2ETestSpec = E2ETestSpec(
    testName: string,
    testDescription: string,
    targetUrl: string,
    testSteps: seq<TestStep>,
    code: string)

  const StepKeys: set<string> :=
    {"step_number", "action", "target_element", "input_data", "expected_result", "notes"}

  const SpecKeys: set<string> :=
    {"test_name", "test_description", "target_url", "test_steps", "async_playwright_test_code"}

  /** `z.string()` at a key: present and a string. */
  function StringAt(m: map<string, Json>, key: string): Option<string> {
    if key in m && m[key].JString? then Some(m[key].s) else None
  }

  /** `z.number()` at a key. */
  function NumberAt(m: map<string, Json>, key: string): Option<int> {
    if key in m && m[key].JNumber? then Some(m[key].n) else None
  }

  /** `z.string().nullable().optional()` at a key: missing, null or a string. */
  function FieldAt(m: map<string, Json>, key: string): Option<Field> {
    if key !in m then Some(Absent)
    else match m[key]
      case JNull => Some(Null)
      case JString(s) => Some(Text(s))
      case _ => None
  }

  /** `TestStepSchema.safeParse`. */
  function ParseStep(j: Json): Option<TestStep> {
    if !j.JObject? then None
    else
      var m := j.fields;
      var n := NumberAt(m, "step_number");
      var a := StringAt(m, "action");
      var t := FieldAt(m, "target_element");
      var i := FieldAt(m, "input_data");
      var e := StringAt(m, "expected_result");
      var o := FieldAt(m, "notes");
      if n.Some? && a.Some? && t.Some? && i.Some? && e.Some? && o.Some?
      then Some(TestStep(n.value, a.value, t.value, i.value, e.value, o.value))
      else None
  }

  /** `z.array(TestStepSchema)` on the items of an array: every item must
      parse, and the steps keep the items' order. */
  function ParseSteps(items: seq<Json>): (r: Option<seq<TestStep>>)
    ensures r.Some? <==> forall k :: 0 <= k < |items| ==> ParseStep(items[k]).Some?
    ensures r.Some? ==> |r.value| == |items|
    ensures r.Some? ==> forall k :: 0 <= k < |items| ==> ParseStep(items[k]) == Some(r.value[k])
  {
    if items == [] then Some([])
    else
      var head := ParseStep(items[0]);
      var tail := ParseSteps(items[1..]);
      if head.Some? && tail.Some? then Some([head.value] + tail.value) else None
  }

  /** `E2ETestSpecSchema.safeParse`. */
  function ParseSpec(j: Json): Option<E2ETestSpec> {
    if !j.JObject? then None
    else
      var m := j.fields;
      var name := StringAt(m, "test_name");
      var desc := StringAt(m, "test_description");
      var url := StringAt(m, "target_url");
      var steps := if "test_steps" in m && m["test_steps"].JArray? then ParseSteps(m["test_steps"].items) else None;
      var code := StringAt(m, "async_playwright_test_code");
      if name.Some? && desc.Some? && url.Some? && steps.Some? && code.Some?
      then Some(E2ETestSpec(name.value, desc.value, url.value, steps.value, code.value))
      else None
  }

  /** An optional field as JSON: an absent field has no key. */
  function FieldJson(key: string, f: Field): map<string, Json> {
    match f
    case Absent => map[]
    case Null => map[key := JNull]
    case Text(s) => map[key := JString(s)]
  }

  /** The JSON form of a step. */
  function StepJson(st: TestStep): Json {
    JObject(map["step_number" := JNumber(st.stepNumber), "action" := JString(st.action),
                "expected_result" := JString(st.expectedResult)]
            + FieldJson("target_element", st.targetElement)
            + FieldJson("input_data", st.inputData)
            + FieldJson("notes", st.notes))
  }

  function StepsJson(steps: seq<TestStep>): (r: seq<Json>)
    ensures |r| == |steps|
  {
    if steps == [] then [] else [StepJson(steps[0])] + StepsJson(steps[1..])
  }

  /** The JSON form of a specification. */
  function SpecJson(sp: E2ETestSpec): Json {
    JObject(map["test_name" := JString(sp.testName), "test_description" := JString(sp.testDescription),
                "target_url" := JString(sp.targetUrl), "test_steps" := JArray(StepsJson(sp.testSteps)),
                "async_playwright_test_code" := JString(sp.code)])
  }

  /** Only the keys the step schema names matter. */
  lemma StepKeysOnly(m1: map<string, Json>, m2: map<string, Json>)
    requires Agree(m1, m2, StepKeys)
    ensures ParseStep(JObject(m1)) == ParseStep(JObject(m2))
  {
    assert NumberAt(m1, "step_number") == NumberAt(m2, "step_number");
    assert StringAt(m1, "action") == StringAt(m2, "action");
    assert StringAt(m1, "expected_result") == StringAt(m2, "expected_result");
    assert FieldAt(m1, "target_element") == FieldAt(m2, "target_element");
    assert FieldAt(m1, "input_data") == FieldAt(m2, "input_data");
    assert FieldAt(m1, "notes") == FieldAt(m2, "notes");
  }

  /** A step survives its JSON form. */
  lemma StepRoundTrip(st: TestStep)
    ensures ParseStep(StepJson(st)) == Some(st)
  {
    StepJsonRequired(st);
    StepJsonTarget(st);
    StepJsonInput(st);
    StepJsonNotes(st);
  }

  lemma StepJsonRequired(st: TestStep)
    ensures var m := StepJson(st).fields;
      && NumberAt(m, "step_number") == Some(st.stepNumber)
      && StringAt(m, "action") == Some(st.action)
      && StringAt(m, "expected_result") == Some(st.expectedResult)
  {
  }

  lemma StepJsonTarget(st: TestStep)
    ensures FieldAt(StepJson(st).fields, "target_element") == Some(st.targetElement)
  {
  }

  lemma StepJsonInput(st: TestStep)
    ensures FieldAt(StepJson(st).fields, "input_data") == Some(st.inputData)
  {
  }

  lemma StepJsonNotes(st: TestStep)
    ensures FieldAt(StepJson(st).fields, "notes") == Some(st.notes)
  {
  }

  /** Each accessor determines what is at its key. */
  predicate SameAt(m1: map<string, Json>, m2: map<string, Json>, key: string) {
    (key in m1 <==> key in m2) && (key in m1 ==> m1[key] == m2[key])
  }

  lemma StringDetermines(m1: map<string, Json>, m2: map<string, Json>, key: string)
    requires StringAt(m1, key).Some? && StringAt(m1, key) == StringAt(m2, key)
    ensures SameAt(m1, m2, key)
  {
  }

  lemma NumberDetermines(m1: map<string, Json>, m2: map<string, Json>, key: string)
    requires NumberAt(m1, key).Some? && NumberAt(m1, key) == NumberAt(m2, key)
    ensures SameAt(m1, m2, key)
  {
  }

  lemma FieldDetermines(m1: map<string, Json>, m2: map<string, Json>, key: string)
    requires FieldAt(m1, key).Some? && FieldAt(m1, key) == FieldAt(m2, key)
    ensures SameAt(m1, m2, key)
  {
  }

  /** A JSON value parses to a step exactly when it is an object that agrees
      with the step's JSON form on every key the schema names, whatever
      other keys it carries. */
  lemma StepAccepted(j: Json, st: TestStep)
    ensures ParseStep(j) == Some(st) <==> j.JObject? && Agree(j.fields, StepJson(st).fields, StepKeys)
  {
    if j.JObject? && Agree(j.fields, StepJson(st).fields, StepKeys) {
      StepKeysOnly(j.fields, StepJson(st).fields);
      StepRoundTrip(st);
    }
    if ParseStep(j) == Some(st) {
      StepAgrees(j.fields, st);
    }
  }

  lemma StepAgrees(m: map<string, Json>, st: TestStep)
    requires ParseStep(JObject(m)) == Some(st)
    ensures Agree(m, StepJson(st).fields, StepKeys)
  {
    var e := StepJson(st).fields;
    StepJsonRequired(st);
    StepJsonTarget(st);
    StepJsonInput(st);
    StepJsonNotes(st);
    StepFields(m, st);
    NumberDetermines(m, e, "step_number");
    StringDetermines(m, e, "action");
    StringDetermines(m, e, "expected_result");
    FieldDetermines(m, e, "target_element");
    FieldDetermines(m, e, "input_data");
    FieldDetermines(m, e, "notes");
    forall k | k in StepKeys ensures SameAt(m, e, k) {
    }
  }

  /** What a parsed step reads at each key. */
  lemma StepFields(m: map<string, Json>, st: TestStep)
    requires ParseStep(JObject(m)) == Some(st)
    ensures && NumberAt(m, "step_number") == Some(st.stepNumber)
            && StringAt(m, "action") == Some(st.action)
            && StringAt(m, "expected_result") == Some(st.expectedResult)
            && FieldAt(m, "target_element") == Some(st.targetElement)
            && FieldAt(m, "input_data") == Some(st.inputData)
            && FieldAt(m, "notes") == Some(st.notes)
  {
  }

  /** A list of steps survives its JSON form. */
  lemma {:induction false} StepsRoundTrip(steps: seq<TestStep>)
    ensures ParseSteps(StepsJson(steps)) == Some(steps)
  {
    if steps != [] {
      var items := StepsJson(steps);
      assert items[0] == StepJson(steps[0]);
      assert items[1..] == StepsJson(steps[1..]);
      StepRoundTrip(steps[0]);
      StepsRoundTrip(steps[1..]);
      assert [steps[0]] + steps[1..] == steps;
    }
  }

  /** Fields of a specification other than its steps. */
  const SpecTextKeys: set<string> := {"test_name", "test_description", "target_url", "async_playwright_test_code"}

  /** The steps array of an object that the specification schema accepts. */
  predicate StepsMatch(m: map<string, Json>, steps: seq<TestStep>) {
    && "test_steps" in m && m["test_steps"].JArray?
    && |m["test_steps"].items| == |steps|
    && forall k :: 0 <= k < |steps| ==> ParseStep(m["test_steps"].items[k]) == Some(steps[k])
  }

  lemma SpecJsonFields(sp: E2ETestSpec)
    ensures var m := SpecJson(sp).fields;
      && StringAt(m, "test_name") == Some(sp.testName)
      && StringAt(m, "test_description") == Some(sp.testDescription)
      && StringAt(m, "target_url") == Some(sp.targetUrl)
      && StringAt(m, "async_playwright_test_code") == Some(sp.code)
      && m["test_steps"] == JArray(StepsJson(sp.testSteps))
  {
  }

  /** A specification survives its JSON form. */
  lemma SpecRoundTrip(sp: E2ETestSpec)
    ensures ParseSpec(SpecJson(sp)) == Some(sp)
  {
    SpecJsonFields(sp);
    StepsRoundTrip(sp.testSteps);
  }

  /** A JSON value parses to a specification exactly when it is an object
      that agrees with the specification's JSON form on the four text keys
      and holds an array of as many items as there are steps, each parsing
      to its step; other keys, here and inside the steps, do not matter. */
  lemma SpecAccepted(j: Json, sp: E2ETestSpec)
    ensures ParseSpec(j) == Some(sp)
        <==> j.JObject? && Agree(j.fields, SpecJson(sp).fields, SpecTextKeys) && StepsMatch(j.fields, sp.testSteps)
  {
    if ParseSpec(j) == Some(sp) {
      SpecAgrees(j.fields, sp);
    }
    if j.JObject? && Agree(j.fields, SpecJson(sp).fields, SpecTextKeys) && StepsMatch(j.fields, sp.testSteps) {
      SpecFromAgreement(j.fields, sp);
    }
  }

  lemma SpecAgrees(m: map<string, Json>, sp: E2ETestSpec)
    requires ParseSpec(JObject(m)) == Some(sp)
    ensures Agree(m, SpecJson(sp).fields, SpecTextKeys) && StepsMatch(m, sp.testSteps)
  {
    var e := SpecJson(sp).fields;
    SpecJsonFields(sp);
    StringDetermines(m, e, "test_name");
    StringDetermines(m, e, "test_description");
    StringDetermines(m, e, "target_url");
    StringDetermines(m, e, "async_playwright_test_code");
  }

  lemma SpecFromAgreement(m: map<string, Json>, sp: E2ETestSpec)
    requires Agree(m, SpecJson(sp).fields, SpecTextKeys) && StepsMatch(m, sp.testSteps)
    ensures ParseSpec(JObject(m)) == Some(sp)
  {
    var e := SpecJson(sp).fields;
    SpecJsonFields(sp);
    assert StringAt(m, "test_name") == StringAt(e, "test_name");
    assert StringAt(m, "test_description") == StringAt(e, "test_description");
    assert StringAt(m, "target_url") == StringAt(e, "target_url");
    assert StringAt(m, "async_playwright_test_code") == StringAt(e, "async_playwright_test_code");
    var r := ParseSteps(m["test_steps"].items);
    assert r.value == sp.testSteps;
  }

  /** Whether a JSON value is accepted depends only on the keys the schema
      names: unknown keys are dropped, not refused. */
  lemma SpecKeysOnly(m1: map<string, Json>, m2: map<string, Json>)
    requires Agree(m1, m2, SpecKeys)
    ensures ParseSpec(JObject(m1)) == ParseSpec(JObject(m2))
  {
    assert StringAt(m1, "test_name") == StringAt(m2, "test_name");
    assert StringAt(m1, "test_description") == StringAt(m2, "test_description");
    assert StringAt(m1, "target_url") == StringAt(m2, "target_url");
    assert StringAt(m1, "async_playwright_test_code") == StringAt(m2, "async_playwright_test_code");
    assert ("test_steps" in m1 <==> "test_steps" in m2) && ("test_steps" in m1 ==> m1["test_steps"] == m2["test_steps"]);
  }
}
