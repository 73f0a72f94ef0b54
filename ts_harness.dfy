/** One attempt of the TypeScript harness's `runTest`: materialise the test,
    open a traced browser session, run the test function, capture
    diagnostics when it throws, tear the session down, and rethrow. */
module TsHarness {
  import opened Wrappers
  import opened JsValues
  import opened Session
  import JsMaterialise

  /** What `runTest` is given as `testCode`: the text of a test or a function. */
  datatype TestCode = Source(text: string) | Callable(id: nat)

  /** The function that gets invoked with the test context: one built by the
      AsyncFunction constructor from a body (its parameter is `ctx`), or the
      caller's own function. */
  datatype TestFn = Compiled(body: string) | Given(id: nat)

  /** What `new AsyncFunction("ctx", body)` does with a body. */
  datatype Construct = Built | SyntaxError(error: JsObj)

  /** How an awaited call settles. */
  datatype Completion = Returned | Threw(value: JsValue)

  /** The options object; an absent field takes its default. */
  datatype RunOptions = RunOptions(headless: Option<bool>, debugStdout: Option<bool>)

  const NoOptions := RunOptions(None, None)

  /** The outcome of every foreign call the attempt makes that can fail:
      the function constructor, the test body, the two diagnostic reads and
      stopping the trace. Launching, opening and closing are taken to succeed. */
  datatype Effects = Effects(
    construct: string -> Construct,
    body: TestFn -> Completion,
    html: Read<string>,
    a11y: Read<JsValue>,
    traceStop: bool)

  type Trace = seq<Event<TestFn>>

  /** The result of materialisation: a function to run, or the error thrown
      before any browser exists. */
  datatype Materialised = Ready(fn: TestFn) | Refused(error: JsValue)

  function Materialise(code: TestCode, construct: string -> Construct): Materialised {
    match code
    case Callable(id) => Ready(Given(id))
    case Source(text) =>
      var body := JsMaterialise.ExtractBody(text);
      match construct(body)
      case Built => Ready(Compiled(body))
      case SyntaxError(err) => Refused(JsObject(err))
  }

  /** Assigning `dom_snapshot` and `accessibility_snapshot` to the caught
      value. Only an object takes properties; on a primitive the assignment
      has no effect (or throws inside the swallowing `try`). */
  function Attach(e: JsValue, html: string, a11y: JsValue): JsValue {
    if e.JsObject? then JsObject(e.obj.(dom := Some(JsString(html)), a11y := Some(a11y))) else e
  }

  /** The caught value after the diagnostic block: both properties are
      assigned only once both reads have succeeded. */
  function Decorated(e: JsValue, fx: Effects): JsValue {
    if fx.html.Got? && fx.a11y.Got? then Attach(e, fx.html.value, fx.a11y.value) else e
  }

  /** The reads the diagnostic block attempts: the accessibility read only
      after the HTML read succeeded. */
  function Probes(fx: Effects): Trace {
    [ReadDom] + (if fx.html.Got? then [ReadA11y] else [])
  }

  /** A console line written only in debug mode. */
  function DebugLine(debug: bool, line: Line): Trace {
    if debug then [Log(line)] else []
  }

  function Setup(headless: bool): Trace {
    [Launch(headless), NewContext, StartTracing, NewPage]
  }

  /** The `finally` block: stop tracing (failure swallowed), close the
      context, close the browser. */
  const Teardown: Trace := [StopTracing, CloseContext, CloseBrowser]

  /** The events and the settlement of one call of `runTest`. */
  function Attempt(name: string, code: TestCode, options: RunOptions, fx: Effects): (Trace, Completion) {
    match Materialise(code, fx.construct)
    case Refused(err) => ([], Threw(err))
    case Ready(fn) => Launched(name, fn, options, fx)
  }

  /** Running the body, and reading diagnostics when it throws. */
  function Body(fn: TestFn, fx: Effects): Trace {
    [Invoke(fn)] + (if fx.body(fn).Threw? then Probes(fx) else [])
  }

  /** The events before teardown. */
  function BeforeTeardown(name: string, fn: TestFn, options: RunOptions, fx: Effects): Trace {
    Setup(options.headless.GetOr(true)) + DebugLine(options.debugStdout.GetOr(false), Running(name)) + Body(fn, fx)
  }

  /** The events after teardown. */
  function AfterTeardown(name: string, fn: TestFn, options: RunOptions, fx: Effects): Trace {
    DebugLine(options.debugStdout.GetOr(false), Verdict(!fx.body(fn).Threw?, name))
  }

  /** Everything from the launch on, for a materialised function. */
  function Launched(name: string, fn: TestFn, options: RunOptions, fx: Effects): (Trace, Completion) {
    var outcome := fx.body(fn);
    var caught := if outcome.Threw? then Decorated(outcome.value, fx) else JsNull;
    (BeforeTeardown(name, fn, options, fx) + Teardown + AfterTeardown(name, fn, options, fx),
     if Truthy(caught) then Threw(caught) else Returned)
  }

  /** `runTest(name, testCode, options)`. */
  method RunTest(name: string, testCode: TestCode, fx: Effects, options: RunOptions := NoOptions)
    returns (trace: Trace, result: Completion)
    ensures (trace, result) == Attempt(name, testCode, options, fx)
    ensures result.Threw? ==> Truthy(result.value)
  {
    var headless := if options.headless.Some? then options.headless.value else true;
    var debugStdout := if options.debugStdout.Some? then options.debugStdout.value else false;
    var testFn: TestFn;
    match testCode {
      case Source(text) =>
        var functionBody := JsMaterialise.ExtractBody(text);
        var built := fx.construct(functionBody);
        if built.SyntaxError? {
          return [], Threw(JsObject(built.error));
        }
        testFn := Compiled(functionBody);
      case Callable(id) =>
        testFn := Given(id);
    }
    assert Materialise(testCode, fx.construct) == Ready(testFn);
    trace, result := RunSession(name, testFn, headless, debugStdout, fx);
    OptionsResolved(name, testFn, options, fx);
  }

  /** Only the resolved option values matter. */
  lemma OptionsResolved(name: string, fn: TestFn, options: RunOptions, fx: Effects)
    ensures Launched(name, fn, options, fx)
         == Launched(name, fn, RunOptions(Some(options.headless.GetOr(true)), Some(options.debugStdout.GetOr(false))), fx)
  {
    var resolved := RunOptions(Some(options.headless.GetOr(true)), Some(options.debugStdout.GetOr(false)));
    assert BeforeTeardown(name, fn, options, fx) == BeforeTeardown(name, fn, resolved, fx);
    assert AfterTeardown(name, fn, options, fx) == AfterTeardown(name, fn, resolved, fx);
  }

  /** From the launch on: set up a traced session, run the body, tear the
      session down, and settle. */
  method RunSession(name: string, testFn: TestFn, headless: bool, debugStdout: bool, fx: Effects)
    returns (trace: Trace, result: Completion)
    ensures (trace, result) == Launched(name, testFn, RunOptions(Some(headless), Some(debugStdout)), fx)
    ensures result.Threw? ==> Truthy(result.value)
  {
    ghost var options := RunOptions(Some(headless), Some(debugStdout));
    trace := [Launch(headless)];
    trace := trace + [NewContext];
    trace := trace + [StartTracing];
    trace := trace + [NewPage];
    assert trace == Setup(headless);
    if debugStdout {
      trace := trace + [Log(Running(name))];
    }
    assert trace == Setup(headless) + DebugLine(debugStdout, Running(name));
    var body, passed, error := RunBody(testFn, fx);
    trace := trace + body;
    ghost var before := trace;
    assert before == BeforeTeardown(name, testFn, options, fx);
    trace := trace + [StopTracing];  // a failing stop is swallowed
    trace := trace + [CloseContext];
    trace := trace + [CloseBrowser];
    assert trace == before + Teardown;
    if debugStdout {
      trace := trace + [Log(Verdict(passed, name))];
    }
    assert trace == before + Teardown + AfterTeardown(name, testFn, options, fx);
    if Truthy(error) {
      result := Threw(error);
    } else {
      result := Returned;
    }
  }

  /** The `try`/`catch` around the body: invoke it and, when it throws,
      read the diagnostics and decorate what it threw. */
  method RunBody(testFn: TestFn, fx: Effects) returns (trace: Trace, passed: bool, error: JsValue)
    ensures trace == Body(testFn, fx)
    ensures passed <==> !fx.body(testFn).Threw?
    ensures error == if fx.body(testFn).Threw? then Decorated(fx.body(testFn).value, fx) else JsNull
  {
    passed := true;
    error := JsNull;
    trace := [Invoke(testFn)];
    var outcome := fx.body(testFn);
    if outcome.Threw? {
      var e := outcome.value;
      passed := false;
      error := e;
      trace := trace + [ReadDom];
      if fx.html.Got? {
        trace := trace + [ReadA11y];
        if fx.a11y.Got? {
          e := Attach(e, fx.html.value, fx.a11y.value);
          error := e;  // `error` and `e` are the same object
        }
      }
    }
  }

  /** A text the constructor refuses throws before anything is launched. */
  lemma ConstructionFailureLaunchesNothing(name: string, text: string, options: RunOptions, fx: Effects)
    requires fx.construct(JsMaterialise.ExtractBody(text)).SyntaxError?
    ensures Attempt(name, Source(text), options, fx)
         == ([], Threw(JsObject(fx.construct(JsMaterialise.ExtractBody(text)).error)))
  {
  }

  /** A function argument is used unchanged, a text is built from its
      extracted body, and the attempt goes on with that function. */
  lemma MaterialisedFunction(name: string, code: TestCode, options: RunOptions, fx: Effects)
    requires Materialise(code, fx.construct).Ready?
    ensures var fn := Materialise(code, fx.construct).fn;
      && fn == (if code.Callable? then Given(code.id) else Compiled(JsMaterialise.ExtractBody(code.text)))
      && Attempt(name, code, options, fx) == Launched(name, fn, options, fx)
  {
  }

  /** The session invokes the test function once and no other function. */
  lemma {:induction false} InvokesOnlyIt(name: string, fn: TestFn, options: RunOptions, fx: Effects)
    ensures Invocations(Launched(name, fn, options, fx).0) == [fn]
  {
    var b := BeforeTeardown(name, fn, options, fx);
    var l2 := AfterTeardown(name, fn, options, fx);
    assert Launched(name, fn, options, fx).0 == b + Teardown + l2;
    InvokedBeforeTeardown(name, fn, options, fx);
    InvocationsConcat(b, Teardown);
    NoInvocations(Teardown);
    assert Invocations(b + Teardown) == [fn];
    InvocationsConcat(b + Teardown, l2);
    NoInvocations(l2);
  }

  lemma {:induction false} InvokedBeforeTeardown(name: string, fn: TestFn, options: RunOptions, fx: Effects)
    ensures Invocations(BeforeTeardown(name, fn, options, fx)) == [fn]
  {
    var a := Setup(options.headless.GetOr(true));
    var l1 := DebugLine(options.debugStdout.GetOr(false), Running(name));
    InvocationsConcat(a + l1, Body(fn, fx));
    InvocationsConcat(a, l1);
    NoInvocations(a);
    NoInvocations(l1);
    InvokedByBody(fn, fx);
  }

  lemma {:induction false} InvokedByBody(fn: TestFn, fx: Effects)
    ensures Invocations(Body(fn, fx)) == [fn]
  {
    var p := if fx.body(fn).Threw? then Probes(fx) else [];
    InvocationsConcat([Invoke(fn)], p);
    NoInvocations(p);
    assert Invocations([Invoke(fn)]) == [fn];
  }

  /** Once the session is set up, teardown runs on every path, exactly once:
      stop tracing, close the context, close the browser; and the browser is
      launched first. */
  lemma TeardownExactlyOnce(name: string, fn: TestFn, options: RunOptions, fx: Effects)
    ensures var t := Launched(name, fn, options, fx).0;
      && t[0] == Launch(options.headless.GetOr(true))
      && multiset(t)[StopTracing] == 1 && multiset(t)[CloseContext] == 1 && multiset(t)[CloseBrowser] == 1
  {
    var front := BeforeTeardown(name, fn, options, fx);
    var last := AfterTeardown(name, fn, options, fx);
    NoTeardownOutside(name, fn, options, fx);
    OnceIn(front, Teardown, last, StopTracing);
    OnceIn(front, Teardown, last, CloseContext);
    OnceIn(front, Teardown, last, CloseBrowser);
    assert front[0] == Launch(options.headless.GetOr(true));
  }

  /** No teardown event happens before or after the teardown block. */
  lemma NoTeardownOutside(name: string, fn: TestFn, options: RunOptions, fx: Effects)
    ensures forall e :: e in Teardown ==>
      e !in BeforeTeardown(name, fn, options, fx) && e !in AfterTeardown(name, fn, options, fx)
  {
  }

  /** Apart from console lines, an attempt is setup, the body with its
      diagnostics, and teardown, in that order; so teardown is the last
      thing it does. */
  lemma {:induction false} LogFreeAttempt(name: string, fn: TestFn, options: RunOptions, fx: Effects)
    ensures WithoutLogs(Launched(name, fn, options, fx).0)
         == Setup(options.headless.GetOr(true)) + Body(fn, fx) + Teardown
  {
    var b := BeforeTeardown(name, fn, options, fx);
    var l2 := AfterTeardown(name, fn, options, fx);
    WithoutLogsConcat(b + Teardown, l2);
    WithoutLogsConcat(b, Teardown);
    WithoutLogsOfNoLogs(Teardown);
    LogFreeBefore(name, fn, options, fx);
    WithoutLogsOfLogs(l2);
  }

  /** The events before teardown, without console lines. */
  lemma {:induction false} LogFreeBefore(name: string, fn: TestFn, options: RunOptions, fx: Effects)
    ensures WithoutLogs(BeforeTeardown(name, fn, options, fx)) == Setup(options.headless.GetOr(true)) + Body(fn, fx)
  {
    var a := Setup(options.headless.GetOr(true));
    var l1 := DebugLine(options.debugStdout.GetOr(false), Running(name));
    WithoutLogsConcat(a + l1, Body(fn, fx));
    WithoutLogsConcat(a, l1);
    WithoutLogsOfLogs(l1);
    WithoutLogsOfNoLogs(a);
    WithoutLogsOfNoLogs(Body(fn, fx));
  }

  /** Diagnostics are read only after the body throws, and the
      accessibility tree only after the HTML was read. */
  lemma DiagnosticsOnlyAfterThrow(name: string, fn: TestFn, options: RunOptions, fx: Effects)
    ensures var t := Launched(name, fn, options, fx).0;
      && (ReadDom in t <==> fx.body(fn).Threw?)
      && (ReadA11y in t <==> fx.body(fn).Threw? && fx.html.Got?)
  {
  }

  /** A thrown object leaves with both snapshots attached or with neither
      changed, and keeps its message. */
  lemma BothOrNeither(name: string, fn: TestFn, options: RunOptions, fx: Effects, o: JsObj)
    requires fx.body(fn) == Threw(JsObject(o))
    ensures var r := Launched(name, fn, options, fx).1;
      && r.Threw? && r.value.JsObject? && r.value.obj.text == o.text
      && if fx.html.Got? && fx.a11y.Got?
         then r.value.obj.dom == Some(JsString(fx.html.value)) && r.value.obj.a11y == Some(fx.a11y.value)
         else r.value.obj.dom == o.dom && r.value.obj.a11y == o.a11y
  {
  }

  /** After teardown the caught value is rethrown exactly when it is truthy;
      a falsy thrown value makes `runTest` return normally, while the debug
      summary still says FAIL. */
  lemma {:induction false} RethrowsWhenTruthy(name: string, fn: TestFn, options: RunOptions, fx: Effects)
    ensures var outcome := fx.body(fn);
      var (t, r) := Launched(name, fn, options, fx);
      && (r.Threw? <==> outcome.Threw? && Truthy(outcome.value))
      && (r.Threw? ==> r == Threw(Decorated(outcome.value, fx)))
      && (options.debugStdout == Some(true) ==>
            t[|t| - 1] == Log(Verdict(!outcome.Threw?, name)))
  {
    var outcome := fx.body(fn);
    if outcome.Threw? {
      assert Truthy(Decorated(outcome.value, fx)) == Truthy(outcome.value);
    }
  }

  /** Debug output never changes the outcome: two debug settings give the
      same settlement and the same events apart from console lines. */
  lemma DebugOnlyLogs(name: string, fn: TestFn, headless: Option<bool>,
                      d1: Option<bool>, d2: Option<bool>, fx: Effects)
    ensures var (t1, r1) := Launched(name, fn, RunOptions(headless, d1), fx);
      var (t2, r2) := Launched(name, fn, RunOptions(headless, d2), fx);
      r1 == r2 && WithoutLogs(t1) == WithoutLogs(t2)
  {
    LogFreeAttempt(name, fn, RunOptions(headless, d1), fx);
    LogFreeAttempt(name, fn, RunOptions(headless, d2), fx);
  }

  /** Without debug output there are no console lines at all. */
  lemma SilentWithoutDebug(name: string, fn: TestFn, options: RunOptions, fx: Effects)
    requires options.debugStdout.GetOr(false) == false
    ensures var t := Launched(name, fn, options, fx).0;
      forall i :: 0 <= i < |t| ==> !t[i].Log?
  {
    var t := Launched(name, fn, options, fx).0;
    assert t == Setup(options.headless.GetOr(true)) + Body(fn, fx) + Teardown;
  }

  /** The defaults are a headless browser and no debug output. */
  lemma DefaultOptions(name: string, code: TestCode, fx: Effects)
    ensures Attempt(name, code, NoOptions, fx) == Attempt(name, code, RunOptions(Some(true), Some(false)), fx)
  {
    match Materialise(code, fx.construct)
    case Refused(_) =>
    case Ready(fn) =>
      assert Launched(name, fn, NoOptions, fx) == Launched(name, fn, RunOptions(Some(true), Some(false)), fx);
  }

  /** A failing trace stop changes nothing. */
  lemma TraceStopIgnored(name: string, code: TestCode, options: RunOptions, fx: Effects)
    ensures Attempt(name, code, options, fx.(traceStop := false)) == Attempt(name, code, options, fx.(traceStop := true))
  {
  }
}
