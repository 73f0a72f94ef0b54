/** One call of the Python harness's `run_test`: turn a code string into a
    coroutine function by executing it and picking the first coroutine
    function it defines, open a traced browser session, run the function,
    collect diagnostics on failure, tear down and re-raise. */
module PyHarness {
  import opened Wrappers
  import opened Session

  /** A value of the namespace `exec` fills, as the selection sees it. */
  datatype PyObject = PyObject(ident: nat, callable: bool, hasCode: bool, coroutineFunction: bool)

  /** A value an exception attribute can hold, with what `str()` gives. */
  datatype PyValue = PyNone | PyStr(s: string) | PyOther(text: string)

  function Str(v: PyValue): string {
    match v
    case PyNone => "None"
    case PyStr(s) => s
    case PyOther(text) => text
  }

  /** A raised exception: `str(e)`, whether it derives from `Exception`
      (rather than only from `BaseException`), and its `dom_snapshot` and
      `accessibility_snapshot` attributes, None while absent. */
  datatype PyExc = PyExc(text: string, isException: bool, dom: Option<PyValue>, a11y: Option<PyValue>)

  /** What `run_test` is given as `test_fn`: a string of code, or anything else. */
  datatype TestArg = Code(source: string) | Fn(id: nat)

  /** The function that gets awaited with the context. */
  datatype TestFn = Selected(obj: PyObject) | Given(id: nat)

  /** How `exec` ends: it raises, or it leaves these entries in the
      namespace, in insertion order. */
  datatype Exec = ExecRaised(error: PyExc) | ExecDone(namespace: seq<(string, PyObject)>)

  /** How awaiting the test function ends. */
  datatype Completion = Completed | Raised(error: PyExc)

  /** The foreign calls the attempt makes whose outcome matters. Launching,
      opening and closing are taken to succeed. */
  datatype Effects = Effects(
    exec: string -> Exec,
    run: TestFn -> Completion,
    html: Read<string>,
    a11y: Read<PyValue>,
    traceStop: bool)

  type Trace = seq<Event<TestFn>>

  /** How `run_test` ends. */
  datatype Outcome = Returned | Raises(error: PyExc)

  const NoCoroutine := PyExc("No async function found in the provided string code", true, None, None)

  /** `callable(obj) and hasattr(obj, "__code__") and asyncio.iscoroutinefunction(obj)`. */
  predicate Qualifies(o: PyObject) {
    o.callable && o.hasCode && o.coroutineFunction
  }

  /** The position of the first qualifying entry. */
  function FirstCoroutine(ns: seq<(string, PyObject)>): (r: Option<nat>)
    ensures r.Some? ==> r.value < |ns| && Qualifies(ns[r.value].1)
    ensures r.Some? ==> forall j :: 0 <= j < r.value ==> !Qualifies(ns[j].1)
    ensures r.None? ==> forall j :: 0 <= j < |ns| ==> !Qualifies(ns[j].1)
  {
    if ns == [] then None
    else if Qualifies(ns[0].1) then Some(0)
    else match FirstCoroutine(ns[1..])
      case None => None
      case Some(i) => Some(i + 1)
  }

  /** The name the loop leaves bound: the loop rebinds `name` to each key it
      visits and stops at the selected one. */
  function ShownName(name: string, ns: seq<(string, PyObject)>): string {
    match FirstCoroutine(ns)
    case Some(i) => ns[i].0
    case None => if ns == [] then name else ns[|ns| - 1].0
  }

  /** The `for ... else` loop over the namespace. */
  method Select(name: string, ns: seq<(string, PyObject)>) returns (found: Option<nat>, boundName: string)
    ensures found == FirstCoroutine(ns)
    ensures boundName == ShownName(name, ns)
  {
    boundName := name;
    var i := 0;
    found := None;
    while i < |ns|
      invariant 0 <= i <= |ns|
      invariant forall j :: 0 <= j < i ==> !Qualifies(ns[j].1)
      invariant boundName == if i == 0 then name else ns[i - 1].0
    {
      boundName := ns[i].0;
      if Qualifies(ns[i].1) {
        found := Some(i);
        SelectedIsFirst(ns, i);
        return;
      }
      i := i + 1;
    }
    NoneQualifies(ns);
  }

  lemma {:induction false} SelectedIsFirst(ns: seq<(string, PyObject)>, i: nat)
    requires i < |ns| && Qualifies(ns[i].1)
    requires forall j :: 0 <= j < i ==> !Qualifies(ns[j].1)
    ensures FirstCoroutine(ns) == Some(i)
  {
    if i > 0 {
      SelectedIsFirst(ns[1..], i - 1);
    }
  }

  lemma {:induction false} NoneQualifies(ns: seq<(string, PyObject)>)
    requires forall j :: 0 <= j < |ns| ==> !Qualifies(ns[j].1)
    ensures FirstCoroutine(ns) == None
  {
    if ns != [] {
      NoneQualifies(ns[1..]);
    }
  }

  /** The function to run and the name the console lines show, or the
      exception raised before any browser exists. */
  datatype Prepared = Ready(fn: TestFn, shown: string) | Refused(error: PyExc)

  function Prepare(name: string, arg: TestArg, exec: string -> Exec): Prepared {
    match arg
    case Fn(id) => Ready(Given(id), name)
    case Code(source) =>
      match exec(source)
      case ExecRaised(e) => Refused(e)
      case ExecDone(ns) =>
        match FirstCoroutine(ns)
        case Some(i) => Ready(Selected(ns[i].1), ShownName(name, ns))
        case None => Refused(NoCoroutine)
  }

  /** Assigning both attributes with `setattr`. */
  function Attach(e: PyExc, html: string, a11y: PyValue): PyExc {
    e.(dom := Some(PyStr(html)), a11y := Some(a11y))
  }

  /** The exception after the diagnostic block: both attributes are set
      only once both reads have succeeded. */
  function Decorated(e: PyExc, fx: Effects): PyExc {
    if fx.html.Got? && fx.a11y.Got? then Attach(e, fx.html.value, fx.a11y.value) else e
  }

  function Probes(fx: Effects): Trace {
    [ReadDom] + (if fx.html.Got? then [ReadA11y] else [])
  }

  /** From entering the driver to invoking the function. */
  function Opening(shown: string, fn: TestFn, headless: bool): Trace {
    [DriverStart, Launch(headless), NewContext, StartTracing, NewPage, Log(Running(shown)), Invoke(fn)]
  }

  /** What follows the invocation, and how the call ends. */
  function Closing(shown: string, outcome: Completion, fx: Effects): (Trace, Outcome) {
    match outcome
    case Completed =>
      ([StopTracing, CloseContext, CloseBrowser, Log(Verdict(true, shown)), DriverStop], Returned)
    case Raised(e) =>
      if e.isException then
        (Probes(fx) + [CloseContext, CloseBrowser, Log(Verdict(false, shown)), DriverStop], Raises(Decorated(e, fx)))
      else
        ([DriverStop], Raises(e))
  }

  /** The events and the ending of one call of `run_test`. */
  function Attempt(name: string, arg: TestArg, fx: Effects, headless: bool): (Trace, Outcome) {
    match Prepare(name, arg, fx.exec)
    case Refused(e) => ([], Raises(e))
    case Ready(fn, shown) =>
      var (rest, ending) := Closing(shown, fx.run(fn), fx);
      (Opening(shown, fn, headless) + rest, ending)
  }

  /** `run_test(name, test_fn, *, headless, debug_stdout)`. `debug_stdout`
      is accepted and never read. */
  method RunTest(name: string, testArg: TestArg, fx: Effects, headless: bool := true, debugStdout: bool := false)
    returns (trace: Trace, outcome: Outcome)
    ensures (trace, outcome) == Attempt(name, testArg, fx, headless)
  {
    var testFn: TestFn;
    var shown := name;
    match testArg {
      case Code(source) =>
        var executed := fx.exec(source);
        if executed.ExecRaised? {
          return [], Raises(executed.error);
        }
        var found;
        found, shown := Select(name, executed.namespace);
        if found.None? {
          return [], Raises(NoCoroutine);
        }
        testFn := Selected(executed.namespace[found.value].1);
      case Fn(id) =>
        testFn := Given(id);
    }
    assert Prepare(name, testArg, fx.exec) == Ready(testFn, shown);
    trace := [DriverStart, Launch(headless), NewContext, StartTracing, NewPage];
    trace := trace + [Log(Running(shown))];
    trace := trace + [Invoke(testFn)];
    assert trace == Opening(shown, testFn, headless);
    var rest;
    rest, outcome := RunBody(shown, testFn, fx);
    trace := trace + rest;
  }

  /** The `try`/`except`/`else` around the body and the exit from the
      driver's `async with`. */
  method RunBody(shown: string, testFn: TestFn, fx: Effects) returns (trace: Trace, outcome: Outcome)
    ensures (trace, outcome) == Closing(shown, fx.run(testFn), fx)
  {
    var completion := fx.run(testFn);
    trace := [];
    if completion.Completed? {
      var status := true;
      trace := trace + [StopTracing];  // a failing stop is swallowed
      trace := trace + [CloseContext, CloseBrowser];
      trace := trace + [Log(Verdict(status, shown))];
      trace := trace + [DriverStop];
      assert trace == [StopTracing, CloseContext, CloseBrowser, Log(Verdict(true, shown)), DriverStop];
      return trace, Returned;
    }
    var e := completion.error;
    if !e.isException {
      // not caught by `except Exception`: it leaves through `async with`
      return [DriverStop], Raises(e);
    }
    var status := false;
    trace := trace + [ReadDom];
    if fx.html.Got? {
      trace := trace + [ReadA11y];
      if fx.a11y.Got? {
        e := Attach(e, fx.html.value, fx.a11y.value);
      }
    }
    assert trace == Probes(fx) && e == Decorated(completion.error, fx);
    trace := trace + [CloseContext, CloseBrowser];
    trace := trace + [Log(Verdict(status, shown))];
    trace := trace + [DriverStop];
    assert trace == Probes(fx) + [CloseContext, CloseBrowser, Log(Verdict(false, shown)), DriverStop];
    outcome := Raises(e);
  }

  /** A string is executed, and the first namespace entry that is a
      coroutine function is run; when there is none, ValueError is raised
      before anything is launched. */
  lemma StringSelectsFirstCoroutine(name: string, source: string, fx: Effects, headless: bool)
    requires fx.exec(source).ExecDone?
    ensures var ns := fx.exec(source).namespace;
      var (t, r) := Attempt(name, Code(source), fx, headless);
      match FirstCoroutine(ns)
      case None => t == [] && r == Raises(NoCoroutine)
      case Some(i) => Invoke(Selected(ns[i].1)) in t
  {
    var ns := fx.exec(source).namespace;
    match FirstCoroutine(ns)
    case None =>
    case Some(i) =>
      assert Opening(ns[i].0, Selected(ns[i].1), headless)[6] == Invoke(Selected(ns[i].1));
  }

  /** An exception from `exec` propagates before anything is launched. */
  lemma ExecErrorPropagates(name: string, source: string, fx: Effects, headless: bool)
    requires fx.exec(source).ExecRaised?
    ensures Attempt(name, Code(source), fx, headless) == ([], Raises(fx.exec(source).error))
  {
  }

  /** The console lines of a string test show the key of the selected
      function, not the name the caller passed; a function argument keeps
      the caller's name and is run unchanged. */
  lemma ShownNames(name: string, arg: TestArg, fx: Effects, headless: bool)
    requires Prepare(name, arg, fx.exec).Ready?
    ensures var p := Prepare(name, arg, fx.exec);
      && (arg.Fn? ==> p == Ready(Given(arg.id), name))
      && (arg.Code? ==> p.shown == fx.exec(arg.source).namespace[FirstCoroutine(fx.exec(arg.source).namespace).value].0)
      && forall ev :: ev in Attempt(name, arg, fx, headless).0 && ev.Log? ==> ev.line.name == p.shown
  {
  }

  /** Pass path: tracing is stopped, then the context and the browser are
      closed, then `[PASS]` is printed, and the call returns. */
  lemma PassPath(shown: string, fn: TestFn, fx: Effects)
    requires fx.run(fn).Completed?
    ensures Closing(shown, fx.run(fn), fx)
         == ([StopTracing, CloseContext, CloseBrowser, Log(Verdict(true, shown)), DriverStop], Returned)
    ensures Closing(shown, fx.run(fn), fx) == Closing(shown, fx.run(fn), fx.(traceStop := !fx.traceStop))
  {
  }

  /** Fail path: tracing is never stopped; the diagnostics are read, the
      context and the browser are closed, `[FAIL]` is printed and the same
      exception is re-raised, carrying both attributes or neither. */
  lemma FailPath(shown: string, fn: TestFn, fx: Effects, e: PyExc)
    requires fx.run(fn) == Raised(e) && e.isException
    ensures var (t, r) := Closing(shown, fx.run(fn), fx);
      && StopTracing !in t
      && t[|t| - 4..] == [CloseContext, CloseBrowser, Log(Verdict(false, shown)), DriverStop]
      && t[0] == ReadDom && (ReadA11y in t <==> fx.html.Got?)
      && r.Raises? && r.error.text == e.text && r.error.isException
      && if fx.html.Got? && fx.a11y.Got?
         then r.error.dom == Some(PyStr(fx.html.value)) && r.error.a11y == Some(fx.a11y.value)
         else r.error == e
  {
  }

  /** An exception outside `Exception` skips every handler: nothing is read,
      stopped or closed, and only the driver is left. */
  lemma BaseExceptionEscapes(shown: string, fn: TestFn, fx: Effects, e: PyExc)
    requires fx.run(fn) == Raised(e) && !e.isException
    ensures Closing(shown, fx.run(fn), fx) == ([DriverStop], Raises(e))
  {
  }

  /** Once launched, the driver is entered first and left last on every
      path. */
  lemma DriverLeftLast(shown: string, fn: TestFn, fx: Effects, headless: bool)
    ensures var t := Opening(shown, fn, headless) + Closing(shown, fx.run(fn), fx).0;
      t[0] == DriverStart && t[|t| - 1] == DriverStop
  {
    var c := Closing(shown, fx.run(fn), fx).0;
    assert c[|c| - 1] == DriverStop;
  }

  /** The context and the browser are each closed exactly once, unless an
      exception outside `Exception` escapes. */
  lemma ClosedOnce(shown: string, fn: TestFn, fx: Effects, headless: bool)
    requires !(fx.run(fn).Raised? && !fx.run(fn).error.isException)
    ensures var t := Opening(shown, fn, headless) + Closing(shown, fx.run(fn), fx).0;
      multiset(t)[CloseContext] == 1 && multiset(t)[CloseBrowser] == 1
  {
    var o := Opening(shown, fn, headless);
    var mid := [CloseContext, CloseBrowser];
    var back := [Log(Verdict(fx.run(fn).Completed?, shown)), DriverStop];
    var front := BeforeClosing(shown, fn, fx, headless);
    ClosingSplits(shown, fn, fx, headless);
    assert multiset(mid) == multiset{CloseContext, CloseBrowser};
    assert CloseContext !in back && CloseBrowser !in back;
    OnceIn(front, mid, back, CloseContext);
    OnceIn(front, mid, back, CloseBrowser);
  }

  lemma ClosingSplits(shown: string, fn: TestFn, fx: Effects, headless: bool)
    requires !(fx.run(fn).Raised? && !fx.run(fn).error.isException)
    ensures Opening(shown, fn, headless) + Closing(shown, fx.run(fn), fx).0
         == BeforeClosing(shown, fn, fx, headless) + [CloseContext, CloseBrowser]
            + [Log(Verdict(fx.run(fn).Completed?, shown)), DriverStop]
  {
  }

  /** The events before the closes on a path that reaches them. */
  function BeforeClosing(shown: string, fn: TestFn, fx: Effects, headless: bool): (r: Trace)
    ensures CloseContext !in r && CloseBrowser !in r
  {
    Opening(shown, fn, headless) + if fx.run(fn).Completed? then [StopTracing] else Probes(fx)
  }
}
