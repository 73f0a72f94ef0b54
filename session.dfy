/** The events a test attempt performs against the browser, shared by the
    TypeScript and the Python harness, and the facts about traces their
    proofs use. */
module Session {

  /** The outcome of one best-effort read from the page. */
  datatype Read<T> = Got(value: T) | Failed

  /** The two console lines a harness prints: `Running test: <name>` before
      the body runs and `[PASS] <name>` or `[FAIL] <name>` after it. */
  datatype Line = Running(name: string) | Verdict(passed: bool, name: string)

  /** The text of a console line. */
  function Text(l: Line): (r: string)
    ensures |r| > |l.name|
    ensures r[|r| - |l.name|..] == l.name
  {
    match l
    case Running(name) => "Running test: " + name
    case Verdict(passed, name) => (if passed then "[PASS] " else "[FAIL] ") + name
  }

  /** The text ends in the name, and its front says which line it is. */
  lemma TextInjective(a: Line, b: Line)
    ensures Text(a) == Text(b) <==> a == b
  {
    if Text(a) == Text(b) {
      var ta, tb := Text(a), Text(b);
      assert ta[0] == tb[0];
      if a.Verdict? && b.Verdict? {
        assert ta[1] == tb[1];
      }
      assert |a.name| == |b.name|;
      assert a.name == ta[|ta| - |a.name|..] == tb[|tb| - |b.name|..] == b.name;
    }
  }

  /** One observable step of a test attempt. `F` is the harness's notion of
      the test function that gets invoked. */
  datatype Event<F> =
    | DriverStart            // entering `async with async_playwright()` (Python only)
    | Launch(headless: bool) // chromium.launch
    | NewContext             // browser.newContext
    | StartTracing           // context.tracing.start
    | NewPage                // context.newPage
    | Log(line: Line)        // a console line
    | Invoke(fn: F)          // awaiting the test function with the context
    | ReadDom                // reading the body's inner HTML
    | ReadA11y               // reading the accessibility snapshot
    | StopTracing            // context.tracing.stop
    | CloseContext           // context.close
    | CloseBrowser           // browser.close
    | DriverStop             // leaving `async with async_playwright()` (Python only)

  /** The trace with its console lines removed. */
  function WithoutLogs<F>(t: seq<Event<F>>): (r: seq<Event<F>>)
    ensures |r| <= |t|
    ensures forall i :: 0 <= i < |r| ==> !r[i].Log?
  {
    if t == [] then []
    else (if t[0].Log? then [] else [t[0]]) + WithoutLogs(t[1..])
  }

  /** Removing console lines distributes over concatenation. */
  lemma {:induction false} WithoutLogsConcat<F>(a: seq<Event<F>>, b: seq<Event<F>>)
    ensures WithoutLogs(a + b) == WithoutLogs(a) + WithoutLogs(b)
  {
    if a == [] {
      assert a + b == b;
    } else {
      assert (a + b)[0] == a[0];
      assert (a + b)[1..] == a[1..] + b;
      WithoutLogsConcat(a[1..], b);
    }
  }

  /** A trace made only of console lines loses them all. */
  lemma {:induction false} WithoutLogsOfLogs<F>(t: seq<Event<F>>)
    requires forall i :: 0 <= i < |t| ==> t[i].Log?
    ensures WithoutLogs(t) == []
  {
    if t != [] {
      WithoutLogsOfLogs(t[1..]);
    }
  }

  /** A trace without console lines is its own log-free form. */
  lemma {:induction false} WithoutLogsOfNoLogs<F>(t: seq<Event<F>>)
    requires forall i :: 0 <= i < |t| ==> !t[i].Log?
    ensures WithoutLogs(t) == t
  {
    if t != [] {
      WithoutLogsOfNoLogs(t[1..]);
      assert t == [t[0]] + t[1..];
    }
  }

  /** An event that occurs once in the middle piece and nowhere else occurs
      once in the whole. */
  lemma OnceIn<F>(front: seq<Event<F>>, mid: seq<Event<F>>, back: seq<Event<F>>, e: Event<F>)
    requires e !in front && e !in back && multiset(mid)[e] == 1
    ensures multiset(front + mid + back)[e] == 1
  {
    assert multiset(front + mid + back) == multiset(front) + multiset(mid) + multiset(back);
  }

  /** The functions a trace invokes, in order. */
  function Invocations<F>(t: seq<Event<F>>): (r: seq<F>)
    ensures |r| <= |t|
  {
    if t == [] then []
    else (if t[0].Invoke? then [t[0].fn] else []) + Invocations(t[1..])
  }

  lemma {:induction false} InvocationsConcat<F>(a: seq<Event<F>>, b: seq<Event<F>>)
    ensures Invocations(a + b) == Invocations(a) + Invocations(b)
  {
    if a == [] {
      assert a + b == b;
    } else {
      assert (a + b)[0] == a[0];
      assert (a + b)[1..] == a[1..] + b;
      InvocationsConcat(a[1..], b);
    }
  }

  lemma {:induction false} NoInvocations<F>(t: seq<Event<F>>)
    requires forall i :: 0 <= i < |t| ==> !t[i].Invoke?
    ensures Invocations(t) == []
  {
    if t != [] {
      NoInvocations(t[1..]);
    }
  }
}
