# tempest core, modelled in Dafny

tempest writes end-to-end browser tests with an LLM agent. It has two parts.

- A test harness runs one test in a fresh Playwright session:
  - it launches a browser, opens a context with tracing and opens a page;
  - it runs the test function;
  - when the test fails, it reads the page's HTML and accessibility tree;
  - it tears the session down and re-raises the failure.
- Agent glue does three things:
  - it turns a harness run into the `run_test_tool` result;
  - it validates the agent's final output against the `E2ETestSpec` schema;
  - when asked, it saves the generated test under a sanitised file name.

Both parts exist twice: in TypeScript (`src/lib/harness.ts`, `src/lib/agent.ts`) and in an earlier Python version (`tempest/harness.py`, `old/tempest/agent.py`).

The model works this way:

- Each harness is an imperative `RunTest` method.
- The events the method performs form a trace (`Session.Event`). The trace and the way the call settles are proved equal to a specification function (`Attempt`).
- The guarantees are lemmas about that function:
  - teardown happens exactly once;
  - the only function invoked is the test;
  - diagnostics are read only after a failure;
  - both snapshots are attached, or neither;
  - the falsy-throw rule;
  - console output changes nothing else.
- Calls into Playwright, `exec`, the `AsyncFunction` constructor and the agent SDK are fields of an `Effects` (or `AgentRun`) value passed in. They are modelled by their possible outcomes.

Modules:

- `Wrappers`: `Option`.
- `Session`:
  - the trace events shared by both harnesses;
  - the console lines;
  - the filters `WithoutLogs` and `Invocations`, with their lemmas.
- `JsValues`: JavaScript values as the TypeScript glue sees them. This covers truthiness, `String(v)`, and property reads of the two snapshot attributes.
- `JsMaterialise`: the two regular-expression replacements that turn test text into a function body. They are written as hand-made matchers, with a round trip for every header the pattern can match.
- `TsHarness`: `runTest`. It is split into `RunTest` (materialise), `RunSession` (set-up, teardown, settle) and `RunBody` (the `try`/`catch`).
- `Json`, `TsSchema`: JSON values and the zod schemas `TestStepSchema` and `E2ETestSpecSchema`.
- `Slug`: the file-name sanitiser.
- `TsAgent`: `run_test_tool`, `emit_steps` and `testWriterAgent`.
- `PyHarness`: the Python `run_test`, including the `for ... else` selection loop.
- `PyAgent`: the Python `run_test_tool` and the pydantic `TestStep`.

Where the specification and the code differ, the model follows the code:

- When the TypeScript test body throws a falsy value (`throw 0`, `throw null`), `runTest` returns normally. `run_test_tool` then reports success (`TsHarness.RethrowsWhenTruthy`).
- `dom_snapshot` is attached only when both reads succeed. The HTML may be empty, and an empty snapshot adds no section to the TypeScript tool output (`TsAgent.EmptySnapshotSilent`).
- An error thrown by the agent run is logged and rethrown. Running out of turns is not turned into a null result (`TsAgent.RunErrorRethrown`). Only an output that fails the schema yields null.
- The Python tool lets an exception outside `Exception` escape (`PyHarness.BaseExceptionEscapes`). The Python failure path never stops tracing (`PyHarness.FailPath`).
- The Python harness's loop rebinds `name`. Its console lines therefore show the key of the selected function, not the name the caller passed (`PyHarness.ShownNames`).

## Model

| member | source | states |
|---|---|---|
| Session.Text | src/lib/harness.ts:77-79 | a console line ends with the test's name and is longer than it |
| Session.TextInjective | src/lib/harness.ts:48-79 | two console lines have the same text exactly when they are the same line (same kind, verdict and name) |
| JsMaterialise.SpanSplit | src/lib/harness.ts:27 | a greedy `\s*`, `\w*` or `[^)]*` splits a text into a prefix inside the class and a rest that does not start with a character of the class |
| JsMaterialise.SpanStops | src/lib/harness.ts:27 | the greedy span of `x + y` is exactly `x` when `x` lies in the class and `y` starts outside it |
| JsMaterialise.After | src/lib/harness.ts:27 | a literal is stepped over exactly when it is a prefix, leaving the rest |
| JsMaterialise.ParseHead | src/lib/harness.ts:27 | a match of `async\s+function\s+\w+` gives non-empty space gaps and a non-empty word name that rebuild the matched front |
| JsMaterialise.ParseTail | src/lib/harness.ts:27 | a match of `\s*\([^)]*\)\s*{` gives pieces in their classes that rebuild the matched front |
| JsMaterialise.ParseHeader | src/lib/harness.ts:27 | a match is a well-formed header whose text followed by the rest is the input |
| JsMaterialise.ParseHeadRender | src/lib/harness.ts:27 | the head matcher takes apart the text of every well-formed head exactly |
| JsMaterialise.ParseTailRender | src/lib/harness.ts:27 | the tail matcher takes apart the text of every well-formed tail exactly |
| JsMaterialise.ParseRender | src/lib/harness.ts:27 | every well-formed header followed by any text is matched, giving back that header and that text |
| JsMaterialise.StripHeader | src/lib/harness.ts:27 | the first replacement leaves a suffix of its input |
| JsMaterialise.StripBrace | src/lib/harness.ts:28 | the second replacement leaves its input, or its input minus one final `}` |
| JsMaterialise.ExtractBody | src/lib/harness.ts:27-28 | the body is no longer than the text and is a contiguous piece of it |
| JsMaterialise.StripsWrappedHeader | src/lib/harness.ts:27 | a text starting with a full header loses exactly that header |
| JsMaterialise.KeepsUnwrappedFront | src/lib/harness.ts:27 | a text that starts with no well-formed header keeps its front |
| JsMaterialise.StripBraceLast | src/lib/harness.ts:28 | a trailing `}` is removed, and a text ending in anything else is unchanged |
| JsMaterialise.ExtractWrapped | src/lib/harness.ts:27-28 | a wrapped function `header + body + "}"` gives back exactly its body |
| JsMaterialise.ExtractBare | src/lib/harness.ts:27-28 | a bare statement text that ends in `}` still loses that brace |
| TsHarness.RunTest | src/lib/harness.ts:13-84 | the events and the settlement of `runTest` are those of `Attempt`, and only truthy values are thrown |
| TsHarness.RunSession | src/lib/harness.ts:34-83 | set-up, the optional start line, the body, teardown, the optional verdict line and the rethrow of a truthy caught value, as `Launched` |
| TsHarness.RunBody | src/lib/harness.ts:55-67 | the body is invoked, the probes follow only a throw, the status is PASS exactly when nothing was thrown, and the caught value is decorated |
| TsHarness.OptionsResolved | src/lib/harness.ts:21 | a missing option behaves as its default (`headless` true, `debugStdout` false) |
| TsHarness.ConstructionFailureLaunchesNothing | src/lib/harness.ts:25-34 | a body the `AsyncFunction` constructor refuses throws its error before any launch |
| TsHarness.MaterialisedFunction | src/lib/harness.ts:25-32 | a function argument is used unchanged, a text is compiled from its extracted body, and the attempt goes on with it |
| TsHarness.InvokesOnlyIt | src/lib/harness.ts:55-56 | the session invokes the test function exactly once and no other function |
| TsHarness.InvokedBeforeTeardown | src/lib/harness.ts:34-67 | everything before teardown invokes only the test function, once |
| TsHarness.InvokedByBody | src/lib/harness.ts:55-67 | the `try`/`catch` invokes only the test function, once |
| TsHarness.TeardownExactlyOnce | src/lib/harness.ts:34-75 | the browser is launched first, and stop-tracing, context close and browser close each happen exactly once on every path |
| TsHarness.NoTeardownOutside | src/lib/harness.ts:68-75 | no teardown event happens outside the `finally` block |
| TsHarness.LogFreeAttempt | src/lib/harness.ts:34-79 | without its console lines, an attempt is set-up, then the body and its probes, then teardown |
| TsHarness.LogFreeBefore | src/lib/harness.ts:34-67 | without its console lines, the part before teardown is set-up, then the body and its probes |
| TsHarness.DiagnosticsOnlyAfterThrow | src/lib/harness.ts:57-67 | the HTML is read exactly when the body threw, and the accessibility tree exactly when it threw and the HTML read succeeded |
| TsHarness.BothOrNeither | src/lib/harness.ts:61-67 | a thrown object is rethrown with its text, carrying both snapshots when both reads succeed and otherwise neither changed |
| TsHarness.RethrowsWhenTruthy | src/lib/harness.ts:77-83 | the caught value is rethrown exactly when it is truthy; a falsy throw returns normally while the debug line still says FAIL |
| TsHarness.DebugOnlyLogs | src/lib/harness.ts:48-79 | `debugStdout` changes only console lines: the settlement and every other event are the same |
| TsHarness.SilentWithoutDebug | src/lib/harness.ts:48-79 | without debug output no console line is written |
| TsHarness.DefaultOptions | src/lib/harness.ts:21 | no options behaves as `headless: true, debugStdout: false` |
| TsHarness.TraceStopIgnored | src/lib/harness.ts:69-72 | a failing trace stop changes neither the events nor the settlement |
| TsSchema.ParseSteps | src/lib/agent.ts:25 | an array is accepted exactly when every item is a step, and the steps keep the items' order and number |
| TsSchema.StepsJson | src/types/index.ts:50 | the encoded array has one item per step |
| TsSchema.StepKeysOnly | src/lib/agent.ts:11-18 | two objects that agree on the step keys parse alike, whatever other keys they carry |
| TsSchema.StepRoundTrip | src/lib/agent.ts:11-18 | a step survives its JSON form |
| TsSchema.StepAccepted | src/lib/agent.ts:11-18 | a value parses to a given step exactly when it is an object agreeing with that step's JSON form on the step keys |
| TsSchema.StepAgrees | src/lib/agent.ts:11-18 | a parsed object agrees with its step's JSON form on every step key |
| TsSchema.StepFields | src/lib/agent.ts:11-18 | a parsed step holds, at each key, what the object holds there |
| TsSchema.StepsRoundTrip | src/lib/agent.ts:25 | a list of steps survives its JSON form |
| TsSchema.SpecJsonFields | src/types/index.ts:46-52 | the JSON form of a specification holds each field at its key |
| TsSchema.SpecRoundTrip | src/lib/agent.ts:21-27 | a specification survives its JSON form |
| TsSchema.SpecAccepted | src/lib/agent.ts:21-27 | a value parses to a given specification exactly when it is an object agreeing on the text keys and holding an array whose items parse to its steps |
| TsSchema.SpecAgrees | src/lib/agent.ts:21-27 | a parsed object agrees with its specification on the text keys and the steps |
| TsSchema.SpecFromAgreement | src/lib/agent.ts:21-27 | an object agreeing with a specification parses to it |
| TsSchema.SpecKeysOnly | src/lib/agent.ts:21-27 | keys the specification schema does not name do not change the parse |
| Slug.Lower | src/lib/agent.ts:211 | lowercasing keeps the length and maps each character on its own |
| Slug.SkipRun | src/lib/agent.ts:212 | a greedy `[^a-z0-9]+` leaves a suffix that starts at a slug character, consuming at least one character when the text starts outside the class |
| Slug.Collapse | src/lib/agent.ts:212 | after the run replacement only `[a-z0-9-]` remain with no `--`, the result is empty exactly when the input is, and it starts with a dash exactly when the input starts outside the class |
| Slug.SpecFileNameShape | src/lib/agent.ts:210-214 | the file name is a well-formed slug keeping every letter and digit of the lowercased name, followed by `.spec.ts` |
| Slug.SlugWellFormed | src/lib/agent.ts:210-213 | the sanitised name has only `[a-z0-9-]`, no `--`, and no dash at either end |
| Slug.SlugOfWellFormed | src/lib/agent.ts:210-213 | a well-formed slug is its own sanitised form |
| Slug.SlugIdempotent | src/lib/agent.ts:210-213 | sanitising twice is sanitising once |
| Slug.LowerOfSlugChars | src/lib/agent.ts:211 | lowercasing leaves `[a-z0-9-]` text unchanged |
| Slug.CollapseOfSlugChars | src/lib/agent.ts:212 | the run replacement leaves `[a-z0-9-]` text without `--` unchanged |
| Slug.KeptSkipRun | src/lib/agent.ts:212 | skipping a run drops no letter or digit |
| Slug.KeptCollapse | src/lib/agent.ts:212 | the run replacement keeps every letter and digit, in order |
| Slug.KeptTrim | src/lib/agent.ts:213 | the dash trim keeps every letter and digit, in order |
| Slug.SlugKeepsAlphanumerics | src/lib/agent.ts:210-213 | the sanitised name keeps the lowercased name's letters and digits, in order |
| TsAgent.RunTestTool | src/lib/agent.ts:36-54 | the tool runs the code as an anonymous, headed, verbose test and resolves to the result for that run's settlement; it never throws |
| TsAgent.ToolSuccess | src/lib/agent.ts:36-54 | the tool succeeds exactly when the test returned, and it carries an output exactly when it failed |
| TsAgent.FailureOutputShape | src/lib/agent.ts:45-51 | the output starts with `String(error)`, is exactly that when neither snapshot is truthy, and the DOM section comes first when present |
| TsAgent.EmptySnapshotSilent | src/lib/agent.ts:46-51 | empty snapshots add no section |
| TsAgent.ToolReportsPage | src/lib/agent.ts:36-54 | when the body throws and both reads succeed on a non-empty page, the output is the error's text, then the DOM section with the page HTML, then the accessibility section |
| TsAgent.ReportsSnapshots | src/lib/agent.ts:45-51 | an object carrying a non-empty DOM snapshot reports its text, the DOM section and the accessibility section, in that order |
| TsAgent.EmitSteps | src/lib/agent.ts:63-66 | `emit_steps` reports success whatever the steps |
| TsAgent.TestWriterAgent | src/lib/agent.ts:69-229 | the events and the settlement of `testWriterAgent` are those of `Agent` |
| TsAgent.NoKeyNoAgent | src/lib/agent.ts:74-76 | without an API key, the error is thrown and nothing is created or run |
| TsAgent.RunErrorRethrown | src/lib/agent.ts:156-163 | an error from the run is logged, then rethrown unchanged |
| TsAgent.RunStarted | src/lib/agent.ts:148-159 | with a key, the agent is created and the run starts with the URL and 20 turns |
| TsAgent.FinalOutputAccepted | src/lib/agent.ts:165-185 | the result is a given specification exactly when the candidate passes the schema for it |
| TsAgent.UnparsableStringRefused | src/lib/agent.ts:172-185 | a string candidate that is not JSON is refused, and the result is null |
| TsAgent.SavedUnderSlug | src/lib/agent.ts:206-219 | an accepted specification is reported and then saved, when asked, under its sanitised name plus `.spec.ts`, holding the generated code |
| TsAgent.SavedOnlyWhenAsked | src/lib/agent.ts:206 | nothing is saved unless `save` is set |
| PyHarness.FirstCoroutine | tempest/harness.py:38-41 | the selected entry qualifies and none before it does, or no entry qualifies |
| PyHarness.Select | tempest/harness.py:38-43 | the loop finds the first coroutine function and leaves `name` bound as the loop left it |
| PyHarness.SelectedIsFirst | tempest/harness.py:38-41 | a qualifying entry with none qualifying before it is the one selected |
| PyHarness.NoneQualifies | tempest/harness.py:42-43 | with no qualifying entry, nothing is selected |
| PyHarness.RunTest | tempest/harness.py:23-82 | the events and the ending of `run_test` are those of `Attempt` |
| PyHarness.RunBody | tempest/harness.py:54-82 | the `try`/`except`/`else` and the driver exit, as `Closing` |
| PyHarness.StringSelectsFirstCoroutine | tempest/harness.py:33-43 | a code string runs its first coroutine function, or raises ValueError before anything is launched |
| PyHarness.ExecErrorPropagates | tempest/harness.py:36 | an exception from `exec` propagates before anything is launched |
| PyHarness.ShownNames | tempest/harness.py:33-53 | console lines show the selected function's key for a code string, and the caller's name for a function, which is run unchanged |
| PyHarness.PassPath | tempest/harness.py:74-82 | on success: stop tracing, close the context, close the browser, print PASS, return; a failing trace stop changes nothing |
| PyHarness.FailPath | tempest/harness.py:57-73 | on an `Exception`: no trace stop; probes, closes, FAIL, and the same exception is re-raised with both attributes or neither |
| PyHarness.BaseExceptionEscapes | tempest/harness.py:54-57 | an exception outside `Exception` skips every handler and only the driver is left |
| PyHarness.DriverLeftLast | tempest/harness.py:45-82 | a launched attempt enters the driver first and leaves it last |
| PyHarness.ClosedOnce | tempest/harness.py:45-82 | the context and the browser are each closed exactly once, unless an exception outside `Exception` escapes |
| PyAgent.RunTestTool | old/tempest/agent.py:114-138 | the tool runs the code as an anonymous, headed test and returns the result for that run's ending, or lets an exception outside `Exception` through |
| PyAgent.ToolResultCases | old/tempest/agent.py:114-138 | success without output exactly when the test returned; a failure result exactly for an `Exception`; output present exactly on failure |
| PyAgent.FailureOutputShape | old/tempest/agent.py:123-128 | the output starts with `str(e)`, is exactly that when neither attribute exists, and the DOM section comes first when present |
| PyAgent.EmptySnapshotKeepsHeader | old/tempest/agent.py:124-125 | an existing but empty DOM snapshot still adds its header |
| PyAgent.ToolReportsPage | old/tempest/agent.py:114-138 | when the test raises an `Exception` and both reads succeed, the output is the message, then the DOM section, then the accessibility section |
| PyAgent.StepRoundTrip | old/tempest/agent.py:45-51 | a step survives its dumped form |
| PyAgent.AbsentIsNull | old/tempest/agent.py:45-51 | leaving an optional field out is the same as sending null |
| PyAgent.RequiredFields | old/tempest/agent.py:45-51 | a step is accepted only with `step_number`, `action` and `expected_result` present |

## Left out

- Playwright itself is left out: launching, contexts, pages, locators, the `TestContext` fields and the 5000 ms default action timeout. Each call is an event in the trace, and the calls whose outcome matters (the two reads, the trace stop, the test body) are parameters.
- Failures of launching, opening or closing are not modelled, because the code does not handle them.
- The artifacts directory creation at module load, `fs.mkdir` and `fs.writeFile` are left out, because they are I/O. Saving is the `SaveTest` event.
- Console output is modelled only as the harness's own lines. The specification banner printed by `testWriterAgent` (agent.ts:187-204, 220-222) is one `PrintSpec` event.
- The agent SDK, the model and the repair loop are an outside collaborator. `AgentRun` gives the run's settlement.
- The probing of the SDK result object for its output (agent.ts:168-170) is left out. `RunDone` gives the candidate directly.
- `JSON.parse` and Python `exec` are outside functions passed as parameters.
- The prompt text built from `instructions` and the allowed-tool constants are left out. They are data for the model, not behaviour.
- The Python `test_writer_agent` and `emit_steps` in old/tempest/agent.py are not part of this model. Only its `run_test_tool` and models are.
- The specification's turn budget is only the constant 20 passed to the run. Counting turns happens inside the SDK.
- Slug.LowerChar: lowercases ASCII only, because full Unicode case mapping is not available.
- JsMaterialise.IsWord: covers `\w` without the `u` flag, as in the source.
- Json: numbers are integers. Floating point and `z.number()` accepting non-integers are not modelled.
- JsValues.ToString: an object's string form is an opaque text field rather than its `toString` method.
- Object identity is modelled by value. The rethrown error is the decorated copy of the caught one, which is what one object mutated in place would show.
- Concurrency and cancellation are left out. Every call is sequential, and the timeout on each action only shows up as the body's outcome.
- PyAgent.ParseStep: does not model pydantic's lax coercions (numeric strings for `step_number`, floats with integral values), so it accepts fewer inputs than pydantic.
- PyHarness.RunTest: `debug_stdout` is accepted and never read, as in the source. Console lines are always written.
- TsHarness.RunTest: `runTest` is split into `RunTest`, `RunSession` and `RunBody`. This is only to keep each proof small; together they do what the one function does.
