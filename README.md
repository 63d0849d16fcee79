# plate: a model of the recording template decorator

`plate` is a Go test helper. Its `Recorder` wraps a template `Executor`,
which is anything with `Execute(wr, data)` and `ExecuteTemplate(wr, name, data)`,
such as Go's `text/template` and `html/template`. The Recorder satisfies the
same interface. Each call goes to the wrapped template, with the caller's
writer teed into a private buffer. The call then saves one `Execution`
(the captured bytes, the context `data`, the returned error) in an
append-only history and returns the wrapped error unchanged. Tests query the
history with `Executions`, `LastExecution`, `TimesExecuted`,
`FailedExecutions` and `Reset`.

The model has four modules:

- `Template` (template.dfy) is the wrapped capability. `Executor` is a
  datatype of two total functions: the context to a `Rendering`, and a name
  plus the context to a `Rendering`. A `Rendering` holds the bytes written
  and an optional error. `Direct` is what a caller sees when it calls the
  template without the decorator.
- `History` (history.dfy) has the `Execution` record and `Failed`, the
  order-preserving filter that specifies `FailedExecutions`. It also has
  `HistoryOf`, the history that a sequence of calls builds, and the lemmas
  about both.
- `Plate` (recorder.dfy) is the `Recorder` class. Its fields are `template`
  and `execs: seq<Execution>`. Its methods change `execs` in place, like the
  Go slice. `Executions` and `FailedExecutions` return newly allocated arrays,
  like the fresh Go slices.
- `Scenarios` (scenarios.dfy) has clients that replay several of the
  repository's tests against the contracts alone.

The caller's writer is a `seq<byte>` that goes in and comes out with the
rendered bytes appended. Contexts and errors are type parameters, `C` and
`E`. Go's nil error is `None`.

## Model

| member | source | states |
|---|---|---|
| `Template.Direct` | recorder_test.go:30 | what the undecorated call `tpl.Execute(buf, ctx)` leaves: the sink keeps its earlier bytes, gains exactly the template's output after them, and the call returns the template's error |
| `History.Execution.Failed` | recorder.go:118 | an execution is failed exactly when its Error is not nil |
| `History.Record` | recorder.go:50-59 | the record of one call: whatever the sink held before, a direct call appends exactly the recorded Output and returns exactly the recorded Error, and the recorded Context is the call's `data` |
| `History.Failed` | recorder.go:112-124 | every entry of the filtered history has an error present, and the result is never longer than the history |
| `History.FailedSelects` | recorder.go:112-124 | the failed executions are exactly the subsequence of the history whose Error is present. The lemma gives strictly increasing positions, one per result element, where that element stands in the history, and every failed entry is at one of them, so nothing is dropped, duplicated or reordered |
| `History.ExtendPositions` | recorder.go:117-121 | one more loop step: the positions of the failed entries among all but the last entry extend to the positions for the whole history |
| `History.AppendLaw` | recorder.go:41-80 | after n calls made one after another, the history has n entries, and entry i holds call i's output, context and error |
| `History.HistoryOfSnoc` | recorder.go:41-45 | one more call extends the history by exactly that call's record and leaves the earlier entries unchanged |
| `Plate.Recorder.constructor` | recorder.go:34-39 | `New(tmpl)` wraps `tmpl` and starts with an empty history |
| `Plate.Recorder.Save` | recorder.go:41-45 | appends the execution at the end of the history and changes nothing else |
| `Plate.Recorder.Execute` | recorder.go:47-63 | the caller's sink and the returned error equal those of a direct call of the wrapped template. Exactly one record (output, `data`, error) is appended after the unchanged old entries, the count rises by one, the last execution's output is exactly the bytes the sink received, and the record joins the failed list iff the error is present. The template is unchanged |
| `Plate.Recorder.ExecuteTemplate` | recorder.go:65-80 | the same as `Execute` for the named sub-template: the name is forwarded to the wrapped `ExecuteTemplate`, and the record goes into the same history |
| `Plate.Recorder.Executions` | recorder.go:82-92 | returns a newly allocated array that is element-wise equal to the history |
| `Plate.Recorder.LastExecution` | recorder.go:94-103 | needs a non-empty history and returns its last entry |
| `Plate.Recorder.TimesExecuted` | recorder.go:105-110 | the number of executions recorded since construction or the last Reset |
| `Plate.Recorder.FailedExecutions` | recorder.go:112-124 | returns a newly allocated array holding exactly `Failed` of the history. The loop keeps the failed entries of the prefix already scanned |
| `Plate.Recorder.Reset` | recorder.go:126-131 | empties the history and keeps the template, which is the state `New` produces |
| `Scenarios.GreetsJohn` | recorder_test.go:22-37 | rendering `Hi, {{.}}` with "John" through a Recorder gives the same sink and error as a direct call ("Hi, John", no error). It records one successful execution with that output and context |
| `Scenarios.GreetsJohnByName` | recorder_test.go:39-54 | the named sub-template "t2" renders through the Recorder as it does directly, and its record is the call's record |
| `Scenarios.RelaysErrors` | recorder_test.go:58-72 | a failing template's error reaches the caller unchanged and is the recorded error |
| `Scenarios.RecordsInCallOrder` | recorder_test.go:74-134 | any sequence of plain and named calls on a new Recorder leaves a history whose entry i is call i's record |
| `Scenarios.RecordsFailure` | recorder_test.go:149-156 | for any template that accepts one context and rejects another, rendering both gives two executions, and `FailedExecutions` returns exactly one execution, the failing call's whole record (output, context and error) |
| `Scenarios.CopyIsolation` | recorder_test.go:136-147 | after a write into the array returned by `Executions`, the array holds the written value and the rest of the history. The history is unchanged, and a second `Executions` returns the original history |
| `Scenarios.ResetTwice` | recorder_test.go:174-182 | two Resets in a row leave the count at zero and the template in place, which is the same state one Reset leaves |

## Left out

- Locking: the `sync.RWMutex` of recorder.go:29 is not modelled. Each method is atomic. The source reads `len(r.execs)` outside the lock in `Executions`, `LastExecution` and `TimesExecuted` (recorder.go:85, 97, 109). That is a data race under concurrent use, not a behaviour the model can state.
- Template rendering: Go's `text/template` and `html/template` are not part of this model. The wrapped template is a deterministic function of (name, context). A template whose output depends on anything else is not captured.
- Writer failures: `io.MultiWriter` and `bytes.Buffer` behaviour when the caller's writer fails or writes short (recorder.go:53-54, 70-71) is left out. The sink always accepts every byte. The template's writes arrive as one block of bytes, not as a series of `Write` calls.
- Interface compliance: the Recorder being an `Executor` itself (recorder.go:134) is not expressible, because the wrapped capability is a datatype of functions and the Recorder has state. Transparency is stated instead. `Execute` and `ExecuteTemplate` give the caller exactly `Template.Direct` of the wrapped template.
- Nil template: the constructor always takes a template. The zero-value `&Recorder{}` with a nil `Template`, where `Execute` would panic, is not modelled. The queries do not depend on the template.
- Plate.Recorder.LastExecution: the panic on an empty history (recorder.go:97-99) is modelled as the precondition `|execs| > 0`. It is a usage error of the caller, not a handled error path.
- Aliasing of recorded values: `buf.Bytes()` and the context are kept by reference, and `Executions` uses Go's `copy`, which is shallow. So the source's copy shares each `Output` byte slice with the history, and writing into those bytes through the copy would reach the history. Here `Output` and `Context` are values, so the model's copy is independent at every level. The source's copy is independent only at the top level, which is all that the source's test checks.
- Integer width: `TimesExecuted` is Go's `int`. Here it is a `nat`, because a history longer than the int range cannot exist in memory.
- executable.go declares the same two-method interface under the name `Executable`. It has no logic, and `Template.Executor` stands for both names. templateMock.go is a declaration-only stub with nothing to model. examples/webapp is HTTP demonstration code and is not part of this model.
