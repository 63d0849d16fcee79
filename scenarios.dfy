/**
 Clients of the Recorder that replay the repository's own test scenarios
 against the contracts alone.
 */
module Scenarios {
  import opened Template
  import opened History
  import opened Plate

  /** ASCII text as the bytes a template writes. */
  function Ascii(s: string): (b: seq<byte>)
    ensures |b| == |s|
  {
    seq(|s|, i requires 0 <= i < |s| => (s[i] as int % 256) as byte)
  }

  /** A template `Hi, {{.}}` whose sub-template "t2" is the same text. */
  function Greeting(): Executor<string, string>
  {
    Executor(
      (d: string) => Rendering(Ascii("Hi, " + d), None),
      (n: string, d: string) => if n == "t2" then Rendering(Ascii("Hi, " + d), None)
                                else Rendering([], Some("no such template")))
  }

  /** A context record with a Name field and, possibly, an Email field. */
  datatype Ctx = Ctx(Name: string, Email: Option<string>)

  /** A template `{{ .Email }}`: it fails on a context without an Email field. */
  function EmailOnly(): Executor<Ctx, string>
  {
    Executor(
      (d: Ctx) => if d.Email.Some? then Rendering(Ascii(d.Email.value), None)
                  else Rendering([], Some("can't evaluate field Email")),
      (n: string, d: Ctx) => Rendering([], Some("no such template")))
  }

  /** Rendering "Hi, John" through a Recorder gives the caller the bytes and
      the error a direct call gives, and records one successful execution
      holding that output and the context. */
  method GreetsJohn() returns (sink: seq<byte>, err: Option<string>, count: nat, last: Execution<string, string>)
    ensures (sink, err) == Direct(Greeting(), [], Plain("John"))
    ensures sink == Ascii("Hi, John") && err == None
    ensures count == 1
    ensures last.Output == Ascii("Hi, John") && last.Context == "John" && last.Error == None
  {
    var r := new Recorder(Greeting());
    sink, err := r.Execute([], "John");
    count := r.TimesExecuted();
    last := r.LastExecution();
  }

  /** The named sub-template "t2" renders through the Recorder as it does directly. */
  method GreetsJohnByName() returns (sink: seq<byte>, err: Option<string>, last: Execution<string, string>)
    ensures (sink, err) == Direct(Greeting(), [], Named("t2", "John"))
    ensures sink == Ascii("Hi, John") && err == None
    ensures last == Record(Greeting(), Named("t2", "John"))
  {
    var r := new Recorder(Greeting());
    sink, err := r.ExecuteTemplate([], "t2", "John");
    last := r.LastExecution();
  }

  /** The error of the wrapped template reaches the caller unchanged and is
      recorded. */
  method RelaysErrors() returns (err: Option<string>, recorded: Option<string>)
    ensures err == Render(EmailOnly(), Plain(Ctx("John", None))).error
    ensures err.Some? && recorded == err
  {
    var r := new Recorder(EmailOnly());
    var ctx: Ctx := Ctx("John", None);
    var sink;
    sink, err := r.Execute([], ctx);
    recorded := r.LastExecution().Error;
  }

  /** One good and one failing render, for any template that accepts `good`
      and rejects `bad` (as EmailOnly does a context with and without an
      Email): two executions, of which exactly the failing one is reported by
      FailedExecutions, and it is the failing call's whole record. */
  method RecordsFailure<C, E>(t: Executor<C, E>, good: C, bad: C) returns (count: nat, failed: seq<Execution<C, E>>)
    requires t.execute(good).error == None && t.execute(bad).error.Some?
    ensures count == 2 && failed == [Record(t, Plain(bad))]
  {
    var r := new Recorder(t);
    var _, err1 := r.Execute([], good);
    assert Failed(r.execs) == [];
    var _, err2 := r.Execute([], bad);
    assert Failed(r.execs) == [r.LastExecution()];
    count := r.TimesExecuted();
    var a := r.FailedExecutions();
    failed := a[..];
  }

  /** Any sequence of calls, plain or named, made one after another on a new
      Recorder leaves a history whose i-th entry is the i-th call's record. */
  method RecordsInCallOrder<C, E>(t: Executor<C, E>, calls: seq<Call<C>>) returns (h: seq<Execution<C, E>>)
    ensures |h| == |calls|
    ensures forall i :: 0 <= i < |calls| ==> h[i] == Record(t, calls[i])
  {
    var r := new Recorder(t);
    for i := 0 to |calls|
      invariant r.template == t && r.execs == HistoryOf(t, calls[..i])
    {
      HistoryOfSnoc(t, calls[..i], calls[i]);
      assert calls[..i + 1] == calls[..i] + [calls[i]];
      match calls[i]
      case Plain(d) =>
        var _, _ := r.Execute([], d);
      case Named(n, d) =>
        var _, _ := r.ExecuteTemplate([], n, d);
    }
    assert calls[..|calls|] == calls;
    AppendLaw(t, calls);
    var copy := r.Executions();
    h := copy[..];
  }

  /** Writes to the copy Executions returns leave the Recorder's history as
      it was: the write lands in the copy, and a second Executions still
      returns the original history. */
  method CopyIsolation<C, E>(r: Recorder<C, E>, other: Execution<C, E>)
    returns (copy: array<Execution<C, E>>, again: array<Execution<C, E>>)
    requires |r.execs| > 0
    ensures copy.Length == |r.execs| && copy[0] == other && copy[1..] == r.execs[1..]
    ensures again[..] == old(r.execs)
    ensures r.execs == old(r.execs)
  {
    copy := r.Executions();
    copy[0] := other;
    again := r.Executions();
  }

  /** Reset twice leaves the same state as Reset once: the template New was
      given and an empty history. */
  method ResetTwice<C, E>(r: Recorder<C, E>)
    modifies r
    ensures r.template == old(r.template) && r.TimesExecuted() == 0
  {
    r.Reset();
    r.Reset();
  }
}
