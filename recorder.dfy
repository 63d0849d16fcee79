/**
 The Recorder: a decorator around a template Executor that forwards every
 Execute and ExecuteTemplate call unchanged and keeps, in `execs`, one
 Execution per call for tests to inspect afterwards.
 */
module Plate {
  import opened Template
  import opened History

  class Recorder<C, E> {
    /** The wrapped template. */
    var template: Executor<C, E>
    /** The executions since construction or the last Reset, oldest first. */
    var execs: seq<Execution<C, E>>

    /** New(tmpl): a Recorder over `tmpl` with an empty history. */
    constructor (tmpl: Executor<C, E>)
      ensures template == tmpl && execs == []
    {
      template := tmpl;
      execs := [];
    }

    /** Appends one execution at the end of the history; nothing else changes. */
    method Save(exec: Execution<C, E>)
      modifies this
      ensures template == old(template)
      ensures execs == old(execs) + [exec]
    {
      execs := execs + [exec];
    }

    /** Runs the wrapped template's Execute with the caller's sink teed into a
        private buffer, records the captured bytes, `data` and the error, and
        returns the error as it came. The caller sees exactly what a direct
        call would have shown it. */
    method Execute(wr: seq<byte>, data: C) returns (wr': seq<byte>, err: Option<E>)
      modifies this
      ensures template == old(template)
      ensures (wr', err) == Direct(template, wr, Plain(data))
      ensures execs == old(execs) + [Record(template, Plain(data))]
      ensures TimesExecuted() == old(TimesExecuted()) + 1
      ensures LastExecution().Output == wr'[|wr|..] && LastExecution().Context == data
      ensures LastExecution().Error == err
      ensures Failed(execs) == Failed(old(execs)) + if err.Some? then [LastExecution()] else []
    {
      var buf: seq<byte> := [];
      // The wrapped template writes its output through the tee: every byte goes
      // to `buf` and to the caller's sink, in the same order.
      var run := template.execute(data);
      buf := buf + run.output;
      wr' := wr + run.output;
      err := run.error;
      Save(Execution(buf, data, err));
    }

    /** Like Execute, for the named sub-template `name`; it records into the
        same history. */
    method ExecuteTemplate(wr: seq<byte>, name: string, data: C) returns (wr': seq<byte>, err: Option<E>)
      modifies this
      ensures template == old(template)
      ensures (wr', err) == Direct(template, wr, Named(name, data))
      ensures execs == old(execs) + [Record(template, Named(name, data))]
      ensures TimesExecuted() == old(TimesExecuted()) + 1
      ensures LastExecution().Output == wr'[|wr|..] && LastExecution().Context == data
      ensures LastExecution().Error == err
      ensures Failed(execs) == Failed(old(execs)) + if err.Some? then [LastExecution()] else []
    {
      var buf: seq<byte> := [];
      var run := template.executeTemplate(name, data);
      buf := buf + run.output;
      wr' := wr + run.output;
      err := run.error;
      Save(Execution(buf, data, err));
    }

    /** A newly allocated copy of the history: element-wise equal to it, and
        writes to it cannot reach the Recorder. */
    method Executions() returns (copy: array<Execution<C, E>>)
      ensures fresh(copy)
      ensures copy[..] == execs
    {
      var h := execs;
      copy := new Execution<C, E>[|h|](k requires 0 <= k < |h| => h[k]);
      assert forall k :: 0 <= k < |h| ==> copy[k] == h[k];
    }

    /** The most recent execution. The source panics on an empty history,
        a usage error of the caller; here calling it then is ruled out. */
    function LastExecution(): (e: Execution<C, E>)
      reads this
      requires |execs| > 0
      ensures e == execs[|execs| - 1]
    {
      execs[|execs| - 1]
    }

    /** The number of executions since construction or the last Reset. */
    function TimesExecuted(): (n: nat)
      reads this
      ensures n == |execs|
    {
      |execs|
    }

    /** A newly allocated array of the failed executions, in history order. */
    method FailedExecutions() returns (failed: array<Execution<C, E>>)
      ensures fresh(failed)
      ensures failed[..] == Failed(execs)
    {
      var acc: seq<Execution<C, E>> := [];
      for i := 0 to |execs|
        invariant acc == Failed(execs[..i])
      {
        assert execs[..i + 1][..i] == execs[..i];
        if execs[i].Error.Some? {
          acc := acc + [execs[i]];
        }
      }
      assert execs[..|execs|] == execs;
      failed := new Execution<C, E>[|acc|](k requires 0 <= k < |acc| => acc[k]);
      assert forall k :: 0 <= k < |acc| ==> failed[k] == acc[k];
    }

    /** Clears the history, restoring the state New produced. */
    method Reset()
      modifies this
      ensures template == old(template)
      ensures execs == []
    {
      execs := [];
    }
  }
}
