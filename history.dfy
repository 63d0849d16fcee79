/**
 The execution history a Recorder keeps: one Execution per call of the
 wrapped template, in call order, and the functions that the Recorder's
 queries are specified by.
 */
module History {
  import opened Template

  /** One occurrence of the template being executed: the bytes it wrote, the
      context it was given and the error it returned (None when it succeeded). */
  datatype Execution<C, E> = Execution(Output: seq<byte>, Context: C, Error: Option<E>)
  {
    /** The selection test of FailedExecutions: `Error != nil`. */
    predicate Failed()
      ensures Failed() <==> Error != None
    {
      Error.Some?
    }
  }

  /** The Execution a Recorder saves for `call` of `t`: whatever the sink
      already held, a direct call appends exactly the recorded output and
      returns exactly the recorded error, and the context is the call's own. */
  function Record<C, E>(t: Executor<C, E>, call: Call<C>): (r: Execution<C, E>)
    ensures forall wr :: Direct(t, wr, call) == (wr + r.Output, r.Error)
    ensures r.Context == call.data
  {
    var run := Render(t, call);
    Execution(run.output, call.data, run.error)
  }

  /** The executions of `h` whose Error is present, keeping their order. */
  function Failed<C, E>(h: seq<Execution<C, E>>): (r: seq<Execution<C, E>>)
    ensures |r| <= |h|
    ensures forall k :: 0 <= k < |r| ==> r[k].Failed()
  {
    if h == [] then []
    else Failed(h[..|h| - 1]) + (if h[|h| - 1].Failed() then [h[|h| - 1]] else [])
  }

  ghost predicate StrictlyIncreasing(idx: seq<nat>)
  {
    forall j, k :: 0 <= j < k < |idx| ==> idx[j] < idx[k]
  }

  /** `idx` lists, in strictly increasing order, the positions of `h` that
      the elements of `r` stand at, and every failed entry of `h` is at one
      of those positions. */
  ghost predicate FailedPositions<C, E>(h: seq<Execution<C, E>>, r: seq<Execution<C, E>>, idx: seq<nat>)
  {
    && StrictlyIncreasing(idx)
    && |idx| == |r|
    && (forall k :: 0 <= k < |idx| ==> idx[k] < |h| && r[k] == h[idx[k]])
    && (forall i :: 0 <= i < |h| && h[i].Failed() ==> exists k :: 0 <= k < |idx| && idx[k] == i)
  }

  /** Failed(h) is exactly the subsequence of h formed by its failed entries:
      there are strictly increasing positions of h, one per element of
      Failed(h), at which those elements stand, and every failed entry of h is
      at one of them. So entries are neither dropped, duplicated nor
      reordered. */
  lemma {:induction false} FailedSelects<C, E>(h: seq<Execution<C, E>>) returns (idx: seq<nat>)
    ensures StrictlyIncreasing(idx)
    ensures |idx| == |Failed(h)|
    ensures forall k :: 0 <= k < |idx| ==> idx[k] < |h| && Failed(h)[k] == h[idx[k]]
    ensures forall i :: 0 <= i < |h| && h[i].Failed() ==> exists k :: 0 <= k < |idx| && idx[k] == i
  {
    if h == [] {
      idx := [];
    } else {
      var rest := FailedSelects(h[..|h| - 1]);
      idx := ExtendPositions(h, rest);
    }
  }

  /** The inductive step of FailedSelects: positions for all but the last
      entry extend to positions for the whole history. */
  lemma {:induction false} ExtendPositions<C, E>(h: seq<Execution<C, E>>, rest: seq<nat>) returns (idx: seq<nat>)
    requires |h| > 0
    requires FailedPositions(h[..|h| - 1], Failed(h[..|h| - 1]), rest)
    ensures FailedPositions(h, Failed(h), idx)
  {
    var n := |h| - 1;
    var init := h[..n];
    assert forall k :: 0 <= k < |rest| ==> rest[k] < n && init[rest[k]] == h[rest[k]];
    assert forall i :: 0 <= i < n ==> init[i] == h[i];
    if h[n].Failed() {
      assert Failed(h) == Failed(init) + [h[n]];
      idx := rest + [n];
      FailedPositionsSnoc(h, Failed(init), rest);
    } else {
      assert Failed(h) == Failed(init);
      idx := rest;
    }
  }

  /** Appending a failed last entry `h[n]` to the selected ones appends its
      position `n`. */
  lemma {:induction false} FailedPositionsSnoc<C, E>(h: seq<Execution<C, E>>, r: seq<Execution<C, E>>, rest: seq<nat>)
    requires |h| > 0 && h[|h| - 1].Failed()
    requires FailedPositions(h[..|h| - 1], r, rest)
    ensures FailedPositions(h, r + [h[|h| - 1]], rest + [|h| - 1])
  {
    var n := |h| - 1;
    var idx := rest + [n];
    assert forall k :: 0 <= k < |rest| ==> rest[k] < n && h[..n][rest[k]] == h[rest[k]];
    assert forall i :: 0 <= i < n ==> h[..n][i] == h[i];
    forall i | 0 <= i < |h| && h[i].Failed()
      ensures exists k :: 0 <= k < |idx| && idx[k] == i
    {
      if i < n {
        assert h[..n][i].Failed();
        var k :| 0 <= k < |rest| && rest[k] == i;
        assert idx[k] == i;
      } else {
        assert idx[|rest|] == i;
      }
    }
  }

  /** The history a fresh Recorder over `t` holds after the calls `calls`,
      made one after another: each call appends its own record. */
  function HistoryOf<C, E>(t: Executor<C, E>, calls: seq<Call<C>>): seq<Execution<C, E>>
  {
    if calls == [] then []
    else HistoryOf(t, calls[..|calls| - 1]) + [Record(t, calls[|calls| - 1])]
  }

  /** The history append law: after n calls the history has n entries and the
      i-th entry holds the i-th call's output, context and error. */
  lemma {:induction false} AppendLaw<C, E>(t: Executor<C, E>, calls: seq<Call<C>>)
    ensures |HistoryOf(t, calls)| == |calls|
    ensures forall i :: 0 <= i < |calls| ==> HistoryOf(t, calls)[i] == Record(t, calls[i])
  {
    if calls != [] {
      var init := calls[..|calls| - 1];
      AppendLaw(t, init);
      assert forall i :: 0 <= i < |init| ==> init[i] == calls[i];
    }
  }

  /** One more call extends the history by that call's record and keeps the
      earlier entries: the step each Recorder.Execute and ExecuteTemplate takes. */
  lemma {:induction false} HistoryOfSnoc<C, E>(t: Executor<C, E>, calls: seq<Call<C>>, call: Call<C>)
    ensures HistoryOf(t, calls + [call]) == HistoryOf(t, calls) + [Record(t, call)]
  {
  }
}
