/**
 The capability a Recorder wraps: anything that renders itself, or one of its
 named sub-templates, into a byte sink for a given context value and reports
 an error or nothing. Go's text/template and html/template satisfy it; here
 the wrapped template is an abstract, deterministic oracle.
 */
module Template {

  newtype byte = b: int | 0 <= b < 256

  /** Go's `error` that may be nil: None is nil, Some(e) is a non-nil error. */
  datatype Option<T> = None | Some(value: T)

  /** What one call of the wrapped template does: the bytes it writes to the
      writer it is given (possibly a prefix only, when it fails part-way) and
      the error it returns. */
  datatype Rendering<E> = Rendering(output: seq<byte>, error: Option<E>)

  /** The two methods of the Executor interface, with the writer factored out:
      `execute(data)` is `Execute(wr, data)`, `executeTemplate(name, data)` is
      `ExecuteTemplate(wr, name, data)`. */
  datatype Executor<!C, E> = Executor(
    execute: C -> Rendering<E>,
    executeTemplate: (string, C) -> Rendering<E>)

  /** One invocation of the capability: the unnamed template or a named one. */
  datatype Call<C> = Plain(data: C) | Named(name: string, data: C)

  /** The rendering that a call of `t` produces. */
  function Render<C, E>(t: Executor<C, E>, call: Call<C>): Rendering<E>
  {
    match call
    case Plain(data) => t.execute(data)
    case Named(name, data) => t.executeTemplate(name, data)
  }

  /** What a caller observes when it calls `t` directly, without any decorator,
      on a sink that already holds `wr` and never fails: the sink afterwards
      and the returned error. */
  function Direct<C, E>(t: Executor<C, E>, wr: seq<byte>, call: Call<C>): (r: (seq<byte>, Option<E>))
    ensures |wr| <= |r.0| && r.0[..|wr|] == wr
    ensures r.0[|wr|..] == Render(t, call).output && r.1 == Render(t, call).error
  {
    var run := Render(t, call);
    (wr + run.output, run.error)
  }
}
