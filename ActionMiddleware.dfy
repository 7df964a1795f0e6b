/**
 * `ActionMiddleware`: a synchronous middleware that invokes a delegate on the parameter and
 * then hands the same parameter to `next`. The one-type variant returns nothing; the two-type
 * variant returns what `next` returns and discards what the delegate returned.
 */
module ActionMiddlewares {
  import opened Wrappers
  import opened Decorators

  /** One delegate call made by `Run`, with the parameter it was given. */
  datatype ActionCall<C> = InvokeAction(parameter: C) | InvokeNext(parameter: C)

  /** `ActionMiddleware<C>(action)`: the `Action<C>` it wraps. */
  datatype ActionMiddleware<!W, !C> = ActionMiddleware(action: (W, C) -> Completion<W>)

  /** `ActionMiddleware<C, R>(action)`: the `Func<C, R>` it wraps. */
  datatype FuncMiddleware<!W, !C, !R> = FuncMiddleware(action: (W, C) -> Returning<W, R>)

  /** The calls one `Run` made, in order, and how the void `Run` ended. */
  datatype ActionRun<W, C> = ActionRun(calls: seq<ActionCall<C>>, completion: Completion<W>)

  /** The calls one `Run` made, in order, and how the returning `Run` ended. */
  datatype FuncRun<W, C, R> = FuncRun(calls: seq<ActionCall<C>>, result: Returning<W, R>)

  /** The calls of a `Run` whose action did or did not return normally. */
  function Calls<C>(actionReturned: bool, parameter: C): (calls: seq<ActionCall<C>>)
    ensures |calls| == if actionReturned then 2 else 1
    ensures calls[0] == InvokeAction(parameter)
    ensures forall k :: 1 <= k < |calls| ==> calls[k] == InvokeNext(parameter)
  {
    [InvokeAction(parameter)] + if actionReturned then [InvokeNext(parameter)] else []
  }

  /**
   * `ActionMiddleware<C>.Run(parameter, next)`: the action runs exactly once and first; `next`
   * is invoked once, with the same parameter, in the world the action left. A throwing action
   * skips `next`, and a null `next` throws a null reference.
   */
  function RunAction<W, C>(m: ActionMiddleware<W, C>, w: W, parameter: C, next: Option<(W, C) -> Completion<W>>)
    : (o: ActionRun<W, C>)
    ensures o.calls == Calls(m.action(w, parameter).Completed?, parameter)
    ensures m.action(w, parameter).Faulted? ==> o.completion == m.action(w, parameter)
    ensures m.action(w, parameter).Completed? && next.Some? ==>
              o.completion == next.value(m.action(w, parameter).world, parameter)
    ensures m.action(w, parameter).Completed? && next.None? ==>
              o.completion == Faulted(m.action(w, parameter).world, NullReference)
  {
    match m.action(w, parameter)
    case Faulted(w', f) => ActionRun(Calls(false, parameter), Faulted(w', f))
    case Completed(w') =>
      ActionRun(Calls(true, parameter),
                if next.None? then Faulted(w', NullReference) else next.value(w', parameter))
  }

  /**
   * `ActionMiddleware<C, R>.Run(parameter, next)`: the same two calls, and the result is
   * `next`'s result; the action's own return value is dropped.
   */
  function RunFunc<W, C, R>(m: FuncMiddleware<W, C, R>, w: W, parameter: C, next: Option<(W, C) -> Returning<W, R>>)
    : (o: FuncRun<W, C, R>)
    ensures o.calls == Calls(m.action(w, parameter).Returned?, parameter)
    ensures m.action(w, parameter).Threw? ==>
              o.result == Threw(m.action(w, parameter).world, m.action(w, parameter).fault)
    ensures m.action(w, parameter).Returned? && next.Some? ==>
              o.result == next.value(m.action(w, parameter).world, parameter)
    ensures m.action(w, parameter).Returned? && next.None? ==>
              o.result == Threw(m.action(w, parameter).world, NullReference)
  {
    match m.action(w, parameter)
    case Threw(w', f) => FuncRun(Calls(false, parameter), Threw(w', f))
    case Returned(w', _) =>
      FuncRun(Calls(true, parameter),
              if next.None? then Threw(w', NullReference) else next.value(w', parameter))
  }

  /** The value an action returns never reaches the caller: two actions ending in the same world give the same run. */
  lemma ActionValueDiscarded<W, C, R>(a: FuncMiddleware<W, C, R>, b: FuncMiddleware<W, C, R>,
                                      w: W, parameter: C, next: Option<(W, C) -> Returning<W, R>>)
    requires a.action(w, parameter).Returned? && b.action(w, parameter).Returned?
    requires a.action(w, parameter).world == b.action(w, parameter).world
    ensures RunFunc(a, w, parameter, next) == RunFunc(b, w, parameter, next)
  {
  }

  /** `ActionMiddleware<C>.Create(action)`: a middleware that runs exactly as one constructed with `action`. */
  function CreateAction<W, C>(action: (W, C) -> Completion<W>): (m: ActionMiddleware<W, C>)
    ensures m.action == action
  {
    ActionMiddleware(action)
  }

  /** `ActionMiddleware<C, R>.Create(action)`: a middleware that runs exactly as one constructed with `action`. */
  function CreateFunc<W, C, R>(action: (W, C) -> Returning<W, R>): (m: FuncMiddleware<W, C, R>)
    ensures m.action == action
  {
    FuncMiddleware(action)
  }
}
