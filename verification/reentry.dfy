/**
 * The `prevent_reentry` decorator: a flag held by the wrapper, set while the
 * wrapped handler runs. A call arriving while the flag is set returns at
 * once without running the handler. The flag is cleared only when the
 * handler returns normally: there is no `finally`, so a handler that raises
 * leaves it set.
 */
module Reentry {

  /** How a call through the wrapper ended. */
  datatype Completion = Returned | Raised

  /** One call through the wrapper: the flag afterwards, the resulting state,
      how the call ended and whether the handler ran. */
  datatype Call<S> = Call(inHandler: bool, state: S, completion: Completion, invoked: bool)

  /**
   * A wrapped handler. Its first argument is the flag as it stands while the
   * handler runs, which is what any call the handler makes back through the
   * wrapper sees.
   */
  type Handler<!S> = (bool, S) -> (S, Completion)

  /**
   * `check_reentry`: the wrapper applied to `handler`, called with flag
   * `inHandler`. The flag is set before the handler runs and cleared after
   * it returns.
   */
  function CheckReentry<S>(inHandler: bool, s: S, handler: Handler<S>): (r: Call<S>)
    ensures inHandler ==> r == Call(true, s, Returned, false)
    ensures !inHandler ==> r.invoked && (r.state, r.completion) == handler(true, s)
    ensures r.invoked ==> (r.inHandler <==> r.completion == Raised)
  {
    if inHandler then Call(true, s, Returned, false)
    else
      var inHandler' := true;
      var (s', c) := handler(inHandler', s);
      Call(c == Raised, s', c, true)
  }

  /**
   * A handler that runs `before`, calls back through the same wrapper with
   * handler `inner`, then runs `after` on the state that call left.
   */
  function WithNestedCall<S>(before: S -> S, inner: Handler<S>, after: S -> S): Handler<S>
  {
    (flag: bool, s: S) => (after(CheckReentry(flag, before(s), inner).state), Returned)
  }

  /**
   * A call made back through the wrapper while its handler runs returns at
   * once: the outer call has the effect of `before` then `after` alone, and
   * `inner` is never run.
   */
  lemma ReentrantCallDropped<S>(s: S, before: S -> S, inner: Handler<S>, after: S -> S)
    ensures var outer := CheckReentry(false, s, WithNestedCall(before, inner, after));
            && outer.invoked && outer.state == after(before(s)) && !outer.inHandler
            && !CheckReentry(true, before(s), inner).invoked
  {
    var nested := CheckReentry(true, before(s), inner);
    assert nested.state == before(s);
    assert WithNestedCall(before, inner, after)(true, s) == (after(before(s)), Returned);
  }

  /** Successive top-level calls through the same wrapper, each seeing the flag the previous one left. */
  function RunTopLevel<S>(inHandler: bool, s: S, handlers: seq<Handler<S>>): (calls: seq<Call<S>>)
    ensures |calls| == |handlers|
    decreases |handlers|
  {
    if |handlers| == 0 then []
    else
      var c := CheckReentry(inHandler, s, handlers[0]);
      [c] + RunTopLevel(c.inHandler, c.state, handlers[1..])
  }

  /** While the flag is set every call is dropped: no handler runs and the state is untouched. */
  lemma {:induction false} DroppedWhileFlagSet<S>(s: S, handlers: seq<Handler<S>>)
    ensures forall c :: c in RunTopLevel(true, s, handlers) ==> !c.invoked && c.completion == Returned && c.state == s
  {
    if |handlers| > 0 {
      DroppedWhileFlagSet(s, handlers[1..]);
    }
  }

  /**
   * Starting from a cleared flag, the handler of a top-level call runs
   * exactly when no earlier call raised: one exception disables the wrapper
   * for good.
   */
  lemma {:induction false} InvokedUntilFirstRaise<S>(s: S, handlers: seq<Handler<S>>)
    ensures var calls := RunTopLevel(false, s, handlers);
            forall i :: 0 <= i < |calls| ==>
              (calls[i].invoked <==> forall j :: 0 <= j < i ==> calls[j].completion != Raised)
  {
    if |handlers| > 0 {
      var calls := RunTopLevel(false, s, handlers);
      var first := CheckReentry(false, s, handlers[0]);
      var rest := RunTopLevel(first.inHandler, first.state, handlers[1..]);
      assert calls == [first] + rest;
      if first.completion == Raised {
        DroppedWhileFlagSet(first.state, handlers[1..]);
        forall i | 0 <= i < |calls|
          ensures calls[i].invoked <==> forall j :: 0 <= j < i ==> calls[j].completion != Raised
        {
          if i > 0 {
            assert calls[i] == rest[i - 1] && rest[i - 1] in rest;
            assert calls[0].completion == Raised;
          }
        }
      } else {
        assert !first.inHandler;
        InvokedUntilFirstRaise(first.state, handlers[1..]);
        assert rest == RunTopLevel(false, first.state, handlers[1..]);
        forall i | 1 <= i < |calls|
          ensures calls[i].invoked <==> forall j :: 0 <= j < i ==> calls[j].completion != Raised
        {
          assert calls[i] == rest[i - 1];
          assert rest[i - 1].invoked <==> forall j :: 0 <= j < i - 1 ==> rest[j].completion != Raised;
          if calls[i].invoked {
            forall j | 0 <= j < i ensures calls[j].completion != Raised {
              if j > 0 { assert calls[j] == rest[j - 1]; }
            }
          } else {
            var j :| 0 <= j < i - 1 && rest[j].completion == Raised;
            assert calls[j + 1] == rest[j];
          }
        }
      }
    }
  }
}
