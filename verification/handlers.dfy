/** Callback props and the notifications the tag editor emits.

    A callback prop holds either one handler or an array of handlers
    (`MaybeArray`); invoking it calls each handler in array order with the
    same argument. That rule belongs to a helper outside this model and is
    taken here as an assumption. */
module Handlers {
  import opened Wrappers

  /** The identity of one registered callback function. */
  type Handler = string

  /** A prop typed `MaybeArray<OnUpdateValue>`. */
  datatype MaybeArray<T> = One(item: T) | Many(items: seq<T>)

  /** An observable effect of the component, in the order it happens. */
  datatype Event =
    | Invoked(handler: Handler, value: seq<string>)  // a value callback was called with `value`
    | FormInput                                      // the enclosing form item was told "input"
    | FormChange                                     // the enclosing form item was told "change"

  /** The handlers a callback prop holds, in the order they are called.
      An absent prop holds none. */
  function Registered(p: Option<MaybeArray<Handler>>): seq<Handler>
  {
    match p
    case None => []
    case Some(One(h)) => [h]
    case Some(Many(hs)) => hs
  }

  /** Invoking every handler of `hs`, first to last, with `value`. */
  function Call(hs: seq<Handler>, value: seq<string>): (r: seq<Event>)
    ensures |r| == |hs|
    ensures forall i :: 0 <= i < |hs| ==> r[i] == Invoked(hs[i], value)
  {
    if |hs| == 0 then [] else [Invoked(hs[0], value)] + Call(hs[1..], value)
  }

  /** The handlers named by a sequence of events, in order, skipping events
      that are not handler invocations. */
  function InvokedHandlers(es: seq<Event>): seq<Handler>
  {
    if |es| == 0 then []
    else if es[0].Invoked? then [es[0].handler] + InvokedHandlers(es[1..])
    else InvokedHandlers(es[1..])
  }

  /** Reading back the handlers of a `Call` gives exactly the handlers
      called, in the same order. */
  lemma {:induction false} CallInvokesInOrder(hs: seq<Handler>, value: seq<string>)
    ensures InvokedHandlers(Call(hs, value)) == hs
  {
    if |hs| > 0 {
      CallInvokesInOrder(hs[1..], value);
      assert Call(hs, value)[1..] == Call(hs[1..], value);
    }
  }

  /** Handlers read back from concatenated logs are the concatenation. */
  lemma {:induction false} InvokedHandlersAppend(a: seq<Event>, b: seq<Event>)
    ensures InvokedHandlers(a + b) == InvokedHandlers(a) + InvokedHandlers(b)
  {
    if |a| > 0 {
      assert (a + b)[1..] == a[1..] + b;
      InvokedHandlersAppend(a[1..], b);
    } else {
      assert a + b == b;
    }
  }
}
