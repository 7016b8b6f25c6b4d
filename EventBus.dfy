/**
 * The `useBus` adapter: a registry of listeners (a JavaScript `Set`, so insertion-ordered
 * and duplicate-free), fan-out of inbound messages to every listener with each listener's
 * failure contained, and `emit` handing events to the socket's `send`. Listeners are
 * named by identities; each call of a listener is logged in `calls`.
 */
module EventBus {
  import opened Quiz

  type ListenerId = nat

  /** `set.add(fn)`: unchanged if present, appended otherwise. */
  function AddListener(ls: seq<ListenerId>, fn: ListenerId): (r: seq<ListenerId>)
    ensures fn in r && forall x :: x in r <==> x in ls || x == fn
    ensures fn in ls ==> r == ls
  {
    if fn in ls then ls else ls + [fn]
  }

  /** `set.delete(fn)`: every other listener kept, in order. */
  function RemoveListener(ls: seq<ListenerId>, fn: ListenerId): (r: seq<ListenerId>)
    ensures fn !in r && forall x :: x in r <==> x in ls && x != fn
    ensures |r| <= |ls|
  {
    if ls == [] then []
    else if ls[0] == fn then RemoveListener(ls[1..], fn)
    else [ls[0]] + RemoveListener(ls[1..], fn)
  }

  /** No listener is registered twice. */
  ghost predicate NoDuplicates(ls: seq<ListenerId>) {
    forall i, j :: 0 <= i < j < |ls| ==> ls[i] != ls[j]
  }

  /** Registering keeps the registry duplicate-free, and registering twice is registering once. */
  lemma AddListenerIdempotent(ls: seq<ListenerId>, fn: ListenerId)
    requires NoDuplicates(ls)
    ensures NoDuplicates(AddListener(ls, fn))
    ensures AddListener(AddListener(ls, fn), fn) == AddListener(ls, fn)
  {
  }

  /** Unsubscribing right after subscribing a new listener restores the registry. */
  lemma {:induction false} UnsubscribeUndoesSubscribe(ls: seq<ListenerId>, fn: ListenerId)
    requires fn !in ls
    ensures RemoveListener(AddListener(ls, fn), fn) == ls
  {
    RemoveMissing(ls, fn);
    RemoveAppend(ls, fn);
  }

  lemma {:induction false} RemoveMissing(ls: seq<ListenerId>, fn: ListenerId)
    requires fn !in ls
    ensures RemoveListener(ls, fn) == ls
  {
    if ls != [] {
      assert fn !in ls[1..];
      RemoveMissing(ls[1..], fn);
    }
  }

  lemma {:induction false} RemoveAppend(ls: seq<ListenerId>, fn: ListenerId)
    ensures RemoveListener(ls + [fn], fn) == RemoveListener(ls, fn)
  {
    if ls == [] {
      assert RemoveListener([fn], fn) == RemoveListener([fn][1..], fn);
    } else {
      assert (ls + [fn])[1..] == ls[1..] + [fn];
      RemoveAppend(ls[1..], fn);
    }
  }

  /** One call per listener, in registry order, each with the same message. */
  function Deliveries(ls: seq<ListenerId>, msg: BusEvent): (d: seq<(ListenerId, BusEvent)>)
    ensures |d| == |ls|
  {
    seq(|ls|, i requires 0 <= i < |ls| => (ls[i], msg))
  }

  class Bus {
    var listeners: seq<ListenerId>
    /** Every listener call made, oldest first. */
    var calls: seq<(ListenerId, BusEvent)>
    /** Every event handed to `send`, oldest first. */
    var outbox: seq<BusEvent>

    ghost predicate Valid()
      reads this
    {
      NoDuplicates(listeners)
    }

    constructor()
      ensures Valid() && listeners == [] && calls == [] && outbox == []
    {
      listeners := [];
      calls := [];
      outbox := [];
    }

    /** `on(fn)`; the returned unsubscribe function is `Unsubscribe(fn)`. */
    method On(fn: ListenerId)
      requires Valid()
      modifies this
      ensures Valid()
      ensures listeners == AddListener(old(listeners), fn)
      ensures calls == old(calls) && outbox == old(outbox)
    {
      AddListenerIdempotent(listeners, fn);
      if fn !in listeners {
        listeners := listeners + [fn];
      }
    }

    /** The function `on(fn)` returns. */
    method Unsubscribe(fn: ListenerId)
      requires Valid()
      modifies this
      ensures Valid()
      ensures listeners == RemoveListener(old(listeners), fn)
      ensures calls == old(calls) && outbox == old(outbox)
    {
      RemoveKeepsDistinct(listeners, fn);
      listeners := RemoveListener(listeners, fn);
    }

    /**
     * `handleIncoming`: every registered listener is called with the message, in order.
     * A listener that throws has its exception caught and logged, and the loop goes on, so
     * the calls made do not depend on which listeners throw.
     */
    method HandleIncoming(msg: BusEvent)
      modifies this
      ensures calls == old(calls) + Deliveries(listeners, msg)
      ensures listeners == old(listeners) && outbox == old(outbox)
    {
      var i := 0;
      while i < |listeners|
        invariant 0 <= i <= |listeners|
        invariant calls == old(calls) + Deliveries(listeners[..i], msg)
        invariant listeners == old(listeners) && outbox == old(outbox)
      {
        var fn := listeners[i];
        assert Deliveries(listeners[..i + 1], msg) == Deliveries(listeners[..i], msg) + [(fn, msg)];
        calls := calls + [(fn, msg)];
        i := i + 1;
      }
      assert listeners[..i] == listeners;
    }

    /** `emit`: the event goes to `send` unchanged; no local listener is called. */
    method Emit(e: BusEvent)
      modifies this
      ensures outbox == old(outbox) + [e]
      ensures listeners == old(listeners) && calls == old(calls)
    {
      outbox := outbox + [e];
    }
  }

  lemma {:induction false} RemoveKeepsDistinct(ls: seq<ListenerId>, fn: ListenerId)
    requires NoDuplicates(ls)
    ensures NoDuplicates(RemoveListener(ls, fn))
  {
    if ls != [] {
      assert NoDuplicates(ls[1..]);
      RemoveKeepsDistinct(ls[1..], fn);
      if ls[0] != fn {
        assert ls[0] !in ls[1..];
        assert ls[0] !in RemoveListener(ls[1..], fn);
      }
    }
  }
}
