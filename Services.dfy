/**
 * The backend's session manager: the WebSocket connections of each session, one database
 * listener per session, and broadcasting a message to a session's connections. Sockets are
 * identities; accepting, sending and the database's listener call are outside the model, so
 * `broadcast` receives what each send does and `start_listener` receives the handle the
 * database returned.
 */
module Services {
  import opened Wrappers
  import FirestoreValues
  import MockFirestore

  type SocketId = nat

  /** What `send_json` did on one connection. */
  datatype SendResult = Delivered | Disconnected | OtherError

  type ListenerHandle = MockFirestore.ListenerHandle

  // ----- the connections a broadcast keeps -----

  /** The connections whose send did not raise a disconnect, in order. */
  function Kept(s: seq<SocketId>, f: SocketId -> SendResult): (r: seq<SocketId>)
    ensures |r| <= |s|
  {
    if s == [] then []
    else (if f(s[0]) == Disconnected then [] else [s[0]]) + Kept(s[1..], f)
  }

  /** A connection is kept exactly when it was there and its send did not raise a disconnect. */
  lemma {:induction false} KeptMembers(s: seq<SocketId>, f: SocketId -> SendResult, x: SocketId)
    ensures x in Kept(s, f) <==> x in s && f(x) != Disconnected
  {
    if s != [] {
      KeptMembers(s[1..], f, x);
      assert x in s <==> x == s[0] || x in s[1..];
    }
  }

  /** The connections whose send raised a disconnect, in order. */
  function Dropped(s: seq<SocketId>, f: SocketId -> SendResult): (r: seq<SocketId>)
  {
    if s == [] then []
    else (if f(s[0]) == Disconnected then [s[0]] else []) + Dropped(s[1..], f)
  }

  lemma {:induction false} DroppedAppend(a: seq<SocketId>, b: seq<SocketId>, f: SocketId -> SendResult)
    ensures Dropped(a + b, f) == Dropped(a, f) + Dropped(b, f)
  {
    if a == [] {
      assert a + b == b;
    } else {
      var ab := a + b;
      assert ab[0] == a[0] && ab[1..] == a[1..] + b;
      var h := if f(a[0]) == Disconnected then [a[0]] else [];
      calc {
        Dropped(ab, f);
        h + Dropped(a[1..] + b, f);
        { DroppedAppend(a[1..], b, f); }
        h + (Dropped(a[1..], f) + Dropped(b, f));
        (h + Dropped(a[1..], f)) + Dropped(b, f);
        Dropped(a, f) + Dropped(b, f);
      }
    }
  }


  /** `list.remove(x)`: the first occurrence of `x` taken out. */
  function RemoveFirst(s: seq<SocketId>, x: SocketId): (r: seq<SocketId>)
    ensures x in s ==> |r| == |s| - 1
    ensures x !in s ==> r == s
  {
    if s == [] then []
    else if s[0] == x then s[1..]
    else [s[0]] + RemoveFirst(s[1..], x)
  }

  lemma {:induction false} RemoveFirstAfter(a: seq<SocketId>, x: SocketId, b: seq<SocketId>)
    requires x !in a
    ensures RemoveFirst(a + [x] + b, x) == a + b
  {
    if a == [] {
      assert a + [x] + b == [x] + b;
    } else {
      assert (a + [x] + b)[1..] == a[1..] + [x] + b;
      RemoveFirstAfter(a[1..], x, b);
      assert a + b == [a[0]] + (a[1..] + b);
    }
  }

  /**
   * `list.remove(x)` on a present `x`: it is taken out at its first position, and the
   * connections before and after that position stay in order.
   */
  lemma RemoveFirstSplits(s: seq<SocketId>, x: SocketId, i: nat)
    requires i < |s| && s[i] == x && x !in s[..i]
    ensures RemoveFirst(s, x) == s[..i] + s[i + 1..]
  {
    assert s == s[..i] + [x] + s[i + 1..];
    RemoveFirstAfter(s[..i], x, s[i + 1..]);
  }

  /** A connection is dropped only if its send raised a disconnect. */
  lemma {:induction false} DroppedAreDisconnected(s: seq<SocketId>, f: SocketId -> SendResult, x: SocketId)
    requires x in Dropped(s, f)
    ensures x in s && f(x) == Disconnected
  {
    if f(s[0]) != Disconnected || x != s[0] {
      DroppedAreDisconnected(s[1..], f, x);
    }
  }

  /** The connections left after `list.remove(ws)` for each `ws` of `ds` in turn (a missing one is skipped). */
  function RemoveAll(s: seq<SocketId>, ds: seq<SocketId>): (r: seq<SocketId>)
    ensures |r| <= |s|
  {
    if ds == [] then s else RemoveFirst(RemoveAll(s, ds[..|ds| - 1]), ds[|ds| - 1])
  }

  /** Removing one more element. */
  lemma RemoveAllPrefix(s: seq<SocketId>, ds: seq<SocketId>, j: nat)
    requires j < |ds|
    ensures RemoveAll(s, ds[..j + 1]) == RemoveFirst(RemoveAll(s, ds[..j]), ds[j])
  {
    assert ds[..j + 1][..j] == ds[..j];
  }

  /** Removing `d` first and then the rest is removing them all in order. */
  lemma {:induction false} RemoveAllCons(s: seq<SocketId>, d: SocketId, ds: seq<SocketId>)
    ensures RemoveAll(s, [d] + ds) == RemoveAll(RemoveFirst(s, d), ds)
  {
    if ds != [] {
      var init, last := ds[..|ds| - 1], ds[|ds| - 1];
      assert ([d] + ds)[..|ds|] == [d] + init;
      RemoveAllCons(s, d, init);
    }
  }

  /** An element that is never removed stays in front. */
  lemma {:induction false} RemoveAllSkipsHead(x: SocketId, s: seq<SocketId>, ds: seq<SocketId>)
    requires x !in ds
    ensures RemoveAll([x] + s, ds) == [x] + RemoveAll(s, ds)
  {
    if ds != [] {
      var init, last := ds[..|ds| - 1], ds[|ds| - 1];
      assert last in ds;
      assert forall y :: y in init ==> y in ds;
      RemoveAllSkipsHead(x, s, init);
      var t := RemoveAll(s, init);
      assert ([x] + t)[1..] == t;
    }
  }

  /**
   * Removing, one after the other, the first occurrence of each connection whose send raised
   * a disconnect leaves exactly the connections that did not, in their order.
   */
  lemma {:induction false} RemoveDroppedIsKept(s: seq<SocketId>, f: SocketId -> SendResult)
    ensures RemoveAll(s, Dropped(s, f)) == Kept(s, f)
  {
    if s != [] {
      var rest := Dropped(s[1..], f);
      RemoveDroppedIsKept(s[1..], f);
      if f(s[0]) == Disconnected {
        assert Dropped(s, f) == [s[0]] + rest;
        RemoveAllCons(s, s[0], rest);
      } else {
        assert Dropped(s, f) == rest;
        if s[0] in rest {
          DroppedAreDisconnected(s[1..], f, s[0]);
        }
        assert s == [s[0]] + s[1..];
        RemoveAllSkipsHead(s[0], s[1..], rest);
      }
    }
  }

  /** The second loop of `broadcast`. */
  method RemoveDisconnected(conns: seq<SocketId>, disconnected: seq<SocketId>, f: SocketId -> SendResult)
    returns (cur: seq<SocketId>)
    requires disconnected == Dropped(conns, f)
    ensures cur == Kept(conns, f)
  {
    cur := conns;
    for j := 0 to |disconnected|
      invariant cur == RemoveAll(conns, disconnected[..j])
    {
      var ws := disconnected[j];
      RemoveAllPrefix(conns, disconnected, j);
      if ws in cur {
        cur := RemoveFirst(cur, ws);
      }
    }
    assert disconnected[..|disconnected|] == disconnected;
    RemoveDroppedIsKept(conns, f);
  }

  class SessionManager {
    var activeSessions: map<string, seq<SocketId>>
    var snapshotListeners: map<string, ListenerHandle>
    /** Watches detached by `unsubscribe()`, oldest first. */
    var detached: seq<nat>
    /** Every send attempted, oldest first. */
    var sends: seq<(SocketId, FirestoreValues.Value)>

    constructor()
      ensures activeSessions == map[] && snapshotListeners == map[] && detached == [] && sends == []
    {
      activeSessions := map[];
      snapshotListeners := map[];
      detached := [];
      sends := [];
    }

    /** `connect`: the socket is appended to the session's list, which is created if absent. */
    method Connect(sessionId: string, ws: SocketId)
      modifies this
      ensures activeSessions == old(activeSessions)[sessionId :=
        (if sessionId in old(activeSessions) then old(activeSessions)[sessionId] else []) + [ws]]
      ensures snapshotListeners == old(snapshotListeners) && detached == old(detached) && sends == old(sends)
    {
      var conns := if sessionId in activeSessions then activeSessions[sessionId] else [];
      activeSessions := activeSessions[sessionId := conns + [ws]];
    }

    /**
     * `remove_listener`: detaches and forgets the session's listener if there is one. On a
     * plain-function handle the `unsubscribe` attribute is missing, so it raises before
     * forgetting the entry.
     */
    method RemoveListener(sessionId: string) returns (outcome: Outcome)
      modifies this
      ensures sessionId !in old(snapshotListeners) ==>
        outcome == Ok && snapshotListeners == old(snapshotListeners) && detached == old(detached)
      ensures sessionId in old(snapshotListeners) && old(snapshotListeners)[sessionId].Watch? ==>
        && outcome == Ok
        && snapshotListeners == old(snapshotListeners) - {sessionId}
        && detached == old(detached) + [old(snapshotListeners)[sessionId].watchId]
      ensures sessionId in old(snapshotListeners) && old(snapshotListeners)[sessionId].PlainFunction? ==>
        outcome == Raised("AttributeError") && snapshotListeners == old(snapshotListeners) && detached == old(detached)
      ensures activeSessions == old(activeSessions) && sends == old(sends)
    {
      outcome := Ok;
      if sessionId in snapshotListeners {
        match snapshotListeners[sessionId]
        case Watch(id) =>
          detached := detached + [id];
          snapshotListeners := snapshotListeners - {sessionId};
        case PlainFunction =>
          outcome := Raised("AttributeError");
      }
    }

    /**
     * `disconnect`: the socket's first occurrence is removed; an emptied session is forgotten
     * and its listener removed (a watch is unsubscribed, which `detached` records). A socket not in the list raises `ValueError` and changes nothing;
     * an unknown session is a no-op.
     */
    method Disconnect(sessionId: string, ws: SocketId) returns (outcome: Outcome)
      modifies this
      ensures sessionId !in old(activeSessions) ==>
        outcome == Ok && activeSessions == old(activeSessions) && snapshotListeners == old(snapshotListeners)
      ensures sessionId in old(activeSessions) && ws !in old(activeSessions)[sessionId] ==>
        outcome == Raised("ValueError") && activeSessions == old(activeSessions)
        && snapshotListeners == old(snapshotListeners)
      ensures sessionId in old(activeSessions) && ws in old(activeSessions)[sessionId] ==>
        var rest := RemoveFirst(old(activeSessions)[sessionId], ws);
        && (rest != [] ==> outcome == Ok && activeSessions == old(activeSessions)[sessionId := rest]
                           && snapshotListeners == old(snapshotListeners))
        && (rest == [] ==> activeSessions == old(activeSessions) - {sessionId})
        && (rest == [] && sessionId !in old(snapshotListeners) ==>
              outcome == Ok && snapshotListeners == old(snapshotListeners))
        && (rest == [] && sessionId in old(snapshotListeners) && old(snapshotListeners)[sessionId].Watch? ==>
              && outcome == Ok && snapshotListeners == old(snapshotListeners) - {sessionId}
              && detached == old(detached) + [old(snapshotListeners)[sessionId].watchId])
        && (rest == [] && sessionId in old(snapshotListeners) && old(snapshotListeners)[sessionId].PlainFunction? ==>
              outcome == Raised("AttributeError") && snapshotListeners == old(snapshotListeners))
      ensures !(&& sessionId in old(activeSessions) && ws in old(activeSessions)[sessionId]
                && RemoveFirst(old(activeSessions)[sessionId], ws) == []
                && sessionId in old(snapshotListeners) && old(snapshotListeners)[sessionId].Watch?) ==>
        detached == old(detached)
      ensures sends == old(sends)
    {
      outcome := Ok;
      if sessionId !in activeSessions {
        return;
      }
      var conns := activeSessions[sessionId];
      if ws !in conns {
        outcome := Raised("ValueError");
        return;
      }
      var rest := RemoveFirst(conns, ws);
      if rest != [] {
        activeSessions := activeSessions[sessionId := rest];
      } else {
        activeSessions := activeSessions - {sessionId};
        outcome := RemoveListener(sessionId);
      }
    }

    /**
     * `broadcast`: the message is sent to every connection of the session in order, and then
     * exactly the connections whose send raised a disconnect are removed; the others stay in
     * order. Other send errors keep the connection.
     */
    method Broadcast(sessionId: string, message: FirestoreValues.Value, result: SocketId -> SendResult)
      modifies this
      ensures sessionId !in old(activeSessions) ==> activeSessions == old(activeSessions) && sends == old(sends)
      ensures sessionId in old(activeSessions) ==>
        var conns := old(activeSessions)[sessionId];
        && activeSessions == old(activeSessions)[sessionId := Kept(conns, result)]
        && sends == old(sends) + seq(|conns|, i requires 0 <= i < |conns| => (conns[i], message))
      ensures snapshotListeners == old(snapshotListeners) && detached == old(detached)
    {
      if sessionId !in activeSessions {
        return;
      }
      var conns := activeSessions[sessionId];
      var disconnected: seq<SocketId> := [];
      var i := 0;
      while i < |conns|
        invariant 0 <= i <= |conns|
        invariant disconnected == Dropped(conns[..i], result)
        invariant sends == old(sends) + seq(i, k requires 0 <= k < i => (conns[k], message))
        invariant activeSessions == old(activeSessions)
        invariant snapshotListeners == old(snapshotListeners) && detached == old(detached)
      {
        sends := sends + [(conns[i], message)];
        assert conns[..i + 1] == conns[..i] + [conns[i]];
        DroppedAppend(conns[..i], [conns[i]], result);
        if result(conns[i]) == Disconnected {
          disconnected := disconnected + [conns[i]];
        }
        i := i + 1;
      }
      assert conns[..i] == conns;

      var cur := RemoveDisconnected(conns, disconnected, result);
      activeSessions := activeSessions[sessionId := cur];
    }

    /** `start_listener`: registers the handle unless the session already has a listener. */
    method StartListener(sessionId: string, handle: ListenerHandle)
      modifies this
      ensures sessionId in old(snapshotListeners) ==> snapshotListeners == old(snapshotListeners)
      ensures sessionId !in old(snapshotListeners) ==> snapshotListeners == old(snapshotListeners)[sessionId := handle]
      ensures activeSessions == old(activeSessions) && detached == old(detached) && sends == old(sends)
    {
      if sessionId in snapshotListeners {
        return;
      }
      snapshotListeners := snapshotListeners[sessionId := handle];
    }
  }
}
