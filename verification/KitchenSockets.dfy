/** The kitchen's WebSocket registry: two dictionaries that must describe the same
    connections, and broadcasts that await between sends while others connect and
    disconnect. A socket is an opaque identity. */
module KitchenSockets {

  type Socket = int

  /** `byStore` is store → {socket → connection id}; `storeOf` the reverse index. */
  datatype Registry = Registry(byStore: map<int, map<Socket, string>>, storeOf: map<Socket, int>)

  /** What runs between two awaits: the registration after accept(), or a disconnect. */
  datatype Op = Register(socket: Socket, store: int, id: string) | Unregister(socket: Socket)

  function BucketOf(r: Registry, store: int): map<Socket, string> {
    if store in r.byStore then r.byStore[store] else map[]
  }

  function Apply(r: Registry, op: Op): Registry {
    match op
    case Register(ws, store, id) =>
      Registry(r.byStore[store := BucketOf(r, store)[ws := id]], r.storeOf[ws := store])
    case Unregister(ws) =>
      if ws !in r.storeOf then r
      else
        var store := r.storeOf[ws];
        var left := BucketOf(r, store) - {ws};
        Registry(if store !in r.byStore then r.byStore
                 else if left == map[] then r.byStore - {store}
                 else r.byStore[store := left],
                 r.storeOf - {ws})
  }

  function ApplyAll(r: Registry, ops: seq<Op>): Registry {
    if |ops| == 0 then r else Apply(ApplyAll(r, ops[..|ops| - 1]), ops[|ops| - 1])
  }

  const EMPTY := Registry(map[], map[])

  lemma {:induction false} ApplyAllConcat(r: Registry, a: seq<Op>, b: seq<Op>)
    ensures ApplyAll(r, a + b) == ApplyAll(ApplyAll(r, a), b)
  {
    if |b| == 0 {
      assert a + b == a;
    } else {
      assert (a + b)[..|a + b| - 1] == a + b[..|b| - 1];
      ApplyAllConcat(r, a, b[..|b| - 1]);
    }
  }

  // ── The indexes agree ──────────────────────────────────────────────────────

  predicate Listed(r: Registry, ws: Socket, store: int) { store in r.byStore && ws in r.byStore[store] }

  /** A socket is in a store's bucket exactly when the reverse index says so, and no
      bucket is left empty. */
  ghost predicate Agrees(r: Registry) {
    && (forall ws, store :: Listed(r, ws, store) <==> ws in r.storeOf && r.storeOf[ws] == store)
    && (forall store :: store in r.byStore ==> r.byStore[store] != map[])
  }

  /** Registering keeps the indexes in agreement exactly when the socket is new or
      comes back to the same store: elsewhere it would stay in its old bucket. */
  lemma RegisterAgreesExactlyWhen(r: Registry, ws: Socket, store: int, id: string)
    requires Agrees(r)
    ensures Agrees(Apply(r, Register(ws, store, id))) <==> ws !in r.storeOf || r.storeOf[ws] == store
  {
    var after := Apply(r, Register(ws, store, id));
    if ws in r.storeOf && r.storeOf[ws] != store {
      assert Listed(r, ws, r.storeOf[ws]) && Listed(after, ws, r.storeOf[ws]);
    } else {
      forall x, s ensures Listed(after, x, s) <==> x in after.storeOf && after.storeOf[x] == s {
        assert Listed(r, x, s) <==> x in r.storeOf && r.storeOf[x] == s;
      }
      forall s | s in after.byStore ensures after.byStore[s] != map[] {
        if s == store { assert ws in after.byStore[s]; }
      }
    }
  }

  lemma UnregisterAgrees(r: Registry, ws: Socket)
    requires Agrees(r)
    ensures Agrees(Apply(r, Unregister(ws)))
  {
    var after := Apply(r, Unregister(ws));
    if ws in r.storeOf {
      var store := r.storeOf[ws];
      assert Listed(r, ws, store);
      var left := BucketOf(r, store) - {ws};
      assert forall x :: x in left <==> x in r.byStore[store] && x != ws;
      assert left == map[] ==> forall x :: x !in left;
      forall x, s ensures Listed(after, x, s) <==> x in after.storeOf && after.storeOf[x] == s {
        assert Listed(r, x, s) <==> x in r.storeOf && r.storeOf[x] == s;
        assert s != store ==> (Listed(after, x, s) <==> Listed(r, x, s));
        assert s == store ==> (Listed(after, x, s) <==> Listed(r, x, s) && x != ws);
      }
    }
  }

  /** disconnect() is idempotent. */
  lemma UnregisterTwice(r: Registry, ws: Socket)
    ensures var once := Apply(r, Unregister(ws));
            Apply(once, Unregister(ws)) == once && ws !in once.storeOf
  {}

  // ── Whole histories ────────────────────────────────────────────────────────

  /** The router registers each socket once: the route handler's own connection. */
  ghost predicate ConnectedOnce(ops: seq<Op>) {
    forall j, k :: 0 <= j < k < |ops| && ops[j].Register? && ops[k].Register? ==> ops[j].socket != ops[k].socket
  }

  /** Whoever is registered got there by a Register of this history. */
  lemma {:induction false} RegisteredBy(ops: seq<Op>, n: nat, ws: Socket)
    requires n <= |ops| && ws in ApplyAll(EMPTY, ops[..n]).storeOf
    ensures exists k :: 0 <= k < n && ops[k].Register? && ops[k].socket == ws
              && ops[k].store == ApplyAll(EMPTY, ops[..n]).storeOf[ws]
  {
    if n > 0 {
      assert ops[..n][..n - 1] == ops[..n - 1];
      if !(ops[n - 1].Register? && ops[n - 1].socket == ws) {
        RegisteredBy(ops, n - 1, ws);
      }
    }
  }

  lemma FirstTime(ops: seq<Op>, n: nat)
    requires ConnectedOnce(ops) && n < |ops| && ops[n].Register?
    ensures ops[n].socket !in ApplyAll(EMPTY, ops[..n]).storeOf
  {
    if ops[n].socket in ApplyAll(EMPTY, ops[..n]).storeOf {
      RegisteredBy(ops, n, ops[n].socket);
    }
  }

  /** However connects and disconnects interleave, the indexes agree. */
  lemma {:induction false} EveryHistoryAgrees(ops: seq<Op>, n: nat)
    requires ConnectedOnce(ops) && n <= |ops|
    ensures Agrees(ApplyAll(EMPTY, ops[..n]))
  {
    if n > 0 {
      assert ops[..n][..n - 1] == ops[..n - 1];
      EveryHistoryAgrees(ops, n - 1);
      match ops[n - 1] {
        case Unregister(ws) => UnregisterAgrees(ApplyAll(EMPTY, ops[..n - 1]), ws);
        case Register(ws, store, id) =>
          FirstTime(ops, n - 1);
          RegisterAgreesExactlyWhen(ApplyAll(EMPTY, ops[..n - 1]), ws, store, id);
      }
    }
  }

  /** A broadcast reaches its own store only: whoever is in the bucket when the
      snapshot is taken has been registered under no other store, and never will be. */
  lemma SnapshotsStayInTheirStore(ops: seq<Op>, n: nat, ws: Socket, store: int, k: nat)
    requires ConnectedOnce(ops) && n <= |ops| && Listed(ApplyAll(EMPTY, ops[..n]), ws, store)
    requires k < |ops| && ops[k].Register? && ops[k].socket == ws
    ensures ops[k].store == store
  {
    EveryHistoryAgrees(ops, n);
    assert ApplyAll(EMPTY, ops[..n]).storeOf[ws] == store;
    RegisteredBy(ops, n, ws);
  }

  // ── The manager ────────────────────────────────────────────────────────────

  /** What ran during the n-th await; nothing when nobody was waiting. */
  function During(awaits: seq<seq<Op>>, n: nat): seq<Op> { if n < |awaits| then awaits[n] else [] }

  function Awaited(awaits: seq<seq<Op>>, n: nat): seq<Op> {
    if n == 0 then [] else Awaited(awaits, n - 1) + During(awaits, n - 1)
  }

  function Removals(dead: seq<Socket>): (r: seq<Op>)
    ensures |r| == |dead| && forall k :: 0 <= k < |r| ==> r[k] == Unregister(dead[k])
  {
    seq(|dead|, k requires 0 <= k < |dead| => Unregister(dead[k]))
  }

  /** list(bucket): the keys, in some order. */
  method Snapshot(bucket: map<Socket, string>) returns (keys: seq<Socket>)
    ensures forall ws :: ws in keys <==> ws in bucket
    ensures forall j, k :: 0 <= j < k < |keys| ==> keys[j] != keys[k]
  {
    keys := [];
    var left := bucket.Keys;
    while exists ws :: ws in left
      invariant left <= bucket.Keys
      invariant forall ws :: ws in keys <==> ws in bucket.Keys - left
      invariant forall j, k :: 0 <= j < k < |keys| ==> keys[j] != keys[k]
      decreases |left|
    {
      var ws :| ws in left;
      assert ws !in keys;
      keys := keys + [ws];
      left := left - {ws};
    }
  }

  class Manager {
    var byStore: map<int, map<Socket, string>>
    var storeOf: map<Socket, int>

    constructor ()
      ensures State() == EMPTY
    {
      byStore, storeOf := map[], map[];
    }

    function State(): Registry
      reads this
    {
      Registry(byStore, storeOf)
    }

    /** connect(), from the moment accept() returned. */
    method Connect(ws: Socket, store: int, id: string)
      modifies this
      ensures State() == Apply(old(State()), Register(ws, store, id))
      ensures storeOf == old(storeOf)[ws := store]
      ensures forall s, x :: Listed(State(), x, s) <==> Listed(old(State()), x, s) || (s == store && x == ws)
      ensures forall s, x :: Listed(State(), x, s) ==>
                byStore[s][x] == if s == store && x == ws then id else old(byStore)[s][x]
    {
      if store !in byStore { byStore := byStore[store := map[]]; }
      byStore := byStore[store := byStore[store][ws := id]];
      storeOf := storeOf[ws := store];
      assert byStore == Apply(old(State()), Register(ws, store, id)).byStore;
    }

    method Disconnect(ws: Socket)
      modifies this
      ensures State() == Apply(old(State()), Unregister(ws))
      ensures storeOf == old(storeOf) - {ws}
      ensures forall s, x :: Listed(State(), x, s) <==>
                Listed(old(State()), x, s) && !(x == ws && ws in old(storeOf) && old(storeOf)[ws] == s)
      ensures forall s, x :: Listed(State(), x, s) ==> byStore[s][x] == old(byStore)[s][x]
    {
      if ws !in storeOf { return; }
      var store := storeOf[ws];
      storeOf := storeOf - {ws};
      if store in byStore {
        byStore := byStore[store := byStore[store] - {ws}];
        assert forall x :: x in old(byStore)[store] && x != ws ==> x in byStore[store];
        if byStore[store] == map[] {
          byStore := byStore - {store};
          assert byStore == old(byStore) - {store};
        }
      }
    }

    /** What other coroutines did while this one awaited. */
    method Interfere(ops: seq<Op>)
      modifies this
      ensures State() == ApplyAll(old(State()), ops)
    {
      for n := 0 to |ops|
        invariant State() == ApplyAll(old(State()), ops[..n])
      {
        assert ops[..n + 1][..n] == ops[..n];
        match ops[n] {
          case Register(ws, store, id) => Connect(ws, store, id);
          case Unregister(ws) => Disconnect(ws);
        }
      }
      assert ops[..|ops|] == ops;
    }

    method Clean(dead: seq<Socket>)
      modifies this
      ensures State() == ApplyAll(old(State()), Removals(dead))
    {
      for n := 0 to |dead|
        invariant State() == ApplyAll(old(State()), Removals(dead[..n]))
      {
        assert Removals(dead[..n + 1]) == Removals(dead[..n]) + [Unregister(dead[n])];
        ApplyAllConcat(old(State()), Removals(dead[..n]), [Unregister(dead[n])]);
        Disconnect(dead[n]);
      }
      assert dead[..|dead|] == dead;
    }

    /** `awaits` holds what ran during each send, `failing` the sockets whose send
        raises. Every socket of the snapshot is tried once, nobody else is, whatever
        happens meanwhile; afterwards the dead are unregistered. */
    method Broadcast(store: int, awaits: seq<seq<Op>>, failing: set<Socket>)
      returns (sent: seq<Socket>, ghost trace: seq<Op>)
      modifies this
      ensures forall ws :: ws in sent <==> Listed(old(State()), ws, store)
      ensures forall j, k :: 0 <= j < k < |sent| ==> sent[j] != sent[k]
      ensures State() == ApplyAll(old(State()), trace)
      ensures exists dead: seq<Socket> ::
                && trace == Awaited(awaits, |sent|) + Removals(dead)
                && forall ws :: ws in dead <==> ws in sent && ws in failing
    {
      sent, trace := [], [];
      var dead: seq<Socket> := [];
      if store !in byStore {
        assert trace == Awaited(awaits, 0) + Removals(dead);
        return;
      }
      var bucket := Snapshot(byStore[store]);
      for n := 0 to |bucket|
        invariant sent == bucket[..n]
        invariant State() == ApplyAll(old(State()), Awaited(awaits, n))
        invariant forall ws :: ws in dead <==> ws in sent && ws in failing
      {
        ApplyAllConcat(old(State()), Awaited(awaits, n), During(awaits, n));
        Interfere(During(awaits, n));
        sent := sent + [bucket[n]];
        if bucket[n] in failing { dead := dead + [bucket[n]]; }
      }
      Clean(dead);
      trace := Awaited(awaits, |sent|) + Removals(dead);
      ApplyAllConcat(old(State()), Awaited(awaits, |sent|), Removals(dead));
    }
  }

  /** The whole promise of a broadcast started after n steps of any history: each of
      its sends goes to a socket that belongs to that store and to no other, before
      and after. */
  lemma BroadcastsNeverCross(ops: seq<Op>, n: nat, sent: seq<Socket>, store: int, ws: Socket, k: nat)
    requires ConnectedOnce(ops) && n <= |ops|
    requires forall x :: x in sent <==> Listed(ApplyAll(EMPTY, ops[..n]), x, store)
    requires ws in sent && k < |ops| && ops[k].Register? && ops[k].socket == ws
    ensures ops[k].store == store
  {
    SnapshotsStayInTheirStore(ops, n, ws, store, k);
  }
}
