/** `WebSocketBaseServer` (src/base-server.ts) as a class.  Its fields are the
    server's mutable state: the group table, the custom data of every
    connected socket, the meta fetcher, the two observer lists, and two
    journals standing for the outside world: every observer call made and
    every `update` message emitted.  Each method is proved to change the
    state exactly as the matching function of the Directory module says,
    and to append to the journals exactly what Observers and Directory say. */
module Base {
  import opened Targets
  import opened Directory
  import opened Observers
  import opened DirectoryProperties

  class WebSocketBaseServer {
    var subscriptions: map<Key, Group>
    var sockets: map<SocketId, SocketData>
    var fetcher: Option<Fetcher>
    var subscriptionHandlers: seq<HandlerId>
    var socketHandlers: seq<HandlerId>
    /** Every observer call, in the order the calls were made. */
    var fired: seq<Call>
    /** Every `update` message sent to a socket, in order. */
    var emitted: seq<Emit>

    /** The directory the fields hold. */
    function State(): Dir
      reads this
    {
      Dir(subscriptions, sockets)
    }

    predicate Valid()
      reads this
    {
      Directory.Valid(State())
    }

    constructor ()
      ensures Valid()
      ensures State() == Dir(map[], map[]) && fetcher.None?
      ensures subscriptionHandlers == [] && socketHandlers == []
      ensures fired == [] && emitted == []
    {
      subscriptions := map[];
      sockets := map[];
      fetcher := None;
      subscriptionHandlers := [];
      socketHandlers := [];
      fired := [];
      emitted := [];
    }

    /** `setupSubscriptionMetaFetcher`. */
    method SetupSubscriptionMetaFetcher(cb: Fetcher)
      modifies this`fetcher
      ensures fetcher == Some(cb)
    {
      fetcher := Some(cb);
    }

    /** `handleSubscription`: observers run in registration order. */
    method HandleSubscription(h: HandlerId)
      modifies this`subscriptionHandlers
      ensures subscriptionHandlers == old(subscriptionHandlers) + [h]
    {
      subscriptionHandlers := subscriptionHandlers + [h];
    }

    /** `handleSocket`. */
    method HandleSocket(h: HandlerId)
      modifies this`socketHandlers
      ensures socketHandlers == old(socketHandlers) + [h]
    {
      socketHandlers := socketHandlers + [h];
    }

    /** `_initMiddleware`: a connecting socket starts with an empty context
        and empty indexes. */
    method Connect(s: SocketId)
      requires Valid()
      modifies this`sockets
      ensures Valid()
      ensures sockets == old(sockets)[s := SocketData(map[], map[], map[])]
    {
      sockets := sockets[s := SocketData(map[], map[], map[])];
    }

    /** `notifySocket`: the update goes to `s` only when `localTarget` is the
        key of one of its subscriptions, and carries that subscription's own
        local target. */
    method NotifySocket(s: SocketId, localTarget: Target, value: Value)
      modifies this`emitted
      ensures emitted == old(emitted) + NotifySocketEmits(State(), s, localTarget, value)
    {
      if s !in sockets {
        return;
      }
      var localId := MakeKey(localTarget);
      if localId !in sockets[s].localIdDict {
        return;
      }
      emitted := emitted + [Emit(s, sockets[s].localIdDict[localId].localTarget, value)];
    }

    /** `notifyAll`: every member socket of the group that still has custom
        data and a global index entry gets exactly one update, in the
        (unspecified) order the members are visited. */
    method NotifyAll(globalTarget: Target, value: Value)
      modifies this`emitted
      ensures |old(emitted)| <= |emitted| && emitted[..|old(emitted)|] == old(emitted)
      ensures Enumerates(emitted[|old(emitted)|..], Recipients(State(), globalTarget, value))
    {
      var g := MakeKey(globalTarget);
      if g !in subscriptions {
        assert emitted[|old(emitted)|..] == [];
        return;
      }
      ghost var all := Recipients(State(), globalTarget, value);
      var pending := subscriptions[g].sockets;
      ghost var sent: seq<Emit> := [];
      while pending != {}
        invariant pending <= subscriptions[g].sockets
        invariant emitted == old(emitted) + sent
        invariant NoDuplicates(sent)
        invariant forall e :: e in sent ==> e in all && e.socket !in pending
        invariant forall e :: e in all ==> e in sent || e.socket in pending
        decreases pending
      {
        var s :| s in pending;
        if s in sockets && g in sockets[s].globalIdDict {
          var e := Emit(s, sockets[s].globalIdDict[g].localTarget, value);
          assert e in all;
          emitted := emitted + [e];
          sent := sent + [e];
        }
        pending := pending - {s};
      }
      assert emitted[|old(emitted)|..] == sent;
    }

    /** `extractAllTargets`: the global target of every group, one per group
        in the order `order` enumerates the group keys. */
    function ExtractAllTargets(order: seq<Key>): (r: seq<Target>)
      reads this
      requires Enumerates(order, subscriptions.Keys)
      ensures |r| == |order|
      ensures forall i :: 0 <= i < |r| ==> r[i] == subscriptions[order[i]].globalTarget
      ensures Directory.Valid(State()) ==> forall t :: t in r <==> MakeKey(t) in subscriptions
    {
      var subs := subscriptions;
      var r := seq(|order|, i requires 0 <= i < |order| => subs[order[i]].globalTarget);
      TargetsCover(subs, order, r);
      r
    }
    /** `_processCreateGlobalSubscription`. */
    method ProcessCreate(tx: Tx, info: SubInfo) returns (tx': Tx)
      requires tx.socket in sockets
      requires info.globalId.Some? && info.globalTarget.Some?
      modifies this`subscriptions, this`sockets
      ensures Created(State(), tx') == Create(old(State()), tx, info)
    {
      var g := info.globalId.value;
      var s := tx.socket;
      tx' := tx.(localTarget := Some(info.localTarget), globalId := Some(g), globalTarget := info.globalTarget);
      var cd := sockets[s];
      sockets := sockets[s := cd.(globalIdDict := cd.globalIdDict[g := info])];
      if g !in subscriptions {
        tx' := tx'.(wasCreated := true);
        subscriptions := subscriptions[g := Group(g, info.globalTarget.value, {})];
      }
      var grp := subscriptions[g];
      subscriptions := subscriptions[g := grp.(sockets := grp.sockets + {s})];
    }

    /** `_processDeleteGlobalSubscription`; the cleared record is returned
        rather than updated in place. */
    method ProcessDelete(tx: Tx, info: SubInfo) returns (tx': Tx, info': SubInfo)
      requires tx.socket in sockets && info.globalId.Some?
      modifies this`subscriptions, this`sockets
      ensures Deleted(State(), tx', info') == Delete(old(State()), tx, info)
    {
      var g := info.globalId.value;
      var s := tx.socket;
      tx' := tx;
      if g in subscriptions {
        var grp := subscriptions[g];
        subscriptions := subscriptions[g := grp.(sockets := grp.sockets - {s})];
        if subscriptions[g].sockets == {} {
          subscriptions := subscriptions - {g};
          tx' := tx'.(wasDeleted := true);
        }
      }
      var cd := sockets[s];
      sockets := sockets[s := cd.(globalIdDict := cd.globalIdDict - {g})];
      info' := info.(globalId := None, globalTarget := None);
    }

    /** Store a record under its own local key of `s`. */
    method Store(s: SocketId, info: SubInfo)
      requires s in sockets
      modifies this`sockets
      ensures State() == WriteBack(old(State()), s, info)
    {
      var cd := sockets[s];
      sockets := sockets[s := cd.(localIdDict := cd.localIdDict[info.localId := info])];
    }

    /** `_handleGlobalSubscription`. */
    method HandleGlobalSubscription(s: SocketId, info: SubInfo) returns (tx: Option<Tx>)
      requires Stored(State(), s, info) && WellFormedInfo(info)
      modifies this`subscriptions, this`sockets
      ensures Resolved(State(), tx) == Resolve(old(State()), s, info)
    {
      var t := NewTransaction(s, info.meta);
      var newGlobalTarget := MakeGlobalTarget(info, sockets[s].context);
      if newGlobalTarget.None? {
        if info.globalTarget.Some? {
          var cleared;
          t, cleared := ProcessDelete(t, info);
          Store(s, cleared);
          tx := Some(t);
        } else {
          tx := None;
        }
      } else {
        var g := MakeKey(newGlobalTarget.value);
        if info.globalId.Some? && g == info.globalId.value {
          return None;
        }
        var current := info;
        if info.globalId.Some? {
          t, current := ProcessDelete(t, info);
        }
        current := current.(globalId := Some(g), globalTarget := newGlobalTarget);
        t := ProcessCreate(t, current);
        Store(s, current);
        tx := Some(t);
      }
    }

    /** `_trigger`: call the handlers in order and stop at the first one
        that fails; the failure is swallowed.  Returns the calls made. */
    method Trigger(handlers: seq<HandlerId>, args: Args, fails: Call -> bool) returns (calls: seq<Call>)
      ensures calls == Fired(handlers, args, fails)
    {
      calls := [];
      var i := 0;
      while i < |handlers|
        invariant 0 <= i <= |handlers|
        invariant calls + Fired(handlers[i..], args, fails) == Fired(handlers, args, fails)
      {
        var c := Call(handlers[i], args);
        FiredStep(handlers, args, fails, i);
        AppendAssoc(calls, [c], Fired(handlers[i + 1..], args, fails));
        calls := calls + [c];
        if fails(c) {
          return;
        }
        i := i + 1;
      }
      assert handlers[i..] == [];
    }

    /** `_completeTransaction`: the delete phase, the create phase, then the
        socket phase. */
    method CompleteTransaction(tx: Tx, fails: Call -> bool)
      modifies this`fired
      ensures fired == old(fired) + Completion(tx, subscriptionHandlers, socketHandlers, fails)
    {
      var del: seq<Call> := [];
      if tx.wasDeleted {
        del := Trigger(subscriptionHandlers, SubscriptionArgs(false, tx.deletedGlobalTarget, tx.meta), fails);
      }
      assert del == DeletePhase(tx, subscriptionHandlers, fails);
      var cre: seq<Call> := [];
      if tx.wasCreated {
        cre := Trigger(subscriptionHandlers, SubscriptionArgs(true, tx.globalTarget, tx.meta), fails);
      }
      assert cre == CreatePhase(tx, subscriptionHandlers, fails);
      var sck: seq<Call> := [];
      if tx.globalId.Some? {
        sck := Trigger(socketHandlers, SocketArgs(tx.globalTarget, tx.socket, tx.globalId.value, tx.localTarget, tx.meta), fails);
      }
      assert sck == SocketPhase(tx, socketHandlers, fails);
      fired := fired + (del + cre + sck);
    }

    /** `MyPromise.serial(txList, _completeTransaction)`. */
    method CompleteAll(txs: seq<Tx>, fails: Call -> bool)
      modifies this`fired
      ensures fired == old(fired) + CompletionAll(txs, subscriptionHandlers, socketHandlers, fails)
    {
      var i := 0;
      while i < |txs|
        invariant 0 <= i <= |txs|
        invariant fired == old(fired) + CompletionAll(txs[..i], subscriptionHandlers, socketHandlers, fails)
      {
        assert Init(txs[..i + 1]) == txs[..i] && Last(txs[..i + 1]) == txs[i];
        ghost var before := CompletionAll(txs[..i], subscriptionHandlers, socketHandlers, fails);
        CompleteTransaction(txs[i], fails);
        AppendAssoc(old(fired), before, Completion(txs[i], subscriptionHandlers, socketHandlers, fails));
        i := i + 1;
      }
      assert txs[..|txs|] == txs;
    }

    /** `_handleSubscribe`.  `ok` is false when the meta fetcher throws:
        the request then fails before anything changed. */
    method HandleSubscribe(s: SocketId, localTarget: Target, fails: Call -> bool) returns (ok: bool)
      requires Valid()
      modifies this`subscriptions, this`sockets, this`fired
      ensures Valid()
      ensures ok <==> !(s in old(sockets) && FetchSubscriptionMeta(fetcher, localTarget, s).None?)
      ensures !ok ==> State() == old(State()) && fired == old(fired)
      ensures ok ==>
        var meta := if s in old(sockets) then FetchSubscriptionMeta(fetcher, localTarget, s).value else EmptyMeta;
        var r := Subscribe(old(State()), s, localTarget, meta);
        State() == r.dir
        && fired == old(fired) + (if r.tx.Some? then Completion(r.tx.value, subscriptionHandlers, socketHandlers, fails) else [])
    {
      if s !in sockets {
        return true;
      }
      var meta := FetchSubscriptionMeta(fetcher, localTarget, s);
      if meta.None? {
        return false;
      }
      ghost var d := State();
      SubscribeKeepsGroupsNonEmpty(d, s, localTarget, meta.value);
      var info := FreshInfo(localTarget, meta.value);
      Store(s, info);
      var tx := HandleGlobalSubscription(s, info);
      if tx.Some? {
        CompleteTransaction(tx.value, fails);
      }
      ok := true;
    }

    /** `_handleUnsubscribe`. */
    method HandleUnsubscribe(s: SocketId, localTarget: Target, fails: Call -> bool)
      requires Valid()
      modifies this`subscriptions, this`sockets, this`fired
      ensures Valid()
      ensures var r := Unsubscribe(old(State()), s, localTarget);
        State() == r.dir
        && fired == old(fired) + (if r.tx.Some? then Completion(r.tx.value, subscriptionHandlers, socketHandlers, fails) else [])
    {
      if s !in sockets {
        return;
      }
      var localId := MakeKey(localTarget);
      var cd := sockets[s];
      if localId !in cd.localIdDict {
        return;
      }
      ghost var d := State();
      UnsubscribeKnown(d, s, localTarget);
      var info := cd.localIdDict[localId];
      sockets := sockets[s := cd.(localIdDict := cd.localIdDict - {info.localId})];
      if info.globalId.Some? {
        var tx, _ := ProcessDelete(NewTransaction(s, info.meta), info);
        CompleteTransaction(tx, fails);
      }
    }

    /** `_setupContext`: replace the context, re-resolve every stored
        subscription in the order `order` visits them, then complete the
        collected transactions one after another. */
    method SetupContext(s: SocketId, context: Option<Target>, order: seq<Key>, fails: Call -> bool)
      requires Valid()
      requires s in sockets ==> Enumerates(order, sockets[s].localIdDict.Keys)
      modifies this`subscriptions, this`sockets, this`fired
      ensures Valid()
      ensures s !in old(sockets) ==> State() == old(State()) && fired == old(fired)
      ensures s in old(sockets) ==>
        var b := ResolveAll(SetContext(old(State()), s, context), s, order);
        State() == b.dir && fired == old(fired) + CompletionAll(b.txs, subscriptionHandlers, socketHandlers, fails)
    {
      if s !in sockets {
        return;
      }
      var cd := sockets[s];
      sockets := sockets[s := cd.(context := context.GetOr(map[]))];
      assert State() == SetContext(old(State()), s, context);
      var txList := ResolveEach(s, order);
      CompleteAll(txList, fails);
    }

    /** The loop of `_setupContext`: re-resolve the stored subscriptions in
        the order `order` visits them, collecting the non-null
        transactions. */
    method ResolveEach(s: SocketId, order: seq<Key>) returns (txList: seq<Tx>)
      requires Valid() && s in sockets
      requires forall k :: k in order ==> k in sockets[s].localIdDict
      modifies this`subscriptions, this`sockets
      ensures Batch(State(), txList) == ResolveAll(old(State()), s, order)
    {
      ghost var start := State();
      txList := [];
      var i := 0;
      while i < |order|
        invariant 0 <= i <= |order|
        invariant Batch(State(), txList) == ResolveAll(start, s, order[..i])
      {
        ResolveAllStep(start, s, order, i);
        var info := sockets[s].localIdDict[order[i]];
        var tx := HandleGlobalSubscription(s, info);
        if tx.Some? {
          txList := txList + [tx.value];
        }
        i := i + 1;
      }
      assert order[..|order|] == order;
    }

    /** `_removeAllSubscriptions`: the records are read once, before any of
        them is deleted, in the order `order` visits them. */
    method RemoveAllSubscriptions(s: SocketId, order: seq<Key>, fails: Call -> bool)
      requires Valid()
      requires s in sockets ==> Enumerates(order, sockets[s].localIdDict.Keys)
      modifies this`subscriptions, this`sockets, this`fired
      ensures Valid()
      ensures var b := Directory.RemoveAllSubscriptions(old(State()), s, order);
        State() == b.dir && fired == old(fired) + CompletionAll(b.txs, subscriptionHandlers, socketHandlers, fails)
    {
      if s !in sockets {
        return;
      }
      ghost var start := State();
      RemoveAllEffect(start, s, order);
      var lid := sockets[s].localIdDict;
      var txList := DeleteEach(s, lid, order);
      var cd := sockets[s];
      sockets := sockets[s := cd.(localIdDict := map[], globalIdDict := map[])];
      CompleteAll(txList, fails);
    }

    /** The loop of `_removeAllSubscriptions` over the records `lid` read
        before it starts. */
    method DeleteEach(s: SocketId, lid: map<Key, SubInfo>, order: seq<Key>) returns (txList: seq<Tx>)
      requires Valid() && s in sockets
      requires forall k :: k in order ==> k in lid
      modifies this`subscriptions, this`sockets
      ensures Batch(State(), txList) == DeleteAll(old(State()), s, lid, order)
    {
      ghost var start := State();
      txList := [];
      var i := 0;
      while i < |order|
        invariant 0 <= i <= |order|
        invariant Batch(State(), txList) == DeleteAll(start, s, lid, order[..i])
      {
        DeleteAllStep(start, s, lid, order, i);
        var info := lid[order[i]];
        if info.globalId.Some? {
          var tx, _ := ProcessDelete(NewTransaction(s, info.meta), info);
          txList := txList + [tx];
        }
        i := i + 1;
      }
      assert order[..|order|] == order;
    }

    /** `_handleDisconnect`: remove all subscriptions, then drop the
        socket's custom data. */
    method HandleDisconnect(s: SocketId, order: seq<Key>, fails: Call -> bool)
      requires Valid()
      requires s in sockets ==> Enumerates(order, sockets[s].localIdDict.Keys)
      modifies this`subscriptions, this`sockets, this`fired
      ensures Valid()
      ensures var b := Disconnect(old(State()), s, order);
        State() == b.dir && fired == old(fired) + CompletionAll(b.txs, subscriptionHandlers, socketHandlers, fails)
    {
      RemoveAllSubscriptions(s, order, fails);
      sockets := sockets - {s};
    }
  }


  /** Under the directory invariant a target is listed iff its key is a
      group key. */
  lemma TargetsCover(subs: map<Key, Group>, order: seq<Key>, r: seq<Target>)
    requires Enumerates(order, subs.Keys) && |r| == |order|
    requires forall i :: 0 <= i < |r| ==> r[i] == subs[order[i]].globalTarget
    ensures (forall g :: g in subs ==> MakeKey(subs[g].globalTarget) == g) ==> forall t :: t in r <==> MakeKey(t) in subs
  {
    if (forall g :: g in subs ==> MakeKey(subs[g].globalTarget) == g) {
      forall t ensures t in r <==> MakeKey(t) in subs {
        if MakeKey(t) in subs {
          var i :| 0 <= i < |order| && order[i] == MakeKey(t);
          assert r[i] == t;
        }
      }
    }
  }
}
