/** What the directory operations of src/base-server.ts promise, proved
    about the functions of module Directory. */
module DirectoryProperties {
  import opened Targets
  import opened Directory

  /** `_handleGlobalSubscription` produces no transaction exactly when the
      target is unresolvable and no global target was held, or when it
      resolves to the key already held; in both cases nothing changes. */
  lemma ResolveNoOp(d: Dir, s: SocketId, info: SubInfo)
    requires Stored(d, s, info) && WellFormedInfo(info)
    ensures var ng := MakeGlobalTarget(info, d.sockets[s].context);
      Resolve(d, s, info).tx.None? <==>
        (ng.None? && info.globalTarget.None?) || (ng.Some? && info.globalId == Some(MakeKey(ng.value)))
    ensures Resolve(d, s, info).tx.None? ==> Resolve(d, s, info).dir == d
  {
    var ng := MakeGlobalTarget(info, d.sockets[s].context);
    var tx := NewTransaction(s, info.meta);
    if ng.Some? && !(info.globalId.Some? && MakeKey(ng.value) == info.globalId.value) {
      var del := if info.globalId.Some? then Delete(d, tx, info) else Deleted(d, tx, info);
      var info' := del.info.(globalId := Some(MakeKey(ng.value)), globalTarget := ng);
      assert Resolve(d, s, info).tx == Some(Create(del.dir, del.tx, info').tx);
    }
  }

  /** An unresolvable subscription that held a global target yields a
      delete-only transaction and is left without a global key. */
  lemma ResolveUnresolvable(d: Dir, s: SocketId, info: SubInfo)
    requires Stored(d, s, info) && WellFormedInfo(info) && info.globalTarget.Some?
    requires MakeGlobalTarget(info, d.sockets[s].context).None?
    ensures var r := Resolve(d, s, info);
      && r.tx.Some? && !r.tx.value.wasCreated && r.tx.value.globalId.None?
      && info.localId in r.dir.sockets[s].localIdDict
      && r.dir.sockets[s].localIdDict[info.localId].globalId.None?
      && r.dir.sockets[s].localIdDict[info.localId].globalTarget.None?
      && info.globalId.value !in r.dir.sockets[s].globalIdDict
  {
    DeleteFrame(d, NewTransaction(s, info.meta), info);
  }

  /** After `_processCreateGlobalSubscription` the socket is a member of
      group `g`, its global index maps `g` to the subscription, the
      transaction carries `g`, and it is marked created iff `g` had no group
      before.  Other groups are untouched and an existing group keeps its
      target. */
  lemma CreateEffect(d: Dir, tx: Tx, info: SubInfo)
    requires tx.socket in d.sockets && info.globalId.Some? && info.globalTarget.Some? && !tx.wasCreated
    ensures var r := Create(d, tx, info); var g := info.globalId.value;
      && g in r.dir.subscriptions && tx.socket in r.dir.subscriptions[g].sockets
      && r.dir.subscriptions[g].sockets == (if g in d.subscriptions then d.subscriptions[g].sockets else {}) + {tx.socket}
      && r.dir.subscriptions[g].globalTarget == (if g in d.subscriptions then d.subscriptions[g].globalTarget else info.globalTarget.value)
      && r.dir.sockets[tx.socket].globalIdDict[g] == info
      && r.tx.globalId == Some(g) && r.tx.globalTarget == info.globalTarget && r.tx.localTarget == Some(info.localTarget)
      && (r.tx.wasCreated <==> g !in d.subscriptions)
      && r.tx.wasDeleted == tx.wasDeleted
      && (forall h :: h != g ==> (h in r.dir.subscriptions <==> h in d.subscriptions))
      && (forall h :: h != g && h in d.subscriptions ==> r.dir.subscriptions[h] == d.subscriptions[h])
  {
  }

  /** After `_processDeleteGlobalSubscription` the socket is no longer in
      group `g`; the group is gone, and the transaction marked deleted, iff
      the socket was its last member; the global index entry is removed and
      the subscription's global key and target are cleared.  Other groups
      are untouched, and the deleted target is never recorded. */
  lemma DeleteEffect(d: Dir, tx: Tx, info: SubInfo)
    requires tx.socket in d.sockets && info.globalId.Some? && !tx.wasDeleted
    ensures var r := Delete(d, tx, info); var g := info.globalId.value; var s := tx.socket;
      && (g in r.dir.subscriptions ==> s !in r.dir.subscriptions[g].sockets)
      && (r.tx.wasDeleted <==> g in d.subscriptions && d.subscriptions[g].sockets <= {s})
      && (g in r.dir.subscriptions <==> g in d.subscriptions && !(d.subscriptions[g].sockets <= {s}))
      && (g in r.dir.subscriptions ==> r.dir.subscriptions[g].sockets == d.subscriptions[g].sockets - {s})
      && g !in r.dir.sockets[s].globalIdDict
      && r.info.globalId.None? && r.info.globalTarget.None?
      && r.tx.deletedGlobalTarget == tx.deletedGlobalTarget && r.tx.wasCreated == tx.wasCreated
      && (forall h :: h != g ==> (h in r.dir.subscriptions <==> h in d.subscriptions))
      && (forall h :: h != g && h in d.subscriptions ==> r.dir.subscriptions[h] == d.subscriptions[h])
  {
    var g := info.globalId.value;
    var s := tx.socket;
    if g in d.subscriptions {
      var left := d.subscriptions[g].sockets - {s};
      assert left == {} <==> d.subscriptions[g].sockets <= {s};
    }
  }

  /** Every group left in the table has at least one member, after any
      subscribe. */
  lemma SubscribeKeepsGroupsNonEmpty(d: Dir, s: SocketId, localTarget: Target, meta: Meta)
    requires Valid(d)
    ensures Valid(Subscribe(d, s, localTarget, meta).dir)
    ensures forall g :: g in Subscribe(d, s, localTarget, meta).dir.subscriptions ==>
      Subscribe(d, s, localTarget, meta).dir.subscriptions[g].sockets != {}
  {
    if s in d.sockets {
      var info := FreshInfo(localTarget, meta);
      WriteBackPreservesValid(d, s, info);
      ResolvePreservesValid(WriteBack(d, s, info), s, info);
    }
  }

  /** `_handleSubscribe` on a socket with custom data, with a target that
      cannot be resolved yet: the fresh record is parked under its local key
      (replacing any earlier record), no group changes and no transaction
      results. */
  lemma SubscribeParked(d: Dir, s: SocketId, localTarget: Target, meta: Meta)
    requires Valid(d) && s in d.sockets
    requires MakeGlobalTarget(FreshInfo(localTarget, meta), d.sockets[s].context).None?
    ensures var r := Subscribe(d, s, localTarget, meta);
      && r.tx.None? && r.dir.subscriptions == d.subscriptions
      && r.dir.sockets == d.sockets[s := d.sockets[s].(localIdDict := d.sockets[s].localIdDict[MakeKey(localTarget) := FreshInfo(localTarget, meta)])]
  {
  }

  /** `_handleSubscribe` when the target resolves: the fresh record is
      stored, joins its group, and is written back carrying the key. */
  lemma SubscribeUnfold(d: Dir, s: SocketId, localTarget: Target, meta: Meta)
    requires Valid(d) && s in d.sockets
    requires MakeGlobalTarget(FreshInfo(localTarget, meta), d.sockets[s].context).Some?
    ensures var info := FreshInfo(localTarget, meta);
      var d1 := WriteBack(d, s, info);
      var ng := MakeGlobalTarget(info, d.sockets[s].context);
      var info' := info.(globalId := Some(MakeKey(ng.value)), globalTarget := ng);
      var c := Create(d1, NewTransaction(s, meta), info');
      Subscribe(d, s, localTarget, meta) == Resolved(WriteBack(c.dir, s, info'), Some(c.tx))
  {
  }

  /** The transaction of `_handleSubscribe` when the target resolves to
      key `g`: it carries `g`, deletes nothing, and is marked created iff
      `g` had no group. */
  lemma SubscribeJoinsTx(d: Dir, s: SocketId, localTarget: Target, meta: Meta)
    requires Valid(d) && s in d.sockets
    requires MakeGlobalTarget(FreshInfo(localTarget, meta), d.sockets[s].context).Some?
    ensures var r := Subscribe(d, s, localTarget, meta);
      var info := FreshInfo(localTarget, meta);
      var ng := MakeGlobalTarget(info, d.sockets[s].context);
      var g := MakeKey(ng.value);
      && r.tx.Some? && !r.tx.value.wasDeleted && r.tx.value.globalId == Some(g) && r.tx.value.globalTarget == ng
      && r.tx.value.socket == s && r.tx.value.meta == meta
      && (r.tx.value.wasCreated <==> g !in d.subscriptions)
  {
    var info := FreshInfo(localTarget, meta);
    var d1 := WriteBack(d, s, info);
    var ng := MakeGlobalTarget(info, d1.sockets[s].context);
    var info' := info.(globalId := Some(MakeKey(ng.value)), globalTarget := ng);
    var tx := NewTransaction(s, meta);
    var c := Create(d1, tx, info');
    SubscribeUnfold(d, s, localTarget, meta);
    CreateEffect(d1, tx, info');
  }

  /** The group table after `_handleSubscribe` when the target resolves to
      key `g`: the socket has joined group `g` and no other group changed. */
  lemma SubscribeJoinsGroup(d: Dir, s: SocketId, localTarget: Target, meta: Meta)
    requires Valid(d) && s in d.sockets
    requires MakeGlobalTarget(FreshInfo(localTarget, meta), d.sockets[s].context).Some?
    ensures var r := Subscribe(d, s, localTarget, meta);
      var info := FreshInfo(localTarget, meta);
      var ng := MakeGlobalTarget(info, d.sockets[s].context);
      var g := MakeKey(ng.value);
      && g in r.dir.subscriptions
      && r.dir.subscriptions[g].sockets == (if g in d.subscriptions then d.subscriptions[g].sockets else {}) + {s}
      && (forall h :: h != g ==> (h in r.dir.subscriptions <==> h in d.subscriptions))
      && (forall h :: h != g && h in d.subscriptions ==> r.dir.subscriptions[h] == d.subscriptions[h])
  {
    var info := FreshInfo(localTarget, meta);
    var d1 := WriteBack(d, s, info);
    var ng := MakeGlobalTarget(info, d1.sockets[s].context);
    var info' := info.(globalId := Some(MakeKey(ng.value)), globalTarget := ng);
    var tx := NewTransaction(s, meta);
    var c := Create(d1, tx, info');
    SubscribeUnfold(d, s, localTarget, meta);
    CreateEffect(d1, tx, info');
  }

  /** The socket's data after `_handleSubscribe` when the target resolves
      to key `g`: the stored record is the fresh one carrying `g`, and the
      context is unchanged. */
  lemma SubscribeJoinsRecord(d: Dir, s: SocketId, localTarget: Target, meta: Meta)
    requires Valid(d) && s in d.sockets
    requires MakeGlobalTarget(FreshInfo(localTarget, meta), d.sockets[s].context).Some?
    ensures var r := Subscribe(d, s, localTarget, meta);
      var info := FreshInfo(localTarget, meta);
      var ng := MakeGlobalTarget(info, d.sockets[s].context);
      var g := MakeKey(ng.value);
      && r.dir.sockets.Keys == d.sockets.Keys && r.dir.sockets[s].context == d.sockets[s].context
      && r.dir.sockets[s].localIdDict == d.sockets[s].localIdDict[info.localId := info.(globalId := Some(g), globalTarget := ng)]
  {
    var info := FreshInfo(localTarget, meta);
    var d1 := WriteBack(d, s, info);
    var ng := MakeGlobalTarget(info, d1.sockets[s].context);
    var info' := info.(globalId := Some(MakeKey(ng.value)), globalTarget := ng);
    var tx := NewTransaction(s, meta);
    var c := Create(d1, tx, info');
    SubscribeUnfold(d, s, localTarget, meta);
    assert c.dir.sockets[s].localIdDict == d.sockets[s].localIdDict[info.localId := info];
    assert d.sockets[s].localIdDict[info.localId := info][info.localId := info'] == d.sockets[s].localIdDict[info.localId := info'];
  }

  /** Re-subscribing the same local target with the same metadata and
      context changes no group and creates or deletes none: only the
      socket handlers fire again, for the same global key. */
  lemma ResubscribeCreatesNothing(d: Dir, s: SocketId, localTarget: Target, meta: Meta)
    requires Valid(d) && s in d.sockets
    ensures var r1 := Subscribe(d, s, localTarget, meta);
      var r2 := Subscribe(r1.dir, s, localTarget, meta);
      && r2.dir.subscriptions == r1.dir.subscriptions
      && (r2.tx.Some? <==> r1.tx.Some?)
      && (r2.tx.Some? ==> !r2.tx.value.wasCreated && !r2.tx.value.wasDeleted && r2.tx.value.globalId == r1.tx.value.globalId)
  {
    var r1 := Subscribe(d, s, localTarget, meta);
    SubscribeKeepsGroupsNonEmpty(d, s, localTarget, meta);
    var ng := MakeGlobalTarget(FreshInfo(localTarget, meta), d.sockets[s].context);
    if ng.None? {
      SubscribeParked(d, s, localTarget, meta);
      SubscribeParked(r1.dir, s, localTarget, meta);
    } else {
      SubscribeJoinsTx(d, s, localTarget, meta);
      SubscribeJoinsRecord(d, s, localTarget, meta);
      SubscribeJoinsGroup(d, s, localTarget, meta);
      SubscribeAsMember(r1.dir, s, localTarget, meta);
    }
  }

  /** Subscribing a socket to a group it already belongs to leaves the
      group table as it is and creates nothing. */
  lemma SubscribeAsMember(d: Dir, s: SocketId, localTarget: Target, meta: Meta)
    requires Valid(d) && s in d.sockets
    requires MakeGlobalTarget(FreshInfo(localTarget, meta), d.sockets[s].context).Some?
    requires var g := MakeKey(MakeGlobalTarget(FreshInfo(localTarget, meta), d.sockets[s].context).value);
      g in d.subscriptions && s in d.subscriptions[g].sockets
    ensures var r := Subscribe(d, s, localTarget, meta);
      var g := MakeKey(MakeGlobalTarget(FreshInfo(localTarget, meta), d.sockets[s].context).value);
      && r.dir.subscriptions == d.subscriptions
      && r.tx.Some? && !r.tx.value.wasCreated && !r.tx.value.wasDeleted && r.tx.value.globalId == Some(g)
  {
    SubscribeJoinsTx(d, s, localTarget, meta);
    SubscribeJoinsGroup(d, s, localTarget, meta);
    var r := Subscribe(d, s, localTarget, meta);
    var g := MakeKey(MakeGlobalTarget(FreshInfo(localTarget, meta), d.sockets[s].context).value);
    assert r.dir.subscriptions[g] == d.subscriptions[g];
    assert r.dir.subscriptions.Keys == d.subscriptions.Keys;
  }

  /** Unsubscribing a local target the socket does not hold changes nothing. */
  lemma UnsubscribeUnknown(d: Dir, s: SocketId, localTarget: Target)
    requires s !in d.sockets || MakeKey(localTarget) !in d.sockets[s].localIdDict
    ensures Unsubscribe(d, s, localTarget) == Resolved(d, None)
  {
  }

  /** Unsubscribing a held local target removes its record; a transaction
      results iff the record held a global key, and it only deletes. */
  lemma UnsubscribeKnown(d: Dir, s: SocketId, localTarget: Target)
    requires Valid(d) && s in d.sockets && MakeKey(localTarget) in d.sockets[s].localIdDict
    ensures var r := Unsubscribe(d, s, localTarget); var info := d.sockets[s].localIdDict[MakeKey(localTarget)];
      && s in r.dir.sockets
      && r.dir.sockets[s].localIdDict == d.sockets[s].localIdDict - {MakeKey(localTarget)}
      && (r.tx.Some? <==> info.globalId.Some?)
      && (r.tx.Some? ==> !r.tx.value.wasCreated && r.tx.value.globalId.None? && r.tx.value.meta == info.meta
                         && info.globalId.value !in r.dir.sockets[s].globalIdDict)
      && (r.tx.Some? ==> var g := info.globalId.value;
            && (r.tx.value.wasDeleted <==> g in d.subscriptions && d.subscriptions[g].sockets <= {s})
            && (g in r.dir.subscriptions <==> g in d.subscriptions && !(d.subscriptions[g].sockets <= {s})))
      && (r.tx.None? ==> r.dir.subscriptions == d.subscriptions)
      && Valid(r.dir)
  {
    var cd := d.sockets[s];
    var info := cd.localIdDict[MakeKey(localTarget)];
    var d1 := d.(sockets := d.sockets[s := cd.(localIdDict := cd.localIdDict - {info.localId})]);
    assert Valid(d1);
    if info.globalId.Some? {
      DeletePreservesValid(d1, NewTransaction(s, info.meta), info);
      DeleteFrame(d1, NewTransaction(s, info.meta), info);
      DeleteEffect(d1, NewTransaction(s, info.meta), info);
    }
  }

  /** `_setupContext` replaces the context wholesale: the new context is the
      given object, or empty when the given one is falsy. */
  lemma SetContextReplaces(d: Dir, s: SocketId, context: Option<Target>)
    requires Valid(d) && s in d.sockets
    ensures var d' := SetContext(d, s, context);
      && Valid(d') && d'.subscriptions == d.subscriptions
      && d'.sockets[s].context == (if context.Some? then context.value else map[])
      && d'.sockets[s].localIdDict == d.sockets[s].localIdDict
  {
  }

  /** A no-duplicate sequence lists as many elements as the set it enumerates. */
  lemma {:induction false} EnumerationSize<T>(xs: seq<T>, s: set<T>)
    requires NoDuplicates(xs) && (forall x :: x in xs <==> x in s)
    ensures |xs| == |s|
    decreases |xs|
  {
    if xs == [] {
      assert forall x :: x !in s;
    } else {
      var rest := xs[1..];
      assert NoDuplicates(rest) by {
        forall i, j | 0 <= i < j < |rest| ensures rest[i] != rest[j] { assert rest[i] == xs[i + 1] && rest[j] == xs[j + 1]; }
      }
      assert xs[0] !in rest by {
        forall i | 0 <= i < |rest| ensures rest[i] != xs[0] { assert rest[i] == xs[i + 1]; }
      }
      forall x ensures x in rest <==> x in s - {xs[0]} {
        assert x in xs <==> x == xs[0] || x in rest by { assert xs == [xs[0]] + rest; }
      }
      EnumerationSize(rest, s - {xs[0]});
    }
  }

  /** The held keys, listed in a duplicate-free order, are duplicate-free. */
  lemma {:induction false} HeldKeysNoDuplicates(lid: map<Key, SubInfo>, order: seq<Key>)
    requires (forall k :: k in order ==> k in lid) && NoDuplicates(order)
    ensures NoDuplicates(HeldKeys(lid, order))
    decreases |order|
  {
    if order != [] {
      var init := Init(order);
      assert NoDuplicates(init) by {
        forall i, j | 0 <= i < j < |init| ensures init[i] != init[j] { assert init[i] == order[i] && init[j] == order[j]; }
      }
      assert Last(order) !in init by {
        forall i | 0 <= i < |init| ensures init[i] != Last(order) { assert init[i] == order[i]; }
      }
      HeldKeysNoDuplicates(lid, init);
    }
  }

  /** The held keys of two runs of keys one after the other are the held
      keys of the first run followed by those of the second: with
      HeldKeysSingleton, `HeldKeys` keeps the visiting order. */
  lemma {:induction false} HeldKeysAppend(lid: map<Key, SubInfo>, a: seq<Key>, b: seq<Key>)
    requires (forall k :: k in a ==> k in lid) && (forall k :: k in b ==> k in lid)
    ensures HeldKeys(lid, a + b) == HeldKeys(lid, a) + HeldKeys(lid, b)
    decreases |b|
  {
    if b == [] {
      assert a + b == a;
    } else {
      assert Init(a + b) == a + Init(b) && Last(a + b) == Last(b);
      HeldKeysAppend(lid, a, Init(b));
    }
  }

  lemma HeldKeysSingleton(lid: map<Key, SubInfo>, k: Key)
    requires k in lid
    ensures HeldKeys(lid, [k]) == if lid[k].globalId.Some? then [k] else []
  {
    assert Init([k]) == [] && Last([k]) == k;
  }

  /** The number of delete transactions of disconnect cleanup is the
      number of local subscriptions that held a global key. */
  lemma DeleteAllCount(d: Dir, s: SocketId, order: seq<Key>)
    requires Valid(d) && s in d.sockets
    requires Enumerates(order, d.sockets[s].localIdDict.Keys)
    ensures var lid := d.sockets[s].localIdDict;
      |DeleteAll(d, s, lid, order).txs| == |set k | k in lid && lid[k].globalId.Some?|
  {
    var lid := d.sockets[s].localIdDict;
    var held := HeldKeys(lid, order);
    HeldKeysNoDuplicates(lid, order);
    EnumerationSize(held, set k | k in lid && lid[k].globalId.Some?);
  }

  /** Disconnect cleanup yields exactly one delete transaction per local
      subscription that held a global key, then leaves both indexes of the
      socket empty. */
  lemma RemoveAllEffect(d: Dir, s: SocketId, order: seq<Key>)
    requires Valid(d) && s in d.sockets
    requires Enumerates(order, d.sockets[s].localIdDict.Keys)
    ensures var r := RemoveAllSubscriptions(d, s, order); var lid := d.sockets[s].localIdDict;
      && Valid(r.dir) && s in r.dir.sockets
      && r.dir.sockets[s].localIdDict == map[] && r.dir.sockets[s].globalIdDict == map[]
      && |r.txs| == |set k | k in lid && lid[k].globalId.Some?|
      && (forall i :: 0 <= i < |r.txs| ==> !r.txs[i].wasCreated && r.txs[i].globalId.None? && r.txs[i].socket == s)
  {
    DeleteAllCount(d, s, order);
    var b := DeleteAll(d, s, d.sockets[s].localIdDict, order);
    var cd := b.dir.sockets[s];
    var d' := b.dir.(sockets := b.dir.sockets[s := cd.(localIdDict := map[], globalIdDict := map[])]);
    assert Valid(d');
  }

  /** After a disconnect the socket has no custom data, so disconnecting
      it again yields no transaction and changes nothing. */
  lemma DisconnectIdempotent(d: Dir, s: SocketId, order: seq<Key>)
    requires Valid(d)
    requires s in d.sockets ==> Enumerates(order, d.sockets[s].localIdDict.Keys)
    ensures var r := Disconnect(d, s, order);
      s !in r.dir.sockets && Disconnect(r.dir, s, []) == Batch(r.dir, [])
  {
    if s in d.sockets {
      assert forall k :: k in order ==> k in d.sockets[s].localIdDict;
    }
    var r := Disconnect(d, s, order);
    assert r.dir.sockets - {s} == r.dir.sockets;
  }

  /** `notifyAll` reaches exactly the member sockets that index the key,
      each once, carrying that socket's own local target; no group, no
      update. */
  lemma RecipientsOnePerSocket(d: Dir, globalTarget: Target, value: Value)
    ensures var g := MakeKey(globalTarget); var r := Recipients(d, globalTarget, value);
      && (g !in d.subscriptions ==> r == {})
      && (forall e1, e2 :: e1 in r && e2 in r && e1.socket == e2.socket ==> e1 == e2)
      && (forall e :: e in r ==>
            (e.value == value && g in d.subscriptions && e.socket in d.subscriptions[g].sockets
             && e.socket in d.sockets && g in d.sockets[e.socket].globalIdDict
             && e.target == d.sockets[e.socket].globalIdDict[g].localTarget))
      && (g in d.subscriptions ==> forall s :: s in d.subscriptions[g].sockets && s in d.sockets && g in d.sockets[s].globalIdDict ==>
            Emit(s, d.sockets[s].globalIdDict[g].localTarget, value) in r)
  {
  }

  /** The push from `notifySocket` reaches the socket only when the target
      given to it is the key of one of the socket's local subscriptions. */
  lemma NotifySocketNeedsLocalKey(d: Dir, s: SocketId, t: Target, value: Value)
    requires s in d.sockets && MakeKey(t) !in d.sockets[s].localIdDict
    ensures NotifySocketEmits(d, s, t, value) == []
  {
  }

  /** The push of `_handleSocket` after a subscribe that resolved to global
      target `gt`: `notifySocket` is handed `gt` and looks it up among the
      socket's local keys, so the push reaches the socket iff `gt` is the
      subscribed local target itself or another local target the socket
      holds. */
  lemma AttachPushNeedsLocalKey(d: Dir, s: SocketId, localTarget: Target, meta: Meta, value: Value)
    requires Valid(d) && s in d.sockets
    requires MakeGlobalTarget(FreshInfo(localTarget, meta), d.sockets[s].context).Some?
    ensures var r := Subscribe(d, s, localTarget, meta); var gt := r.tx.value.globalTarget.value;
      r.tx.Some? && r.tx.value.globalTarget.Some? &&
      (NotifySocketEmits(r.dir, s, gt, value) != [] <==> gt == localTarget || MakeKey(gt) in d.sockets[s].localIdDict)
  {
    SubscribeJoinsTx(d, s, localTarget, meta);
    SubscribeJoinsRecord(d, s, localTarget, meta);
  }

  /** Unsubscribing one of two local subscriptions of a socket that share
      the socket's only membership of group `g` removes the group, although
      the other subscription still holds `g`. */
  lemma LeaveSharedSlot(d: Dir, s: SocketId, l1: Target, l2: Target, g: Key)
    requires Valid(d) && s in d.sockets && MakeKey(l1) != MakeKey(l2)
    requires g in d.subscriptions && d.subscriptions[g].sockets == {s}
    requires MakeKey(l1) in d.sockets[s].localIdDict && d.sockets[s].localIdDict[MakeKey(l1)].globalId == Some(g)
    requires MakeKey(l2) in d.sockets[s].localIdDict && d.sockets[s].localIdDict[MakeKey(l2)].globalId == Some(g)
    ensures var r := Unsubscribe(d, s, l1);
      && r.tx.Some? && r.tx.value.wasDeleted && g !in r.dir.subscriptions
      && s in r.dir.sockets && MakeKey(l2) in r.dir.sockets[s].localIdDict
      && r.dir.sockets[s].localIdDict[MakeKey(l2)].globalId == Some(g)
  {
    UnsubscribeKnown(d, s, l1);
  }

  /** Group membership is one slot per socket, not per subscription: when
      two local subscriptions of one socket resolve to the same new group,
      the second joins without creating it and both hold the group's key
      while the socket is its only member.  (For instance `{a: 1}` with no
      meta, and `{}` with extras `{a: 1}`.)  With LeaveSharedSlot, the first
      unsubscribe then removes the group under the second. */
  lemma JoinSharedSlot(d: Dir, s: SocketId, l1: Target, m1: Meta, l2: Target, m2: Meta, gt: Target)
    requires Valid(d) && s in d.sockets && MakeKey(l1) != MakeKey(l2)
    requires MakeGlobalTarget(FreshInfo(l1, m1), d.sockets[s].context) == Some(gt)
    requires MakeGlobalTarget(FreshInfo(l2, m2), d.sockets[s].context) == Some(gt)
    requires MakeKey(gt) !in d.subscriptions
    ensures var r1 := Subscribe(d, s, l1, m1);
      var r2 := Subscribe(r1.dir, s, l2, m2);
      var g := MakeKey(gt);
      && r1.tx.Some? && r1.tx.value.wasCreated
      && r2.tx.Some? && !r2.tx.value.wasCreated
      && Valid(r2.dir) && s in r2.dir.sockets
      && g in r2.dir.subscriptions && r2.dir.subscriptions[g].sockets == {s}
      && MakeKey(l1) in r2.dir.sockets[s].localIdDict && r2.dir.sockets[s].localIdDict[MakeKey(l1)].globalId == Some(g)
      && MakeKey(l2) in r2.dir.sockets[s].localIdDict && r2.dir.sockets[s].localIdDict[MakeKey(l2)].globalId == Some(g)
  {
    SubscribeCreatesAlone(d, s, l1, m1, gt);
    var r1 := Subscribe(d, s, l1, m1);
    SubscribeJoinsOwnGroup(r1.dir, s, l2, m2, gt, MakeKey(l1));
  }

  /** The first half of JoinSharedSlot: subscribing to a target whose
      group does not exist creates it with the socket as sole member. */
  lemma SubscribeCreatesAlone(d: Dir, s: SocketId, l1: Target, m1: Meta, gt: Target)
    requires Valid(d) && s in d.sockets
    requires MakeGlobalTarget(FreshInfo(l1, m1), d.sockets[s].context) == Some(gt)
    requires MakeKey(gt) !in d.subscriptions
    ensures var r1 := Subscribe(d, s, l1, m1);
      var g := MakeKey(gt);
      && r1.tx.Some? && r1.tx.value.wasCreated
      && Valid(r1.dir) && s in r1.dir.sockets && r1.dir.sockets[s].context == d.sockets[s].context
      && g in r1.dir.subscriptions && r1.dir.subscriptions[g].sockets == {s}
      && MakeKey(l1) in r1.dir.sockets[s].localIdDict && r1.dir.sockets[s].localIdDict[MakeKey(l1)].globalId == Some(g)
  {
    SubscribeKeepsGroupsNonEmpty(d, s, l1, m1);
    SubscribeJoinsTx(d, s, l1, m1);
    SubscribeJoinsGroup(d, s, l1, m1);
    SubscribeJoinsRecord(d, s, l1, m1);
  }

  /** The second half of JoinSharedSlot: subscribing to the group the
      socket alone already belongs to, under another local key `k1`,
      creates nothing and keeps the record under `k1`. */
  lemma SubscribeJoinsOwnGroup(d: Dir, s: SocketId, l2: Target, m2: Meta, gt: Target, k1: Key)
    requires Valid(d) && s in d.sockets
    requires MakeGlobalTarget(FreshInfo(l2, m2), d.sockets[s].context) == Some(gt)
    requires MakeKey(gt) in d.subscriptions && d.subscriptions[MakeKey(gt)].sockets == {s}
    requires k1 != MakeKey(l2) && k1 in d.sockets[s].localIdDict && d.sockets[s].localIdDict[k1].globalId == Some(MakeKey(gt))
    ensures var r2 := Subscribe(d, s, l2, m2);
      var g := MakeKey(gt);
      && r2.tx.Some? && !r2.tx.value.wasCreated
      && Valid(r2.dir) && s in r2.dir.sockets
      && g in r2.dir.subscriptions && r2.dir.subscriptions[g].sockets == {s}
      && k1 in r2.dir.sockets[s].localIdDict && r2.dir.sockets[s].localIdDict[k1].globalId == Some(g)
      && MakeKey(l2) in r2.dir.sockets[s].localIdDict && r2.dir.sockets[s].localIdDict[MakeKey(l2)].globalId == Some(g)
  {
    SubscribeKeepsGroupsNonEmpty(d, s, l2, m2);
    SubscribeJoinsTx(d, s, l2, m2);
    SubscribeJoinsGroup(d, s, l2, m2);
    SubscribeJoinsRecord(d, s, l2, m2);
  }

  /** `r` differs from `d`, on socket `s`, at most in the record under
      `info.localId`, which keeps its request and is resolved against the
      socket's unchanged context. */
  predicate RecordResolved(d: Dir, r: Dir, s: SocketId, info: SubInfo)
    requires s in d.sockets && info.localId in d.sockets[s].localIdDict
  {
    var lid := d.sockets[s].localIdDict;
    && s in r.sockets && r.sockets[s].context == d.sockets[s].context
    && r.sockets[s].localIdDict.Keys == lid.Keys
    && (forall k :: k in lid && k != info.localId ==> r.sockets[s].localIdDict[k] == lid[k])
    && SameRequest(r.sockets[s].localIdDict[info.localId], info)
    && ResolvedAgainst(r.sockets[s].localIdDict[info.localId], d.sockets[s].context)
  }

  /** `_handleGlobalSubscription` on one stored record: only that record
      changes, it keeps its request, and it ends resolved against the
      socket's context. */
  lemma ResolveRecord(d: Dir, s: SocketId, info: SubInfo)
    requires Valid(d) && Stored(d, s, info)
    ensures RecordResolved(d, Resolve(d, s, info).dir, s, info)
  {
    StoredOfValid(d, s, info.localId);
    var ng := MakeGlobalTarget(info, d.sockets[s].context);
    if ng.None? {
      if info.globalTarget.Some? {
        ResolveClearsRecord(d, s, info);
      }
    } else if !(info.globalId.Some? && MakeKey(ng.value) == info.globalId.value) {
      ResolveMovesRecord(d, s, info);
    }
  }

  lemma ResolveClearsRecord(d: Dir, s: SocketId, info: SubInfo)
    requires Valid(d) && Stored(d, s, info) && WellFormedInfo(info)
    requires MakeGlobalTarget(info, d.sockets[s].context).None? && info.globalTarget.Some?
    ensures RecordResolved(d, Resolve(d, s, info).dir, s, info)
  {
    var tx := NewTransaction(s, info.meta);
    var cleared := info.(globalId := None, globalTarget := None);
    assert MakeGlobalTarget(cleared, d.sockets[s].context).None?;
    DeleteFrame(d, tx, info);
  }

  lemma ResolveMovesRecord(d: Dir, s: SocketId, info: SubInfo)
    requires Valid(d) && Stored(d, s, info) && WellFormedInfo(info)
    requires MakeGlobalTarget(info, d.sockets[s].context).Some?
    requires var ng := MakeGlobalTarget(info, d.sockets[s].context);
      !(info.globalId.Some? && MakeKey(ng.value) == info.globalId.value)
    ensures RecordResolved(d, Resolve(d, s, info).dir, s, info)
  {
    var ctx := d.sockets[s].context;
    var ng := MakeGlobalTarget(info, ctx);
    var tx := NewTransaction(s, info.meta);
    var del := if info.globalId.Some? then Delete(d, tx, info) else Deleted(d, tx, info);
    if info.globalId.Some? { DeletePreservesValid(d, tx, info); DeleteFrame(d, tx, info); }
    var info' := del.info.(globalId := Some(MakeKey(ng.value)), globalTarget := ng);
    assert MakeGlobalTarget(info', ctx) == ng;
    CreatePreservesValid(del.dir, del.tx, info');
  }

  /** The loop of `_setupContext`: every visited record ends resolved
      against the socket's context, every other record is untouched, and
      every record keeps its request. */
  lemma {:induction false} ResolveAllResolves(d: Dir, s: SocketId, order: seq<Key>)
    requires Valid(d) && s in d.sockets
    requires forall k :: k in order ==> k in d.sockets[s].localIdDict
    ensures var r := ResolveAll(d, s, order).dir; var lid := d.sockets[s].localIdDict;
      && (forall k :: k in order ==> ResolvedAgainst(r.sockets[s].localIdDict[k], d.sockets[s].context))
      && (forall k :: k in lid && k !in order ==> r.sockets[s].localIdDict[k] == lid[k])
      && (forall k :: k in lid ==> SameRequest(r.sockets[s].localIdDict[k], lid[k]))
    decreases |order|
  {
    if order != [] {
      var b := ResolveAll(d, s, Init(order));
      ResolveAllResolves(d, s, Init(order));
      var k := Last(order);
      StoredOfValid(b.dir, s, k);
      var info := b.dir.sockets[s].localIdDict[k];
      assert info.localId == k;
      ResolveRecord(b.dir, s, info);
      var r := ResolveAll(d, s, order).dir;
      assert r == Resolve(b.dir, s, info).dir;
      InitLast(order);
      ResolvedStep(d.sockets[s].localIdDict, b.dir.sockets[s].localIdDict, r.sockets[s].localIdDict,
        d.sockets[s].context, Init(order), k);
    }
  }

  /** How one more resolved record extends the facts of ResolveAllResolves,
      on the record maps before the loop (`lid`), before the step (`lidb`)
      and after it (`lidr`). */
  lemma ResolvedStep(lid: map<Key, SubInfo>, lidb: map<Key, SubInfo>, lidr: map<Key, SubInfo>, ctx: Target, prev: seq<Key>, k: Key)
    requires lidb.Keys == lid.Keys && lidr.Keys == lid.Keys && k in lid
    requires forall x :: x in prev ==> x in lid && ResolvedAgainst(lidb[x], ctx)
    requires forall x :: x in lid && x !in prev ==> lidb[x] == lid[x]
    requires forall x :: x in lid ==> SameRequest(lidb[x], lid[x])
    requires forall x :: x in lid && x != k ==> lidr[x] == lidb[x]
    requires SameRequest(lidr[k], lidb[k]) && ResolvedAgainst(lidr[k], ctx)
    ensures forall x :: x in prev + [k] ==> ResolvedAgainst(lidr[x], ctx)
    ensures forall x :: x in lid && x !in prev + [k] ==> lidr[x] == lid[x]
    ensures forall x :: x in lid ==> SameRequest(lidr[x], lid[x])
  {
  }

  /** `_setupContext` as a whole: once the context is replaced and every
      record visited, every record of the socket is resolved against the
      new context and still describes the same request. */
  lemma SetupContextResolves(d: Dir, s: SocketId, context: Option<Target>, order: seq<Key>)
    requires Valid(d) && s in d.sockets
    requires Enumerates(order, d.sockets[s].localIdDict.Keys)
    ensures var d1 := SetContext(d, s, context);
      var r := ResolveAll(d1, s, order).dir;
      && r.sockets[s].localIdDict.Keys == d.sockets[s].localIdDict.Keys
      && forall k :: k in d.sockets[s].localIdDict ==>
          ResolvedAgainst(r.sockets[s].localIdDict[k], context.GetOr(map[]))
          && SameRequest(r.sockets[s].localIdDict[k], d.sockets[s].localIdDict[k])
  {
    SetContextReplaces(d, s, context);
    ResolveAllResolves(SetContext(d, s, context), s, order);
  }
}
