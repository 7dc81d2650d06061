/** Membership bookkeeping of the base server (src/base-server.ts): every
    group a socket belongs to should be held by one of that socket's local
    subscription records, because disconnect cleanup (`_removeAllSubscriptions`)
    releases groups only through those records.  The source breaks this
    through a re-subscribe that resolves to another key; this module shows
    the leak, states the invariant, proves which operations keep it, and
    gives the corrected subscribe that keeps it always. */
module Tracking {
  import opened Targets
  import opened Directory
  import opened DirectoryProperties

  /** The groups socket `s` is a member of. */
  function MemberSet(d: Dir, s: SocketId): set<Key> {
    set g | g in d.subscriptions && s in d.subscriptions[g].sockets
  }

  /** The record under local key `k` holds global key `g`. */
  predicate HeldBy(lid: map<Key, SubInfo>, g: Key, k: Key) {
    k in lid && lid[k].globalId == Some(g)
  }

  /** Every key of `mem` is held by some record of `lid`. */
  ghost predicate Covers(lid: map<Key, SubInfo>, mem: set<Key>) {
    forall g :: g in mem ==> exists k :: HeldBy(lid, g, k)
  }

  /** A socket without custom data is in no group, and a socket with custom
      data is only in groups one of its records holds. */
  ghost predicate TrackedSocket(d: Dir, s: SocketId) {
    && (s !in d.sockets ==> MemberSet(d, s) == {})
    && (s in d.sockets ==> Covers(d.sockets[s].localIdDict, MemberSet(d, s)))
  }

  ghost predicate Tracked(d: Dir) {
    forall s :: TrackedSocket(d, s)
  }

  // ---------------------------------------------------------------------
  // Building blocks

  /** Changing only the record under `k0`: a group still covered is either
      one the old record did not hold, or one the new record holds. */
  lemma CoversSwap(lid: map<Key, SubInfo>, lid': map<Key, SubInfo>, mem: set<Key>, mem': set<Key>, k0: Key)
    requires Covers(lid, mem)
    requires forall k :: k in lid && k != k0 ==> k in lid' && lid'[k] == lid[k]
    requires forall g :: g in mem' ==> (g in mem && !HeldBy(lid, g, k0)) || HeldBy(lid', g, k0)
    ensures Covers(lid', mem')
  {
    forall g | g in mem' ensures exists k :: HeldBy(lid', g, k) {
      if !HeldBy(lid', g, k0) {
        var k :| HeldBy(lid, g, k);
        assert k != k0 && HeldBy(lid', g, k);
      }
    }
  }

  /** A delete takes its socket out of exactly the deleted group. */
  lemma DeleteMembers(d: Dir, tx: Tx, info: SubInfo, t: SocketId)
    requires tx.socket in d.sockets && info.globalId.Some?
    ensures MemberSet(Delete(d, tx, info).dir, t) ==
      if t == tx.socket then MemberSet(d, t) - {info.globalId.value} else MemberSet(d, t)
  {
    var g := info.globalId.value;
    var r := Delete(d, tx, info).dir;
    var e := if t == tx.socket then MemberSet(d, t) - {g} else MemberSet(d, t);
    forall h ensures h in MemberSet(r, t) <==> h in e {
      if h == g && g in d.subscriptions {
        var left := d.subscriptions[g].sockets - {tx.socket};
        if left == {} {
          assert r.subscriptions == d.subscriptions - {g};
          assert t in d.subscriptions[g].sockets && t != tx.socket ==> t in left;
        } else {
          assert r.subscriptions == d.subscriptions[g := d.subscriptions[g].(sockets := left)];
        }
      }
    }
  }

  /** A create adds its socket to exactly the created or joined group. */
  lemma CreateMembers(d: Dir, tx: Tx, info: SubInfo, t: SocketId)
    requires tx.socket in d.sockets && info.globalId.Some? && info.globalTarget.Some?
    ensures MemberSet(Create(d, tx, info).dir, t) ==
      if t == tx.socket then MemberSet(d, t) + {info.globalId.value} else MemberSet(d, t)
  {
  }

  /** `Resolve` keeps every socket tracked. */
  lemma ResolveKeepsTracked(d: Dir, s: SocketId, info: SubInfo, t: SocketId)
    requires Valid(d) && Stored(d, s, info) && TrackedSocket(d, t)
    ensures TrackedSocket(Resolve(d, s, info).dir, t)
  {
    var r := Resolve(d, s, info).dir;
    ResolveMembers(d, s, info, t);
    if t == s {
      ResolveRecord(d, s, info);
      CoversSwap(d.sockets[s].localIdDict, r.sockets[s].localIdDict, MemberSet(d, s), MemberSet(r, s), info.localId);
    }
  }

  /** Which groups the resolving socket belongs to after `Resolve`: a
      group it was in and the record did not hold, or the group the
      record now holds.  No other socket's membership changes. */
  predicate ResolvedMembers(d: Dir, r: Dir, s: SocketId, info: SubInfo, t: SocketId) {
    && (t != s ==> MemberSet(r, t) == MemberSet(d, t) && (t in r.sockets <==> t in d.sockets)
                   && (t in d.sockets ==> r.sockets[t] == d.sockets[t]))
    && (t == s ==> s in r.sockets && forall g :: g in MemberSet(r, s) ==>
          (g in MemberSet(d, s) && info.globalId != Some(g)) || HeldBy(r.sockets[s].localIdDict, g, info.localId))
  }

  lemma ResolveMembers(d: Dir, s: SocketId, info: SubInfo, t: SocketId)
    requires Valid(d) && Stored(d, s, info)
    ensures ResolvedMembers(d, Resolve(d, s, info).dir, s, info, t)
  {
    StoredOfValid(d, s, info.localId);
    var ng := MakeGlobalTarget(info, d.sockets[s].context);
    if ng.None? {
      if info.globalTarget.Some? {
        ResolveClearsMembers(d, s, info, t);
      }
    } else if !(info.globalId.Some? && MakeKey(ng.value) == info.globalId.value) {
      ResolveMovesMembers(d, s, info, t);
    }
  }

  lemma ResolveClearsMembers(d: Dir, s: SocketId, info: SubInfo, t: SocketId)
    requires Valid(d) && Stored(d, s, info) && WellFormedInfo(info)
    requires MakeGlobalTarget(info, d.sockets[s].context).None? && info.globalTarget.Some?
    ensures ResolvedMembers(d, Resolve(d, s, info).dir, s, info, t)
  {
    var tx := NewTransaction(s, info.meta);
    DeleteMembers(d, tx, info, t);
    DeleteFrame(d, tx, info);
  }

  lemma ResolveMovesMembers(d: Dir, s: SocketId, info: SubInfo, t: SocketId)
    requires Valid(d) && Stored(d, s, info) && WellFormedInfo(info)
    requires MakeGlobalTarget(info, d.sockets[s].context).Some?
    requires var ng := MakeGlobalTarget(info, d.sockets[s].context);
      !(info.globalId.Some? && MakeKey(ng.value) == info.globalId.value)
    ensures ResolvedMembers(d, Resolve(d, s, info).dir, s, info, t)
  {
    var ng := MakeGlobalTarget(info, d.sockets[s].context);
    var tx := NewTransaction(s, info.meta);
    var del := if info.globalId.Some? then Delete(d, tx, info) else Deleted(d, tx, info);
    var info' := del.info.(globalId := Some(MakeKey(ng.value)), globalTarget := ng);
    var c := Create(del.dir, del.tx, info');
    var r := WriteBack(c.dir, s, info');
    assert Resolve(d, s, info).dir == r;
    if info.globalId.Some? {
      DeleteMembers(d, tx, info, t);
      DeleteFrame(d, tx, info);
    }
    CreateMembers(del.dir, del.tx, info', t);
    MembersFromParts(d, r, s, info, t, MemberSet(del.dir, s), MakeKey(ng.value));
  }

  /** `ResolvedMembers` from the membership before the create and the
      group the record now holds. */
  lemma MembersFromParts(d: Dir, r: Dir, s: SocketId, info: SubInfo, t: SocketId, mid: set<Key>, g': Key)
    requires s in r.sockets && HeldBy(r.sockets[s].localIdDict, g', info.localId)
    requires t != s ==> MemberSet(r, t) == MemberSet(d, t) && (t in r.sockets <==> t in d.sockets)
    requires t != s && t in d.sockets ==> r.sockets[t] == d.sockets[t]
    requires t == s ==> MemberSet(r, s) == mid + {g'}
    requires forall g :: g in mid ==> g in MemberSet(d, s) && info.globalId != Some(g)
    ensures ResolvedMembers(d, r, s, info, t)
  {
  }

  // ---------------------------------------------------------------------
  // The operations that keep the invariant

  /** `_handleUnsubscribe` keeps every socket tracked. */
  lemma UnsubscribeKeepsTracked(d: Dir, s: SocketId, localTarget: Target, t: SocketId)
    requires Valid(d) && TrackedSocket(d, t)
    ensures TrackedSocket(Unsubscribe(d, s, localTarget).dir, t)
  {
    var k0 := MakeKey(localTarget);
    if s in d.sockets && k0 in d.sockets[s].localIdDict {
      var cd := d.sockets[s];
      var info := cd.localIdDict[k0];
      StoredOfValid(d, s, k0);
      var d1 := d.(sockets := d.sockets[s := cd.(localIdDict := cd.localIdDict - {info.localId})]);
      var r := Unsubscribe(d, s, localTarget).dir;
      assert MemberSet(d1, t) == MemberSet(d, t);
      if info.globalId.Some? {
        var tx := NewTransaction(s, info.meta);
        DeleteMembers(d1, tx, info, t);
        DeleteFrame(d1, tx, info);
        assert r == Delete(d1, tx, info).dir;
      }
      if t == s {
        CoversSwap(cd.localIdDict, r.sockets[s].localIdDict, MemberSet(d, s), MemberSet(r, s), k0);
      }
    }
  }

  /** The context assignment of `_setupContext` keeps every socket tracked. */
  lemma SetContextKeepsTracked(d: Dir, s: SocketId, context: Option<Target>, t: SocketId)
    requires s in d.sockets && TrackedSocket(d, t)
    ensures TrackedSocket(SetContext(d, s, context), t)
  {
    assert MemberSet(SetContext(d, s, context), t) == MemberSet(d, t);
  }

  /** The re-resolution loop of `_setupContext` keeps every socket tracked. */
  lemma {:induction false} ResolveAllKeepsTracked(d: Dir, s: SocketId, order: seq<Key>, t: SocketId)
    requires Valid(d) && s in d.sockets && TrackedSocket(d, t)
    requires forall k :: k in order ==> k in d.sockets[s].localIdDict
    ensures TrackedSocket(ResolveAll(d, s, order).dir, t)
    decreases |order|
  {
    if order != [] {
      ResolveAllKeepsTracked(d, s, Init(order), t);
      var b := ResolveAll(d, s, Init(order));
      StoredOfValid(b.dir, s, Last(order));
      ResolveKeepsTracked(b.dir, s, b.dir.sockets[s].localIdDict[Last(order)], t);
    }
  }

  /** `_setupContext` as a whole keeps every socket tracked. */
  lemma SetupContextKeepsTracked(d: Dir, s: SocketId, context: Option<Target>, order: seq<Key>, t: SocketId)
    requires Valid(d) && s in d.sockets && TrackedSocket(d, t)
    requires forall k :: k in order ==> k in d.sockets[s].localIdDict
    ensures TrackedSocket(ResolveAll(SetContext(d, s, context), s, order).dir, t)
  {
    SetContextReplaces(d, s, context);
    SetContextKeepsTracked(d, s, context, t);
    ResolveAllKeepsTracked(SetContext(d, s, context), s, order, t);
  }

  /** Storing `info` under its local key keeps every socket tracked when
      the record it replaces, if any, holds no key `info` does not. */
  lemma WriteBackKeepsTracked(d: Dir, s: SocketId, info: SubInfo, t: SocketId)
    requires s in d.sockets && TrackedSocket(d, t)
    requires info.localId in d.sockets[s].localIdDict && d.sockets[s].localIdDict[info.localId].globalId.Some? ==>
      info.globalId == d.sockets[s].localIdDict[info.localId].globalId
    ensures TrackedSocket(WriteBack(d, s, info), t)
  {
    var d1 := WriteBack(d, s, info);
    assert MemberSet(d1, t) == MemberSet(d, t);
    if t == s {
      CoversSwap(d.sockets[s].localIdDict, d1.sockets[s].localIdDict, MemberSet(d, s), MemberSet(d1, s), info.localId);
    }
  }

  /** `_handleSubscribe` keeps every socket tracked when the record it
      replaces, if any, holds no global key. */
  lemma SubscribeKeepsTracked(d: Dir, s: SocketId, localTarget: Target, meta: Meta, t: SocketId)
    requires Valid(d) && TrackedSocket(d, t)
    requires s in d.sockets && MakeKey(localTarget) in d.sockets[s].localIdDict ==>
      d.sockets[s].localIdDict[MakeKey(localTarget)].globalId.None?
    ensures TrackedSocket(Subscribe(d, s, localTarget, meta).dir, t)
  {
    if s in d.sockets {
      var info := FreshInfo(localTarget, meta);
      WriteBackKeepsTracked(d, s, info, t);
      WriteBackPreservesValid(d, s, info);
      ResolveKeepsTracked(WriteBack(d, s, info), s, info, t);
    }
  }

  /** Adding a fresh socket with empty indexes keeps every socket tracked. */
  lemma ConnectKeepsTracked(d: Dir, s: SocketId, t: SocketId)
    requires s !in d.sockets && TrackedSocket(d, t)
    ensures TrackedSocket(d.(sockets := d.sockets[s := SocketData(map[], map[], map[])]), t)
  {
    assert MemberSet(d.(sockets := d.sockets[s := SocketData(map[], map[], map[])]), t) == MemberSet(d, t);
  }

  // ---------------------------------------------------------------------
  // Cleanup releases exactly the tracked groups

  /** The last step of the loop of `_removeAllSubscriptions`. */
  lemma DeleteAllLast(d: Dir, s: SocketId, lid: map<Key, SubInfo>, order: seq<Key>)
    requires Valid(d) && s in d.sockets && order != []
    requires forall k :: k in order ==> k in lid
    ensures var b := DeleteAll(d, s, lid, Init(order)).dir; var info := lid[Last(order)];
      DeleteAll(d, s, lid, order).dir ==
        if info.globalId.Some? then Delete(b, NewTransaction(s, info.meta), info).dir else b
  {
  }

  /** The loop of `_removeAllSubscriptions` changes no other socket's
      membership or records. */
  lemma {:induction false} DeleteAllFrame(d: Dir, s: SocketId, lid: map<Key, SubInfo>, order: seq<Key>, t: SocketId)
    requires Valid(d) && s in d.sockets && t != s
    requires forall k :: k in order ==> k in lid
    ensures var r := DeleteAll(d, s, lid, order).dir;
      && MemberSet(r, t) == MemberSet(d, t) && (t in r.sockets <==> t in d.sockets)
      && (t in d.sockets ==> r.sockets[t].localIdDict == d.sockets[t].localIdDict)
    decreases |order|
  {
    if order != [] {
      DeleteAllFrame(d, s, lid, Init(order), t);
      DeleteAllLast(d, s, lid, order);
      var b := DeleteAll(d, s, lid, Init(order));
      var info := lid[Last(order)];
      if info.globalId.Some? {
        var tx := NewTransaction(s, info.meta);
        DeleteMembers(b.dir, tx, info, t);
        DeleteFrame(b.dir, tx, info);
      }
    }
  }

  /** The loop of `_removeAllSubscriptions` takes the socket out of every
      group a visited record held, and out of no other. */
  lemma {:induction false} DeleteAllReleases(d: Dir, s: SocketId, lid: map<Key, SubInfo>, order: seq<Key>)
    requires Valid(d) && s in d.sockets
    requires forall k :: k in order ==> k in lid
    ensures forall g :: g in MemberSet(DeleteAll(d, s, lid, order).dir, s) <==>
      g in MemberSet(d, s) && forall k :: k in order ==> !HeldBy(lid, g, k)
    decreases |order|
  {
    if order != [] {
      DeleteAllReleases(d, s, lid, Init(order));
      DeleteAllLast(d, s, lid, order);
      InitLast(order);
      var b := DeleteAll(d, s, lid, Init(order));
      var info := lid[Last(order)];
      if info.globalId.Some? {
        DeleteMembers(b.dir, NewTransaction(s, info.meta), info, s);
      }
      forall g ensures (forall k :: k in order ==> !HeldBy(lid, g, k)) <==>
        (forall k :: k in Init(order) ==> !HeldBy(lid, g, k)) && !HeldBy(lid, g, Last(order)) {
        assert forall k :: k in order <==> k in Init(order) || k == Last(order);
      }
    }
  }

  /** After cleanup the socket is a member of exactly the groups it was in
      that none of its records held. */
  lemma RemoveAllMembers(d: Dir, s: SocketId, order: seq<Key>, t: SocketId)
    requires Valid(d) && s in d.sockets
    requires Enumerates(order, d.sockets[s].localIdDict.Keys)
    ensures var r := RemoveAllSubscriptions(d, s, order).dir; var lid := d.sockets[s].localIdDict;
      && (forall g :: g in MemberSet(r, s) <==>
            g in MemberSet(d, s) && forall k :: k in lid ==> !HeldBy(lid, g, k))
      && (t != s ==> MemberSet(r, t) == MemberSet(d, t) && (t in r.sockets <==> t in d.sockets)
                     && (t in d.sockets ==> r.sockets[t].localIdDict == d.sockets[t].localIdDict))
  {
    var lid := d.sockets[s].localIdDict;
    DeleteAllReleases(d, s, lid, order);
    if t != s { DeleteAllFrame(d, s, lid, order, t); }
    var b := DeleteAll(d, s, lid, order).dir;
    var r := RemoveAllSubscriptions(d, s, order).dir;
    CleanupFrame(d, s, order);
    assert MemberSet(r, t) == MemberSet(b, t) && MemberSet(r, s) == MemberSet(b, s);
    forall g ensures g in MemberSet(r, s) <==> g in MemberSet(d, s) && forall k :: k in lid ==> !HeldBy(lid, g, k) {
      assert (forall k :: k in order ==> !HeldBy(lid, g, k)) <==> (forall k :: k in lid ==> !HeldBy(lid, g, k));
    }
  }

  /** Cleanup only empties the socket's own indexes after the loop. */
  lemma CleanupFrame(d: Dir, s: SocketId, order: seq<Key>)
    requires Valid(d) && s in d.sockets
    requires forall k :: k in order ==> k in d.sockets[s].localIdDict
    ensures var b := DeleteAll(d, s, d.sockets[s].localIdDict, order).dir;
      var r := RemoveAllSubscriptions(d, s, order).dir;
      && r.subscriptions == b.subscriptions && r.sockets.Keys == b.sockets.Keys
      && forall t :: t in b.sockets && t != s ==> r.sockets[t] == b.sockets[t]
  {
  }

  /** Cleanup of a tracked socket leaves it in no group, and keeps every
      socket tracked. */
  lemma RemoveAllReleases(d: Dir, s: SocketId, order: seq<Key>, t: SocketId)
    requires Valid(d) && TrackedSocket(d, s) && TrackedSocket(d, t)
    requires s in d.sockets ==> Enumerates(order, d.sockets[s].localIdDict.Keys)
    ensures var r := RemoveAllSubscriptions(d, s, order).dir;
      && TrackedSocket(r, t)
      && MemberSet(r, s) == {}
  {
    if s in d.sockets {
      var lid := d.sockets[s].localIdDict;
      RemoveAllMembers(d, s, order, t);
      var r := RemoveAllSubscriptions(d, s, order).dir;
      forall g | g in MemberSet(d, s) ensures g !in MemberSet(r, s) {
        var k :| HeldBy(lid, g, k);
        assert k in lid;
      }
    }
  }

  /** `_handleDisconnect` of a tracked socket leaves it in no group: no
      residual group membership points at the disconnected socket. */
  lemma DisconnectReleases(d: Dir, s: SocketId, order: seq<Key>, t: SocketId)
    requires Valid(d) && TrackedSocket(d, s) && TrackedSocket(d, t)
    requires s in d.sockets ==> Enumerates(order, d.sockets[s].localIdDict.Keys)
    ensures var r := Disconnect(d, s, order).dir;
      && TrackedSocket(r, t)
      && MemberSet(r, s) == {}
  {
    RemoveAllReleases(d, s, order, t);
    var b := RemoveAllSubscriptions(d, s, order).dir;
    assert MemberSet(Disconnect(d, s, order).dir, t) == MemberSet(b, t);
    assert MemberSet(Disconnect(d, s, order).dir, s) == MemberSet(b, s);
  }

  /** Under the invariant every group is held by one of its member
      sockets' records, so disconnecting every member of a group removes
      the group. */
  lemma TrackedGroupHeld(d: Dir, g: Key)
    requires Valid(d) && Tracked(d) && g in d.subscriptions
    ensures exists s :: (s in d.sockets && s in d.subscriptions[g].sockets
      && exists k :: HeldBy(d.sockets[s].localIdDict, g, k))
  {
    var s :| s in d.subscriptions[g].sockets;
    assert TrackedSocket(d, s);
    assert g in MemberSet(d, s);
  }

  // ---------------------------------------------------------------------
  // The leak, and the corrected subscribe

  /** Cleanup keeps the socket in every group none of its records holds,
      and disconnect then drops the socket's data: the membership is left
      pointing at a socket that no longer exists. */
  lemma DisconnectLeavesUnheld(d: Dir, s: SocketId, order: seq<Key>, g: Key)
    requires Valid(d) && s in d.sockets
    requires Enumerates(order, d.sockets[s].localIdDict.Keys)
    requires g in MemberSet(d, s)
    requires forall k :: k in d.sockets[s].localIdDict ==> !HeldBy(d.sockets[s].localIdDict, g, k)
    ensures var r := Disconnect(d, s, order).dir;
      s !in r.sockets && g in r.subscriptions && s in r.subscriptions[g].sockets
  {
    RemoveAllMembers(d, s, order, s);
    assert g in MemberSet(RemoveAllSubscriptions(d, s, order).dir, s);
  }

  /** One subscribe, seen from one global key `h`: the socket joins the
      group of the key it resolves to and keeps or leaves alone every other
      group. */
  lemma SubscribeHeldGroups(d: Dir, s: SocketId, x: Target, m: Meta, h: Key)
    requires Valid(d) && s in d.sockets
    requires MakeGlobalTarget(FreshInfo(x, m), d.sockets[s].context).Some?
    ensures var g := MakeKey(MakeGlobalTarget(FreshInfo(x, m), d.sockets[s].context).value);
      var r := Subscribe(d, s, x, m).dir;
      && (h == g ==> h in MemberSet(r, s))
      && (h != g ==> (h in MemberSet(r, s) <==> h in MemberSet(d, s)))
  {
    SubscribeJoinsGroup(d, s, x, m);
  }

  /** One subscribe, seen from one global key `h`: only the subscribed
      record changes which key it holds. */
  lemma SubscribeHeldRecords(d: Dir, s: SocketId, x: Target, m: Meta, h: Key)
    requires Valid(d) && s in d.sockets
    requires MakeGlobalTarget(FreshInfo(x, m), d.sockets[s].context).Some?
    ensures var g := MakeKey(MakeGlobalTarget(FreshInfo(x, m), d.sockets[s].context).value);
      var r := Subscribe(d, s, x, m).dir;
      && s in r.sockets && r.sockets[s].context == d.sockets[s].context
      && forall k :: HeldBy(r.sockets[s].localIdDict, h, k) <==>
           if k == MakeKey(x) then h == g else HeldBy(d.sockets[s].localIdDict, h, k)
  {
    SubscribeJoinsRecord(d, s, x, m);
  }

  /** A re-subscribe of the same local target whose new meta resolves it
      to another global key overwrites the record that held the old key
      without releasing it (`globalId` of the new record is unset, so
      `_handleGlobalSubscription` deletes nothing): the socket stays in the
      old group with no record holding it, and `DisconnectLeavesUnheld`
      then leaves it there after disconnect. */
  lemma ResubscribeLeaksGroup(d: Dir, s: SocketId, x: Target, m1: Meta, m2: Meta)
    requires Valid(d) && s in d.sockets
    requires MakeGlobalTarget(FreshInfo(x, m1), d.sockets[s].context).Some?
    requires MakeGlobalTarget(FreshInfo(x, m2), d.sockets[s].context).Some?
    requires var g1 := MakeKey(MakeGlobalTarget(FreshInfo(x, m1), d.sockets[s].context).value);
      && g1 != MakeKey(MakeGlobalTarget(FreshInfo(x, m2), d.sockets[s].context).value)
      && forall k :: k in d.sockets[s].localIdDict ==> !HeldBy(d.sockets[s].localIdDict, g1, k)
    ensures var g1 := MakeKey(MakeGlobalTarget(FreshInfo(x, m1), d.sockets[s].context).value);
      var d2 := Subscribe(Subscribe(d, s, x, m1).dir, s, x, m2).dir;
      && Valid(d2) && s in d2.sockets
      && g1 in MemberSet(d2, s)
      && (forall k :: k in d2.sockets[s].localIdDict ==> !HeldBy(d2.sockets[s].localIdDict, g1, k))
      && !TrackedSocket(d2, s)
  {
    var g1 := MakeKey(MakeGlobalTarget(FreshInfo(x, m1), d.sockets[s].context).value);
    SubscribeHeldGroups(d, s, x, m1, g1);
    SubscribeHeldRecords(d, s, x, m1, g1);
    SubscribeKeepsGroupsNonEmpty(d, s, x, m1);
    var d1 := Subscribe(d, s, x, m1).dir;
    SubscribeHeldGroups(d1, s, x, m2, g1);
    SubscribeHeldRecords(d1, s, x, m2, g1);
    SubscribeKeepsGroupsNonEmpty(d1, s, x, m2);
    var d2 := Subscribe(d1, s, x, m2).dir;
    var lid2 := d2.sockets[s].localIdDict;
    assert forall k :: !HeldBy(lid2, g1, k);
  }

  /** A concrete input that meets `ResubscribeLeaksGroup`: subscribing
      `{id: 1}` first without meta and then with target extras `{p: 2}`
      resolves it to `{id: 1}` and then to `{id: 1, p: 2}`, two different
      global keys, in any context. */
  lemma ResubscribeInput(ctx: Target)
    ensures var x := map["id" := Num(1)];
      var m2 := Meta(None, Some(map["p" := Num(2)]), map[]);
      && MakeGlobalTarget(FreshInfo(x, EmptyMeta), ctx) == Some(x)
      && MakeGlobalTarget(FreshInfo(x, m2), ctx).Some?
      && MakeKey(MakeGlobalTarget(FreshInfo(x, m2), ctx).value) != MakeKey(x)
  {
    var x := map["id" := Num(1)];
    var m2 := Meta(None, Some(map["p" := Num(2)]), map[]);
    assert "p" in MakeGlobalTarget(FreshInfo(x, m2), ctx).value;
    assert "p" !in x;
  }

  /** `_handleSubscribe` as evidently intended: a record that is replaced
      passes its global key and target to the new one, so that
      `_handleGlobalSubscription` releases the old group when the key
      changes (or keeps it when it does not). */
  function SubscribeReleasing(d: Dir, s: SocketId, localTarget: Target, meta: Meta): (r: Resolved)
    requires Valid(d)
    ensures Valid(r.dir) && r.dir.sockets.Keys == d.sockets.Keys
  {
    if s !in d.sockets then Resolved(d, None)
    else
      var lid := d.sockets[s].localIdDict;
      var newInfo := FreshInfo(localTarget, meta);
      var info := if newInfo.localId in lid then newInfo.(globalId := lid[newInfo.localId].globalId, globalTarget := lid[newInfo.localId].globalTarget) else newInfo;
      if newInfo.localId in lid then
        StoredOfValid(d, s, newInfo.localId);
        WriteBackPreservesValid(d, s, info);
        ResolvePreservesValid(WriteBack(d, s, info), s, info);
        Resolve(WriteBack(d, s, info), s, info)
      else
        WriteBackPreservesValid(d, s, info);
        ResolvePreservesValid(WriteBack(d, s, info), s, info);
        Resolve(WriteBack(d, s, info), s, info)
  }

  /** The corrected subscribe keeps every socket tracked, unconditionally. */
  lemma SubscribeReleasingKeepsTracked(d: Dir, s: SocketId, localTarget: Target, meta: Meta, t: SocketId)
    requires Valid(d) && TrackedSocket(d, t)
    ensures TrackedSocket(SubscribeReleasing(d, s, localTarget, meta).dir, t)
  {
    if s in d.sockets {
      var lid := d.sockets[s].localIdDict;
      var newInfo := FreshInfo(localTarget, meta);
      var info := if newInfo.localId in lid then newInfo.(globalId := lid[newInfo.localId].globalId, globalTarget := lid[newInfo.localId].globalTarget) else newInfo;
      if newInfo.localId in lid { StoredOfValid(d, s, newInfo.localId); }
      WriteBackKeepsTracked(d, s, info, t);
      WriteBackPreservesValid(d, s, info);
      ResolveKeepsTracked(WriteBack(d, s, info), s, info, t);
    }
  }

  /** The correction changes nothing when the replaced record, if any,
      held no global key. */
  lemma SubscribeReleasingAgrees(d: Dir, s: SocketId, localTarget: Target, meta: Meta)
    requires Valid(d)
    requires s in d.sockets && MakeKey(localTarget) in d.sockets[s].localIdDict ==>
      d.sockets[s].localIdDict[MakeKey(localTarget)].globalId.None?
    ensures SubscribeReleasing(d, s, localTarget, meta) == Subscribe(d, s, localTarget, meta)
  {
    if s in d.sockets && MakeKey(localTarget) in d.sockets[s].localIdDict {
      StoredOfValid(d, s, MakeKey(localTarget));
    }
  }
}
