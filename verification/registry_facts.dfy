/**
 Properties of the registry that relate several operations: what a
 broadcast does to duplicated, dropped and unique subscriptions, and how
 `subscribe` relates to `subscribe_with`.
 */
module RegistryFacts {
  import opened Channels
  import opened Registry

  /** On a registry with no callbacks, a broadcast changes nothing. */
  lemma BroadcastOnEmptyIsNoop<V>(s: Sys<V>, v: V)
    requires s.Valid()
    requires s.base.callbacks == map[]
    ensures Broadcast(s, v) == s
  {
    var r := Broadcast(s, v);
    forall c | c in s.pool.chans
      ensures r.pool.chans[c] == s.pool.chans[c]
    {
      assert SendersOf(s.base.callbacks, c) == {};
    }
    assert r.pool.chans == s.pool.chans;
    assert r.base.callbacks == s.base.callbacks;
  }

  /**
   An entry that is the only one on its live channel receives the value
   exactly once and stays registered.
   */
  lemma DeliveredOncePerEntry<V>(s: Sys<V>, v: V, h: Handle)
    requires s.Valid()
    requires h in s.base.callbacks
    requires s.pool.chans[s.base.callbacks[h]].receiverAlive
    requires SendersOf(s.base.callbacks, s.base.callbacks[h]) == {h}
    ensures var tx := s.base.callbacks[h];
      && Broadcast(s, v).pool.chans[tx].queue == s.pool.chans[tx].queue + [v]
      && h in Broadcast(s, v).base.callbacks
  {
    assert Repeat(v, 1) == [v];
  }

  /**
   `subscribe_with` does not deduplicate: registering the same live sender
   twice gives two entries, and one broadcast then queues the value twice
   on that channel.
   */
  lemma DuplicateSubscribeWithDeliversTwice<V>(s: Sys<V>, tx: ChanId, v: V)
    requires s.Valid()
    requires tx in s.pool.chans && s.pool.chans[tx].receiverAlive
    requires SendersOf(s.base.callbacks, tx) == {}
    ensures var twice := SubscribeWith(SubscribeWith(s, tx), tx);
      && |twice.base.callbacks| == |s.base.callbacks| + 2
      && Broadcast(twice, v).pool.chans[tx].queue == s.pool.chans[tx].queue + [v, v]
  {
    var once := SubscribeWith(s, tx);
    var twice := SubscribeWith(once, tx);
    assert |SendersOf(twice.base.callbacks, tx)| == 2;
    assert Repeat(v, 2) == [v, v];
    assert twice.base.callbacks.Keys == s.base.callbacks.Keys + {s.base.nextHandle, once.base.nextHandle};
  }

  /** The registry after subscribing and at once dropping the returned receiver. */
  function SubscribeAndDrop<V>(s: Sys<V>): (r: Sys<V>)
    requires s.Valid()
    ensures r.Valid()
    ensures RegistersFresh(s.base, r.base, Subscribe(s).receiver)
    ensures Subscribe(s).receiver !in s.pool.chans
    ensures r.pool.chans.Keys == s.pool.chans.Keys + {Subscribe(s).receiver}
    ensures !r.pool.chans[Subscribe(s).receiver].receiverAlive
    ensures forall c :: c in s.pool.chans ==> r.pool.chans[c] == s.pool.chans[c]
  {
    var sub := Subscribe(s);
    Sys(sub.sys.base, DropReceiver(sub.sys.pool, sub.receiver))
  }

  /** The dropped subscription adds exactly its own handle to the failing ones. */
  lemma DropAddsOneFailure<V>(s: Sys<V>)
    requires s.Valid()
    ensures Dropped(SubscribeAndDrop(s)) == Dropped(s) + {s.base.nextHandle}
    ensures SubscribeAndDrop(s).base.callbacks.Keys == s.base.callbacks.Keys + {s.base.nextHandle}
  {
    var d := SubscribeAndDrop(s);
    var rx := Subscribe(s).receiver;
    forall k | k in s.base.callbacks
      ensures k in Dropped(d) <==> k in Dropped(s)
    {
      assert s.base.callbacks[k] != rx;
    }
  }

  /** Two registries with the same surviving entries end a broadcast with the same entries. */
  lemma SameSurvivorsSameEntries<V>(a: Sys<V>, b: Sys<V>, v: V)
    requires a.Valid() && b.Valid()
    requires a.base.callbacks.Keys - Dropped(a) == b.base.callbacks.Keys - Dropped(b)
    requires forall h :: h in a.base.callbacks && h in b.base.callbacks ==>
      a.base.callbacks[h] == b.base.callbacks[h]
    ensures Broadcast(a, v).base.callbacks == Broadcast(b, v).base.callbacks
  {
    var ra := Broadcast(a, v).base.callbacks;
    var rb := Broadcast(b, v).base.callbacks;
    assert ra.Keys == rb.Keys;
  }

  /** The dropped subscription fails and is removed; the other entries fare as before. */
  lemma DroppedEntryIsRemoved<V>(s: Sys<V>, v: V)
    requires s.Valid()
    ensures s.base.nextHandle !in Broadcast(SubscribeAndDrop(s), v).base.callbacks
    ensures Broadcast(SubscribeAndDrop(s), v).base.callbacks == Broadcast(s, v).base.callbacks
  {
    DropAddsOneFailure(s);
    SameSurvivorsSameEntries(SubscribeAndDrop(s), s, v);
  }

  /** Every channel that existed before the subscription receives what it would have received. */
  lemma OtherChannelsUnaffected<V>(s: Sys<V>, v: V, c: ChanId)
    requires s.Valid()
    requires c in s.pool.chans
    ensures Broadcast(SubscribeAndDrop(s), v).pool.chans[c] == Broadcast(s, v).pool.chans[c]
  {
    var d := SubscribeAndDrop(s);
    assert c != Subscribe(s).receiver;
    assert SendersOf(d.base.callbacks, c) == SendersOf(s.base.callbacks, c);
  }

  /**
   A subscription dropped before the next broadcast is gone after it, and the
   broadcast behaves for everything else exactly as if that subscription had
   never been made: the same entries survive and every other channel receives
   the same values.
   */
  lemma DroppedSubscriptionIsCleanedUp<V>(s: Sys<V>, v: V)
    requires s.Valid()
    ensures var after := Broadcast(SubscribeAndDrop(s), v);
      && s.base.nextHandle !in after.base.callbacks
      && after.base.callbacks == Broadcast(s, v).base.callbacks
      && (forall c :: c in s.pool.chans ==> after.pool.chans[c] == Broadcast(s, v).pool.chans[c])
  {
    DroppedEntryIsRemoved(s, v);
    forall c | c in s.pool.chans
      ensures Broadcast(SubscribeAndDrop(s), v).pool.chans[c] == Broadcast(s, v).pool.chans[c]
    {
      OtherChannelsUnaffected(s, v, c);
    }
  }

  /** After a broadcast every remaining entry has a live receiver. */
  lemma BroadcastLeavesOnlyLiveEntries<V>(s: Sys<V>, v: V)
    requires s.Valid()
    ensures Dropped(Broadcast(s, v)) == {}
  {
    var r := Broadcast(s, v);
    forall h | h in r.base.callbacks
      ensures r.pool.chans[r.base.callbacks[h]].receiverAlive
    {
      assert s.base.callbacks[h] == r.base.callbacks[h];
    }
  }

  /** A broadcast on a registry whose receivers are all alive removes nothing. */
  lemma AllLiveMeansNothingRemoved<V>(s: Sys<V>, v: V)
    requires s.Valid()
    requires Dropped(s) == {}
    ensures Broadcast(s, v).base.callbacks == s.base.callbacks
  {
  }

  /**
   An entry is removed at most once: a second broadcast removes nothing
   unless a receiver is dropped in between.
   */
  lemma SecondBroadcastRemovesNothing<V>(s: Sys<V>, v: V, w: V)
    requires s.Valid()
    ensures Broadcast(Broadcast(s, v), w).base.callbacks == Broadcast(s, v).base.callbacks
  {
    BroadcastLeavesOnlyLiveEntries(s, v);
    AllLiveMeansNothingRemoved(Broadcast(s, v), w);
  }

  /**
   `subscribe` is `unbounded_channel()` followed by `subscribe_with` of the
   new sender, so a sender registered with `subscribe_with` is treated by
   every later broadcast exactly like one registered by `subscribe`.
   */
  lemma SubscribeIsOpenThenSubscribeWith<V>(s: Sys<V>)
    requires s.Valid()
    ensures var made := Open(s.pool);
      && Sys(s.base, made.pool).Valid()
      && made.id in made.pool.chans
      && Subscribe(s).sys == SubscribeWith(Sys(s.base, made.pool), made.id)
      && Subscribe(s).receiver == made.id
  {
  }
}
