/**
 The subscriber registry (`BaseCallback`): a map from a fresh callback handle
 to the sending half of a channel, together with the world of channels it
 sends into.  Handles come from a counter, which makes every new handle fresh;
 the lock around the map is always acquired (a poisoned lock panics in the
 source), so every operation here is one atomic transition.
 */
module Registry {
  import opened Options
  import opened Channels

  type Handle = nat

  /** The registry proper: `callbacks` and the next handle the generator hands out. */
  datatype Base = Base(callbacks: map<Handle, ChanId>, nextHandle: Handle)

  /** A registry together with the channels its entries send into. */
  datatype Sys<V> = Sys(base: Base, pool: Pool<V>) {

    /**
     Handles are fresh below `nextHandle`, and every registered sender belongs
     to an existing channel (a sender cannot outlive its channel).
     */
    predicate Valid() {
      && pool.Valid()
      && (forall h :: h in base.callbacks ==> h < base.nextHandle)
      && (forall h :: h in base.callbacks ==> base.callbacks[h] in pool.chans)
    }
  }

  /** The outcome of `subscribe`: the new state and the receiver handed back to the caller. */
  datatype Subscription<V> = Subscription(sys: Sys<V>, receiver: ChanId)

  /** The outcome of `invoke_callback`: the handle to remove, if any, and the channels after the send. */
  datatype Attempt<V> = Attempt(removed: Option<Handle>, pool: Pool<V>)

  /** The handles registered on channel `c`. */
  function SendersOf(callbacks: map<Handle, ChanId>, c: ChanId): set<Handle>
  {
    set h | h in callbacks && callbacks[h] == c
  }

  /** The handles whose receiver has been dropped: exactly the ones a broadcast fails to reach. */
  function Dropped<V>(s: Sys<V>): set<Handle>
    requires s.Valid()
  {
    set h | h in s.base.callbacks && !s.pool.chans[s.base.callbacks[h]].receiverAlive
  }

  /**
   `after` is `before` with exactly one more entry, under the handle the
   generator hands out next (which no entry uses yet), mapping to `c`; the
   prior entries are unchanged and the generator has moved past the new handle.
   */
  predicate RegistersFresh(before: Base, after: Base, c: ChanId) {
    var h := before.nextHandle;
    && h !in before.callbacks
    && after.callbacks.Keys == before.callbacks.Keys + {h}
    && after.callbacks[h] == c
    && (forall k :: k in before.callbacks ==> after.callbacks[k] == before.callbacks[k])
    && after.nextHandle > h
  }

  /** `BaseCallback::new`: no callbacks registered. */
  function New<V>(p: Pool<V>): (r: Sys<V>)
    requires p.Valid()
    ensures r.Valid()
    ensures r.base.callbacks == map[]
    ensures r.pool == p
  {
    Sys(Base(map[], 0), p)
  }

  /** Adds `tx` under a fresh handle (the map insertion both subscribe operations share). */
  function Insert(b: Base, tx: ChanId): (r: Base)
    requires forall h :: h in b.callbacks ==> h < b.nextHandle
    ensures RegistersFresh(b, r, tx)
    ensures forall h :: h in r.callbacks ==> h < r.nextHandle
  {
    Base(b.callbacks[b.nextHandle := tx], b.nextHandle + 1)
  }

  /**
   `subscribe`: opens a new channel, registers its sender under a fresh handle
   and returns the receiver.  The new channel is empty and its receiver alive;
   no prior entry and no prior channel changes.
   */
  function Subscribe<V>(s: Sys<V>): (r: Subscription<V>)
    requires s.Valid()
    ensures r.sys.Valid()
    ensures RegistersFresh(s.base, r.sys.base, r.receiver)
    ensures r.receiver !in s.pool.chans
    ensures r.sys.pool.chans.Keys == s.pool.chans.Keys + {r.receiver}
    ensures r.sys.pool.chans[r.receiver] == Channel([], true)
    ensures forall c :: c in s.pool.chans ==> r.sys.pool.chans[c] == s.pool.chans[c]
  {
    var made := Open(s.pool);
    Subscription(Sys(Insert(s.base, made.id), made.pool), made.id)
  }

  /**
   `subscribe_with`: registers the caller's sender `tx` under a fresh handle.
   There is no duplicate detection: `tx` is added even when it is already
   registered.  No channel changes.
   */
  function SubscribeWith<V>(s: Sys<V>, tx: ChanId): (r: Sys<V>)
    requires s.Valid()
    requires tx in s.pool.chans
    ensures r.Valid()
    ensures RegistersFresh(s.base, r.base, tx)
    ensures |SendersOf(r.base.callbacks, tx)| == |SendersOf(s.base.callbacks, tx)| + 1
    ensures r.pool == s.pool
  {
    var b := Insert(s.base, tx);
    assert SendersOf(b.callbacks, tx) == SendersOf(s.base.callbacks, tx) + {s.base.nextHandle};
    Sys(b, s.pool)
  }

  /**
   `invoke_callback`: one send on the sender registered under `h`.  It yields
   `Some(h)` exactly when the send fails because the receiver was dropped, and
   then changes nothing; otherwise it yields `None`, and the only change is `v`
   appended to that channel's queue.
   */
  function InvokeCallback<V>(h: Handle, tx: ChanId, v: V, p: Pool<V>): (r: Attempt<V>)
    requires tx in p.chans
    ensures r.removed == Some(h) <==> !p.chans[tx].receiverAlive
    ensures r.removed.Some? ==> r.removed == Some(h) && r.pool == p
    ensures r.removed.None? ==>
      r.pool == Pool(p.chans[tx := Channel(p.chans[tx].queue + [v], true)], p.next)
  {
    match Send(p.chans[tx], v)
    case Closed => Attempt(Some(h), p)
    case Sent(after) => Attempt(None, p.(chans := p.chans[tx := after]))
  }

  /**
   The effect of one broadcast of `v`, independent of the order in which the
   map is visited: each live channel receives `v` once per entry that
   references it, and the entries whose receiver is gone are removed.
   */
  function Broadcast<V>(s: Sys<V>, v: V): (r: Sys<V>)
    requires s.Valid()
    ensures r.Valid()
    // registry: exactly the failed handles leave; survivors keep their sender; nothing is added
    ensures r.base.nextHandle == s.base.nextHandle
    ensures r.base.callbacks.Keys == s.base.callbacks.Keys - Dropped(s)
    ensures forall h :: h in r.base.callbacks ==> r.base.callbacks[h] == s.base.callbacks[h]
    // channels: none created or destroyed; dead or unreferenced ones untouched
    ensures r.pool.next == s.pool.next && r.pool.chans.Keys == s.pool.chans.Keys
    ensures forall c :: c in s.pool.chans && !s.pool.chans[c].receiverAlive ==>
      r.pool.chans[c] == s.pool.chans[c]
    ensures forall c :: c in s.pool.chans && SendersOf(s.base.callbacks, c) == {} ==>
      r.pool.chans[c] == s.pool.chans[c]
    // live channels: `v` appended once per entry that references the channel
    ensures forall c :: c in s.pool.chans && s.pool.chans[c].receiverAlive ==>
      r.pool.chans[c] == Channel(s.pool.chans[c].queue + Repeat(v, |SendersOf(s.base.callbacks, c)|), true)
  {
    var cb := s.base.callbacks;
    var chans := s.pool.chans;
    Sys(Base(map h | h in cb && h !in Dropped(s) :: cb[h], s.base.nextHandle),
        Pool(map c | c in chans :: AfterSends(chans[c], v, |SendersOf(cb, c)|), s.pool.next))
  }

  /** `order` lists every handle of `keys` exactly once: one possible iteration order of the map. */
  ghost predicate Enumerates(order: seq<Handle>, keys: set<Handle>) {
    && (forall i, j :: 0 <= i < j < |order| ==> order[i] != order[j])
    && (forall h :: h in order <==> h in keys)
  }

  /** The number of handles in `hs` that are registered on channel `c`. */
  function Occurrences(cb: map<Handle, ChanId>, hs: seq<Handle>, c: ChanId): nat {
    if hs == [] then 0
    else
      var last := hs[|hs| - 1];
      Occurrences(cb, hs[..|hs| - 1], c) + (if last in cb && cb[last] == c then 1 else 0)
  }

  /** The handles mentioned in `hs` that are registered on channel `c`. */
  ghost function MentionedSenders(cb: map<Handle, ChanId>, hs: seq<Handle>, c: ChanId): set<Handle> {
    set h | h in hs && h in cb && cb[h] == c
  }

  /**
   Counting along a list without repetitions counts the registered senders it
   mentions; in particular, along an iteration order of the whole map it
   counts every sender of the channel.
   */
  lemma {:induction false} OccurrencesCountSenders(cb: map<Handle, ChanId>, hs: seq<Handle>, c: ChanId)
    requires forall i, j :: 0 <= i < j < |hs| ==> hs[i] != hs[j]
    ensures Occurrences(cb, hs, c) == |MentionedSenders(cb, hs, c)|
  {
    if hs != [] {
      var init := hs[..|hs| - 1];
      var last := hs[|hs| - 1];
      assert last !in init by {
        forall i | 0 <= i < |init| ensures init[i] != last {
          assert init[i] == hs[i];
        }
      }
      OccurrencesCountSenders(cb, init, c);
      assert hs == init + [last];
      MentionedSendersSnoc(cb, init, last, c);
    }
  }

  /** Appending a handle not yet mentioned adds it to the mentioned senders exactly when it sends to `c`. */
  lemma MentionedSendersSnoc(cb: map<Handle, ChanId>, init: seq<Handle>, last: Handle, c: ChanId)
    requires last !in init
    ensures last in cb && cb[last] == c ==>
      MentionedSenders(cb, init + [last], c) == MentionedSenders(cb, init, c) + {last}
      && |MentionedSenders(cb, init + [last], c)| == |MentionedSenders(cb, init, c)| + 1
    ensures !(last in cb && cb[last] == c) ==>
      MentionedSenders(cb, init + [last], c) == MentionedSenders(cb, init, c)
  {
    var before := MentionedSenders(cb, init, c);
    var after := MentionedSenders(cb, init + [last], c);
    assert forall h :: h in init + [last] <==> h in init || h == last;
    if last in cb && cb[last] == c {
      assert after == before + {last};
      assert last !in before;
    } else {
      assert after == before;
    }
  }

  /** Along an iteration order of the whole map, the count is the number of senders of `c`. */
  lemma OccurrencesInOrder(cb: map<Handle, ChanId>, order: seq<Handle>, c: ChanId)
    requires Enumerates(order, cb.Keys)
    ensures Occurrences(cb, order, c) == |SendersOf(cb, c)|
  {
    OccurrencesCountSenders(cb, order, c);
    assert MentionedSenders(cb, order, c) == SendersOf(cb, c);
  }

  /**
   Picks an iteration order of the map: every handle once, in an arbitrary
   order (`HashMap` makes no promise about the order).
   */
  method Enumerate(keys: set<Handle>) returns (order: seq<Handle>)
    ensures Enumerates(order, keys)
  {
    order := [];
    var remaining := keys;
    while remaining != {}
      invariant forall i, j :: 0 <= i < j < |order| ==> order[i] != order[j]
      invariant forall h :: h in order <==> h in keys && h !in remaining
      invariant remaining <= keys
      decreases remaining
    {
      var h :| h in remaining;
      order := order + [h];
      remaining := remaining - {h};
    }
  }

  /** The channels after sending `v` to the first `i` entries of `order`. */
  ghost predicate SentPrefix<V>(s: Sys<V>, v: V, order: seq<Handle>, i: nat, pool: Pool<V>)
    requires i <= |order|
  {
    && pool.next == s.pool.next
    && pool.chans.Keys == s.pool.chans.Keys
    && forall c {:trigger pool.chans[c]} :: c in pool.chans ==>
         pool.chans[c] == AfterSends(s.pool.chans[c], v, Occurrences(s.base.callbacks, order[..i], c))
  }

  /** One `invoke_callback` on the next entry extends the prefix by one. */
  lemma {:induction false} SendNext<V>(s: Sys<V>, v: V, order: seq<Handle>, i: nat, pool: Pool<V>)
    requires s.Valid()
    requires i < |order| && order[i] in s.base.callbacks
    requires SentPrefix(s, v, order, i, pool)
    ensures s.base.callbacks[order[i]] in pool.chans
    ensures pool.chans[s.base.callbacks[order[i]]].receiverAlive
      == s.pool.chans[s.base.callbacks[order[i]]].receiverAlive
    ensures SentPrefix(s, v, order, i + 1,
                       InvokeCallback(order[i], s.base.callbacks[order[i]], v, pool).pool)
  {
    var cb := s.base.callbacks;
    var h := order[i];
    var tx := cb[h];
    var q := InvokeCallback(h, tx, v, pool).pool;
    assert order[..i + 1][..i] == order[..i];
    SendExtends(s.pool.chans[tx], v, Occurrences(cb, order[..i], tx));
    forall c | c in q.chans
      ensures q.chans[c] == AfterSends(s.pool.chans[c], v, Occurrences(cb, order[..i + 1], c))
    {
    }
  }

  /** After the last entry, the channels are those of `Broadcast`. */
  lemma {:induction false} SentAll<V>(s: Sys<V>, v: V, order: seq<Handle>, pool: Pool<V>)
    requires s.Valid()
    requires Enumerates(order, s.base.callbacks.Keys)
    requires SentPrefix(s, v, order, |order|, pool)
    ensures pool == Broadcast(s, v).pool
  {
    var want := Broadcast(s, v).pool;
    assert order[..|order|] == order;
    forall c | c in pool.chans
      ensures pool.chans[c] == want.chans[c]
    {
      OccurrencesInOrder(s.base.callbacks, order, c);
    }
    assert pool.chans == want.chans;
  }

  /**
   The sending half of `BaseCallback::invoke`: visit every entry in the map's
   iteration order, call `invoke_callback` on it, and collect the handles it
   reports.  Whatever the order, the channels end as `Broadcast` says and the
   collected handles are exactly those whose receiver is gone.
   */
  method SendToAll<V>(s: Sys<V>, v: V) returns (pool: Pool<V>, handlesToRemove: seq<Handle>)
    requires s.Valid()
    ensures pool == Broadcast(s, v).pool
    ensures forall h :: h in handlesToRemove <==> h in Dropped(s)
  {
    var cb := s.base.callbacks;
    var order := Enumerate(cb.Keys);
    pool := s.pool;
    handlesToRemove := [];
    var i := 0;
    while i < |order|
      invariant 0 <= i <= |order|
      invariant SentPrefix(s, v, order, i, pool)
      invariant forall h :: h in handlesToRemove <==> h in order[..i] && h in Dropped(s)
    {
      var h := order[i];
      SendNext(s, v, order, i, pool);
      var attempt := InvokeCallback(h, cb[h], v, pool);
      if attempt.removed.Some? {
        handlesToRemove := handlesToRemove + [attempt.removed.value];
      }
      pool := attempt.pool;
      assert order[..i + 1] == order[..i] + [h];
      i := i + 1;
    }
    assert order[..i] == order;
    SentAll(s, v, order, pool);
  }

  /**
   The cleanup half of `BaseCallback::invoke`: remove the collected handles
   one at a time.  Exactly those handles leave; every other entry stays with
   its sender (removing a handle that is already gone changes nothing).
   */
  method RemoveAll(callbacks: map<Handle, ChanId>, handles: seq<Handle>) returns (m: map<Handle, ChanId>)
    ensures forall h :: h in m <==> h in callbacks && h !in handles
    ensures forall h :: h in m ==> m[h] == callbacks[h]
  {
    m := callbacks;
    var i := 0;
    while i < |handles|
      invariant 0 <= i <= |handles|
      invariant forall h :: h in m <==> h in callbacks && h !in handles[..i]
      invariant forall h :: h in m ==> m[h] == callbacks[h]
    {
      assert handles[..i + 1] == handles[..i] + [handles[i]];
      m := m - {handles[i]};
      i := i + 1;
    }
    assert handles[..i] == handles;
  }

  /**
   `BaseCallback::invoke`: one broadcast of `v` under one acquisition of the
   lock, sending first and removing the failed handles afterwards.  The
   outcome is `Broadcast(s, v)`, whatever order the entries were visited in.
   */
  method Invoke<V>(s: Sys<V>, v: V) returns (r: Sys<V>)
    requires s.Valid()
    ensures r == Broadcast(s, v)
  {
    var pool, handlesToRemove := SendToAll(s, v);
    var callbacks := RemoveAll(s.base.callbacks, handlesToRemove);
    r := Sys(Base(callbacks, s.base.nextHandle), pool);
    assert callbacks == Broadcast(s, v).base.callbacks;
  }
}
