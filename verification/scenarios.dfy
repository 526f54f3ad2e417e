/**
 Concrete runs of the holders, following the repository's own tests and a
 run with two subscribers A and B in which B drops its receiver between two
 broadcasts.
 */
module Scenarios {
  import opened Options
  import opened Channels
  import Registry
  import SingleThreaded
  import MultiThreaded
  import RegistryFacts

  /** Two `subscribe` calls on an empty registry: two entries on two distinct, empty, live channels. */
  lemma TwoSubscriptions<V>(s: Registry.Sys<V>)
    requires s.Valid() && s.base.callbacks == map[]
    ensures var a := Registry.Subscribe(s);
      var b := Registry.Subscribe(a.sys);
      var h0 := s.base.nextHandle;
      var h1 := a.sys.base.nextHandle;
      && h0 != h1 && a.receiver != b.receiver
      && b.sys.base.callbacks == map[h0 := a.receiver, h1 := b.receiver]
      && b.sys.pool.chans[a.receiver] == Channel([], true)
      && b.sys.pool.chans[b.receiver] == Channel([], true)
      && Registry.SendersOf(b.sys.base.callbacks, a.receiver) == {h0}
      && Registry.SendersOf(b.sys.base.callbacks, b.receiver) == {h1}
  {
    var a := Registry.Subscribe(s);
    var b := Registry.Subscribe(a.sys);
    assert a.sys.base.callbacks == map[s.base.nextHandle := a.receiver];
  }

  /** The first `invoke` on two fresh subscribers reaches both and removes nobody. */
  lemma FirstInvokeReachesBoth<V>(t: Registry.Sys<V>, x: V, ha: Registry.Handle, hb: Registry.Handle,
                                  ra: ChanId, rb: ChanId)
    requires t.Valid()
    requires ha != hb && ra != rb
    requires t.base.callbacks == map[ha := ra, hb := rb]
    requires ra in t.pool.chans && rb in t.pool.chans
    requires t.pool.chans[ra] == Channel([], true) && t.pool.chans[rb] == Channel([], true)
    ensures var s1 := Registry.Broadcast(t, x);
      && s1.base.callbacks == t.base.callbacks
      && s1.pool.chans[ra] == Channel([x], true)
      && s1.pool.chans[rb] == Channel([x], true)
  {
    assert Registry.SendersOf(t.base.callbacks, ra) == {ha};
    assert Registry.SendersOf(t.base.callbacks, rb) == {hb};
    RegistryFacts.DeliveredOncePerEntry(t, x, ha);
    RegistryFacts.DeliveredOncePerEntry(t, x, hb);
    assert Registry.Dropped(t) == {};
    RegistryFacts.AllLiveMeansNothingRemoved(t, x);
  }

  /**
   Of two entries on two channels, the one whose receiver is alive receives
   the value and the one whose receiver is dropped is removed.
   */
  lemma OneLiveOneDropped<V>(t: Registry.Sys<V>, y: V, ha: Registry.Handle, hb: Registry.Handle,
                            ra: ChanId, rb: ChanId)
    requires t.Valid()
    requires ha != hb && ra != rb
    requires t.base.callbacks == map[ha := ra, hb := rb]
    requires ra in t.pool.chans && rb in t.pool.chans
    requires t.pool.chans[ra].receiverAlive && !t.pool.chans[rb].receiverAlive
    ensures var r := Registry.Broadcast(t, y);
      && r.pool.chans[ra].queue == t.pool.chans[ra].queue + [y]
      && r.pool.chans[rb] == t.pool.chans[rb]
      && r.base.callbacks == map[ha := ra]
  {
    assert Registry.Dropped(t) == {hb};
    assert Registry.SendersOf(t.base.callbacks, ra) == {ha};
    RegistryFacts.DeliveredOncePerEntry(t, y, ha);
  }

  /** With B's receiver dropped, the next `invoke` reaches A only and removes B's entry. */
  lemma SecondInvokeReachesOnlyA<V>(t: Registry.Sys<V>, x: V, y: V, ha: Registry.Handle, hb: Registry.Handle,
                                   ra: ChanId, rb: ChanId)
    requires t.Valid()
    requires ha != hb && ra != rb
    requires t.base.callbacks == map[ha := ra, hb := rb]
    requires ra in t.pool.chans && rb in t.pool.chans
    requires t.pool.chans[ra] == Channel([x], true) && t.pool.chans[rb] == Channel([x], true)
    ensures var s3 := Registry.Broadcast(Registry.Sys(t.base, DropReceiver(t.pool, rb)), y);
      && s3.pool.chans[ra].queue == [x, y]
      && s3.pool.chans[rb].queue == [x]
      && s3.base.callbacks == map[ha := ra]
  {
    OneLiveOneDropped(Registry.Sys(t.base, DropReceiver(t.pool, rb)), y, ha, hb, ra, rb);
  }

  /**
   Two subscribers A and B; `invoke("x")` reaches both; B drops its
   receiver; `invoke("y")` reaches only A, and the registry then holds one
   entry.
   */
  lemma TwoSubscribersOneDropped<V>(s: Registry.Sys<V>, x: V, y: V)
    requires s.Valid() && s.base.callbacks == map[]
    ensures var a := SingleThreaded.Subscribe(s);
      var b := SingleThreaded.Subscribe(a.sys);
      var s1 := Registry.Broadcast(b.sys, x);
      var s3 := Registry.Broadcast(Registry.Sys(s1.base, DropReceiver(s1.pool, b.receiver)), y);
      && s1.pool.chans[a.receiver].queue == [x]
      && s1.pool.chans[b.receiver].queue == [x]
      && s3.pool.chans[a.receiver].queue == [x, y]
      && s3.pool.chans[b.receiver].queue == [x]
      && |s3.base.callbacks| == 1
  {
    var a := Registry.Subscribe(s);
    var b := Registry.Subscribe(a.sys);
    TwoSubscriptions(s);
    var ha, hb := s.base.nextHandle, a.sys.base.nextHandle;
    FirstInvokeReachesBoth(b.sys, x, ha, hb, a.receiver, b.receiver);
    var s1 := Registry.Broadcast(b.sys, x);
    SecondInvokeReachesOnlyA(s1, x, y, ha, hb, a.receiver, b.receiver);
  }

  /** On an empty registry: a subscription whose receiver is dropped at once, then a live one. */
  lemma SubscribeDroppedThenLive<V>(s: Registry.Sys<V>)
    requires s.Valid() && s.base.callbacks == map[]
    ensures var d := RegistryFacts.SubscribeAndDrop(s);
      var second := Registry.Subscribe(d);
      var h0 := s.base.nextHandle;
      var h1 := d.base.nextHandle;
      var r0 := Registry.Subscribe(s).receiver;
      && h0 != h1 && r0 != second.receiver
      && second.sys.base.callbacks == map[h1 := second.receiver, h0 := r0]
      && r0 in second.sys.pool.chans && !second.sys.pool.chans[r0].receiverAlive
      && second.sys.pool.chans[second.receiver] == Channel([], true)
  {
    var d := RegistryFacts.SubscribeAndDrop(s);
    assert d.base.callbacks == map[s.base.nextHandle := Registry.Subscribe(s).receiver];
  }

  /**
   The dropped-receiver test, on a new holder: of two subscriptions the first
   is dropped at once; an `invoke` from inside a runtime still reaches the
   second once its task has run, and the first entry is removed.
   */
  lemma InvokeWithDroppedReceiver<V>(m0: MultiThreaded.Multi<V>, v: V)
    requires m0.Valid() && m0.sys.base.callbacks == map[] && m0.pending == []
    ensures var first := MultiThreaded.Subscribe(m0);
      var m1 := first.0.(sys := first.0.sys.(pool := DropReceiver(first.0.sys.pool, first.1)));
      var second := MultiThreaded.Subscribe(m1);
      var m2 := MultiThreaded.Invoke(second.0, v, true, true);
      && m2.pending == [MultiThreaded.Task(v, MultiThreaded.Ambient)]
      && MultiThreaded.RunTask(m2, 0).sys.pool.chans[second.1].queue == [v]
      && MultiThreaded.RunTask(m2, 0).sys.base.callbacks == map[first.0.sys.base.nextHandle := second.1]
  {
    var first := MultiThreaded.Subscribe(m0);
    var m1 := first.0.(sys := first.0.sys.(pool := DropReceiver(first.0.sys.pool, first.1)));
    assert m1.sys == RegistryFacts.SubscribeAndDrop(m0.sys);
    var second := MultiThreaded.Subscribe(m1);
    var d := RegistryFacts.SubscribeAndDrop(m0.sys);
    assert second.0.sys == Registry.Subscribe(d).sys && second.1 == Registry.Subscribe(d).receiver;
    SubscribeDroppedThenLive(m0.sys);
    AmbientRunOfOneLiveOneDropped(second.0, v, m1.sys.base.nextHandle, m0.sys.base.nextHandle, second.1, first.1);
  }

  /** The ambient-runtime `invoke` on a holder with one live and one dropped entry, then its task runs. */
  lemma AmbientRunOfOneLiveOneDropped<V>(m: MultiThreaded.Multi<V>, y: V, ha: Registry.Handle, hb: Registry.Handle,
                                        ra: ChanId, rb: ChanId)
    requires m.Valid() && m.pending == []
    requires ha != hb && ra != rb
    requires m.sys.base.callbacks == map[ha := ra, hb := rb]
    requires ra in m.sys.pool.chans && rb in m.sys.pool.chans
    requires m.sys.pool.chans[ra].receiverAlive && !m.sys.pool.chans[rb].receiverAlive
    ensures var m2 := MultiThreaded.Invoke(m, y, true, true);
      && m2.pending == [MultiThreaded.Task(y, MultiThreaded.Ambient)]
      && MultiThreaded.RunTask(m2, 0).sys.pool.chans[ra].queue == m.sys.pool.chans[ra].queue + [y]
      && MultiThreaded.RunTask(m2, 0).sys.base.callbacks == map[ha := ra]
  {
    MultiThreaded.OffloadedMatchesSynchronous(m, y, true);
    OneLiveOneDropped(m.sys, y, ha, hb, ra, rb);
  }

  /**
   The no-runtime test: an `invoke` from outside any runtime builds the
   fallback runtime, spawns the broadcast there, and a second such `invoke`
   reuses it.
   */
  lemma InvokeWithoutRuntime<V>(m0: MultiThreaded.Multi<V>, v: V)
    requires m0.Valid() && m0.sys.base.callbacks == map[] && m0.pending == [] && m0.runtime == None
    ensures var sub := MultiThreaded.Subscribe(m0);
      var m1 := MultiThreaded.Invoke(sub.0, v, false, true);
      var m2 := MultiThreaded.Invoke(m1, v, false, true);
      && m1.runtime == Some(MultiThreaded.Runtime(0)) && m1.built == 1
      && m1.pending == [MultiThreaded.Task(v, MultiThreaded.OnFallback(MultiThreaded.Runtime(0)))]
      && m2.runtime == m1.runtime && m2.built == 1
      && MultiThreaded.RunTask(m1, 0).sys.pool.chans[sub.1].queue == [v]
  {
    var sub := MultiThreaded.Subscribe(m0);
    var h := m0.sys.base.nextHandle;
    assert sub.0.sys.base.callbacks == map[h := sub.1];
    assert Registry.SendersOf(sub.0.sys.base.callbacks, sub.1) == {h};
    RegistryFacts.DeliveredOncePerEntry(sub.0.sys, v, h);
  }
}
