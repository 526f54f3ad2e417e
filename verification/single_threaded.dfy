/**
 `SingleThreadedCallback`: a holder that owns one registry and broadcasts on
 the caller's own thread.  Every operation is the registry's operation; the
 invocation has finished delivering by the time it returns.
 */
module SingleThreaded {
  import opened Channels
  import Registry

  /** `SingleThreadedCallback::new`: a holder over an empty registry. */
  function New<V>(p: Pool<V>): (r: Registry.Sys<V>)
    requires p.Valid()
    ensures r.Valid()
    ensures r.base.callbacks == map[]
    ensures r.pool == p
  {
    Registry.New(p)
  }

  /** `subscribe`: exactly the registry's `subscribe`. */
  function Subscribe<V>(s: Registry.Sys<V>): (r: Registry.Subscription<V>)
    requires s.Valid()
    ensures r == Registry.Subscribe(s)
    ensures Registry.RegistersFresh(s.base, r.sys.base, r.receiver)
  {
    Registry.Subscribe(s)
  }

  /** `subscribe_with`: exactly the registry's `subscribe_with`. */
  function SubscribeWith<V>(s: Registry.Sys<V>, tx: ChanId): (r: Registry.Sys<V>)
    requires s.Valid()
    requires tx in s.pool.chans
    ensures r == Registry.SubscribeWith(s, tx)
    ensures Registry.RegistersFresh(s.base, r.base, tx)
  {
    Registry.SubscribeWith(s, tx)
  }

  /**
   `invoke`: one broadcast of `v`, carried out before returning.  When it
   returns, every entry whose receiver is alive has `v` as the newest value
   of its queue, and every entry whose receiver is gone has been removed.
   */
  function Invoke<V>(s: Registry.Sys<V>, v: V): (r: Registry.Sys<V>)
    requires s.Valid()
    ensures r == Registry.Broadcast(s, v)
    ensures forall h :: h in r.base.callbacks ==>
      var q := r.pool.chans[r.base.callbacks[h]].queue; |q| > 0 && q[|q| - 1] == v
    ensures forall h :: h in s.base.callbacks && h !in r.base.callbacks ==>
      !s.pool.chans[s.base.callbacks[h]].receiverAlive
  {
    var r := Registry.Broadcast(s, v);
    assert forall h :: h in r.base.callbacks ==>
      Registry.SendersOf(s.base.callbacks, s.base.callbacks[h]) != {} by {
      forall h | h in r.base.callbacks
        ensures h in Registry.SendersOf(s.base.callbacks, s.base.callbacks[h])
      {
      }
    }
    r
  }
}
