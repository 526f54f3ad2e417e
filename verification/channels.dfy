/**
 An abstraction of tokio's unbounded multi-producer/single-consumer channel,
 reduced to what a sender can observe: the values queued so far and whether
 the receiving half (the `Subscription`) still exists.  Every channel of the
 world lives in one `Pool`, keyed by a channel identity; a `Subscriber`
 (sending half) is represented by the identity of its channel.
 */
module Channels {

  type ChanId = nat

  /** One channel: values sent but not yet received, and whether the receiver is alive. */
  datatype Channel<V> = Channel(queue: seq<V>, receiverAlive: bool)

  /** The outcome of one `send` on the sending half. */
  datatype SendResult<V> = Sent(after: Channel<V>) | Closed

  /** All channels of the world; `next` is the identity the next new channel receives. */
  datatype Pool<V> = Pool(chans: map<ChanId, Channel<V>>, next: ChanId) {

    /** Every existing identity was handed out before `next`, so `next` is fresh. */
    predicate Valid() {
      forall c :: c in chans ==> c < next
    }
  }

  /** The pair returned by `unbounded_channel()`: the new pool and the new channel's identity. */
  datatype Opened<V> = Opened(pool: Pool<V>, id: ChanId)

  /** `unbounded_channel()`: one new channel, empty, whose receiver is alive; no other channel changes. */
  function Open<V>(p: Pool<V>): (r: Opened<V>)
    requires p.Valid()
    ensures r.pool.Valid()
    ensures r.id !in p.chans
    ensures r.pool.chans.Keys == p.chans.Keys + {r.id}
    ensures r.pool.chans[r.id] == Channel([], true)
    ensures forall c :: c in p.chans ==> r.pool.chans[c] == p.chans[c]
  {
    Opened(Pool(p.chans[p.next := Channel([], true)], p.next + 1), p.next)
  }

  /**
   `UnboundedSender::send`: fails exactly when the receiver is gone; otherwise
   the value is queued at the tail (the queue has no bound, so it never blocks).
   */
  function Send<V>(ch: Channel<V>, v: V): (r: SendResult<V>)
    ensures r.Closed? <==> !ch.receiverAlive
    ensures r.Sent? ==> r.after.queue == ch.queue + [v] && r.after.receiverAlive
  {
    if ch.receiverAlive then Sent(ch.(queue := ch.queue + [v])) else Closed
  }

  /** Dropping the `Subscription`: every later send on this channel fails. */
  function DropReceiver<V>(p: Pool<V>, c: ChanId): (r: Pool<V>)
    requires c in p.chans
    ensures p.Valid() ==> r.Valid()
    ensures r.chans.Keys == p.chans.Keys && r.next == p.next
    ensures !r.chans[c].receiverAlive
    ensures forall d :: d in p.chans && d != c ==> r.chans[d] == p.chans[d]
  {
    p.(chans := p.chans[c := p.chans[c].(receiverAlive := false)])
  }

  /** `n` copies of `v`. */
  function Repeat<V>(v: V, n: nat): (r: seq<V>)
    ensures |r| == n
    ensures forall i :: 0 <= i < n ==> r[i] == v
  {
    if n == 0 then [] else Repeat(v, n - 1) + [v]
  }

  /**
   The channel after `n` sends of `v`: a live channel has `n` more copies of
   `v` at its tail, a channel whose receiver is gone is left as it was.
   */
  function AfterSends<V>(ch: Channel<V>, v: V, n: nat): Channel<V> {
    if ch.receiverAlive then Channel(ch.queue + Repeat(v, n), true) else ch
  }

  /** One more `Send` of `v` takes the channel after `n` sends to the channel after `n + 1`. */
  lemma SendExtends<V>(ch: Channel<V>, v: V, n: nat)
    ensures Send(AfterSends(ch, v, n), v).Closed? <==> !ch.receiverAlive
    ensures Send(AfterSends(ch, v, n), v).Sent? ==>
      Send(AfterSends(ch, v, n), v).after == AfterSends(ch, v, n + 1)
  {
  }
}
