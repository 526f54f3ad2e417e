# fx-callback: a Dafny model of the callback registry

fx-callback is a Rust crate that lets a component broadcast events to any
number of subscribers. A subscriber gets the receiving half of an unbounded
tokio channel (a `Subscription`), or registers a sending half of its own
(`subscribe_with`). The shared core is `BaseCallback`, a lock-guarded
`HashMap<CallbackHandle, UnboundedSender>`. `invoke` sends one value to every
registered sender. It collects the handles whose send failed because the
receiver was dropped, and then removes them. Two holders wrap the core:

- `SingleThreadedCallback` broadcasts on the caller's thread.
- `MultiThreadedCallback` spawns the broadcast as a task. The task goes on the
  caller's tokio runtime when there is one. Otherwise it goes on a fallback
  runtime that the holder builds lazily and caches behind a mutex.

The model, module by module:

- `Options`: the `Option` type.
- `Channels`: an unbounded channel, seen as its queue of sent values plus a
  flag saying whether the receiver is still alive. Every channel lives in one
  `Pool`, keyed by a channel identity, and a sender is represented by that
  identity. Sending fails exactly when the receiver is gone. Dropping a
  `Subscription` clears the flag.
- `Registry`: `BaseCallback`. Handles come from a counter, so each new one is
  fresh.
  - `Broadcast` is a reference definition of one `invoke`, independent of
    iteration order.
  - The method `Invoke` follows the source loop. It visits the entries in an
    arbitrary order chosen by `Enumerate`, calls `InvokeCallback` on each and
    collects the failures, then removes them with `RemoveAll`. It is proved
    to give exactly `Broadcast`'s result.
- `SingleThreaded`, `MultiThreaded`: the two holders. For the multi-threaded
  holder:
  - `ambient` is the outcome of `Handle::try_current()`, and `locked` says
    whether the runtime mutex was acquired.
  - Spawned tasks wait in a pending list, and `RunTask` runs any one of them.
  - `built` counts the calls to `Runtime::new`.
  - `Step`/`Run` drive a holder through any sequence of operations. They
    include subscribers dropping their receivers.
- `RegistryFacts`: properties that relate several operations (duplicates,
  dropped subscriptions, cleanup).
- `Scenarios`: the crate's own tests and the two-subscriber scenario, stated
  as lemmas.

## Model

| member | source | states |
|---|---|---|
| Channels.Open | src/callback.rs:250 | `unbounded_channel()` yields a channel with a fresh identity, empty and with a live receiver; every other channel is unchanged |
| Channels.Send | src/callback.rs:306 | a send fails exactly when the receiver has been dropped; otherwise the value is appended at the tail of the queue |
| Channels.DropReceiver | src/callback.rs:13-15 | dropping a `Subscription` makes its channel refuse every later send; no other channel changes |
| Channels.SendExtends | src/callback.rs:306 | after `n` sends of the same value, one more send fails only on a dead channel and otherwise gives the channel after `n + 1` sends |
| Registry.New | src/callback.rs:242-246 | a new registry has no callbacks |
| Registry.Insert | src/callback.rs:251-252 | the map gains exactly one entry under a handle no entry used, mapping to the given sender; prior entries are unchanged |
| Registry.Subscribe | src/callback.rs:248-256 | `subscribe` registers a fresh handle on a new, empty, live channel and returns that channel's receiver; no prior entry or channel changes |
| Registry.SubscribeWith | src/callback.rs:258-264 | `subscribe_with` adds the caller's sender under a fresh handle even when it is already registered (its count of entries grows by one); no channel changes |
| Registry.InvokeCallback | src/callback.rs:300-324 | `invoke_callback` returns `Some(handle)` exactly when the send fails, changing nothing; on `None` the only change is the value appended to that channel |
| Registry.Broadcast | src/callback.rs:266-292 | one broadcast: exactly the handles with a dropped receiver leave the map; survivors keep their sender; each live channel gets the value once per entry on it; dead or unreferenced channels are untouched |
| Registry.Enumerate | src/callback.rs:276-277 | the map's iteration visits every handle exactly once, in an order that is not fixed |
| Registry.OccurrencesInOrder | src/callback.rs:276-282 | along any full iteration order, the number of visits to entries on a channel is the number of entries registered on it |
| Registry.SendNext | src/callback.rs:278-280 | one `invoke_callback` on the next entry of the iteration extends the sent prefix by that entry and does not change whether any receiver is alive |
| Registry.SentAll | src/callback.rs:276-282 | once every entry has been visited, the channels are exactly those of `Broadcast` |
| Registry.SendToAll | src/callback.rs:276-282 | the send loop, in any iteration order, leaves the channels as `Broadcast` says and collects exactly the handles whose receiver is gone |
| Registry.RemoveAll | src/callback.rs:284-287 | removing the collected handles one at a time leaves exactly the other entries, each with its sender; a handle already gone is a no-op |
| Registry.Invoke | src/callback.rs:266-292 | `BaseCallback::invoke` (send loop, then removal, under one lock) gives exactly `Broadcast`, whatever the iteration order |
| SingleThreaded.New | src/callback.rs:201-206 | the holder starts over an empty registry |
| SingleThreaded.Subscribe | src/callback.rs:222-224 | `subscribe` is the registry's `subscribe`, so it registers a fresh handle |
| SingleThreaded.SubscribeWith | src/callback.rs:226-228 | `subscribe_with` is the registry's `subscribe_with`, so it registers a fresh handle |
| SingleThreaded.Invoke | src/callback.rs:213-215 | `invoke` is one registry broadcast finished before returning: every surviving entry's queue ends with the value, and every removed entry had a dropped receiver |
| MultiThreaded.New | src/callback.rs:150-156 | the holder starts with an empty registry, no cached runtime and nothing spawned |
| MultiThreaded.Subscribe | src/callback.rs:137-139 | `subscribe` is the registry's `subscribe`; runtime cache and spawned tasks are untouched |
| MultiThreaded.SubscribeWith | src/callback.rs:141-143 | `subscribe_with` is the registry's `subscribe_with`; runtime cache and spawned tasks are untouched |
| MultiThreaded.GetOrBuild | src/callback.rs:174-175 | `get_or_insert_with` returns the cached runtime unchanged when there is one, and otherwise builds exactly one runtime and caches it |
| MultiThreaded.Invoke | src/callback.rs:163-183 | `invoke` spawns exactly one task; the model records it as pending and `RunTask` runs it at any later step, including the very next one, so the call itself changes no channel or entry. With an ambient runtime the task goes there and the cache is untouched. Without one, once the mutex is held, the task goes to the cached runtime, built only if none was cached. If the mutex fails, nothing changes |
| MultiThreaded.RunTask | src/callback.rs:168-170 | a spawned task, whenever it runs, performs one registry broadcast of its value and leaves the runtime cache alone |
| MultiThreaded.Step | src/callback.rs:172-179 | no operation discards or replaces a cached fallback runtime. This covers subscribers dropping receivers and callers opening channels of their own for `subscribe_with` |
| MultiThreaded.Run | src/callback.rs:129-130 | the holder's invariants hold after any sequence of operations: runtime cached exactly when built, fallback tasks on the cached runtime |
| MultiThreaded.CachedRuntimeIsKept | src/callback.rs:172-179 | once a fallback runtime is cached, every later step keeps that same runtime and builds no other |
| MultiThreaded.FallbackBuiltAtMostOnce | src/callback.rs:174-175 | over a holder's whole life at most one fallback runtime is ever built |
| MultiThreaded.OffloadedMatchesSynchronous | src/callback.rs:163-183 | running the one task an `invoke` spawned gives the same registry and channels as the single-threaded `invoke` |
| RegistryFacts.BroadcastOnEmptyIsNoop | src/callback.rs:276-287 | a broadcast on an empty registry changes nothing |
| RegistryFacts.DeliveredOncePerEntry | src/callback.rs:278-280 | the only entry on a live channel gets the value exactly once and stays registered |
| RegistryFacts.DuplicateSubscribeWithDeliversTwice | src/callback.rs:80-84 | registering one live sender twice gives two entries, and one broadcast queues the value twice on that channel |
| RegistryFacts.SubscribeAndDrop | src/callback.rs:13-15 | subscribing and then dropping the receiver registers a fresh handle on a new channel that refuses sends; other channels are unchanged |
| RegistryFacts.DropAddsOneFailure | src/callback.rs:306-308 | the dropped subscription adds exactly its own handle to the handles that will fail |
| RegistryFacts.SameSurvivorsSameEntries | src/callback.rs:284-287 | two registries with the same surviving entries hold the same entries after a broadcast |
| RegistryFacts.DroppedEntryIsRemoved | src/callback.rs:284-287 | a subscription dropped before a broadcast is removed by it, and the other entries survive exactly as without it |
| RegistryFacts.OtherChannelsUnaffected | src/callback.rs:276-282 | every pre-existing channel receives the same values whether or not the dropped subscription was made |
| RegistryFacts.DroppedSubscriptionIsCleanedUp | src/callback.rs:13-15 | dropping a `Subscription` removes its callback at the next broadcast and affects no other entry or channel |
| RegistryFacts.BroadcastLeavesOnlyLiveEntries | src/callback.rs:284-287 | after a broadcast every remaining entry has a live receiver |
| RegistryFacts.AllLiveMeansNothingRemoved | src/callback.rs:284-287 | a broadcast on a registry whose receivers are all alive removes nothing |
| RegistryFacts.SecondBroadcastRemovesNothing | src/callback.rs:284-287 | an entry is removed once: a second broadcast with no receiver dropped in between removes nothing |
| RegistryFacts.SubscribeIsOpenThenSubscribeWith | src/callback.rs:248-264 | `subscribe` equals opening a channel and then calling `subscribe_with` with its sender |
| Scenarios.TwoSubscriptions | src/callback.rs:248-256 | two `subscribe` calls on an empty registry give two entries under distinct handles, on two distinct empty live channels |
| Scenarios.FirstInvokeReachesBoth | src/callback.rs:266-287 | the first `invoke` queues the value on both fresh channels and removes nobody |
| Scenarios.OneLiveOneDropped | src/callback.rs:266-287 | of two entries, the live one receives the value and the dropped one is removed |
| Scenarios.SecondInvokeReachesOnlyA | src/callback.rs:266-287 | after B drops its receiver, the next `invoke` reaches A only and removes B |
| Scenarios.TwoSubscribersOneDropped | src/callback.rs:266-292 | A and B subscribe; `invoke(x)` reaches both; B drops; `invoke(y)` reaches A only and one entry remains |
| Scenarios.SubscribeDroppedThenLive | src/callback.rs:404-405 | a subscription dropped at once, then a live one: two entries, one on a dead channel and one on an empty live channel |
| Scenarios.InvokeWithDroppedReceiver | src/callback.rs:397-421 | inside a runtime, `invoke` spawns one ambient task; once it runs, the live subscriber has the value and the dropped entry is gone |
| Scenarios.AmbientRunOfOneLiveOneDropped | src/callback.rs:165-170 | an ambient `invoke` spawns exactly one task, and running it reaches the live entry and removes the dropped one |
| Scenarios.InvokeWithoutRuntime | src/callback.rs:376-395 | outside any runtime, `invoke` builds the fallback runtime and spawns there, and the subscriber gets the value when the task runs; a second `invoke` reuses the runtime |

## Left out

- Tokio internals are not modelled: the real `unbounded_channel`, `tokio::spawn`, `Runtime::new` and `Handle::try_current`. Channels are a queue plus a liveness flag. The runtime probe and the outcome of the runtime lock are boolean inputs to `MultiThreaded.Invoke`, and spawned tasks are a pending list.
- Receiving from a channel is not modelled. A dropped receiver's queue stays in the model, but nothing can observe it.
- The relative order of independently spawned tasks is not modelled. `RunTask` may run any pending task next, and nothing is claimed about ordering across tasks.
- `HashMap` iteration order is unspecified. The send loop visits the entries in an arbitrary order picked by `Enumerate`, and every property holds for all orders.
- Timing and logging are not modelled: the `Instant` measurement, the 1000 ms warning in `invoke_callback`, and every `trace!`, `debug!`, `warn!` and `error!` call. They change no state.
- A poisoned `BaseCallback` lock is not modelled. The source calls `lock().expect(...)` there and panics, so the base lock is treated as always acquired. Only the runtime lock of the multi-threaded holder has a failure branch, and it is the `locked` input.
- A failing `Runtime::new().unwrap()` panics in the source and is not modelled.
- `Arc` sharing of the value is not modelled: the same value is delivered to every channel.
- `fx_handle::Handle` generation is not modelled. It belongs to a foreign crate; a per-registry counter stands in for it and provides freshness.
- `Clone` of a holder, and several holders sharing one `Arc` registry, are not modelled. Each holder owns its registry here.
- The lock's mutual exclusion between concurrent callers is not modelled. Each operation is one atomic transition on the state.
- A receiver dropped in the middle of a broadcast is not modelled. Dropping a `Subscription` does not take the registry lock, so in the source it can land between two sends. When two entries share one channel, one send could then succeed and the next fail, removing only one of the two handles. In the model liveness is fixed for the whole broadcast, so each live channel gets the value once per entry on it, and every entry on a dead channel is removed.
- The `Debug` impl is not modelled: it only formats the number of callbacks.
- `src/lib.rs` is not modelled: it holds crate documentation, a re-export and a test logger.
- `MultiThreaded.Step`: an operation that is impossible in the current state leaves the holder unchanged. Examples are a task index past the end and an unknown channel.
- Lock failure: only the runtime lock of `MultiThreadedCallback::invoke` has a failure branch, which logs and spawns nothing (src/callback.rs:180). The registry's lock panics through `expect` (src/callback.rs:249, 259, 267), so the model has no failure branch there.
