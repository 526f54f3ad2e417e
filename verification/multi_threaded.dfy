/**
 `MultiThreadedCallback`: a holder that owns one registry and never
 broadcasts on the caller's thread.  Each `invoke` spawns one broadcast task,
 either on the tokio runtime the caller is already running in (the ambient
 runtime) or on a fallback runtime that the holder builds on first need and
 caches.  Spawned tasks are kept in a pending list; `RunTask` executes one of
 them, in any order, since tasks on a multi-worker runtime are not ordered
 with respect to each other.

 What the environment decides is passed in: `ambient` is the outcome of
 `Handle::try_current()`, `locked` whether the runtime mutex was acquired.
 */
module MultiThreaded {
  import opened Options
  import opened Channels
  import Registry
  import SingleThreaded

  /** A runtime built by the holder; `serial` numbers the `Runtime::new` calls. */
  datatype Runtime = Runtime(serial: nat)

  /** Where a spawned broadcast runs. */
  datatype Scheduler = Ambient | OnFallback(runtime: Runtime)

  /** A spawned `inner.invoke(value)` that has not run yet. */
  datatype Task<V> = Task(value: V, on: Scheduler)

  /**
   The holder: the shared registry, the cached fallback runtime, how many
   fallback runtimes were ever built, and the spawned tasks not yet run.
   */
  datatype Multi<V> = Multi(sys: Registry.Sys<V>, runtime: Option<Runtime>, built: nat, pending: seq<Task<V>>) {

    /**
     The registry is well formed; a fallback runtime exists exactly when one
     was built, and then it is the only one ever built; every task spawned on
     a fallback runtime was spawned on the cached one.
     */
    predicate Valid() {
      && sys.Valid()
      && (runtime.None? ==> built == 0)
      && (runtime.Some? ==> built == 1 && runtime.value.serial == 0)
      && (forall i :: 0 <= i < |pending| && pending[i].on.OnFallback? ==>
            runtime == Some(pending[i].on.runtime))
    }
  }

  /** `MultiThreadedCallback::new`: an empty registry, no fallback runtime, nothing spawned. */
  function New<V>(p: Pool<V>): (r: Multi<V>)
    requires p.Valid()
    ensures r.Valid()
    ensures r.sys.base.callbacks == map[] && r.sys.pool == p
    ensures r.runtime == None && r.built == 0 && r.pending == []
  {
    Multi(Registry.New(p), None, 0, [])
  }

  /** `subscribe`: the registry's `subscribe`; runtime and tasks are untouched. */
  function Subscribe<V>(m: Multi<V>): (r: (Multi<V>, ChanId))
    requires m.Valid()
    ensures r.0.Valid()
    ensures r.0.sys == Registry.Subscribe(m.sys).sys && r.1 == Registry.Subscribe(m.sys).receiver
    ensures Registry.RegistersFresh(m.sys.base, r.0.sys.base, r.1)
    ensures r.0.runtime == m.runtime && r.0.built == m.built && r.0.pending == m.pending
  {
    var sub := Registry.Subscribe(m.sys);
    (m.(sys := sub.sys), sub.receiver)
  }

  /** `subscribe_with`: the registry's `subscribe_with`; runtime and tasks are untouched. */
  function SubscribeWith<V>(m: Multi<V>, tx: ChanId): (r: Multi<V>)
    requires m.Valid()
    requires tx in m.sys.pool.chans
    ensures r.Valid()
    ensures r.sys == Registry.SubscribeWith(m.sys, tx)
    ensures Registry.RegistersFresh(m.sys.base, r.sys.base, tx)
    ensures r.runtime == m.runtime && r.built == m.built && r.pending == m.pending
  {
    m.(sys := Registry.SubscribeWith(m.sys, tx))
  }

  /**
   `get_or_insert_with(|| Runtime::new())` on the cached runtime: the cached
   one when present, otherwise a newly built one, which is then cached.
   */
  function GetOrBuild<V>(m: Multi<V>): (r: Multi<V>)
    requires m.Valid()
    ensures r.Valid()
    ensures r.runtime.Some?
    ensures m.runtime.Some? ==> r == m
    ensures m.runtime.None? ==> r.built == m.built + 1
    ensures r.sys == m.sys && r.pending == m.pending
  {
    match m.runtime
    case Some(_) => m
    case None => m.(runtime := Some(Runtime(m.built)), built := m.built + 1)
  }

  /**
   `invoke`: spawns one broadcast of `v`.  The model records the spawned
   broadcast as pending, and `RunTask` runs it at any later step, including
   the very next one (a runtime worker may finish it before `invoke` itself
   returns); the call itself changes no channel and no entry.  Inside an ambient
   runtime the task goes there and the cache is left alone; otherwise, once
   the mutex is acquired, the task goes to the cached fallback runtime, built
   only if none is cached; if the mutex cannot be acquired, nothing is
   spawned and nothing changes.
   */
  function Invoke<V>(m: Multi<V>, v: V, ambient: bool, locked: bool): (r: Multi<V>)
    requires m.Valid()
    ensures r.Valid()
    ensures r.sys == m.sys
    ensures ambient ==>
      r.runtime == m.runtime && r.built == m.built && r.pending == m.pending + [Task(v, Ambient)]
    ensures !ambient && locked ==>
      && r.runtime.Some?
      && r.pending == m.pending + [Task(v, OnFallback(r.runtime.value))]
      && (m.runtime.Some? ==> r.runtime == m.runtime && r.built == m.built)
      && (m.runtime.None? ==> r.built == m.built + 1)
    ensures !ambient && !locked ==> r == m
  {
    if ambient then
      m.(pending := m.pending + [Task(v, Ambient)])
    else if locked then
      var cached := GetOrBuild(m);
      cached.(pending := cached.pending + [Task(v, OnFallback(cached.runtime.value))])
    else
      m
  }

  /**
   A spawned task runs: one registry broadcast of its value.  The task leaves
   the pending list; the runtime cache does not change.
   */
  function RunTask<V>(m: Multi<V>, i: nat): (r: Multi<V>)
    requires m.Valid()
    requires i < |m.pending|
    ensures r.Valid()
    ensures r.sys == Registry.Broadcast(m.sys, m.pending[i].value)
    ensures r.pending == m.pending[..i] + m.pending[i + 1..]
    ensures r.runtime == m.runtime && r.built == m.built
  {
    var rest := m.pending[..i] + m.pending[i + 1..];
    assert forall j :: 0 <= j < |rest| ==> rest[j] in m.pending;
    m.(sys := Registry.Broadcast(m.sys, m.pending[i].value), pending := rest)
  }

  /**
   The things that can happen to a holder, including what its subscribers do:
   a caller may open a channel of its own (`DoOpen`) and register its sender
   with `subscribe_with`, so several sources can feed one receiver.
   */
  datatype Op<V> =
    | DoSubscribe
    | DoSubscribeWith(tx: ChanId)
    | DoInvoke(value: V, ambient: bool, locked: bool)
    | DoRunTask(index: nat)
    | DoOpen
    | DoDropReceiver(c: ChanId)

  /**
   One step of a holder's life.  A step that is not possible in the current
   state (a task index past the end, a channel that does not exist) leaves
   the holder as it is.
   */
  function Step<V>(m: Multi<V>, op: Op<V>): (r: Multi<V>)
    requires m.Valid()
    ensures r.Valid()
    ensures m.runtime.Some? ==> r.runtime == m.runtime && r.built == m.built
  {
    match op
    case DoSubscribe => Subscribe(m).0
    case DoSubscribeWith(tx) => if tx in m.sys.pool.chans then SubscribeWith(m, tx) else m
    case DoInvoke(v, ambient, locked) => Invoke(m, v, ambient, locked)
    case DoRunTask(i) => if i < |m.pending| then RunTask(m, i) else m
    case DoOpen => m.(sys := m.sys.(pool := Open(m.sys.pool).pool))
    case DoDropReceiver(c) =>
      if c in m.sys.pool.chans then
        m.(sys := m.sys.(pool := DropReceiver(m.sys.pool, c)))
      else m
  }

  /** A holder after a sequence of steps. */
  function Run<V>(m: Multi<V>, ops: seq<Op<V>>): (r: Multi<V>)
    requires m.Valid()
    ensures r.Valid()
    decreases |ops|
  {
    if ops == [] then m else Run(Step(m, ops[0]), ops[1..])
  }

  /** Once a fallback runtime is cached, every later step keeps that same runtime. */
  lemma {:induction false} CachedRuntimeIsKept<V>(m: Multi<V>, ops: seq<Op<V>>)
    requires m.Valid()
    requires m.runtime.Some?
    ensures Run(m, ops).runtime == m.runtime
    ensures Run(m, ops).built == 1
    decreases |ops|
  {
    if ops != [] {
      CachedRuntimeIsKept(Step(m, ops[0]), ops[1..]);
    }
  }

  /**
   Over a holder's whole life, whatever the callers and the environment do,
   at most one fallback runtime is ever built.
   */
  lemma {:induction false} FallbackBuiltAtMostOnce<V>(p: Pool<V>, ops: seq<Op<V>>)
    requires p.Valid()
    ensures Run(New(p), ops).built <= 1
  {
  }

  /**
   Offloading changes when the broadcast happens, not what it does: running
   the task an `invoke` spawned gives the registry and channels a synchronous
   `invoke` gives.
   */
  lemma OffloadedMatchesSynchronous<V>(m: Multi<V>, v: V, ambient: bool)
    requires m.Valid()
    ensures |Invoke(m, v, ambient, true).pending| == |m.pending| + 1
    ensures RunTask(Invoke(m, v, ambient, true), |m.pending|).sys == SingleThreaded.Invoke(m.sys, v)
    ensures RunTask(Invoke(m, v, ambient, true), |m.pending|).pending == m.pending
  {
    var r := Invoke(m, v, ambient, true);
    assert r.pending[|m.pending|].value == v;
    assert r.pending[..|m.pending|] == m.pending;
  }
}
