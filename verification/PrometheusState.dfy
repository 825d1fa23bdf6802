/** `PrometheusMetrics` as code: registering, spawning, pushing and counting in sequence, the drain loop,
    and the metric names the crates register. */
module PrometheusState {
  import opened Counting
  import opened Lifecycle

  // ---------- registering a list of names ----------

  /** None of the names is registered and none is listed twice. */
  ghost predicate Fresh(names: seq<string>, registry: seq<string>) {
    NoDup(names) && forall k :: 0 <= k < |names| ==> names[k] !in registry
  }

  /** The first `k` names can be registered one after the other, and no more. */
  ghost predicate StopsAt(names: seq<string>, registry: seq<string>, k: nat) {
    k <= |names| && Fresh(names[..k], registry) && (k < |names| ==> names[k] in registry + names[..k])
  }

  lemma FreshExtend(names: seq<string>, registry: seq<string>, k: nat)
    requires k < |names| && Fresh(names[..k], registry) && names[k] !in registry + names[..k]
    ensures Fresh(names[..k + 1], registry)
  {
    assert names[..k + 1] == names[..k] + [names[k]];
  }

  lemma StopsShort(names: seq<string>, registry: seq<string>, k: nat)
    requires StopsAt(names, registry, k)
    ensures k == |names| <==> Fresh(names, registry)
  {
    if k == |names| {
      assert names[..k] == names;
    } else if names[k] in names[..k] {
      var j :| 0 <= j < k && names[..k][j] == names[k];
      assert names[j] == names[k];
    }
  }

  // ---------- one add, as steps ----------

  function Repeat(step: Step, n: nat): seq<Step> {
    if n == 0 then [] else Repeat(step, n - 1) + [step]
  }

  /** The steps of one call, number `i`, that nothing interrupts and whose `k` first metrics are accepted. */
  function AddScript(i: nat, names: seq<string>, k: nat): seq<Step> {
    [Begin(names)] + Repeat(Register(i), k + 1) + if k == |names| then [Spawn(i), Push(i), Bump(i)] else []
  }

  /** What `k` accepted registrations of call `i` do. */
  function AfterAccepted(s: System, i: nat, k: nat): System
    requires i < |s.adds| && k <= |s.adds[i].names|
  {
    s.(adds := s.adds[i := s.adds[i].(done := k)], registry := s.registry + s.adds[i].names[..k])
  }

  lemma AcceptOne(s: System, i: nat, k: nat)
    requires !s.dropped && i < |s.adds| && s.adds[i].phase.Registering?
    requires k < |s.adds[i].names| && Fresh(s.adds[i].names[..k + 1], s.registry)
    ensures Next(AfterAccepted(s, i, k), Register(i)) == AfterAccepted(s, i, k + 1)
  {
    var names := s.adds[i].names;
    assert names[..k + 1] == names[..k] + [names[k]];
    assert names[k] !in names[..k] by {
      assert forall j :: 0 <= j < k ==> names[..k][j] == names[..k + 1][j];
      assert names[..k + 1][k] == names[k];
    }
    assert names[..k + 1][k] !in s.registry;
  }

  /** And what the next one does, when it meets the end of the list or a name that is taken. */
  function AfterStopped(s: System, i: nat, k: nat): System
    requires i < |s.adds| && k <= |s.adds[i].names|
  {
    var a := s.adds[i];
    s.(adds := s.adds[i := a.(done := k, phase := if k == |a.names| then Registered else Rejected)],
       registry := s.registry + a.names[..k])
  }

  lemma StopOne(s: System, i: nat, k: nat)
    requires !s.dropped && i < |s.adds| && s.adds[i].phase.Registering?
    requires k <= |s.adds[i].names| && (k < |s.adds[i].names| ==> s.adds[i].names[k] in s.registry + s.adds[i].names[..k])
    ensures Next(AfterAccepted(s, i, k), Register(i)) == AfterStopped(s, i, k)
  {
  }

  lemma {:induction false} AcceptedRun(s: System, i: nat, k: nat)
    requires !s.dropped && i < |s.adds| && s.adds[i].phase.Registering? && s.adds[i].done == 0
    requires k <= |s.adds[i].names| && Fresh(s.adds[i].names[..k], s.registry)
    ensures RunFrom(s, Repeat(Register(i), k)) == AfterAccepted(s, i, k)
  {
    var names := s.adds[i].names;
    if k > 0 {
      assert forall j :: 0 <= j < k - 1 ==> names[..k][j] == names[..k - 1][j];
      assert names[..k][k - 1] == names[k - 1];
      AcceptedRun(s, i, k - 1);
      RunAppend(s, Repeat(Register(i), k - 1), Register(i));
      AcceptOne(s, i, k - 1);
    } else {
      assert s.adds[i := s.adds[i].(done := 0)] == s.adds;
      assert s.registry + names[..0] == s.registry;
    }
  }

  lemma StoppedRun(s: System, i: nat, k: nat)
    requires !s.dropped && i < |s.adds| && s.adds[i].phase.Registering? && s.adds[i].done == 0
    requires StopsAt(s.adds[i].names, s.registry, k)
    ensures RunFrom(s, Repeat(Register(i), k + 1)) == AfterStopped(s, i, k)
  {
    AcceptedRun(s, i, k);
    RunAppend(s, Repeat(Register(i), k), Register(i));
    StopOne(s, i, k);
  }

  // ---------- the state object ----------

  class PrometheusMetrics {
    var registry: seq<string>
    var direct: seq<string>
    var adds: seq<Add>
    var handles: seq<nat>
    var collectorCount: nat
    var dropped: bool
    /** The names registered by the builder, and the steps taken since. */
    ghost const base: seq<string>
    ghost var history: seq<Step>

    function View(): System
      reads this
    {
      System(registry, direct, adds, handles, collectorCount, dropped)
    }

    /** The object is where its history has brought it, so whatever holds of all runs holds of it. */
    ghost predicate Valid()
      reads this
    {
      NoDup(base) && View() == Run(base, history)
    }

    constructor (base: seq<string>)
      requires NoDup(base)
      ensures Valid() && View() == Built(base) && this.base == base && history == []
    {
      registry, direct, adds, handles, collectorCount, dropped := base, [], [], [], 0, false;
      this.base, history := base, [];
    }

    method Begin(names: seq<string>)
      requires Valid() && !dropped
      modifies this`adds, this`history
      ensures Valid() && history == old(history) + [Step.Begin(names)]
      ensures adds == old(adds) + [Add(names, 0, Registering, 0)]
    {
      RunAppend(Built(base), history, Step.Begin(names));
      adds := adds + [Add(names, 0, Registering, 0)];
      history := history + [Step.Begin(names)];
    }

    /** Spawns the loop, pushes its handle and counts it. */
    method Launch(i: nat)
      requires Valid() && !dropped && i < |adds| && adds[i].phase.Registered?
      modifies this`adds, this`handles, this`collectorCount, this`history
      ensures Valid() && history == old(history) + [Spawn(i), Push(i), Bump(i)]
      ensures adds == old(adds)[i := old(adds)[i].(phase := Returned)]
      ensures handles == old(handles) + [i] && collectorCount == old(collectorCount) + 1
    {
      SpawnPushBump(View(), i);
      RunConcat(Built(base), history, [Spawn(i), Push(i), Bump(i)]);
      adds := adds[i := adds[i].(phase := Spawned)];
      handles := handles + [i];
      adds := adds[i := adds[i].(phase := Pushed)];
      collectorCount := collectorCount + 1;
      adds := adds[i := adds[i].(phase := Returned)];
      history := history + [Spawn(i), Push(i), Bump(i)];
    }

    /** `registry.register(..)?` for the next metric of call `i`; the caller notes the step. */
    method RegisterOne(i: nat) returns (accepted: bool)
      requires !dropped && i < |adds| && adds[i].phase.Registering? && adds[i].done < |adds[i].names|
      modifies this`registry, this`adds
      ensures accepted <==> old(adds)[i].names[old(adds)[i].done] !in old(registry)
      ensures View() == Next(old(View()), Register(i))
    {
      var name := adds[i].names[adds[i].done];
      if name in registry {
        adds := adds[i := adds[i].(phase := Rejected)];
        return false;
      }
      registry := registry + [name];
      adds := adds[i := adds[i].(done := adds[i].done + 1)];
      return true;
    }

    /** The loop of `register`: one metric after the other, stopping at the first that is refused. */
    method RegisterEach(i: nat) returns (ok: bool)
      requires !dropped && i < |adds| && adds[i].phase.Registering? && adds[i].done == 0
      modifies this`registry, this`adds
      ensures |adds| == |old(adds)| && adds[i].names == old(adds)[i].names
      ensures StopsAt(adds[i].names, old(registry), adds[i].done) && (ok <==> adds[i].done == |adds[i].names|)
      ensures View() == AfterStopped(old(View()), i, adds[i].done)
    {
      var names, k := adds[i].names, 0;
      ghost var start := View();
      while k < |names|
        invariant k <= |names| && Fresh(names[..k], start.registry)
        invariant View() == AfterAccepted(start, i, k)
      {
        var accepted := RegisterOne(i);
        if !accepted {
          StopOne(start, i, k);
          return false;
        }
        FreshExtend(names, start.registry, k);
        AcceptOne(start, i, k);
        k := k + 1;
      }
      adds := adds[i := adds[i].(phase := Registered)];
      return true;
    }

    /** `register` for call `i`: the longest acceptable prefix of its names goes into the registry. */
    method RegisterMetrics(i: nat) returns (ok: bool)
      requires Valid() && !dropped && i < |adds| && adds[i].phase.Registering? && adds[i].done == 0
      modifies this`registry, this`adds, this`history
      ensures Valid() && |adds| == |old(adds)| && adds[i].names == old(adds)[i].names
      ensures StopsAt(adds[i].names, old(registry), adds[i].done)
      ensures ok <==> adds[i].done == |adds[i].names|
      ensures adds == old(adds)[i := old(adds)[i].(done := adds[i].done, phase := if ok then Registered else Rejected)]
      ensures registry == old(registry) + adds[i].names[..adds[i].done]
      ensures history == old(history) + Repeat(Register(i), adds[i].done + 1)
    {
      ok := RegisterEach(i);
      StoppedRun(old(View()), i, adds[i].done);
      RunConcat(Built(base), history, Repeat(Register(i), adds[i].done + 1));
      history := history + Repeat(Register(i), adds[i].done + 1);
    }

    /** Succeeds exactly when every name is new. A failure leaves the accepted prefix registered and
        neither handle nor count; a success registers all, and adds one handle and one to the count.
        Either way it is a run of the steps of one call. */
    method AddCollector(names: seq<string>) returns (ok: bool)
      requires Valid() && !dropped
      modifies this
      ensures Valid() && !dropped
      ensures ok <==> Fresh(names, old(registry))
      ensures var i := |old(adds)|;
              && |adds| == i + 1
              && StopsAt(names, old(registry), adds[i].done)
              && registry == old(registry) + names[..adds[i].done]
              && adds == old(adds) + [Add(names, adds[i].done, if ok then Returned else Rejected, 0)]
              && handles == (if ok then old(handles) + [i] else old(handles))
              && collectorCount == old(collectorCount) + (if ok then 1 else 0)
              && direct == old(direct)
              && history == old(history) + AddScript(i, names, adds[i].done)
    {
      var i := |adds|;
      Begin(names);
      assert adds[i] == Add(names, 0, Registering, 0);
      ok := RegisterMetrics(i);
      ghost var k := adds[i].done;
      StopsShort(names, old(registry), k);
      assert adds == old(adds) + [Add(names, k, if ok then Registered else Rejected, 0)];
      assert history == old(history) + ([Step.Begin(names)] + Repeat(Register(i), k + 1));
      if ok {
        Launch(i);
      }
    }

    /** The application registers a metric of its own on the public registry. */
    method RegisterDirectly(name: string) returns (accepted: bool)
      requires Valid() && !dropped
      modifies this`registry, this`direct, this`history
      ensures Valid() && history == old(history) + [Direct(name)]
      ensures accepted <==> name !in old(registry)
      ensures registry == old(registry) + (if accepted then [name] else [])
    {
      RunAppend(Built(base), history, Direct(name));
      accepted := name !in registry;
      if accepted {
        registry := registry + [name];
        direct := direct + [name];
      }
      assert View() == Next(old(View()), Direct(name));
      history := history + [Direct(name)];
    }

    /** What the caller learns: the number of calls that returned successfully. Beside the calls between
        spawn and count, that is the collectors still active and the handles drained so far; when
        every call is over it is the active collectors exactly if no shutdown ever met a handle. */
    method CollectorCount() returns (n: nat)
      requires Valid()
      ensures n == Count(adds, IsReturned)
      ensures n + Count(adds, IsSpawnedOnly) + Count(adds, IsUncounted) ==
              Count(adds, IsActive) + Drained(base, history)
      ensures AllOver(adds) ==> (n == Count(adds, IsActive) <==> !SomeFindsHandle(base, history))
    {
      Bookkeeping(base, history);
      CountIsActive(base, history);
      n := collectorCount;
    }

    /** Locks the list, and aborts and removes its handles one by one: afterwards every task
        whose handle was ever pushed has been aborted exactly once. */
    method Shutdown()
      requires Valid() && !dropped
      modifies this`adds, this`handles, this`history
      ensures Valid() && history == old(history) + [Step.Shutdown]
      ensures handles == [] && adds == AbortEach(old(adds), old(handles))
      ensures forall i :: 0 <= i < |adds| ==> adds[i].aborts == One(IsPushed(adds[i]))
    {
      RunAppend(Built(base), history, Step.Shutdown);
      var n := 0;
      while n < |handles|
        invariant n <= |handles|
        invariant handles == old(handles) && adds == AbortEach(old(adds), handles[..n])
        invariant history == old(history)
      {
        assert handles[..n + 1][..n] == handles[..n];
        adds := AbortOne(adds, handles[n]);
        n := n + 1;
      }
      assert handles[..n] == handles;
      handles := [];
      assert View() == Next(old(View()), Step.Shutdown);
      history := history + [Step.Shutdown];
      NothingLeft(base, history, adds);
    }

    /** `drop`: nobody else has a reference, so every call is over, and every task there
        is has been aborted exactly once. */
    method Drop()
      requires Valid() && !dropped && AllOver(adds)
      modifies this
      ensures Valid() && history == old(history) + [DropState]
      ensures dropped && handles == [] && adds == AbortEach(old(adds), old(handles))
      ensures forall i :: 0 <= i < |adds| ==> adds[i].aborts == One(HasTask(adds[i]))
    {
      ghost var before := history;
      ghost var start := View();
      Shutdown();
      assert View() == Drain(start) by {
        RunAppend(Built(base), before, Step.Shutdown);
      }
      RunAppend(Built(base), before, DropState);
      dropped := true;
      assert View() == Next(start, DropState);
      history := before + [DropState];
      NothingLeft(base, history, adds);
    }
  }

  lemma NothingLeft(base: seq<string>, history: seq<Step>, adds: seq<Add>)
    requires NoDup(base) && Run(base, history).adds == adds && Run(base, history).handles == []
    ensures forall i :: 0 <= i < |adds| ==> adds[i].aborts == One(IsPushed(adds[i]))
    ensures Run(base, history).dropped ==> AllOver(adds)
  {
    RunKeepsInv(base, history);
  }

  lemma SpawnPushBump(s: System, i: nat)
    requires !s.dropped && i < |s.adds| && s.adds[i].phase.Registered?
    ensures RunFrom(s, [Spawn(i), Push(i), Bump(i)]) ==
            s.(adds := s.adds[i := s.adds[i].(phase := Returned)], handles := s.handles + [i], count := s.count + 1)
  {
    RunThree(s, Spawn(i), Push(i), Bump(i));
    var spawned := Next(s, Spawn(i));
    var pushed := Next(spawned, Push(i));
    assert pushed == s.(adds := s.adds[i := s.adds[i].(phase := Pushed)], handles := s.handles + [i]);
  }

  // ---------- the names of the crates ----------

  const HTTP := ["requests_total", "request_duration_seconds", "requests_in_flight", "response_size_bytes"]

  const REDIS := ["pool_connections", "connected_clients", "blocked_clients", "used_memory_bytes",
    "used_memory_rss_bytes", "mem_fragmentation_ratio", "keyspace_hits_total", "keyspace_misses_total",
    "evicted_keys_total", "commands_processed_total", "db_keys", "db_expires", "replication_offset",
    "connected_slaves", "command_duration_seconds"]

  const POSTGRES := ["pool_active", "pool_idle", "pool_max", "db_numbackends", "db_xact_commit_total",
    "db_xact_rollback_total", "db_blks_hit_total", "db_blks_read_total", "db_size_bytes",
    "table_seq_scan_total", "table_idx_scan_total", "table_live_tup", "table_dead_tup", "lock_count",
    "query_duration_seconds", "rows_returned"]

  /** Namespace, subsystem and name joined by underscores; an empty namespace is left out. */
  function FullName(namespace: string, subsystem: string, name: string): string {
    (if namespace == "" then "" else namespace + "_") + subsystem + "_" + name
  }

  function FullNames(namespace: string, subsystem: string, names: seq<string>): (full: seq<string>)
    ensures |full| == |names|
  {
    seq(|names|, i requires 0 <= i < |names| => FullName(namespace, subsystem, names[i]))
  }

  lemma KindDistinct(namespace: string, subsystem: string, names: seq<string>)
    requires NoDup(names)
    ensures NoDup(FullNames(namespace, subsystem, names))
  {
    var head := (if namespace == "" then "" else namespace + "_") + subsystem + "_";
    forall i, j | 0 <= i < j < |names|
      ensures FullNames(namespace, subsystem, names)[i] != FullNames(namespace, subsystem, names)[j]
    {
      assert (head + names[i])[|head|..] == names[i];
      assert (head + names[j])[|head|..] == names[j];
    }
  }

  /** Names of two subsystems with different first letters never meet. */
  lemma KindsDisjoint(namespace: string, s: string, xs: seq<string>, t: string, ys: seq<string>)
    requires s != "" && t != "" && s[0] != t[0]
    ensures forall j :: 0 <= j < |ys| ==> FullNames(namespace, t, ys)[j] !in FullNames(namespace, s, xs)
  {
    var head := if namespace == "" then "" else namespace + "_";
    forall i, j | 0 <= i < |xs| && 0 <= j < |ys|
      ensures FullNames(namespace, s, xs)[i] != FullNames(namespace, t, ys)[j]
    {
      assert FullName(namespace, s, xs[i])[|head|] == s[0];
      assert FullName(namespace, t, ys[j])[|head|] == t[0];
    }
  }

  lemma HttpDistinct()
    ensures NoDup(HTTP)
  {
  }

  lemma RedisDistinct()
    ensures NoDup(REDIS)
  {
  }

  lemma PostgresDistinct()
    ensures NoDup(POSTGRES)
  {
  }

  method AddTwo(base: seq<string>, first: seq<string>, second: seq<string>)
    returns (state: PrometheusMetrics, ok1: bool, ok2: bool)
    requires NoDup(base) && Fresh(first, base) && Fresh(second, base + first)
    ensures fresh(state) && ok1 && ok2 && state.collectorCount == 2 && state.handles == [0, 1]
    ensures state.registry == base + first + second
  {
    state := new PrometheusMetrics(base);
    ok1 := state.AddCollector(first);
    StopsShort(first, base, state.adds[0].done);
    assert first[..|first|] == first;
    ok2 := state.AddCollector(second);
    StopsShort(second, base + first, state.adds[1].done);
    assert second[..|second|] == second;
  }

  /** For any namespace, the Redis and the Postgres collector can both be added to a newly built state, in
      either order, and both calls succeed. */
  method AddBoth(namespace: string, redisFirst: bool) returns (state: PrometheusMetrics, ok1: bool, ok2: bool)
    ensures ok1 && ok2 && state.collectorCount == 2 && state.handles == [0, 1]
  {
    StandardNames(namespace);
    var http := FullNames(namespace, "http", HTTP);
    var redis := FullNames(namespace, "redis", REDIS);
    var postgres := FullNames(namespace, "postgres", POSTGRES);
    if redisFirst {
      state, ok1, ok2 := AddTwo(http, redis, postgres);
    } else {
      state, ok1, ok2 := AddTwo(http, postgres, redis);
    }
  }

  lemma StandardNames(namespace: string)
    ensures var http := FullNames(namespace, "http", HTTP);
            var redis := FullNames(namespace, "redis", REDIS);
            var postgres := FullNames(namespace, "postgres", POSTGRES);
            NoDup(http) && Fresh(redis, http) && Fresh(postgres, http) && Fresh(postgres, http + redis) && Fresh(redis, http + postgres)
  {
    HttpDistinct();
    RedisDistinct();
    PostgresDistinct();
    KindDistinct(namespace, "http", HTTP);
    KindDistinct(namespace, "redis", REDIS);
    KindDistinct(namespace, "postgres", POSTGRES);
    KindsDisjoint(namespace, "http", HTTP, "redis", REDIS);
    KindsDisjoint(namespace, "http", HTTP, "postgres", POSTGRES);
    KindsDisjoint(namespace, "redis", REDIS, "postgres", POSTGRES);
    KindsDisjoint(namespace, "postgres", POSTGRES, "redis", REDIS);
  }
}
