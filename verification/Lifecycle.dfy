/** The shared state object: collectors are registered metric by metric, spawned, pushed on the
    handle list and counted, while other threads add collectors and shut down. */
module Lifecycle {
  import opened Counting

  // ---------- state ----------

  /** How far one call of `add_collector` has come. A task exists from `Spawned` on. */
  datatype Phase = Registering | Rejected | Registered | Spawned | Pushed | Returned

  /** One call of `add_collector`: the metric names it registers in order, how many are registered,
      and how often its task has been told to abort. */
  datatype Add = Add(names: seq<string>, done: nat, phase: Phase, aborts: nat)

  /** Each handle is the index of the call whose task it belongs to. The registry is public, so the
      application may register metrics of its own: `direct` lists those it accepted. */
  datatype System = System(
    registry: seq<string>,
    direct: seq<string>,
    adds: seq<Add>,
    handles: seq<nat>,
    count: nat,
    dropped: bool)

  function Built(base: seq<string>): System {
    System(base, [], [], [], 0, false)
  }

  predicate HasTask(a: Add) { a.phase.Spawned? || a.phase.Pushed? || a.phase.Returned? }

  predicate IsPushed(a: Add) { a.phase.Pushed? || a.phase.Returned? }

  predicate IsReturned(a: Add) { a.phase.Returned? }

  predicate IsSpawnedOnly(a: Add) { a.phase.Spawned? }

  predicate IsUncounted(a: Add) { a.phase.Pushed? }

  /** The call has returned to its caller. */
  predicate Over(a: Add) { a.phase.Rejected? || a.phase.Returned? }

  /** A task exists and nothing has told it to stop. */
  predicate IsActive(a: Add) { HasTask(a) && a.aborts == 0 }

  // ---------- steps ----------

  datatype Step =
    | Begin(names: seq<string>)
    | Register(i: nat)
    | Spawn(i: nat)
    | Push(i: nat)
    | Bump(i: nat)
    | Direct(name: string)
    | Shutdown
    | DropState

  function SetAdd(s: System, i: nat, a: Add): System
    requires i < |s.adds|
  {
    s.(adds := s.adds[i := a])
  }

  function AbortOne(adds: seq<Add>, i: nat): seq<Add> {
    if i < |adds| then adds[i := adds[i].(aborts := adds[i].aborts + 1)] else adds
  }

  /** The drain loop: abort the handles one after the other. */
  function AbortEach(adds: seq<Add>, handles: seq<nat>): seq<Add>
    decreases |handles|
  {
    if handles == [] then adds
    else AbortOne(AbortEach(adds, handles[..|handles| - 1]), handles[|handles| - 1])
  }

  function Drain(s: System): System {
    s.(adds := AbortEach(s.adds, s.handles), handles := [])
  }

  predicate AllOver(adds: seq<Add>) {
    forall i :: 0 <= i < |adds| ==> Over(adds[i])
  }

  /** The registry refuses a name it has and is then unchanged. */
  function RegisterNext(s: System, i: nat): System
    requires i < |s.adds| && s.adds[i].phase.Registering?
  {
    var a := s.adds[i];
    if a.done >= |a.names| then SetAdd(s, i, a.(phase := Registered))
    else if a.names[a.done] in s.registry then SetAdd(s, i, a.(phase := Rejected))
    else SetAdd(s, i, a.(done := a.done + 1)).(registry := s.registry + [a.names[a.done]])
  }

  /** A step that is not possible changes nothing. Every step but the last needs a shared reference,
      so none is possible once the state is dropped, and the drop, which owns the state, waits
      for every call to be over. */
  function Next(s: System, step: Step): System {
    if s.dropped then s
    else
      match step
      case Begin(names) => s.(adds := s.adds + [Add(names, 0, Registering, 0)])
      case Register(i) =>
        if i < |s.adds| && s.adds[i].phase.Registering? then RegisterNext(s, i) else s
      case Spawn(i) =>
        if i < |s.adds| && s.adds[i].phase.Registered? then SetAdd(s, i, s.adds[i].(phase := Spawned)) else s
      case Push(i) =>
        if i < |s.adds| && s.adds[i].phase.Spawned?
        then SetAdd(s, i, s.adds[i].(phase := Pushed)).(handles := s.handles + [i]) else s
      case Bump(i) =>
        if i < |s.adds| && s.adds[i].phase.Pushed?
        then SetAdd(s, i, s.adds[i].(phase := Returned)).(count := s.count + 1) else s
      case Direct(name) =>
        if name in s.registry then s else s.(registry := s.registry + [name], direct := s.direct + [name])
      case Shutdown => Drain(s)
      case DropState => if AllOver(s.adds) then Drain(s).(dropped := true) else s
  }

  function RunFrom(s: System, steps: seq<Step>): System
    decreases |steps|
  {
    if steps == [] then s else Next(RunFrom(s, steps[..|steps| - 1]), steps[|steps| - 1])
  }

  function Run(base: seq<string>, steps: seq<Step>): System {
    RunFrom(Built(base), steps)
  }

  // ---------- counting calls ----------

  function SumAborts(adds: seq<Add>): nat {
    if adds == [] then 0 else SumAborts(adds[..|adds| - 1]) + adds[|adds| - 1].aborts
  }

  /** How often `x` occurs. */
  function Occurs(handles: seq<nat>, x: nat): nat {
    if handles == [] then 0
    else Occurs(handles[..|handles| - 1], x) + One(handles[|handles| - 1] == x)
  }

  /** The call has put `x` into the registry. */
  function Owns(x: string): Add -> bool {
    (a: Add) => a.done <= |a.names| && x in a.names[..a.done]
  }

  lemma {:induction false} SumUpdate(adds: seq<Add>, i: nat, a: Add)
    requires i < |adds|
    ensures SumAborts(adds[i := a]) + adds[i].aborts == SumAborts(adds) + a.aborts
  {
    var n := |adds| - 1;
    if i == n {
      assert adds[i := a][..n] == adds[..n];
    } else {
      assert adds[i := a][..n] == adds[..n][i := a];
      SumUpdate(adds[..n], i, a);
    }
  }

  lemma SumAppend(adds: seq<Add>, a: Add)
    ensures SumAborts(adds + [a]) == SumAborts(adds) + a.aborts
  {
    assert (adds + [a])[..|adds|] == adds;
  }

  lemma OccursAppend(handles: seq<nat>, x: nat)
    ensures forall y :: Occurs(handles + [x], y) == Occurs(handles, y) + One(x == y)
  {
    assert (handles + [x])[..|handles|] == handles;
  }

  lemma {:induction false} OccursIn(handles: seq<nat>, x: nat)
    ensures Occurs(handles, x) > 0 <==> x in handles
  {
    if handles != [] {
      OccursIn(handles[..|handles| - 1], x);
      assert handles == handles[..|handles| - 1] + [handles[|handles| - 1]];
    }
  }

  // ---------- the drain ----------

  /** Same calls, and only the abort counts differ. */
  ghost predicate OnlyAborts(adds: seq<Add>, after: seq<Add>) {
    && |after| == |adds|
    && forall i :: 0 <= i < |adds| ==> after[i] == adds[i].(aborts := after[i].aborts)
  }

  /** Draining tells each task to abort once for each of its handles, and touches nothing else. */
  lemma {:induction false} AbortEachCounts(adds: seq<Add>, handles: seq<nat>)
    ensures OnlyAborts(adds, AbortEach(adds, handles))
    ensures forall i :: 0 <= i < |adds| ==>
              AbortEach(adds, handles)[i].aborts == adds[i].aborts + Occurs(handles, i)
    decreases |handles|
  {
    if handles != [] {
      AbortEachCounts(adds, handles[..|handles| - 1]);
    }
  }

  ghost predicate ValidHandles(handles: seq<nat>, n: nat) {
    forall k :: 0 <= k < |handles| ==> handles[k] < n
  }

  lemma AbortOneSum(adds: seq<Add>, i: nat)
    requires i < |adds|
    ensures SumAborts(AbortOne(adds, i)) == SumAborts(adds) + 1
  {
    SumUpdate(adds, i, adds[i].(aborts := adds[i].aborts + 1));
  }

  lemma {:induction false} AbortEachSum(adds: seq<Add>, handles: seq<nat>)
    requires ValidHandles(handles, |adds|)
    ensures SumAborts(AbortEach(adds, handles)) == SumAborts(adds) + |handles|
    decreases |handles|
  {
    if handles != [] {
      var init, last := handles[..|handles| - 1], handles[|handles| - 1];
      AbortEachSum(adds, init);
      AbortEachCounts(adds, init);
      AbortOneSum(AbortEach(adds, init), last);
    }
  }

  lemma {:induction false} OnlyAbortsCount(adds: seq<Add>, after: seq<Add>, p: Add -> bool)
    requires OnlyAborts(adds, after)
    requires forall a: Add, n: nat :: p(a.(aborts := n)) == p(a)
    ensures Count(after, p) == Count(adds, p)
  {
    if adds != [] {
      OnlyAbortsCount(adds[..|adds| - 1], after[..|after| - 1], p);
    }
  }

  // ---------- the invariant ----------

  ghost predicate NoDup(names: seq<string>) {
    forall i, j :: 0 <= i < j < |names| ==> names[i] != names[j]
  }

  /** Handles on the list plus aborts sent make exactly one for each pushed task and none else. */
  ghost predicate HandleInv(s: System) {
    && ValidHandles(s.handles, |s.adds|)
    && (forall i :: 0 <= i < |s.adds| ==> Occurs(s.handles, i) + s.adds[i].aborts == One(IsPushed(s.adds[i])))
    && (s.dropped ==> AllOver(s.adds) && s.handles == [])
  }

  ghost predicate SumInv(s: System) {
    && |s.handles| + SumAborts(s.adds) == Count(s.adds, IsPushed)
    && s.count == Count(s.adds, IsReturned)
  }

  ghost predicate AddInv(a: Add, registry: seq<string>) {
    && a.done <= |a.names|
    && (a.phase.Rejected? ==> a.done < |a.names| && a.names[a.done] in registry)
    && (a.phase.Registered? || HasTask(a) ==> a.done == |a.names|)
  }

  /** The registry has no name twice, and each name is either a base name, or was put in by the
      application, or by exactly one call. */
  ghost predicate RegistryInv(s: System, base: seq<string>) {
    && NoDup(s.registry)
    && (forall x :: One(x in s.registry) == One(x in base) + One(x in s.direct) + Count(s.adds, Owns(x)))
    && (forall i :: 0 <= i < |s.adds| ==> AddInv(s.adds[i], s.registry))
  }

  ghost predicate Inv(s: System, base: seq<string>) {
    HandleInv(s) && SumInv(s) && RegistryInv(s, base)
  }

  /** A change of entry `i` to `a` that neither pushes, counts nor aborts. */
  lemma ReplaceKeepsHandles(s: System, i: nat, a: Add)
    requires HandleInv(s) && SumInv(s) && i < |s.adds| && !s.dropped
    requires a.aborts == s.adds[i].aborts
    requires IsPushed(a) == IsPushed(s.adds[i]) && IsReturned(a) == IsReturned(s.adds[i])
    ensures HandleInv(SetAdd(s, i, a)) && SumInv(SetAdd(s, i, a))
  {
    CountUpdate(s.adds, i, a, IsPushed);
    CountUpdate(s.adds, i, a, IsReturned);
    SumUpdate(s.adds, i, a);
  }

  /** The steps of one call that only change its entry `i` to `a`. */
  lemma SetAddKeepsInv(s: System, i: nat, a: Add, base: seq<string>)
    requires Inv(s, base) && i < |s.adds| && !s.dropped
    requires a.names == s.adds[i].names && a.done == s.adds[i].done && a.aborts == s.adds[i].aborts
    requires IsPushed(a) == IsPushed(s.adds[i]) && IsReturned(a) == IsReturned(s.adds[i])
    requires AddInv(a, s.registry)
    ensures Inv(SetAdd(s, i, a), base)
  {
    ReplaceKeepsHandles(s, i, a);
    SetAddKeepsRegistry(s, i, a, base);
  }

  lemma SetAddKeepsRegistry(s: System, i: nat, a: Add, base: seq<string>)
    requires RegistryInv(s, base) && i < |s.adds|
    requires a.names == s.adds[i].names && a.done == s.adds[i].done && AddInv(a, s.registry)
    ensures RegistryInv(SetAdd(s, i, a), base)
  {
    forall x ensures Count(s.adds[i := a], Owns(x)) == Count(s.adds, Owns(x)) {
      CountUpdate(s.adds, i, a, Owns(x));
    }
  }

  lemma PushKeepsInv(s: System, i: nat, base: seq<string>)
    requires Inv(s, base) && i < |s.adds| && s.adds[i].phase.Spawned? && !s.dropped
    ensures Inv(Next(s, Push(i)), base)
  {
    var a := s.adds[i].(phase := Pushed);
    CountUpdate(s.adds, i, a, IsPushed);
    CountUpdate(s.adds, i, a, IsReturned);
    SumUpdate(s.adds, i, a);
    OccursAppend(s.handles, i);
    SetAddKeepsRegistry(s, i, a, base);
  }

  lemma BumpKeepsInv(s: System, i: nat, base: seq<string>)
    requires Inv(s, base) && i < |s.adds| && s.adds[i].phase.Pushed? && !s.dropped
    ensures Inv(Next(s, Bump(i)), base)
  {
    var a := s.adds[i].(phase := Returned);
    CountUpdate(s.adds, i, a, IsPushed);
    CountUpdate(s.adds, i, a, IsReturned);
    SumUpdate(s.adds, i, a);
    SetAddKeepsRegistry(s, i, a, base);
  }

  lemma BeginKeepsHandles(s: System, a: Add)
    requires HandleInv(s) && SumInv(s) && !s.dropped && !IsPushed(a) && a.aborts == 0
    ensures var u := s.(adds := s.adds + [a]); HandleInv(u) && SumInv(u)
  {
    CountAppend(s.adds, a, IsPushed);
    CountAppend(s.adds, a, IsReturned);
    SumAppend(s.adds, a);
    OccursIn(s.handles, |s.adds|);
  }

  lemma BeginKeepsRegistry(s: System, a: Add, base: seq<string>)
    requires RegistryInv(s, base) && a.done == 0 && AddInv(a, s.registry)
    ensures RegistryInv(s.(adds := s.adds + [a]), base)
  {
    forall x ensures Count(s.adds + [a], Owns(x)) == Count(s.adds, Owns(x)) {
      CountAppend(s.adds, a, Owns(x));
    }
  }

  lemma BeginKeepsInv(s: System, names: seq<string>, base: seq<string>)
    requires Inv(s, base) && !s.dropped
    ensures Inv(Next(s, Begin(names)), base)
  {
    BeginKeepsHandles(s, Add(names, 0, Registering, 0));
    BeginKeepsRegistry(s, Add(names, 0, Registering, 0), base);
  }

  lemma AcceptKeepsInv(s: System, i: nat, base: seq<string>)
    requires Inv(s, base) && i < |s.adds| && s.adds[i].phase.Registering? && !s.dropped
    requires s.adds[i].done < |s.adds[i].names| && s.adds[i].names[s.adds[i].done] !in s.registry
    ensures Inv(RegisterNext(s, i), base)
  {
    ReplaceKeepsHandles(s, i, s.adds[i].(done := s.adds[i].done + 1));
    AcceptKeepsRegistry(s, i, base);
  }

  lemma AcceptKeepsRegistry(s: System, i: nat, base: seq<string>)
    requires RegistryInv(s, base) && i < |s.adds| && s.adds[i].phase.Registering?
    requires s.adds[i].done < |s.adds[i].names| && s.adds[i].names[s.adds[i].done] !in s.registry
    ensures RegistryInv(RegisterNext(s, i), base)
  {
    var a := s.adds[i];
    var u, b, name := RegisterNext(s, i), a.(done := a.done + 1), a.names[a.done];
    assert a.names[..a.done + 1] == a.names[..a.done] + [name];
    forall x ensures One(x in u.registry) == One(x in base) + One(x in u.direct) + Count(u.adds, Owns(x)) {
      CountUpdate(s.adds, i, b, Owns(x));
      assert One(x in s.registry) == One(x in base) + One(x in s.direct) + Count(s.adds, Owns(x));
      if x == name {
        CountZero(s.adds, Owns(x));
      }
    }
    forall k | 0 <= k < |u.adds| ensures AddInv(u.adds[k], u.registry) {
      assert AddInv(s.adds[k], s.registry);
    }
  }

  lemma DirectKeepsInv(s: System, name: string, base: seq<string>)
    requires Inv(s, base) && !s.dropped
    ensures Inv(Next(s, Direct(name)), base)
  {
    var u := Next(s, Direct(name));
    if name !in s.registry {
      forall x ensures One(x in u.registry) == One(x in base) + One(x in u.direct) + Count(u.adds, Owns(x)) {
        assert One(x in s.registry) == One(x in base) + One(x in s.direct) + Count(s.adds, Owns(x));
      }
      forall k | 0 <= k < |u.adds| ensures AddInv(u.adds[k], u.registry) {
        assert AddInv(s.adds[k], s.registry);
      }
    }
  }

  lemma DrainedAdds(s: System)
    requires HandleInv(s)
    ensures OnlyAborts(s.adds, Drain(s).adds)
    ensures forall i :: 0 <= i < |s.adds| ==>
              Drain(s).adds[i] == s.adds[i].(aborts := One(IsPushed(s.adds[i])))
  {
    AbortEachCounts(s.adds, s.handles);
  }

  lemma DrainKeepsHandles(s: System)
    requires HandleInv(s) && SumInv(s)
    ensures HandleInv(Drain(s)) && SumInv(Drain(s))
  {
    DrainedAdds(s);
    AbortEachSum(s.adds, s.handles);
    OnlyAbortsCount(s.adds, Drain(s).adds, IsPushed);
    OnlyAbortsCount(s.adds, Drain(s).adds, IsReturned);
  }

  lemma DrainKeepsRegistry(s: System, base: seq<string>)
    requires HandleInv(s) && RegistryInv(s, base)
    ensures RegistryInv(Drain(s), base)
  {
    DrainedAdds(s);
    forall x ensures Count(Drain(s).adds, Owns(x)) == Count(s.adds, Owns(x)) {
      OnlyAbortsCount(s.adds, Drain(s).adds, Owns(x));
    }
  }

  lemma DropKeepsInv(s: System, base: seq<string>)
    requires Inv(s, base) && AllOver(s.adds)
    ensures Inv(Drain(s).(dropped := true), base)
  {
    DrainKeepsHandles(s);
    DrainKeepsRegistry(s, base);
    DrainedAdds(s);
  }

  lemma NextKeepsInv(s: System, step: Step, base: seq<string>)
    requires Inv(s, base)
    ensures Inv(Next(s, step), base)
  {
    if !s.dropped {
      match step
      case Begin(names) => BeginKeepsInv(s, names, base);
      case Register(i) =>
        if i < |s.adds| && s.adds[i].phase.Registering? {
          assert AddInv(s.adds[i], s.registry);
          if s.adds[i].done >= |s.adds[i].names| {
            SetAddKeepsInv(s, i, s.adds[i].(phase := Registered), base);
          } else if s.adds[i].names[s.adds[i].done] in s.registry {
            SetAddKeepsInv(s, i, s.adds[i].(phase := Rejected), base);
          } else {
            AcceptKeepsInv(s, i, base);
          }
        }
      case Spawn(i) =>
        if i < |s.adds| && s.adds[i].phase.Registered? {
          assert AddInv(s.adds[i], s.registry);
          SetAddKeepsInv(s, i, s.adds[i].(phase := Spawned), base);
        }
      case Push(i) =>
        if i < |s.adds| && s.adds[i].phase.Spawned? {
          assert AddInv(s.adds[i], s.registry);
          PushKeepsInv(s, i, base);
        }
      case Bump(i) =>
        if i < |s.adds| && s.adds[i].phase.Pushed? {
          assert AddInv(s.adds[i], s.registry);
          BumpKeepsInv(s, i, base);
        }
      case Direct(name) => DirectKeepsInv(s, name, base);
      case Shutdown =>
        DrainKeepsHandles(s);
        DrainKeepsRegistry(s, base);
      case DropState =>
        if AllOver(s.adds) {
          DropKeepsInv(s, base);
        }
    }
  }

  lemma {:induction false} RunKeepsInv(base: seq<string>, steps: seq<Step>)
    requires NoDup(base)
    ensures Inv(Run(base, steps), base)
    decreases |steps|
  {
    if steps != [] {
      RunKeepsInv(base, steps[..|steps| - 1]);
      NextKeepsInv(Run(base, steps[..|steps| - 1]), steps[|steps| - 1], base);
    }
  }

  // ---------- aborts ----------

  /** In every reachable state each task has been told to abort at most once, and a task never
      pushed not at all; it has one handle on the list exactly while it is pushed and not aborted. */
  lemma AbortedAtMostOnce(base: seq<string>, steps: seq<Step>, i: nat)
    requires NoDup(base) && i < |Run(base, steps).adds|
    ensures var s := Run(base, steps);
            var a := s.adds[i];
            && a.aborts <= One(IsPushed(a))
            && Occurs(s.handles, i) == One(IsPushed(a) && a.aborts == 0)
  {
    RunKeepsInv(base, steps);
  }

  /** After the state is dropped every task any call spawned has been aborted exactly once. */
  lemma DroppedAbortsAll(base: seq<string>, steps: seq<Step>, i: nat)
    requires NoDup(base) && Run(base, steps).dropped && i < |Run(base, steps).adds|
    ensures var a := Run(base, steps).adds[i]; a.aborts == One(HasTask(a))
  {
    RunKeepsInv(base, steps);
    assert Over(Run(base, steps).adds[i]);
  }

  /** A shutdown misses a task exactly when it falls between that task's spawn and push. */
  lemma ShutdownMisses(base: seq<string>, steps: seq<Step>, i: nat)
    requires NoDup(base)
    requires var s := Run(base, steps); !s.dropped && i < |s.adds| && HasTask(s.adds[i])
    ensures i < |Run(base, steps + [Shutdown]).adds|
    ensures IsActive(Run(base, steps + [Shutdown]).adds[i]) <==> Run(base, steps).adds[i].phase.Spawned?
  {
    RunKeepsInv(base, steps);
    DrainedAdds(Run(base, steps));
    RunAppend(Built(base), steps, Shutdown);
  }

  /** A first call that is accepted, up to its spawn. */
  const SPAWNED := [Register(0), Register(0), Spawn(0)]

  lemma SpawnedRun(base: seq<string>, name: string)
    requires name !in base
    ensures Run(base, [Begin([name])] + SPAWNED) ==
            System(base + [name], [], [Add([name], 1, Spawned, 0)], [], 0, false)
  {
    var s0 := Built(base);
    RunAppend(s0, [], Begin([name]));
    var s1 := s0.(adds := [Add([name], 0, Registering, 0)]);
    RunThree(s1, Register(0), Register(0), Spawn(0));
    RunConcat(s0, [Begin([name])], SPAWNED);
    assert [] + [Begin([name])] == [Begin([name])];
    assert RunFrom(s0, [Begin([name])]) == s1;
    var s2 := Next(s1, Register(0));
    assert s2 == System(base + [name], [], [Add([name], 1, Registering, 0)], [], 0, false);
    var s3 := Next(s2, Register(0));
    assert s3 == s2.(adds := [Add([name], 1, Registered, 0)]);
    assert Next(s3, Spawn(0)) == s2.(adds := [Add([name], 1, Spawned, 0)]);
  }

  lemma RunThree(s: System, a: Step, b: Step, c: Step)
    ensures RunFrom(s, [a, b, c]) == Next(Next(Next(s, a), b), c)
  {
    RunAppend(s, [], a);
    RunAppend(s, [a], b);
    RunAppend(s, [a, b], c);
    assert [] + [a] == [a] && [a] + [b] == [a, b] && [a, b] + [c] == [a, b, c];
  }

  /** Such a race exists: the task goes on after the shutdown and its call returns normally. */
  lemma RaceExists(base: seq<string>, name: string)
    requires name !in base
    ensures var s := Run(base, [Begin([name])] + SPAWNED + [Shutdown, Push(0), Bump(0)]);
            s.adds == [Add([name], 1, Returned, 0)] && s.handles == [0] && s.count == 1
  {
    SpawnedRun(base, name);
    var s := Run(base, [Begin([name])] + SPAWNED);
    RunConcat(Built(base), [Begin([name])] + SPAWNED, [Shutdown, Push(0), Bump(0)]);
    RunThree(s, Shutdown, Push(0), Bump(0));
    assert Next(s, Shutdown) == s;
    var pushed := Next(s, Push(0));
    assert pushed == s.(adds := [Add([name], 1, Pushed, 0)], handles := [0]);
    assert Next(pushed, Bump(0)) == pushed.(adds := [Add([name], 1, Returned, 0)], count := 1);
  }

  lemma RunAppend(s: System, steps: seq<Step>, step: Step)
    ensures RunFrom(s, steps + [step]) == Next(RunFrom(s, steps), step)
  {
    assert (steps + [step])[..|steps|] == steps;
  }

  lemma {:induction false} RunConcat(s: System, a: seq<Step>, b: seq<Step>)
    ensures RunFrom(s, a + b) == RunFrom(RunFrom(s, a), b)
  {
    if b == [] {
      assert a + b == a;
    } else {
      assert (a + b)[..|a + b| - 1] == a + b[..|b| - 1];
      RunConcat(s, a, b[..|b| - 1]);
    }
  }

  // ---------- bookkeeping ----------

  /** The counter is the calls past it; handles pushed less handles drained is the list's length; the
      counter lags the pushes by the calls between the two. */
  lemma Bookkeeping(base: seq<string>, steps: seq<Step>)
    requires NoDup(base)
    ensures var s := Run(base, steps);
            && s.count == Count(s.adds, IsReturned)
            && |s.handles| == Count(s.adds, IsPushed) - SumAborts(s.adds)
            && s.count + Count(s.adds, IsUncounted) == Count(s.adds, IsPushed)
  {
    RunKeepsInv(base, steps);
    CountSum(Run(base, steps).adds, IsPushed, IsReturned, IsUncounted);
  }

  /** Counter and registry only grow, whatever happens later; the registry keeps its order. */
  lemma {:induction false} OnlyGrow(s: System, more: seq<Step>)
    ensures s.count <= RunFrom(s, more).count
    ensures s.registry <= RunFrom(s, more).registry
    decreases |more|
  {
    if more != [] {
      OnlyGrow(s, more[..|more| - 1]);
    }
  }

  /** The step empties the handle list: a shutdown, or the drop once every call is over. */
  predicate Drains(s: System, step: Step) {
    !s.dropped && (step.Shutdown? || (step.DropState? && AllOver(s.adds)))
  }

  /** How many handles the shutdowns and the drop of a run have found on the list. */
  function Drained(base: seq<string>, steps: seq<Step>): nat
    decreases |steps|
  {
    if steps == [] then 0
    else
      var n := |steps| - 1;
      var s := Run(base, steps[..n]);
      Drained(base, steps[..n]) + if Drains(s, steps[n]) then |s.handles| else 0
  }

  /** Step `k` is a shutdown, or the drop, and meets a handle on the list. */
  ghost predicate FindsHandle(base: seq<string>, steps: seq<Step>, k: nat) {
    k < |steps| && Drains(Run(base, steps[..k]), steps[k]) && Run(base, steps[..k]).handles != []
  }

  ghost predicate SomeFindsHandle(base: seq<string>, steps: seq<Step>) {
    exists k: nat :: FindsHandle(base, steps, k)
  }

  lemma StepAborts(s: System, step: Step)
    requires HandleInv(s)
    ensures SumAborts(Next(s, step).adds) == SumAborts(s.adds) + if Drains(s, step) then |s.handles| else 0
  {
    if Drains(s, step) {
      AbortEachSum(s.adds, s.handles);
    } else if !s.dropped {
      match step
      case Begin(names) => SumAppend(s.adds, Add(names, 0, Registering, 0));
      case Register(i) => EntryAborts(s, step, i);
      case Spawn(i) => EntryAborts(s, step, i);
      case Push(i) => EntryAborts(s, step, i);
      case Bump(i) => EntryAborts(s, step, i);
      case _ =>
    }
  }

  lemma EntryAborts(s: System, step: Step, i: nat)
    requires step in {Register(i), Spawn(i), Push(i), Bump(i)} && !s.dropped
    ensures SumAborts(Next(s, step).adds) == SumAborts(s.adds)
  {
    if i < |s.adds| {
      var u := Next(s, step);
      assert u.adds == s.adds || u.adds == s.adds[i := u.adds[i]];
      SumUpdate(s.adds, i, u.adds[i]);
    }
  }

  lemma {:induction false} AbortsAreDrained(base: seq<string>, steps: seq<Step>)
    requires NoDup(base)
    ensures SumAborts(Run(base, steps).adds) == Drained(base, steps)
    decreases |steps|
  {
    if steps != [] {
      var n := |steps| - 1;
      AbortsAreDrained(base, steps[..n]);
      RunKeepsInv(base, steps[..n]);
      StepAborts(Run(base, steps[..n]), steps[n]);
    }
  }

  lemma FindsInPrefix(base: seq<string>, steps: seq<Step>, n: nat, k: nat)
    requires k < n <= |steps|
    ensures FindsHandle(base, steps[..n], k) <==> FindsHandle(base, steps, k)
  {
    assert steps[..n][..k] == steps[..k];
  }

  lemma {:induction false} DrainedNone(base: seq<string>, steps: seq<Step>)
    ensures Drained(base, steps) > 0 <==> SomeFindsHandle(base, steps)
    decreases |steps|
  {
    if steps != [] {
      var n := |steps| - 1;
      DrainedNone(base, steps[..n]);
      if k: nat :| FindsHandle(base, steps[..n], k) {
        FindsInPrefix(base, steps, n, k);
      } else if !FindsHandle(base, steps, n) {
        forall k: nat ensures !FindsHandle(base, steps, k) {
          if k < n {
            FindsInPrefix(base, steps, n, k);
          }
        }
      }
    }
  }

  /** What `collector_count` shows: beside the calls between spawn and count, the counter exceeds the
      number of active collectors by exactly the handles that shutdowns have found. So with no call
      under way it is the number of active collectors, as its documentation says, if and only if
      no shutdown, and not the drop, ever met a handle on the list. */
  lemma {:induction false} CountIsActive(base: seq<string>, steps: seq<Step>)
    requires NoDup(base)
    ensures var s := Run(base, steps);
            && Count(s.adds, IsActive) == |s.handles| + Count(s.adds, IsSpawnedOnly)
            && s.count + Count(s.adds, IsSpawnedOnly) + Count(s.adds, IsUncounted) ==
               Count(s.adds, IsActive) + Drained(base, steps)
            && (AllOver(s.adds) ==> (s.count == Count(s.adds, IsActive) <==> !SomeFindsHandle(base, steps)))
  {
    RunKeepsInv(base, steps);
    Bookkeeping(base, steps);
    AbortsAreDrained(base, steps);
    DrainedNone(base, steps);
    var s := Run(base, steps);
    ActiveSum(s.adds);
    if AllOver(s.adds) {
      CountZero(s.adds, IsSpawnedOnly);
      CountZero(s.adds, IsUncounted);
    }
  }

  /** The counter still says one after a shutdown has stopped the only collector there is. */
  lemma CountOutlivesShutdown(base: seq<string>, name: string)
    requires name !in base
    ensures var s := Run(base, [Begin([name])] + SPAWNED + [Push(0), Bump(0), Shutdown]);
            AllOver(s.adds) && s.count == 1 && Count(s.adds, IsActive) == 0
  {
    SpawnedRun(base, name);
    var s := Run(base, [Begin([name])] + SPAWNED);
    RunConcat(Built(base), [Begin([name])] + SPAWNED, [Push(0), Bump(0), Shutdown]);
    RunThree(s, Push(0), Bump(0), Shutdown);
    var pushed := Next(s, Push(0));
    assert pushed == s.(adds := [Add([name], 1, Pushed, 0)], handles := [0]);
    var returned := Next(pushed, Bump(0));
    assert returned == pushed.(adds := [Add([name], 1, Returned, 0)], count := 1);
    AbortEachCounts(returned.adds, [0]);
    assert [0][..0] == [];
    var stopped := Next(returned, Shutdown);
    assert stopped.adds == [Add([name], 1, Returned, 1)];
    CountZero(stopped.adds, IsActive);
  }

  lemma {:induction false} ActiveSum(adds: seq<Add>)
    requires forall i :: 0 <= i < |adds| ==> adds[i].aborts <= One(IsPushed(adds[i]))
    ensures Count(adds, IsActive) + SumAborts(adds) == Count(adds, IsPushed) + Count(adds, IsSpawnedOnly)
  {
    if adds != [] {
      ActiveSum(adds[..|adds| - 1]);
    }
  }

  // ---------- registration ----------

  /** Over any history of adds: no name twice; each name is a base name, or was put in by the application
      itself, or by exactly one call; a call has put in a prefix of its list, the whole list if it went on to spawn; a
      rejected call stopped at a name that is registered and has neither task nor handle. */
  lemma Registration(base: seq<string>, steps: seq<Step>, i: nat)
    requires NoDup(base) && i < |Run(base, steps).adds|
    ensures var s := Run(base, steps);
            && NoDup(s.registry)
            && (forall x :: One(x in s.registry) == One(x in base) + One(x in s.direct) + Count(s.adds, Owns(x)))
    ensures var s := Run(base, steps);
            var a := s.adds[i];
            && a.done <= |a.names|
            && (a.phase.Rejected? ==> a.done < |a.names| && a.names[a.done] in s.registry
                                      && i !in s.handles && a.aborts == 0)
            && (HasTask(a) ==> a.done == |a.names|)
  {
    RunKeepsInv(base, steps);
    var s := Run(base, steps);
    assert AddInv(s.adds[i], s.registry);
    OccursIn(s.handles, i);
  }

  /** Two calls whose lists begin with the same name cannot both get past it, however they interleave;
      so of concurrent adds of one collector kind at most one spawns a task. */
  lemma SameKindOnce(base: seq<string>, steps: seq<Step>, i: nat, j: nat)
    requires NoDup(base) && i < j < |Run(base, steps).adds|
    requires var s := Run(base, steps);
             s.adds[i].names != [] && s.adds[j].names != [] && s.adds[i].names[0] == s.adds[j].names[0]
    ensures var s := Run(base, steps);
            && (s.adds[i].done == 0 || s.adds[j].done == 0)
            && !(HasTask(s.adds[i]) && HasTask(s.adds[j]))
  {
    RunKeepsInv(base, steps);
    var s := Run(base, steps);
    var a, b := s.adds[i], s.adds[j];
    var x := a.names[0];
    assert AddInv(a, s.registry) && AddInv(b, s.registry);
    assert One(x in s.registry) == One(x in base) + One(x in s.direct) + Count(s.adds, Owns(x));
    if a.done > 0 && b.done > 0 {
      FirstOwned(a);
      FirstOwned(b);
      CountPair(s.adds, i, j, Owns(x));
      assert false;
    }
  }

  lemma FirstOwned(a: Add)
    requires a.names != [] && 0 < a.done <= |a.names|
    ensures Owns(a.names[0])(a)
  {
    assert a.names[..a.done][0] == a.names[0];
  }

  /** Adding a kind again, after any history in which a call for it got past its first metric, fails at
      that metric: the registry, the handles and the counter stay as they were. */
  lemma ReAddFails(base: seq<string>, steps: seq<Step>, i: nat)
    requires NoDup(base)
    requires var s := Run(base, steps); !s.dropped && i < |s.adds| && s.adds[i].done > 0
    ensures var s := Run(base, steps);
            var n := |s.adds|;
            Next(Next(s, Begin(s.adds[i].names)), Register(n)) ==
            s.(adds := s.adds + [Add(s.adds[i].names, 0, Rejected, 0)])
  {
    RunKeepsInv(base, steps);
    var s := Run(base, steps);
    var a := s.adds[i];
    assert AddInv(a, s.registry);
    FirstOwned(a);
    CountZero(s.adds, Owns(a.names[0]));
    assert One(a.names[0] in s.registry) ==
           One(a.names[0] in base) + One(a.names[0] in s.direct) + Count(s.adds, Owns(a.names[0]));
    var b := Add(a.names, 0, Registering, 0);
    assert (s.adds + [b])[|s.adds| := b.(phase := Rejected)] == s.adds + [b.(phase := Rejected)];
  }
}
