/** The HTTP metrics service: any number of requests, each a future that steps through shared
    metrics, in every interleaving. */
module HttpLayer {
  import opened Wrappers
  import opened Numbers
  import opened Counting

  // ---------- data ----------

  type Elapsed = nat

  /** What the inner service gives. `size` is the Content-Length text when it reads as a number. */
  datatype Answer = Response(status: nat, size: Option<string>) | InnerError

  /** Where a request is in `call`: waiting for the inner service; its future dropped while waiting;
      inner service done but gauge not yet decremented; then after each of the four updates. */
  datatype Phase =
    | Waiting
    | Dropped
    | Ready(answer: Answer, elapsed: Elapsed)
    | Left(answer: Answer, elapsed: Elapsed)
    | Counted(answer: Answer, elapsed: Elapsed)
    | Timed(answer: Answer, elapsed: Elapsed)
    | Done(answer: Answer, elapsed: Elapsed)

  datatype Task = Task(verb: string, path: string, phase: Phase)

  datatype Series = Series(verb: string, path: string, status: string)

  datatype Timing = Timing(series: Series, elapsed: Elapsed)

  datatype Size = Size(verb: string, path: string, length: string)

  function StatusText(a: Answer): string {
    match a
    case Response(status, _) => NatText(status)
    case InnerError => "500"
  }

  /** The shared metrics, a counter vector as a multiset of increments and a histogram as the
      sequence of its observations, beside every request called so far. */
  datatype State = State(
    inFlight: int,
    requestsTotal: multiset<Series>,
    durations: seq<Timing>,
    sizes: seq<Size>,
    tasks: seq<Task>)

  const START := State(0, multiset{}, [], [], [])

  function SeriesOf(t: Task): Series
    requires !t.phase.Waiting? && !t.phase.Dropped?
  {
    Series(t.verb, t.path, StatusText(t.phase.answer))
  }

  function SizeOf(t: Task): Option<Size>
    requires !t.phase.Waiting? && !t.phase.Dropped?
  {
    match t.phase.answer
    case Response(_, Some(length)) => Some(Size(t.verb, t.path, length))
    case _ => None
  }

  // ---------- steps ----------

  /** `Advance` is the next atomic update of a request whose inner service is done. */
  datatype Step =
    | Call(verb: string, path: string)
    | Complete(i: nat, answer: Answer, elapsed: Elapsed)
    | Drop(i: nat)
    | Advance(i: nat)

  function Move(s: State, i: nat, phase: Phase): State
    requires i < |s.tasks|
  {
    s.(tasks := s.tasks[i := s.tasks[i].(phase := phase)])
  }

  /** A step that is not possible changes nothing. A future can be dropped only while it waits:
      after the await the body runs to its end without another one. */
  function Next(s: State, step: Step): State {
    match step
    case Call(verb, path) =>
      s.(inFlight := s.inFlight + 1, tasks := s.tasks + [Task(verb, path, Waiting)])
    case Complete(i, answer, elapsed) =>
      if i < |s.tasks| && s.tasks[i].phase.Waiting? then Move(s, i, Ready(answer, elapsed)) else s
    case Drop(i) =>
      if i < |s.tasks| && s.tasks[i].phase.Waiting? then Move(s, i, Dropped) else s
    case Advance(i) =>
      if i < |s.tasks| then Advanced(s, i) else s
  }

  function Advanced(s: State, i: nat): State
    requires i < |s.tasks|
  {
    var t := s.tasks[i];
    match t.phase
    case Ready(a, e) => Move(s, i, Left(a, e)).(inFlight := s.inFlight - 1)
    case Left(a, e) => Move(s, i, Counted(a, e)).(requestsTotal := s.requestsTotal + multiset{SeriesOf(t)})
    case Counted(a, e) => Move(s, i, Timed(a, e)).(durations := s.durations + [Timing(SeriesOf(t), e)])
    case Timed(a, e) =>
      Move(s, i, Done(a, e)).(sizes := s.sizes + match SizeOf(t) case Some(z) => [z] case None => [])
    case _ => s
  }

  function RunFrom(s: State, steps: seq<Step>): State {
    if steps == [] then s else Next(RunFrom(s, steps[..|steps| - 1]), steps[|steps| - 1])
  }

  function Run(steps: seq<Step>): State {
    RunFrom(START, steps)
  }

  /** The inner service answers, and the four updates follow. */
  function RecordSteps(i: nat, answer: Answer, elapsed: Elapsed): seq<Step> {
    [Complete(i, answer, elapsed), Advance(i), Advance(i), Advance(i), Advance(i)]
  }

  lemma RecordUnfolds(s: State, i: nat, answer: Answer, elapsed: Elapsed)
    ensures RunFrom(s, RecordSteps(i, answer, elapsed)) ==
            Next(Next(Next(Next(Next(s, Complete(i, answer, elapsed)), Advance(i)), Advance(i)), Advance(i)), Advance(i))
  {
    RunFive(s, RecordSteps(i, answer, elapsed));
  }

  lemma RunFive(s: State, steps: seq<Step>)
    requires |steps| == 5
    ensures RunFrom(s, steps) == Next(Next(Next(Next(Next(s, steps[0]), steps[1]), steps[2]), steps[3]), steps[4])
  {
    RunPrefix(s, steps, 0);
    RunPrefix(s, steps, 1);
    RunPrefix(s, steps, 2);
    RunPrefix(s, steps, 3);
    RunPrefix(s, steps, 4);
    assert steps[..0] == [] && steps[..5] == steps;
  }

  lemma RunPrefix(s: State, steps: seq<Step>, n: nat)
    requires n < |steps|
    ensures RunFrom(s, steps[..n + 1]) == Next(RunFrom(s, steps[..n]), steps[n])
  {
    assert steps[..n + 1][..n] == steps[..n];
  }

  // ---------- the service ----------

  class HttpMetricsService {
    var inFlight: int
    var requestsTotal: multiset<Series>
    var durations: seq<Timing>
    var sizes: seq<Size>
    var tasks: seq<Task>

    constructor ()
      ensures View() == START
    {
      inFlight, requestsTotal, durations, sizes, tasks := 0, multiset{}, [], [], [];
    }

    function View(): State
      reads this
    {
      State(inFlight, requestsTotal, durations, sizes, tasks)
    }

    /** The part of `call` before the future is returned. */
    method Call(verb: string, path: string) returns (i: nat)
      modifies this
      ensures View() == Next(old(View()), Step.Call(verb, path))
      ensures i == |old(tasks)| && tasks[i] == Task(verb, path, Waiting)
    {
      inFlight := inFlight + 1;
      i := |tasks|;
      tasks := tasks + [Task(verb, path, Waiting)];
    }

    method SetPhase(i: nat, phase: Phase)
      requires i < |tasks|
      modifies this`tasks
      ensures tasks == old(tasks)[i := old(tasks)[i].(phase := phase)]
    {
      tasks := tasks[i := tasks[i].(phase := phase)];
    }

    method LeaveFlight(i: nat)
      requires i < |tasks| && tasks[i].phase.Ready?
      modifies this
      ensures View() == Next(old(View()), Advance(i)) && tasks[i].phase.Left?
    {
      inFlight := inFlight - 1;
      SetPhase(i, Left(tasks[i].phase.answer, tasks[i].phase.elapsed));
    }

    method CountRequest(i: nat)
      requires i < |tasks| && tasks[i].phase.Left?
      modifies this
      ensures View() == Next(old(View()), Advance(i)) && tasks[i].phase.Counted?
      ensures var t := old(tasks)[i];
              requestsTotal == old(requestsTotal) + multiset{
                match t.phase.answer
                case Response(status, _) => Series(t.verb, t.path, NatText(status))
                case InnerError => Series(t.verb, t.path, "500")}
    {
      var t := tasks[i];
      match t.phase.answer {
        case Response(status, _) =>
          requestsTotal := requestsTotal + multiset{Series(t.verb, t.path, NatText(status))};
        case InnerError =>
          requestsTotal := requestsTotal + multiset{Series(t.verb, t.path, "500")};
      }
      SetPhase(i, Counted(t.phase.answer, t.phase.elapsed));
    }

    method ObserveDuration(i: nat)
      requires i < |tasks| && tasks[i].phase.Counted?
      modifies this
      ensures View() == Next(old(View()), Advance(i)) && tasks[i].phase.Timed?
      ensures var t := old(tasks)[i];
              durations == old(durations) + [
                match t.phase.answer
                case Response(status, _) => Timing(Series(t.verb, t.path, NatText(status)), t.phase.elapsed)
                case InnerError => Timing(Series(t.verb, t.path, "500"), t.phase.elapsed)]
    {
      var t := tasks[i];
      match t.phase.answer {
        case Response(status, _) =>
          durations := durations + [Timing(Series(t.verb, t.path, NatText(status)), t.phase.elapsed)];
        case InnerError =>
          durations := durations + [Timing(Series(t.verb, t.path, "500"), t.phase.elapsed)];
      }
      SetPhase(i, Timed(t.phase.answer, t.phase.elapsed));
    }

    method ObserveSize(i: nat)
      requires i < |tasks| && tasks[i].phase.Timed?
      modifies this
      ensures View() == Next(old(View()), Advance(i)) && tasks[i].phase.Done?
    {
      var t := tasks[i];
      match t.phase.answer {
        case Response(_, Some(length)) => sizes := sizes + [Size(t.verb, t.path, length)];
        case _ =>
      }
      SetPhase(i, Done(t.phase.answer, t.phase.elapsed));
      assert sizes == Next(old(View()), Advance(i)).sizes;
    }

    /** The inner service answers. */
    method Answered(i: nat, answer: Answer, elapsed: Elapsed)
      requires i < |tasks| && tasks[i].phase.Waiting?
      modifies this`tasks
      ensures View() == Next(old(View()), Complete(i, answer, elapsed)) && tasks[i].phase.Ready?
    {
      SetPhase(i, Ready(answer, elapsed));
    }

    /** The rest of the future after its await, when nothing runs between: the run of these five steps, which
        moves the gauge, the counter and the histograms of exactly this request and nothing else. */
    method Record(i: nat, answer: Answer, elapsed: Elapsed)
      requires i < |tasks| && tasks[i].phase.Waiting?
      modifies this
      ensures View() == RunFrom(old(View()), RecordSteps(i, answer, elapsed))
      ensures Recorded(old(View()), i, answer, elapsed, View())
    {
      RecordUnfolds(View(), i, answer, elapsed);
      RecordEffect(View(), i, answer, elapsed);
      Answered(i, answer, elapsed);
      LeaveFlight(i);
      CountRequest(i);
      ObserveDuration(i);
      ObserveSize(i);
    }
  }

  /** One request is recorded, under its own method and path and the status of its response, or 500. */
  ghost predicate Recorded(before: State, i: nat, answer: Answer, elapsed: Elapsed, after: State)
    requires i < |before.tasks|
  {
    var t := before.tasks[i];
    var status := match answer case Response(code, _) => NatText(code) case InnerError => "500";
    var series := Series(t.verb, t.path, status);
    && after.inFlight == before.inFlight - 1
    && after.requestsTotal == before.requestsTotal + multiset{series}
    && after.durations == before.durations + [Timing(series, elapsed)]
    && after.sizes == before.sizes + (if answer.Response? && answer.size.Some?
                                      then [Size(t.verb, t.path, answer.size.value)] else [])
    && after.tasks == before.tasks[i := t.(phase := Done(answer, elapsed))]
  }

  lemma RecordEffect(s: State, i: nat, answer: Answer, elapsed: Elapsed)
    requires i < |s.tasks| && s.tasks[i].phase.Waiting?
    ensures Recorded(s, i, answer, elapsed, RunFrom(s, RecordSteps(i, answer, elapsed)))
  {
    RecordUnfolds(s, i, answer, elapsed);
    ThreeSteps(s, i, answer, elapsed);
    TwoSteps(Next(Next(Next(s, Complete(i, answer, elapsed)), Advance(i)), Advance(i)), i, answer, elapsed);
  }

  lemma TwoSteps(s: State, i: nat, answer: Answer, elapsed: Elapsed)
    requires i < |s.tasks| && s.tasks[i].phase == Counted(answer, elapsed)
    ensures var t := s.tasks[i];
            Next(Next(s, Advance(i)), Advance(i)) ==
            s.(durations := s.durations + [Timing(Series(t.verb, t.path, StatusText(answer)), elapsed)],
               sizes := s.sizes + (if answer.Response? && answer.size.Some?
                                   then [Size(t.verb, t.path, answer.size.value)] else []),
               tasks := s.tasks[i := t.(phase := Done(answer, elapsed))])
  {
    var t := s.tasks[i];
    assert Next(s, Advance(i)) ==
           s.(durations := s.durations + [Timing(Series(t.verb, t.path, StatusText(answer)), elapsed)],
              tasks := s.tasks[i := t.(phase := Timed(answer, elapsed))]);
  }

  lemma ThreeSteps(s: State, i: nat, answer: Answer, elapsed: Elapsed)
    requires i < |s.tasks| && s.tasks[i].phase.Waiting?
    ensures var t := s.tasks[i];
            Next(Next(Next(s, Complete(i, answer, elapsed)), Advance(i)), Advance(i)) ==
            s.(inFlight := s.inFlight - 1,
               requestsTotal := s.requestsTotal + multiset{Series(t.verb, t.path, StatusText(answer))},
               tasks := s.tasks[i := t.(phase := Counted(answer, elapsed))])
  {
    var t := s.tasks[i];
    var s1 := Next(s, Complete(i, answer, elapsed));
    assert s1 == s.(tasks := s.tasks[i := t.(phase := Ready(answer, elapsed))]);
    var s2 := Next(s1, Advance(i));
    assert s2 == s.(inFlight := s.inFlight - 1, tasks := s.tasks[i := t.(phase := Left(answer, elapsed))]);
  }

  // ---------- counting requests ----------

  lemma {:induction false} CountAll(tasks: seq<Task>)
    ensures Count(tasks, Any) == |tasks|
  {
    if tasks != [] {
      CountAll(tasks[..|tasks| - 1]);
    }
  }

  predicate Any(t: Task) { true }

  predicate IsWaiting(t: Task) { t.phase.Waiting? }

  predicate IsDropped(t: Task) { t.phase.Dropped? }

  predicate IsReady(t: Task) { t.phase.Ready? }

  predicate IsLeft(t: Task) { t.phase.Left? }

  /** Called and not yet past the decrement. */
  predicate Held(t: Task) { t.phase.Waiting? || t.phase.Dropped? || t.phase.Ready? }

  predicate NotHeld(t: Task) { !Held(t) }

  predicate IsPending(t: Task) { t.phase.Waiting? || t.phase.Ready? }

  /** Past the counter. */
  predicate IsCounted(t: Task) { t.phase.Counted? || t.phase.Timed? || t.phase.Done? }

  predicate IsTimed(t: Task) { t.phase.Timed? || t.phase.Done? }

  function CountedAs(s: Series): Task -> bool { (t: Task) => IsCounted(t) && SeriesOf(t) == s }

  function TimedAs(s: Series): Task -> bool { (t: Task) => IsTimed(t) && SeriesOf(t) == s }

  function BetweenAs(s: Series): Task -> bool { (t: Task) => t.phase.Counted? && SeriesOf(t) == s }

  function ObservedAs(o: Timing): Task -> bool {
    (t: Task) => IsTimed(t) && SeriesOf(t) == o.series && t.phase.elapsed == o.elapsed
  }

  function TimedAt(verb: string, path: string): Task -> bool {
    (t: Task) => IsTimed(t) && t.verb == verb && t.path == path
  }

  function SizedAt(verb: string, path: string): Task -> bool {
    (t: Task) => t.phase.Done? && SizeOf(t).Some? && t.verb == verb && t.path == path
  }

  function SizedAs(z: Size): Task -> bool { (t: Task) => t.phase.Done? && SizeOf(t) == Some(z) }

  /** Ended in a 500 response or in an error of the inner service, at this verb and path. */
  function FailedAt(verb: string, path: string): Task -> bool {
    (t: Task) => && IsCounted(t) && t.verb == verb && t.path == path
         && (t.phase.answer.InnerError? || t.phase.answer.status == 500)
  }

  /** The histogram's count for one series. */
  function TimingCount(durations: seq<Timing>, s: Series): nat {
    if durations == [] then 0
    else TimingCount(durations[..|durations| - 1], s) + One(durations[|durations| - 1].series == s)
  }

  /** The sum over all statuses of the histogram's counts for one verb and path. */
  function TimingCountAt(durations: seq<Timing>, verb: string, path: string): nat {
    if durations == [] then 0
    else
      var s := durations[|durations| - 1].series;
      TimingCountAt(durations[..|durations| - 1], verb, path) + One(s.verb == verb && s.path == path)
  }

  function SizeCount(sizes: seq<Size>, verb: string, path: string): nat {
    if sizes == [] then 0
    else
      var z := sizes[|sizes| - 1];
      SizeCount(sizes[..|sizes| - 1], verb, path) + One(z.verb == verb && z.path == path)
  }

  // ---------- the invariant ----------

  ghost predicate CounterInv(s: State) {
    && s.inFlight == Count(s.tasks, Held)
    && |s.requestsTotal| == Count(s.tasks, IsCounted)
    && (forall r: Series :: s.requestsTotal[r] == Count(s.tasks, CountedAs(r)))
  }

  ghost predicate TimingInv(s: State) {
    && (forall r: Series :: TimingCount(s.durations, r) == Count(s.tasks, TimedAs(r)))
    && (forall o: Timing :: multiset(s.durations)[o] == Count(s.tasks, ObservedAs(o)))
    && (forall v, p :: TimingCountAt(s.durations, v, p) == Count(s.tasks, TimedAt(v, p)))
  }

  ghost predicate SizeInv(s: State) {
    && (forall v, p :: SizeCount(s.sizes, v, p) == Count(s.tasks, SizedAt(v, p)))
    && (forall z: Size :: multiset(s.sizes)[z] == Count(s.tasks, SizedAs(z)))
  }

  /** Every metric is a count of requests by phase. */
  ghost predicate Inv(s: State) {
    CounterInv(s) && TimingInv(s) && SizeInv(s)
  }

  lemma CallKeepsCounters(s: State, t: Task)
    requires CounterInv(s) && t.phase.Waiting?
    ensures CounterInv(s.(inFlight := s.inFlight + 1, tasks := s.tasks + [t]))
  {
    CountAppend(s.tasks, t, Held);
    CountAppend(s.tasks, t, IsCounted);
    forall r: Series ensures s.requestsTotal[r] == Count(s.tasks + [t], CountedAs(r)) {
      CountAppend(s.tasks, t, CountedAs(r));
    }
  }

  lemma CallKeepsTimings(s: State, t: Task)
    requires TimingInv(s) && t.phase.Waiting?
    ensures TimingInv(s.(inFlight := s.inFlight + 1, tasks := s.tasks + [t]))
  {
    forall r: Series ensures TimingCount(s.durations, r) == Count(s.tasks + [t], TimedAs(r)) {
      CountAppend(s.tasks, t, TimedAs(r));
    }
    forall o: Timing ensures multiset(s.durations)[o] == Count(s.tasks + [t], ObservedAs(o)) {
      CountAppend(s.tasks, t, ObservedAs(o));
    }
    forall v, p ensures TimingCountAt(s.durations, v, p) == Count(s.tasks + [t], TimedAt(v, p)) {
      CountAppend(s.tasks, t, TimedAt(v, p));
    }
  }

  lemma CallKeepsSizes(s: State, t: Task)
    requires SizeInv(s) && t.phase.Waiting?
    ensures SizeInv(s.(inFlight := s.inFlight + 1, tasks := s.tasks + [t]))
  {
    forall v, p ensures SizeCount(s.sizes, v, p) == Count(s.tasks + [t], SizedAt(v, p)) {
      CountAppend(s.tasks, t, SizedAt(v, p));
    }
    forall z: Size ensures multiset(s.sizes)[z] == Count(s.tasks + [t], SizedAs(z)) {
      CountAppend(s.tasks, t, SizedAs(z));
    }
  }

  lemma CallKeepsInv(s: State, t: Task)
    requires Inv(s) && t.phase.Waiting?
    ensures Inv(s.(inFlight := s.inFlight + 1, tasks := s.tasks + [t]))
  {
    CallKeepsCounters(s, t);
    CallKeepsTimings(s, t);
    CallKeepsSizes(s, t);
  }

  lemma TimingAppend(durations: seq<Timing>, o: Timing)
    ensures forall r :: TimingCount(durations + [o], r) == TimingCount(durations, r) + One(o.series == r)
    ensures forall v, p :: TimingCountAt(durations + [o], v, p) ==
                           TimingCountAt(durations, v, p) + One(o.series.verb == v && o.series.path == p)
  {
    assert (durations + [o])[..|durations|] == durations;
  }

  lemma SizeAppend(sizes: seq<Size>, z: Size)
    ensures forall v, p :: SizeCount(sizes + [z], v, p) == SizeCount(sizes, v, p) + One(z.verb == v && z.path == p)
  {
    assert (sizes + [z])[..|sizes|] == sizes;
  }

  /** Replacing one request keeps the invariant if each metric moves by the difference between
      what the old and the new request count for. */
  lemma MoveCounters(s: State, u: State, i: nat, t: Task)
    requires CounterInv(s) && i < |s.tasks| && u.tasks == s.tasks[i := t]
    requires u.inFlight + One(Held(s.tasks[i])) == s.inFlight + One(Held(t))
    requires |u.requestsTotal| + One(IsCounted(s.tasks[i])) == |s.requestsTotal| + One(IsCounted(t))
    requires forall r :: u.requestsTotal[r] + One(CountedAs(r)(s.tasks[i])) == s.requestsTotal[r] + One(CountedAs(r)(t))
    ensures CounterInv(u)
  {
    CountUpdate(s.tasks, i, t, Held);
    CountUpdate(s.tasks, i, t, IsCounted);
    forall r: Series ensures u.requestsTotal[r] == Count(u.tasks, CountedAs(r)) {
      CountUpdate(s.tasks, i, t, CountedAs(r));
    }
  }

  lemma MoveTimings(s: State, u: State, i: nat, t: Task)
    requires TimingInv(s) && i < |s.tasks| && u.tasks == s.tasks[i := t]
    requires forall r :: TimingCount(u.durations, r) + One(TimedAs(r)(s.tasks[i])) ==
                         TimingCount(s.durations, r) + One(TimedAs(r)(t))
    requires forall o :: multiset(u.durations)[o] + One(ObservedAs(o)(s.tasks[i])) ==
                         multiset(s.durations)[o] + One(ObservedAs(o)(t))
    requires forall v, p :: TimingCountAt(u.durations, v, p) + One(TimedAt(v, p)(s.tasks[i])) ==
                            TimingCountAt(s.durations, v, p) + One(TimedAt(v, p)(t))
    ensures TimingInv(u)
  {
    forall r: Series ensures TimingCount(u.durations, r) == Count(u.tasks, TimedAs(r)) {
      CountUpdate(s.tasks, i, t, TimedAs(r));
    }
    forall o: Timing ensures multiset(u.durations)[o] == Count(u.tasks, ObservedAs(o)) {
      CountUpdate(s.tasks, i, t, ObservedAs(o));
    }
    forall v, p ensures TimingCountAt(u.durations, v, p) == Count(u.tasks, TimedAt(v, p)) {
      CountUpdate(s.tasks, i, t, TimedAt(v, p));
    }
  }

  lemma MoveSizes(s: State, u: State, i: nat, t: Task)
    requires SizeInv(s) && i < |s.tasks| && u.tasks == s.tasks[i := t]
    requires forall v, p :: SizeCount(u.sizes, v, p) + One(SizedAt(v, p)(s.tasks[i])) ==
                            SizeCount(s.sizes, v, p) + One(SizedAt(v, p)(t))
    requires forall z :: multiset(u.sizes)[z] + One(SizedAs(z)(s.tasks[i])) ==
                         multiset(s.sizes)[z] + One(SizedAs(z)(t))
    ensures SizeInv(u)
  {
    forall v, p ensures SizeCount(u.sizes, v, p) == Count(u.tasks, SizedAt(v, p)) {
      CountUpdate(s.tasks, i, t, SizedAt(v, p));
    }
    forall z: Size ensures multiset(u.sizes)[z] == Count(u.tasks, SizedAs(z)) {
      CountUpdate(s.tasks, i, t, SizedAs(z));
    }
  }

  lemma SilentMoveKeepsInv(s: State, i: nat, phase: Phase)
    requires Inv(s) && i < |s.tasks| && s.tasks[i].phase.Waiting?
    requires phase.Ready? || phase.Dropped?
    ensures Inv(Move(s, i, phase))
  {
    var u, t := Move(s, i, phase), s.tasks[i].(phase := phase);
    MoveCounters(s, u, i, t);
    MoveTimings(s, u, i, t);
    MoveSizes(s, u, i, t);
  }

  lemma LeaveKeepsInv(s: State, i: nat)
    requires Inv(s) && i < |s.tasks| && s.tasks[i].phase.Ready?
    ensures Inv(Advanced(s, i))
  {
    var u := Advanced(s, i);
    MoveCounters(s, u, i, u.tasks[i]);
    MoveTimings(s, u, i, u.tasks[i]);
    MoveSizes(s, u, i, u.tasks[i]);
  }

  lemma CountKeepsInv(s: State, i: nat)
    requires Inv(s) && i < |s.tasks| && s.tasks[i].phase.Left?
    ensures Inv(Advanced(s, i))
  {
    var u := Advanced(s, i);
    MoveCounters(s, u, i, u.tasks[i]);
    MoveTimings(s, u, i, u.tasks[i]);
    MoveSizes(s, u, i, u.tasks[i]);
  }

  lemma TimeKeepsTimings(s: State, i: nat)
    requires TimingInv(s) && i < |s.tasks| && s.tasks[i].phase.Counted?
    ensures TimingInv(Advanced(s, i))
  {
    var u, t := Advanced(s, i), s.tasks[i];
    var timed, o := t.(phase := Timed(t.phase.answer, t.phase.elapsed)), Timing(SeriesOf(t), t.phase.elapsed);
    assert u.durations == s.durations + [o] && u.tasks == s.tasks[i := timed];
    assert multiset(u.durations) == multiset(s.durations) + multiset{o};
    TimingAppend(s.durations, o);
    OneMoreTimed(t, timed, o);
    MoveTimings(s, u, i, timed);
  }

  /** What observing the duration of `t` adds to the counts of timed requests. */
  lemma OneMoreTimed(t: Task, timed: Task, o: Timing)
    requires t.phase.Counted? && timed == t.(phase := Timed(t.phase.answer, t.phase.elapsed))
    requires o == Timing(SeriesOf(t), t.phase.elapsed)
    ensures forall r :: !TimedAs(r)(t) && TimedAs(r)(timed) == (r == o.series)
    ensures forall x :: !ObservedAs(x)(t) && ObservedAs(x)(timed) == (x == o)
    ensures forall v, p :: !TimedAt(v, p)(t) && TimedAt(v, p)(timed) == (o.series.verb == v && o.series.path == p)
  {
    forall x ensures ObservedAs(x)(timed) == (x == o) {
      assert SeriesOf(timed) == o.series && timed.phase.elapsed == o.elapsed;
    }
  }

  lemma TimeKeepsInv(s: State, i: nat)
    requires Inv(s) && i < |s.tasks| && s.tasks[i].phase.Counted?
    ensures Inv(Advanced(s, i))
  {
    var u := Advanced(s, i);
    TimeKeepsTimings(s, i);
    MoveCounters(s, u, i, u.tasks[i]);
    MoveSizes(s, u, i, u.tasks[i]);
  }

  lemma SizeKeepsInv(s: State, i: nat)
    requires Inv(s) && i < |s.tasks| && s.tasks[i].phase.Timed?
    ensures Inv(Advanced(s, i))
  {
    var u := Advanced(s, i);
    if SizeOf(s.tasks[i]).Some? {
      SizeAppend(s.sizes, SizeOf(s.tasks[i]).value);
    } else {
      assert u.sizes == s.sizes;
    }
    MoveCounters(s, u, i, u.tasks[i]);
    MoveTimings(s, u, i, u.tasks[i]);
    MoveSizes(s, u, i, u.tasks[i]);
  }

  lemma NextKeepsInv(s: State, step: Step)
    requires Inv(s)
    ensures Inv(Next(s, step))
  {
    match step
    case Call(verb, path) => CallKeepsInv(s, Task(verb, path, Waiting));
    case Complete(i, answer, elapsed) =>
      if i < |s.tasks| && s.tasks[i].phase.Waiting? {
        SilentMoveKeepsInv(s, i, Ready(answer, elapsed));
      }
    case Drop(i) =>
      if i < |s.tasks| && s.tasks[i].phase.Waiting? {
        SilentMoveKeepsInv(s, i, Dropped);
      }
    case Advance(i) =>
      if i < |s.tasks| {
        match s.tasks[i].phase {
          case Ready(_, _) => LeaveKeepsInv(s, i);
          case Left(_, _) => CountKeepsInv(s, i);
          case Counted(_, _) => TimeKeepsInv(s, i);
          case Timed(_, _) => SizeKeepsInv(s, i);
          case _ =>
        }
      }
  }

  lemma {:induction false} RunKeepsInv(steps: seq<Step>)
    ensures Inv(Run(steps))
  {
    if steps != [] {
      RunKeepsInv(steps[..|steps| - 1]);
      NextKeepsInv(Run(steps[..|steps| - 1]), steps[|steps| - 1]);
    }
  }

  // ---------- what holds in every reachable state ----------

  /** Every request called is in the gauge, between decrement and counter, or in the counter. The
      gauge is never negative: it is the requests still pending plus the futures dropped. */
  lemma {:induction false} Conservation(steps: seq<Step>)
    ensures var s := Run(steps);
            && |s.tasks| == s.inFlight + Count(s.tasks, IsLeft) + |s.requestsTotal|
            && s.inFlight == Count(s.tasks, IsWaiting) + Count(s.tasks, IsReady) + Count(s.tasks, IsDropped) >= 0
  {
    var tasks := Run(steps).tasks;
    RunKeepsInv(steps);
    CountAll(tasks);
    CountSum(tasks, Any, Held, NotHeld);
    CountSum(tasks, NotHeld, IsLeft, IsCounted);
    CountSum(tasks, Held, IsPending, IsDropped);
    CountSum(tasks, IsPending, IsWaiting, IsReady);
  }

  /** The gauge is the number of requests in flight, as its help text says, exactly when no future
      has been dropped: nothing takes the increment back. */
  lemma {:induction false} GaugeIsInFlight(steps: seq<Step>)
    ensures var s := Run(steps);
            s.inFlight == Count(s.tasks, IsWaiting) + Count(s.tasks, IsReady) <==>
            forall i :: 0 <= i < |s.tasks| ==> !s.tasks[i].phase.Dropped?
  {
    Conservation(steps);
    CountZero(Run(steps).tasks, IsDropped);
  }

  /** A dropped request stays in the gauge after everything else has finished. */
  lemma DroppedStaysInGauge(verb: string, path: string)
    ensures var s := Run([Call(verb, path), Drop(0)]);
            s.inFlight == 1 && Count(s.tasks, IsWaiting) + Count(s.tasks, IsReady) == 0
  {
    var steps := [Call(verb, path), Drop(0)];
    RunPrefix(START, steps, 0);
    RunPrefix(START, steps, 1);
    assert steps[..0] == [] && steps[..2] == steps;
    assert Run(steps[..1]).tasks == [Task(verb, path, Waiting)];
    var s := Run(steps);
    assert s.tasks == [Task(verb, path, Dropped)];
    CountZero(s.tasks, IsWaiting);
    CountZero(s.tasks, IsReady);
  }

  /** Per label: the counter leads the histogram's count by the requests between the two updates, so
      they agree when no such request is mid-record. */
  lemma {:induction false} LabelAgreement(steps: seq<Step>, r: Series)
    ensures var s := Run(steps);
            s.requestsTotal[r] == TimingCount(s.durations, r) + Count(s.tasks, BetweenAs(r))
  {
    RunKeepsInv(steps);
    CountSum(Run(steps).tasks, CountedAs(r), TimedAs(r), BetweenAs(r));
  }

  /** Ended with this status at this verb and path; an error of the inner service counts as 500. */
  predicate EndedWith(t: Task, verb: string, path: string, status: nat)
    requires IsCounted(t)
  {
    && t.verb == verb && t.path == path
    && (t.phase.answer.InnerError? ==> status == 500)
    && (t.phase.answer.Response? ==> t.phase.answer.status == status)
  }

  function CountedWith(verb: string, path: string, status: nat): Task -> bool {
    (t: Task) => IsCounted(t) && EndedWith(t, verb, path, status)
  }

  function TimedWith(verb: string, path: string, status: nat): Task -> bool {
    (t: Task) => IsTimed(t) && EndedWith(t, verb, path, status)
  }

  lemma Numeral500()
    ensures NatText(500) == "500"
  {
    assert Digit(5) == '5' && Digit(0) == '0';
    assert NatText(5) == "5" && NatText(50) == NatText(5) + "0" && NatText(500) == NatText(50) + "0";
  }

  lemma StatusTextIs(a: Answer, status: nat)
    ensures StatusText(a) == NatText(status) <==> if a.InnerError? then status == 500 else a.status == status
  {
    Numeral500();
    if StatusText(a) == NatText(status) {
      NatTextInjective(if a.InnerError? then 500 else a.status, status);
    }
  }

  /** In every reachable state the counter of a method, path and status is the number of requests past it
      that ended so, and the histogram's count likewise: no status ever moves another's series. */
  lemma {:induction false} StatusLabels(steps: seq<Step>, verb: string, path: string, status: nat)
    ensures var s, r := Run(steps), Series(verb, path, NatText(status));
            && s.requestsTotal[r] == Count(s.tasks, CountedWith(verb, path, status))
            && TimingCount(s.durations, r) == Count(s.tasks, TimedWith(verb, path, status))
  {
    RunKeepsInv(steps);
    var tasks, r := Run(steps).tasks, Series(verb, path, NatText(status));
    forall t: Task
      ensures CountedAs(r)(t) == CountedWith(verb, path, status)(t) && TimedAs(r)(t) == TimedWith(verb, path, status)(t)
    {
      if IsCounted(t) {
        StatusTextIs(t.phase.answer, status);
      }
    }
    CountAlike(tasks, CountedAs(r), CountedWith(verb, path, status));
    CountAlike(tasks, TimedAs(r), TimedWith(verb, path, status));
  }

  /** No other text is ever a status label. */
  lemma {:induction false} OnlyStatusLabels(steps: seq<Step>, r: Series)
    requires r in Run(steps).requestsTotal
    ensures exists status: nat :: r.status == NatText(status)
  {
    RunKeepsInv(steps);
    CountZero(Run(steps).tasks, CountedAs(r));
    var i :| 0 <= i < |Run(steps).tasks| && CountedAs(r)(Run(steps).tasks[i]);
    var answer := Run(steps).tasks[i].phase.answer;
    StatusTextIs(answer, if answer.InnerError? then 500 else answer.status);
  }

  /** The label 500 counts the responses with that status and the errors of the inner service. */
  lemma {:induction false} Label500(steps: seq<Step>, verb: string, path: string)
    ensures var s := Run(steps);
            s.requestsTotal[Series(verb, path, "500")] == Count(s.tasks, FailedAt(verb, path))
  {
    StatusLabels(steps, verb, path, 500);
    Numeral500();
    CountAlike(Run(steps).tasks, CountedWith(verb, path, 500), FailedAt(verb, path));
  }

  /** At each verb and path no more sizes than durations are ever observed, all statuses together,
      and every size observed is the Content-Length of some finished response there. */
  lemma {:induction false} SizesBounded(steps: seq<Step>, verb: string, path: string)
    ensures var s := Run(steps); SizeCount(s.sizes, verb, path) <= TimingCountAt(s.durations, verb, path)
    ensures forall z: Size :: z in Run(steps).sizes ==>
              exists i :: 0 <= i < |Run(steps).tasks| && SizedAs(z)(Run(steps).tasks[i])
  {
    var s := Run(steps);
    RunKeepsInv(steps);
    CountAtMost(s.tasks, SizedAt(verb, path), TimedAt(verb, path));
    forall z: Size | z in s.sizes
      ensures exists i :: 0 <= i < |s.tasks| && SizedAs(z)(s.tasks[i])
    {
      assert z in multiset(s.sizes);
      CountZero(s.tasks, SizedAs(z));
    }
  }
}
