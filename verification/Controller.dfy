/**
 * The system both reconcilers run in, as a step machine: an informer cache with
 * filtered notifications, a workqueue, workers that read one object per step, and
 * the data they have committed. `Program` is the reconciler being run.
 *
 * The machine states what controller-runtime guarantees:
 *  - a key is never processed twice at once (`active` is a map, `Start` needs it absent);
 *  - a key added while it is processed runs again (`dirty` survives `Commit`);
 *  - an error re-adds the key after a back-off (`retries`);
 *  - `RequeueAfter > 0` re-adds it once that much time has passed (`timers`);
 *  - a queued key may absorb its delayed entries (`Absorb`), as in a queue with one entry per key, or keep
 *    them, as in a queue with a separate delaying part;
 *  - otherwise the key is forgotten.
 */
module Controller {
  import opened Wrappers
  import opened Cluster

  const MAX_CONCURRENT_RECONCILES: nat := 50

  /** Neither reconciler reads more than three objects besides its own. */
  const MAX_READS: nat := 3

  datatype Event<+K, +O> =
    | Created(key: K, obj: O)
    | Updated(key: K, before: O, after: O)
    | Deleted(key: K, obj: O)
    | Generic(key: K)

  /** How a reconcile ends: it writes, removes, removes and returns an error, or only fails. */
  datatype Outcome<+D> = Keep(data: D) | Drop | DropAndFail | Fail

  datatype Next<+D> = Ask(query: Query) | Done(outcome: Outcome<D>)

  /** A reconciler: its event filter, and what it does next given its object and the answers so far. */
  datatype Program<!K, !O, !D> = Program(
    passes: Event<K, O> -> bool,
    next: (K, O, seq<Answer>) -> Next<D>,
    resync: nat
  )

  datatype Local<+O, +D> =
    | Begun
    | Reading(obj: O, seen: seq<Answer>)
    | Decided(snapshot: Option<O>, seen: seq<Answer>, outcome: Outcome<D>)

  datatype State<K, O, D> = State(
    objs: map<K, O>,
    world: World,
    events: seq<Event<K, O>>,
    dirty: set<K>,
    active: map<K, Local<O, D>>,
    timers: map<K, nat>,
    retries: set<K>,
    own: map<K, D>,
    now: nat
  )

  datatype Step<K, O> =
    | Change(key: K, to: Option<O>)
    | SetWorld(world: World)
    | Deliver
    | Start(key: K)
    | Get(key: K, fails: bool)
    | Commit(key: K)
    | Fire(key: K)
    | Retry(key: K)
    | Absorb(key: K)
    | Tick

  ghost predicate Init<K, O, D>(s: State<K, O, D>) {
    && s.objs == map[] && s.events == [] && s.dirty == {} && s.active == map[]
    && s.timers == map[] && s.retries == {} && s.own == map[]
  }

  predicate Enabled<K(==), O, D>(s: State<K, O, D>, step: Step<K, O>) {
    match step
    case Change(k, to) => k in s.objs || to.Some?
    case SetWorld(_) => true
    case Deliver => s.events != []
    case Start(k) => k in s.dirty && k !in s.active && |s.active| < MAX_CONCURRENT_RECONCILES
    case Get(k, _) => k in s.active && !s.active[k].Decided?
    case Commit(k) => k in s.active && s.active[k].Decided?
    case Fire(k) => k in s.timers && s.timers[k] <= s.now
    case Retry(k) => k in s.retries
    case Absorb(k) => k in s.dirty && (k in s.timers || k in s.retries)
    case Tick => true
  }

  /** The notification an informer sends for a change of its cache. */
  function EventOf<K, O>(k: K, before: Option<O>, after: Option<O>): Event<K, O>
    requires before.Some? || after.Some?
  {
    if before.None? then Created(k, after.value)
    else if after.None? then Deleted(k, before.value)
    else Updated(k, before.value, after.value)
  }

  function Put<K, V>(m: map<K, V>, k: K, v: Option<V>): map<K, V> {
    if v.Some? then m[k := v.value] else m - {k}
  }

  /** Where a worker stands once it knows `obj` and the answers `seen`. */
  function Advance<K, O, D>(prog: Program<K, O, D>, k: K, obj: O, seen: seq<Answer>): Local<O, D> {
    match prog.next(k, obj, seen)
    case Ask(_) => Reading(obj, seen)
    case Done(outcome) => Decided(Some(obj), seen, outcome)
  }

  function AfterGet<K(==), O, D>(prog: Program<K, O, D>, s: State<K, O, D>, k: K): Local<O, D>
    requires k in s.active && !s.active[k].Decided?
  {
    match s.active[k]
    case Begun => if k in s.objs then Advance(prog, k, s.objs[k], []) else Decided(None, [], Drop)
    case Reading(obj, seen) =>
      match prog.next(k, obj, seen)
      case Ask(query) => Advance(prog, k, obj, seen + [Respond(s.world, query)])
      case Done(outcome) => Decided(Some(obj), seen, outcome)
  }

  /** The earlier of two due times for the same key stands. */
  function Schedule<K>(timers: map<K, nat>, k: K, due: nat): map<K, nat> {
    timers[k := if k in timers then Min(timers[k], due) else due]
  }

  function AfterCommit<K(==), O, D>(prog: Program<K, O, D>, s: State<K, O, D>, k: K): State<K, O, D>
    requires k in s.active && s.active[k].Decided?
  {
    var done := s.(active := s.active - {k});
    match s.active[k].outcome
    case Keep(d) =>
      done.(own := s.own[k := d],
            timers := if prog.resync > 0 then Schedule(s.timers, k, s.now + prog.resync) else s.timers)
    case Drop => done.(own := s.own - {k})
    case DropAndFail => done.(own := s.own - {k}, retries := s.retries + {k})
    case Fail => done.(retries := s.retries + {k})
  }

  function Apply<K(==), O, D>(prog: Program<K, O, D>, s: State<K, O, D>, step: Step<K, O>): State<K, O, D>
    requires Enabled(s, step)
  {
    match step
    case Change(k, to) => s.(objs := Put(s.objs, k, to), events := s.events + [EventOf(k, Lookup(s.objs, k), to)])
    case SetWorld(w) => s.(world := w)
    case Deliver =>
      var e := s.events[0];
      s.(events := s.events[1..], dirty := if prog.passes(e) then s.dirty + {e.key} else s.dirty)
    case Start(k) => s.(dirty := s.dirty - {k}, active := s.active[k := Begun])
    case Get(k, fails) =>
      if fails then s.(active := s.active - {k}, retries := s.retries + {k})
      else s.(active := s.active[k := AfterGet(prog, s, k)])
    case Commit(k) => AfterCommit(prog, s, k)
    case Fire(k) => s.(timers := s.timers - {k}, dirty := s.dirty + {k})
    case Retry(k) => s.(retries := s.retries - {k}, dirty := s.dirty + {k})
    case Absorb(k) => s.(timers := s.timers - {k}, retries := s.retries - {k})
    case Tick => s.(now := s.now + 1)
  }

  /** A run: any interleaving of enabled steps from an initial state. */
  datatype Run<K, O, D> = Run(states: seq<State<K, O, D>>, steps: seq<Step<K, O>>)

  ghost predicate IsRun<K(!new), O(!new), D(!new)>(prog: Program<K, O, D>, run: Run<K, O, D>) {
    && |run.states| == |run.steps| + 1
    && Init(run.states[0])
    && forall i | 0 <= i < |run.steps| :: IsStep(prog, run, i)
  }

  ghost predicate IsStep<K, O, D>(prog: Program<K, O, D>, run: Run<K, O, D>, i: nat)
    requires i < |run.steps| < |run.states|
  {
    Enabled(run.states[i], run.steps[i]) && run.states[i + 1] == Apply(prog, run.states[i], run.steps[i])
  }

  ghost function Last<K, O, D>(run: Run<K, O, D>): State<K, O, D>
    requires |run.states| > 0
  {
    run.states[|run.states| - 1]
  }

  /** Any enabled step continues a run. */
  lemma Extend<K(!new), O(!new), D(!new)>(prog: Program<K, O, D>, run: Run<K, O, D>, step: Step<K, O>)
      returns (longer: Run<K, O, D>)
    requires IsRun(prog, run) && Enabled(Last(run), step)
    ensures longer == Run(run.states + [Apply(prog, Last(run), step)], run.steps + [step])
    ensures IsRun(prog, longer) && Last(longer) == Apply(prog, Last(run), step)
  {
    longer := Run(run.states + [Apply(prog, Last(run), step)], run.steps + [step]);
    forall i | 0 <= i < |longer.steps| ensures IsStep(prog, longer, i) {
      if i < |run.steps| { assert IsStep(prog, run, i); }
    }
  }

  /** How a worker got where it is: it just started, made a read, or has not moved. */
  lemma WorkerStep<K(!new), O(!new), D(!new)>(prog: Program<K, O, D>, run: Run<K, O, D>, i: nat, k: K)
    requires IsRun(prog, run) && i < |run.steps| && k in run.states[i + 1].active
    ensures var before, after := run.states[i], run.states[i + 1].active[k];
            if run.steps[i] == Get(k, false) then
              k in before.active && !before.active[k].Decided? && after == AfterGet(prog, before, k)
            else if run.steps[i] == Start(k) then after == Begun
            else k in before.active && after == before.active[k]
  {
    assert IsStep(prog, run, i);
  }

  // ---------------------------------------------------------------- coherence

  /** `k` will be processed from the start: it is queued, or a notification that passes is on its way. */
  ghost predicate Fresh<K, O, D>(prog: Program<K, O, D>, s: State<K, O, D>, k: K) {
    k in s.dirty || exists i | 0 <= i < |s.events| :: s.events[i].key == k && prog.passes(s.events[i])
  }

  /** Nothing that concerns `k` is outstanding. */
  ghost predicate Idle<K, O, D>(prog: Program<K, O, D>, s: State<K, O, D>, k: K) {
    !Fresh(prog, s, k) && k !in s.active && k !in s.retries
  }

  /** `seen` answers the questions the program asks about `obj`, each with an answer `ok` allows. */
  ghost predicate Answers<K, O, D>(
      prog: Program<K, O, D>, ok: (Query, Answer) -> bool, k: K, obj: O, seen: seq<Answer>)
  {
    forall j | 0 <= j < |seen| ::
      prog.next(k, obj, seen[..j]).Ask? && ok(prog.next(k, obj, seen[..j]).query, seen[j])
  }

  /** Every read in the run is answered as `ok` allows. */
  ghost predicate Admits<K, O, D>(ok: (Query, Answer) -> bool, run: Run<K, O, D>) {
    forall i, q | 0 <= i < |run.states| :: ok(q, Respond(run.states[i].world, q))
  }

  /** A change whose notification is dropped cannot spoil `good`. */
  ghost predicate FilterKeeps<K(!new), O(!new), D(!new)>(
      prog: Program<K, O, D>, good: (K, Option<O>, Option<D>) -> bool)
  {
    forall k: K, before: Option<O>, after: Option<O>, d: Option<D> ::
      (before.Some? || after.Some?) && !prog.passes(EventOf(k, before, after)) && good(k, before, d) ==>
          good(k, after, d)
  }

  ghost predicate Suits<K, O, D>(
      good: (K, Option<O>, Option<D>) -> bool, k: K, snapshot: Option<O>, outcome: Outcome<D>)
  {
    match outcome
    case Keep(d) => good(k, snapshot, Some(d))
    case Drop => good(k, snapshot, None)
    case DropAndFail => true
    case Fail => true
  }

  /** Reconciling `obj` with allowed answers establishes `good`; so does removing an absent object. */
  ghost predicate ReconcileEstablishes<K(!new), O(!new), D(!new)>(prog: Program<K, O, D>, ok: (Query, Answer) -> bool,
                                                              good: (K, Option<O>, Option<D>) -> bool)
  {
    && (forall k: K :: good(k, None, None))
    && forall k: K, obj: O, seen: seq<Answer> ::
         Answers(prog, ok, k, obj, seen) && prog.next(k, obj, seen).Done? ==>
           Suits(good, k, Some(obj), prog.next(k, obj, seen).outcome)
  }

  /** What holds for `obj` holds for the cached object too. */
  ghost predicate Transfers<K, O, D(!new)>(good: (K, Option<O>, Option<D>) -> bool, k: K, obj: O, current: Option<O>) {
    forall d: Option<D> :: good(k, Some(obj), d) ==> good(k, current, d)
  }

  /** The inductive form of coherence for one key. */
  ghost predicate KeyInv<K, O, D(!new)>(prog: Program<K, O, D>, ok: (Query, Answer) -> bool,
                                        good: (K, Option<O>, Option<D>) -> bool, s: State<K, O, D>, k: K)
  {
    var current := Lookup(s.objs, k);
    if k !in s.active then
      good(k, current, Lookup(s.own, k)) || Fresh(prog, s, k) || k in s.retries
    else
      match s.active[k]
      case Begun => true
      case Reading(obj, seen) =>
        && Answers(prog, ok, k, obj, seen) && prog.next(k, obj, seen).Ask?
        && (Transfers(good, k, obj, current) || Fresh(prog, s, k))
      case Decided(_, _, outcome) => Suits(good, k, current, outcome) || Fresh(prog, s, k)
  }

  lemma FreshSurvives<K, O, D>(prog: Program<K, O, D>, s: State<K, O, D>, step: Step<K, O>, k: K)
    requires Enabled(s, step) && step != Start(k) && Fresh(prog, s, k)
    ensures Fresh(prog, Apply(prog, s, step), k)
  {
    var t := Apply(prog, s, step);
    if k !in s.dirty {
      var i :| 0 <= i < |s.events| && s.events[i].key == k && prog.passes(s.events[i]);
      if step.Deliver? {
        if i > 0 { assert t.events[i - 1] == s.events[i]; }
      } else {
        assert t.events[i] == s.events[i];
      }
    }
  }

  lemma ChangeKeeps<K(!new), O(!new), D(!new)>(
      prog: Program<K, O, D>, ok: (Query, Answer) -> bool, good: (K, Option<O>, Option<D>) -> bool, s: State<K, O, D>,
      k: K, to: Option<O>)
    requires FilterKeeps(prog, good) && Enabled(s, Change(k, to)) && KeyInv(prog, ok, good, s, k)
    ensures KeyInv(prog, ok, good, Apply(prog, s, Change(k, to)), k)
  {
    var t := Apply(prog, s, Change(k, to));
    var e := EventOf(k, Lookup(s.objs, k), to);
    assert t.events[|s.events|] == e;
    assert Lookup(t.objs, k) == to;
    if Fresh(prog, s, k) {
      FreshSurvives(prog, s, Change(k, to), k);
    } else if !prog.passes(e) {
      assert forall d :: good(k, Lookup(s.objs, k), d) ==> good(k, to, d);
    }
  }

  lemma GetKeeps<K(!new), O(!new), D(!new)>(
      prog: Program<K, O, D>, ok: (Query, Answer) -> bool, good: (K, Option<O>, Option<D>) -> bool, s: State<K, O, D>,
      k: K, fails: bool)
    requires ReconcileEstablishes(prog, ok, good) && (forall q :: ok(q, Respond(s.world, q)))
    requires Enabled(s, Get(k, fails)) && KeyInv(prog, ok, good, s, k)
    ensures KeyInv(prog, ok, good, Apply(prog, s, Get(k, fails)), k)
  {
    var t := Apply(prog, s, Get(k, fails));
    if Fresh(prog, s, k) { FreshSurvives(prog, s, Get(k, fails), k); }
    if !fails && s.active[k].Reading? {
      var obj, seen := s.active[k].obj, s.active[k].seen;
      var more := seen + [Respond(s.world, prog.next(k, obj, seen).query)];
      forall j | 0 <= j < |more|
        ensures prog.next(k, obj, more[..j]).Ask? && ok(prog.next(k, obj, more[..j]).query, more[j])
      {
        assert more[..j] == if j < |seen| then seen[..j] else seen;
      }
      assert Answers(prog, ok, k, obj, more);
    } else if !fails && k in s.objs {
      assert Answers(prog, ok, k, s.objs[k], []);
    }
  }

  /** Everything `KeyInv` of `k` depends on is the same in `s` and `t`, or has become easier. */
  ghost predicate SameFor<K, O, D>(prog: Program<K, O, D>, s: State<K, O, D>, t: State<K, O, D>, k: K) {
    && Lookup(t.objs, k) == Lookup(s.objs, k) && Lookup(t.own, k) == Lookup(s.own, k)
    && Lookup(t.active, k) == Lookup(s.active, k)
    && (k in s.retries ==> k in t.retries) && (Fresh(prog, s, k) ==> Fresh(prog, t, k))
  }

  lemma KeyInvFrame<K(!new), O(!new), D(!new)>(prog: Program<K, O, D>, ok: (Query, Answer) -> bool,
                                               good: (K, Option<O>, Option<D>) -> bool,
                                               s: State<K, O, D>, t: State<K, O, D>, k: K)
    requires KeyInv(prog, ok, good, s, k) && SameFor(prog, s, t, k)
    ensures KeyInv(prog, ok, good, t, k)
  {
  }

  predicate About<K(==), O>(step: Step<K, O>, k: K) {
    !step.SetWorld? && !step.Deliver? && !step.Tick? && step.key == k
  }

  lemma OtherStepKeepsWorker<K, O, D>(prog: Program<K, O, D>, s: State<K, O, D>, step: Step<K, O>, k: K)
    requires Enabled(s, step) && !About(step, k)
    ensures Lookup(Apply(prog, s, step).active, k) == Lookup(s.active, k)
  {
  }

  lemma OtherStepKeepsRetries<K, O, D>(prog: Program<K, O, D>, s: State<K, O, D>, step: Step<K, O>, k: K)
    requires Enabled(s, step) && !About(step, k) && k in s.retries
    ensures k in Apply(prog, s, step).retries
  {
  }

  lemma OtherStepKeepsData<K, O, D>(prog: Program<K, O, D>, s: State<K, O, D>, step: Step<K, O>, k: K)
    requires Enabled(s, step) && !About(step, k)
    ensures var t := Apply(prog, s, step);
            Lookup(t.objs, k) == Lookup(s.objs, k) && Lookup(t.own, k) == Lookup(s.own, k)
  {
  }

  /** A step that is not about `k` leaves everything `k` depends on alone. */
  lemma OtherStepFrames<K, O, D>(prog: Program<K, O, D>, s: State<K, O, D>, step: Step<K, O>, t: State<K, O, D>, k: K)
    requires Enabled(s, step) && !About(step, k) && t == Apply(prog, s, step)
    ensures SameFor(prog, s, t, k)
  {
    OtherStepKeepsWorker(prog, s, step, k);
    if k in s.retries { OtherStepKeepsRetries(prog, s, step, k); }
    OtherStepKeepsData(prog, s, step, k);
    if Fresh(prog, s, k) { FreshSurvives(prog, s, step, k); }
  }

  lemma CommitKeeps<K(!new), O(!new), D(!new)>(prog: Program<K, O, D>, ok: (Query, Answer) -> bool,
                                               good: (K, Option<O>, Option<D>) -> bool, s: State<K, O, D>, k: K)
    requires Enabled(s, Commit(k)) && KeyInv(prog, ok, good, s, k)
    ensures KeyInv(prog, ok, good, Apply(prog, s, Commit(k)), k)
  {
    if Fresh(prog, s, k) { FreshSurvives(prog, s, Commit(k), k); }
  }

  lemma StepKeeps<K(!new), O(!new), D(!new)>(prog: Program<K, O, D>, ok: (Query, Answer) -> bool,
                                             good: (K, Option<O>, Option<D>) -> bool,
                                             s: State<K, O, D>, step: Step<K, O>, k: K)
    requires FilterKeeps(prog, good) && ReconcileEstablishes(prog, ok, good) && (forall q :: ok(q, Respond(s.world, q)))
    requires Enabled(s, step) && KeyInv(prog, ok, good, s, k)
    ensures KeyInv(prog, ok, good, Apply(prog, s, step), k)
  {
    if !About(step, k) {
      OtherStepFrames(prog, s, step, Apply(prog, s, step), k);
      KeyInvFrame(prog, ok, good, s, Apply(prog, s, step), k);
    } else {
      match step
      case Change(_, to) => ChangeKeeps(prog, ok, good, s, k, to);
      case Get(_, fails) => GetKeeps(prog, ok, good, s, k, fails);
      case Commit(_) => CommitKeeps(prog, ok, good, s, k);
      case _ => if step != Start(k) && Fresh(prog, s, k) { FreshSurvives(prog, s, step, k); }
    }
  }

  /** Over every run: each key keeps the inductive form of coherence. */
  lemma {:induction false} KeyInvHolds<K(!new), O(!new), D(!new)>(prog: Program<K, O, D>, ok: (Query, Answer) -> bool,
                                               good: (K, Option<O>, Option<D>) -> bool, run: Run<K, O, D>, i: nat, k: K)
    requires FilterKeeps(prog, good) && ReconcileEstablishes(prog, ok, good) && IsRun(prog, run) && Admits(ok, run)
    requires i < |run.states|
    ensures KeyInv(prog, ok, good, run.states[i], k)
  {
    if i > 0 {
      KeyInvHolds(prog, ok, good, run, i - 1, k);
      assert IsStep(prog, run, i - 1);
      StepKeeps(prog, ok, good, run.states[i - 1], run.steps[i - 1], k);
    }
  }

  /** Coherence: in every reachable state, what an idle key has committed suits its current object. */
  lemma IdleKeyIsCoherent<K(!new), O(!new), D(!new)>(
      prog: Program<K, O, D>, ok: (Query, Answer) -> bool, good: (K, Option<O>, Option<D>) -> bool, run: Run<K, O, D>,
      i: nat, k: K)
    requires FilterKeeps(prog, good) && ReconcileEstablishes(prog, ok, good) && IsRun(prog, run) && Admits(ok, run)
    requires i < |run.states| && Idle(prog, run.states[i], k)
    ensures good(k, Lookup(run.states[i].objs, k), Lookup(run.states[i].own, k))
  {
    KeyInvHolds(prog, ok, good, run, i, k);
  }

  /** The invariant starts over whenever `k` is fresh: what its worker has read by then does not matter. */
  lemma {:induction false} KeyInvSince<K(!new), O(!new), D(!new)>(
    prog: Program<K, O, D>, ok: (Query, Answer) -> bool, good: (K, Option<O>, Option<D>) -> bool,
    run: Run<K, O, D>, t: nat, i: nat, k: K)
    requires FilterKeeps(prog, good) && ReconcileEstablishes(prog, ok, good) && IsRun(prog, run)
    requires t <= i < |run.states| && Fresh(prog, run.states[t], k)
    requires forall j, q | t <= j <= i :: ok(q, Respond(run.states[j].world, q))
    ensures Fresh(prog, run.states[i], k) || KeyInv(prog, ok, good, run.states[i], k)
  {
    if t < i {
      KeyInvSince(prog, ok, good, run, t, i - 1, k);
      assert IsStep(prog, run, i - 1);
      var s, step := run.states[i - 1], run.steps[i - 1];
      if KeyInv(prog, ok, good, s, k) {
        StepKeeps(prog, ok, good, s, step, k);
      } else if step != Start(k) {
        FreshSurvives(prog, s, step, k);
      }
    }
  }
}
