/** Once the environment stops changing, the controller works off everything outstanding, whatever the schedule. */
module Draining {
  import opened Wrappers
  import opened Cluster
  import opened Controller

  ghost function DueTimers<K, O, D>(s: State<K, O, D>): set<K> {
    set k | k in s.timers && s.timers[k] <= s.now
  }

  /** Nothing at all is outstanding but resync timers that are not due. */
  ghost predicate Quiet<K, O, D>(s: State<K, O, D>) {
    s.events == [] && s.dirty == {} && s.active == map[] && s.retries == {} && DueTimers(s) == {}
  }

  /** Steps the controller takes by itself, with every read answered and no time passing. */
  predicate Internal<K, O>(step: Step<K, O>) {
    step.Deliver? || step.Start? || (step.Get? && !step.fails) || step.Commit? || step.Fire? || step.Retry?
    || step.Absorb?
  }

  /** The controller is at rest only when nothing is outstanding. */
  lemma UnquietMoves<K(!new), O(!new), D(!new)>(s: State<K, O, D>) returns (step: Step<K, O>)
    requires !Quiet(s)
    ensures Internal(step) && Enabled(s, step)
  {
    if s.events != [] { step := Deliver; }
    else if k :| k in s.active { step := if s.active[k].Decided? then Commit(k) else Get(k, false); }
    else if k :| k in s.retries { step := Retry(k); }
    else if k :| k in DueTimers(s) { step := Fire(k); }
    else { var k :| k in s.dirty; step := Start(k); }
  }

  /** The reads that return what the cache `w` holds. */
  function AnswersOf(w: World): (Query, Answer) -> bool {
    (q, a) => a == Respond(w, q)
  }

  /** Every reconcile ends after at most `bound` further reads, and against `w` none ends in an error. */
  ghost predicate Settles<K(!new), O(!new), D(!new)>(prog: Program<K, O, D>, bound: nat, w: World, objs: map<K, O>) {
    && (forall k, obj, seen :: |seen| >= bound ==> prog.next(k, obj, seen).Done?)
    && forall k, seen | k in objs ::
         Answers(prog, AnswersOf(w), k, objs[k], seen) && prog.next(k, objs[k], seen).Done? ==>
           var outcome := prog.next(k, objs[k], seen).outcome;
           !outcome.Fail? && !outcome.DropAndFail?
  }

  /** What the worker on `k` knows so far comes from the present cache. */
  ghost predicate Sound<K(!new), O, D>(prog: Program<K, O, D>, s: State<K, O, D>, k: K)
    requires k in s.active
  {
    match s.active[k]
    case Begun => true
    case Reading(obj, seen) =>
      && k in s.objs && s.objs[k] == obj && prog.next(k, obj, seen).Ask?
      && Answers(prog, AnswersOf(s.world), k, obj, seen)
    case Decided(_, _, outcome) => !outcome.Fail? && !outcome.DropAndFail?
  }

  lemma SoundAdvances<K(!new), O(!new), D(!new)>(prog: Program<K, O, D>, s: State<K, O, D>, k: K)
    requires Enabled(s, Get(k, false)) && Sound(prog, s, k)
    requires exists bound :: Settles(prog, bound, s.world, s.objs)
    ensures Sound(prog, Apply(prog, s, Get(k, false)), k)
  {
    var ok := AnswersOf(s.world);
    if s.active[k].Reading? {
      var obj, seen := s.active[k].obj, s.active[k].seen;
      var more := seen + [Respond(s.world, prog.next(k, obj, seen).query)];
      forall j | 0 <= j < |more|
        ensures prog.next(k, obj, more[..j]).Ask? && ok(prog.next(k, obj, more[..j]).query, more[j])
      {
        assert more[..j] == if j < |seen| then seen[..j] else seen;
      }
      assert Answers(prog, ok, k, obj, more);
    } else if k in s.objs {
      assert Answers(prog, ok, k, s.objs[k], []);
    }
  }

  // ---------------------------------------------------------------- how much there is to do

  /** How many reads a worker may still make. */
  ghost function Remaining<O, D>(local: Local<O, D>, bound: nat): nat {
    match local
    case Begun => bound + 2
    case Reading(_, seen) => if |seen| < bound then bound + 1 - |seen| else 1
    case Decided(_, _, _) => 0
  }

  /** Steps that processing a key once may take, from the queue to the commit. */
  function OnceThrough(bound: nat): nat {
    bound + 5
  }

  /** What is left of one worker's reconcile and the timer it may set; it may fail and be retried if not sound. */
  ghost function WorkOf<K(!new), O, D>(prog: Program<K, O, D>, bound: nat, s: State<K, O, D>, k: K): nat {
    if k !in s.active then 0
    else Remaining(s.active[k], bound) + 2 + if Sound(prog, s, k) then 0 else OnceThrough(bound) + 1
  }

  ghost function Works<K(!new), O, D>(prog: Program<K, O, D>, bound: nat, s: State<K, O, D>): map<K, nat> {
    map k | k in s.active :: WorkOf(prog, bound, s, k)
  }

  ghost function Sum<K>(m: map<K, nat>): nat
    decreases |m|
  {
    if m == map[] then 0 else var k :| k in m; m[k] + Sum(m - {k})
  }

  lemma {:induction false} SumWithout<K>(m: map<K, nat>, k: K)
    requires k in m
    ensures Sum(m) == m[k] + Sum(m - {k})
    decreases |m|
  {
    var first :| first in m && Sum(m) == m[first] + Sum(m - {first});
    if first != k {
      SumWithout(m - {first}, k);
      SumWithout(m - {k}, first);
      assert m - {first} - {k} == m - {k} - {first};
    }
  }

  /** Only what concerns `k` differs between two amounts of work. */
  lemma SumChanges<K>(m: map<K, nat>, n: map<K, nat>, k: K)
    requires m - {k} == n - {k}
    ensures Sum(m) + (if k in n then n[k] else 0) == Sum(n) + (if k in m then m[k] else 0)
  {
    if k in m { SumWithout(m, k); } else { assert m - {k} == m; }
    if k in n { SumWithout(n, k); } else { assert n - {k} == n; }
  }

  ghost function Waiting<K(!new), O, D>(s: State<K, O, D>): nat {
    |s.events| + |s.retries| + |DueTimers(s)|
  }

  ghost function Work<K(!new), O, D>(prog: Program<K, O, D>, bound: nat, s: State<K, O, D>): nat {
    Sum(Works(prog, bound, s)) + |s.timers|
  }

  function Times(n: nat, c: nat): nat {
    if n == 0 then 0 else c + Times(n - 1, c)
  }

  lemma {:induction false} TimesOrdered(m: nat, n: nat, c: nat)
    ensures m < n ==> Times(m, c) + c <= Times(n, c)
    ensures m <= n ==> Times(m, c) <= Times(n, c)
    ensures m <= n + 1 ==> Times(m, c) <= Times(n, c) + c
  {
    if m > 0 && n > 0 { TimesOrdered(m - 1, n - 1, c); }
    if m == 1 { assert Times(1, c) == c + Times(0, c); }
  }

  /** `waiting` keys yet to be queued, `queued` ones, and `work` in progress. */
  function Weigh(once: nat, waiting: nat, queued: nat, work: nat): nat {
    Times(waiting, once + 1) + Times(queued, once) + work
  }

  /** An upper bound on the internal steps that are left. */
  ghost function Load<K(!new), O, D>(prog: Program<K, O, D>, bound: nat, s: State<K, O, D>): nat {
    Weigh(OnceThrough(bound), Waiting(s), |s.dirty|, Work(prog, bound, s))
  }

  /** The ways a step brings the end nearer: a key is queued, taken up, worked on, or set aside for a retry. */
  predicate Nearer(once: nat, waiting: nat, queued: nat, work: nat, waiting': nat, queued': nat, work': nat) {
    || (waiting' < waiting && queued' <= queued + 1 && work' <= work)
    || (waiting' <= waiting && queued' < queued && work' < work + once)
    || (waiting' <= waiting && queued' <= queued && work' < work)
    || (waiting' <= waiting + 1 && queued' <= queued && work' + once + 1 < work)
  }

  lemma NearerShrinks(once: nat, waiting: nat, queued: nat, work: nat, waiting': nat, queued': nat, work': nat)
    requires Nearer(once, waiting, queued, work, waiting', queued', work')
    ensures Weigh(once, waiting', queued', work') < Weigh(once, waiting, queued, work)
  {
    TimesOrdered(waiting', waiting, once + 1);
    TimesOrdered(queued', queued, once);
  }

  /** When only the worker on `k` moves, only its share of the work changes. */
  lemma WorkChanges<K(!new), O(!new), D(!new)>(
      prog: Program<K, O, D>, bound: nat, s: State<K, O, D>, t: State<K, O, D>, k: K)
    requires (forall j | j != k :: Lookup(t.active, j) == Lookup(s.active, j)) && t.world == s.world && t.objs == s.objs
    ensures Work(prog, bound, t) + WorkOf(prog, bound, s, k) + |s.timers| ==
        Work(prog, bound, s) + WorkOf(prog, bound, t, k) + |t.timers|
  {
    forall j | j != k
      ensures (j in s.active <==> j in t.active) && WorkOf(prog, bound, t, j) == WorkOf(prog, bound, s, j)
    {
      assert Lookup(t.active, j) == Lookup(s.active, j);
    }
    assert Works(prog, bound, t) - {k} == Works(prog, bound, s) - {k};
    SumChanges(Works(prog, bound, s), Works(prog, bound, t), k);
  }

  lemma GetWork<K(!new), O(!new), D(!new)>(prog: Program<K, O, D>, bound: nat, s: State<K, O, D>, k: K)
    requires Enabled(s, Get(k, false)) && Settles(prog, bound, s.world, s.objs)
    ensures Work(prog, bound, Apply(prog, s, Get(k, false))) < Work(prog, bound, s)
  {
    var t := Apply(prog, s, Get(k, false));
    if Sound(prog, s, k) { SoundAdvances(prog, s, k); }
    WorkChanges(prog, bound, s, t, k);
  }

  lemma CommitTimers<K(!new), O(!new), D(!new)>(prog: Program<K, O, D>, s: State<K, O, D>, k: K)
    requires Enabled(s, Commit(k))
    ensures |Apply(prog, s, Commit(k)).timers| <= |s.timers| + 1
  {
    var t := Apply(prog, s, Commit(k));
    assert t.timers.Keys <= s.timers.Keys + {k};
    SubsetSize(t.timers.Keys, s.timers.Keys + {k});
  }

  lemma CommitFrames<K(!new), O(!new), D(!new)>(prog: Program<K, O, D>, s: State<K, O, D>, k: K)
    requires k in s.active && s.active[k].Decided?
    ensures var t := AfterCommit(prog, s, k); t.active == s.active - {k} && t.world == s.world && t.objs == s.objs
  {
  }

  lemma WorkEnds<K(!new), O(!new), D(!new)>(
      prog: Program<K, O, D>, bound: nat, s: State<K, O, D>, t: State<K, O, D>, k: K)
    requires k in s.active && s.active[k].Decided? && t.active == s.active - {k} && t.world == s.world
        && t.objs == s.objs
    requires |t.timers| <= |s.timers| + 1
    ensures Work(prog, bound, t) + (if Sound(prog, s, k) then 0 else OnceThrough(bound) + 1) < Work(prog, bound, s)
  {
    WorkChanges(prog, bound, s, t, k);
  }

  lemma CommitWork<K(!new), O(!new), D(!new)>(prog: Program<K, O, D>, bound: nat, s: State<K, O, D>, k: K)
    requires Enabled(s, Commit(k))
    ensures var less := if Sound(prog, s, k) then 0 else OnceThrough(bound) + 1;
            Work(prog, bound, Apply(prog, s, Commit(k))) + less < Work(prog, bound, s)
  {
    assert Apply(prog, s, Commit(k)) == AfterCommit(prog, s, k);
    CommitFrames(prog, s, k);
    CommitTimers(prog, s, k);
    WorkEnds(prog, bound, s, Apply(prog, s, Commit(k)), k);
  }

  lemma CommitQueues<K(!new), O(!new), D(!new)>(prog: Program<K, O, D>, s: State<K, O, D>, k: K)
    requires Enabled(s, Commit(k))
    ensures var t := Apply(prog, s, Commit(k));
            t.dirty == s.dirty && Waiting(t) <= Waiting(s) + if Sound(prog, s, k) then 0 else 1
  {
    SubsetSize(DueTimers(Apply(prog, s, Commit(k))), DueTimers(s));
  }

  lemma StartWork<K(!new), O(!new), D(!new)>(prog: Program<K, O, D>, bound: nat, s: State<K, O, D>, k: K)
    requires Enabled(s, Start(k))
    ensures Work(prog, bound, Apply(prog, s, Start(k))) < Work(prog, bound, s) + OnceThrough(bound)
  {
    var t := Apply(prog, s, Start(k));
    WorkChanges(prog, bound, s, t, k);
  }

  lemma QueueingWork<K(!new), O(!new), D(!new)>(
      prog: Program<K, O, D>, bound: nat, s: State<K, O, D>, t: State<K, O, D>)
    requires t.active == s.active && t.world == s.world && t.objs == s.objs
    ensures Work(prog, bound, t) + |s.timers| == Work(prog, bound, s) + |t.timers|
  {
    assert forall j | j in s.active :: WorkOf(prog, bound, t, j) == WorkOf(prog, bound, s, j);
    assert Works(prog, bound, t) == Works(prog, bound, s);
  }

  lemma StartQueues<K(!new), O(!new), D(!new)>(prog: Program<K, O, D>, s: State<K, O, D>, k: K)
    requires Enabled(s, Start(k))
    ensures var t := Apply(prog, s, Start(k)); |t.dirty| < |s.dirty| && Waiting(t) == Waiting(s)
  {
  }

  lemma FireQueues<K(!new), O(!new), D(!new)>(prog: Program<K, O, D>, s: State<K, O, D>, k: K)
    requires Enabled(s, Fire(k))
    ensures var t := Apply(prog, s, Fire(k));
            |t.dirty| <= |s.dirty| + 1 && Waiting(t) < Waiting(s) && |t.timers| <= |s.timers|
  {
    assert DueTimers(Apply(prog, s, Fire(k))) == DueTimers(s) - {k};
    SubsetSize((s.timers - {k}).Keys, s.timers.Keys);
  }

  lemma SizeWithout<K>(a: set<K>, k: K)
    ensures |a - {k}| == |a| - if k in a then 1 else 0
  {
    if k !in a { assert a - {k} == a; }
  }

  lemma AbsorbQueues<K(!new), O(!new), D(!new)>(s: State<K, O, D>, t: State<K, O, D>, k: K)
    requires k in s.timers || k in s.retries
    requires t == s.(timers := s.timers - {k}, retries := s.retries - {k})
    ensures Waiting(t) <= Waiting(s) && |t.timers| <= |s.timers|
    ensures Waiting(t) < Waiting(s) || |t.timers| < |s.timers|
  {
    assert DueTimers(t) == DueTimers(s) - {k} && t.timers.Keys == s.timers.Keys - {k};
    SizeWithout(DueTimers(s), k);
    SizeWithout(s.retries, k);
    SizeWithout(s.timers.Keys, k);
  }

  lemma QueueingQueues<K(!new), O(!new), D(!new)>(prog: Program<K, O, D>, s: State<K, O, D>, step: Step<K, O>)
    requires Enabled(s, step) && (step.Deliver? || step.Retry?)
    ensures var t := Apply(prog, s, step); |t.dirty| <= |s.dirty| + 1 && Waiting(t) < Waiting(s)
  {
  }

  lemma InternalStepIsNearer<K(!new), O(!new), D(!new)>(
      prog: Program<K, O, D>, bound: nat, s: State<K, O, D>, step: Step<K, O>)
    requires Enabled(s, step) && Internal(step) && Settles(prog, bound, s.world, s.objs)
    ensures var t := Apply(prog, s, step);
            Nearer(OnceThrough(bound), Waiting(s), |s.dirty|, Work(prog, bound, s), Waiting(t), |t.dirty|,
                Work(prog, bound, t))
  {
    var t := Apply(prog, s, step);
    if step.Get? { GetWork(prog, bound, s, step.key); assert DueTimers(t) == DueTimers(s); }
    else if step.Commit? { CommitWork(prog, bound, s, step.key); CommitQueues(prog, s, step.key); }
    else if step.Start? { StartWork(prog, bound, s, step.key); StartQueues(prog, s, step.key); }
    else if step.Absorb? { QueueingWork(prog, bound, s, t); AbsorbQueues(s, t, step.key); }
    else if step.Fire? { QueueingWork(prog, bound, s, t); FireQueues(prog, s, step.key); }
    else { QueueingWork(prog, bound, s, t); QueueingQueues(prog, s, step); }
  }

  /** Every internal step brings the end nearer, whichever the scheduler picks. */
  lemma InternalStepShrinks<K(!new), O(!new), D(!new)>(
      prog: Program<K, O, D>, bound: nat, s: State<K, O, D>, step: Step<K, O>)
    requires Enabled(s, step) && Internal(step) && Settles(prog, bound, s.world, s.objs)
    ensures Load(prog, bound, Apply(prog, s, step)) < Load(prog, bound, s)
  {
    var t := Apply(prog, s, step);
    InternalStepIsNearer(prog, bound, s, step);
    NearerShrinks(OnceThrough(bound), Waiting(s), |s.dirty|, Work(prog, bound, s), Waiting(t), |t.dirty|,
        Work(prog, bound, t));
  }

  lemma {:induction false} SubsetSize<K>(a: set<K>, b: set<K>)
    requires a <= b
    ensures |a| <= |b|
  {
    if x :| x in a { SubsetSize(a - {x}, b - {x}); }
  }

  lemma InternalStepKeepsWorld<K(!new), O(!new), D(!new)>(prog: Program<K, O, D>, s: State<K, O, D>, step: Step<K, O>)
    requires Enabled(s, step) && Internal(step)
    ensures Apply(prog, s, step).world == s.world
  {
    if step.Commit? { CommitFrames(prog, s, step.key); }
  }

  lemma InternalStepKeepsObjects<K(!new), O(!new), D(!new)>(prog: Program<K, O, D>, s: State<K, O, D>, step: Step<K, O>)
    requires Enabled(s, step) && Internal(step)
    ensures Apply(prog, s, step).objs == s.objs
  {
    if step.Commit? { CommitFrames(prog, s, step.key); }
  }

  lemma InternalRunStep<K(!new), O(!new), D(!new)>(prog: Program<K, O, D>, bound: nat, run: Run<K, O, D>, j: nat)
    requires IsRun(prog, run) && j < |run.steps| && Internal(run.steps[j])
    requires Settles(prog, bound, run.states[j].world, run.states[j].objs)
    ensures Load(prog, bound, run.states[j + 1]) < Load(prog, bound, run.states[j])
    ensures run.states[j + 1].world == run.states[j].world && run.states[j + 1].objs == run.states[j].objs
  {
    assert IsStep(prog, run, j);
    InternalStepShrinks(prog, bound, run.states[j], run.steps[j]);
    InternalStepKeepsWorld(prog, run.states[j], run.steps[j]);
    InternalStepKeepsObjects(prog, run.states[j], run.steps[j]);
  }

  /** However the internal steps are scheduled, no more of them fit into a run than there is load. */
  lemma {:induction false} InternalStepsRunOut<K(!new), O(!new), D(!new)>(
    prog: Program<K, O, D>, bound: nat, run: Run<K, O, D>, i: nat, j: nat)
    requires IsRun(prog, run) && i <= j < |run.states| && Settles(prog, bound, run.states[i].world, run.states[i].objs)
    requires forall m | i <= m < j :: Internal(run.steps[m])
    ensures j - i + Load(prog, bound, run.states[j]) <= Load(prog, bound, run.states[i])
    ensures run.states[j].world == run.states[i].world && run.states[j].objs == run.states[i].objs
  {
    if i < j {
      InternalStepsRunOut(prog, bound, run, i, j - 1);
      InternalRunStep(prog, bound, run, j - 1);
    }
  }

  // ---------------------------------------------------------------- reaching quiescence

  /** `longer` continues `run` by internal steps only. */
  ghost predicate Continues<K(!new), O(!new), D(!new)>(
      prog: Program<K, O, D>, run: Run<K, O, D>, longer: Run<K, O, D>)
  {
    && IsRun(prog, run) && IsRun(prog, longer)
    && run.states <= longer.states && run.steps <= longer.steps
    && (forall j | |run.steps| <= j < |longer.steps| :: Internal(longer.steps[j]))
    && Last(longer).objs == Last(run).objs && Last(longer).world == Last(run).world
  }

  lemma Take<K(!new), O(!new), D(!new)>(
      prog: Program<K, O, D>, run: Run<K, O, D>, step: Step<K, O>) returns (longer: Run<K, O, D>)
    requires IsRun(prog, run) && Internal(step) && Enabled(Last(run), step)
    ensures Continues(prog, run, longer) && Last(longer) == Apply(prog, Last(run), step)
  {
    longer := Extend(prog, run, step);
  }

  /** From every reachable state internal steps lead to quiescence. */
  lemma {:induction false} CanAlwaysDrain<K(!new), O(!new), D(!new)>(
      prog: Program<K, O, D>, bound: nat, run: Run<K, O, D>) returns (longer: Run<K, O, D>)
    requires IsRun(prog, run) && Settles(prog, bound, Last(run).world, Last(run).objs)
    ensures Continues(prog, run, longer) && Quiet(Last(longer))
    decreases Load(prog, bound, Last(run))
  {
    if Quiet(Last(run)) {
      longer := run;
    } else {
      var step := UnquietMoves(Last(run));
      var next := Take(prog, run, step);
      InternalStepShrinks(prog, bound, Last(run), step);
      longer := CanAlwaysDrain(prog, bound, next);
    }
  }

  // ---------------------------------------------------------------- what it all drains to

  ghost predicate Fixed<K(!new), O(!new), D(!new)>(w: World, run: Run<K, O, D>) {
    forall i | 0 <= i < |run.states| :: run.states[i].world == w
  }

  /** On the unchanging cache `w` the program decides as `decide` says, which is to remove whatever the filter drops. */
  ghost predicate Decides<K(!new), O(!new), D(!new)>(
      prog: Program<K, O, D>, w: World, decide: (K, Option<O>) -> Outcome<D>)
  {
    && (forall k: K :: decide(k, None) == Drop)
    && (forall k: K, obj: O, seen: seq<Answer> ::
          Answers(prog, AnswersOf(w), k, obj, seen) && prog.next(k, obj, seen).Done? ==>
            prog.next(k, obj, seen).outcome == decide(k, Some(obj)))
    && forall k: K, before: Option<O>, after: Option<O> ::
         (before.Some? || after.Some?) && !prog.passes(EventOf(k, before, after)) ==>
             decide(k, before) == decide(k, after) == Drop
  }

  /** What the objects call for: one entry for each that is to be kept. */
  ghost function Declared<K, O, D>(decide: (K, Option<O>) -> Outcome<D>, objs: map<K, O>): map<K, D> {
    map k | k in objs && decide(k, Some(objs[k])).Keep? :: decide(k, Some(objs[k])).data
  }

  ghost predicate Matches<D>(outcome: Outcome<D>, d: Option<D>) {
    match outcome
    case Keep(data) => d == Some(data)
    case Drop => d == None
    case DropAndFail => false
    case Fail => false
  }

  /** With the rest of the cluster unchanging, an idle key has committed the verdict, so that is no error. */
  lemma IdleKeyIsDecided<K(!new), O(!new), D(!new)>(
    prog: Program<K, O, D>, w: World, decide: (K, Option<O>) -> Outcome<D>, run: Run<K, O, D>, i: nat, k: K)
    requires IsRun(prog, run) && Fixed(w, run) && Decides(prog, w, decide)
    requires i < |run.states| && Idle(prog, run.states[i], k)
    ensures Matches(decide(k, Lookup(run.states[i].objs, k)), Lookup(run.states[i].own, k))
  {
    var good := (k: K, obj: Option<O>, d: Option<D>) => Matches(decide(k, obj), d);
    IdleKeyIsCoherent(prog, AnswersOf(w), good, run, i, k);
    assert good(k, Lookup(run.states[i].objs, k), Lookup(run.states[i].own, k));
  }

  /** The same for one key when the cluster has been unchanging only since the key was last due to be looked at. */
  lemma RequeuedKeyIsDecided<K(!new), O(!new), D(!new)>(
    prog: Program<K, O, D>, w: World, decide: (K, Option<O>) -> Outcome<D>, run: Run<K, O, D>, t: nat, i: nat, k: K)
    requires IsRun(prog, run) && Decides(prog, w, decide) && t <= i < |run.states|
    requires forall j | t <= j <= i :: run.states[j].world == w
    requires Fresh(prog, run.states[t], k) && Idle(prog, run.states[i], k)
    ensures Matches(decide(k, Lookup(run.states[i].objs, k)), Lookup(run.states[i].own, k))
  {
    var good := (k: K, obj: Option<O>, d: Option<D>) => Matches(decide(k, obj), d);
    KeyInvSince(prog, AnswersOf(w), good, run, t, i, k);
    assert good(k, Lookup(run.states[i].objs, k), Lookup(run.states[i].own, k));
  }

  /** With the rest of the cluster unchanging and every key idle, the commits are what the objects call for. */
  lemma DrainsToDeclared<K(!new), O(!new), D(!new)>(
    prog: Program<K, O, D>, w: World, decide: (K, Option<O>) -> Outcome<D>, run: Run<K, O, D>, i: nat)
    requires IsRun(prog, run) && Fixed(w, run) && Decides(prog, w, decide)
    requires i < |run.states| && forall k: K :: Idle(prog, run.states[i], k)
    ensures run.states[i].own == Declared(decide, run.states[i].objs)
  {
    var own, objs := run.states[i].own, run.states[i].objs;
    forall k: K ensures Lookup(own, k) == Lookup(Declared(decide, objs), k) {
      assert Idle(prog, run.states[i], k);
      IdleKeyIsDecided(prog, w, decide, run, i, k);
      assert Matches(decide(k, Lookup(objs, k)), Lookup(own, k));
    }
    SameLookupsSameMap(own, Declared(decide, objs));
  }

  /** Quiescence is within reach if and only if no object's reconcile ends in an error. */
  lemma CanDrainIff<K(!new), O(!new), D(!new)>(
    prog: Program<K, O, D>, bound: nat, w: World, decide: (K, Option<O>) -> Outcome<D>, run: Run<K, O, D>)
    requires IsRun(prog, run) && Fixed(w, run) && Decides(prog, w, decide)
    requires forall k, obj, seen :: |seen| >= bound ==> prog.next(k, obj, seen).Done?
    ensures (exists longer :: Continues(prog, run, longer) && Quiet(Last(longer))) <==>
              ErrorFree(prog, bound, decide, Last(run).objs)
  {
    if ErrorFree(prog, bound, decide, Last(run).objs) {
      var longer := CanDrainToDeclared(prog, bound, w, decide, run);
    }
    if longer :| Continues(prog, run, longer) && Quiet(Last(longer)) {
      WorldStaysFixed(prog, w, run, longer);
      forall k | k in Last(run).objs ensures Matches(decide(k, Some(Last(run).objs[k])), Lookup(Last(longer).own, k)) {
        IdleKeyIsDecided(prog, w, decide, longer, |longer.states| - 1, k);
      }
    }
  }

  /** If no object's reconcile ends in an error, draining to that is always possible. */
  lemma CanDrainToDeclared<K(!new), O(!new), D(!new)>(
      prog: Program<K, O, D>, bound: nat, w: World, decide: (K, Option<O>) -> Outcome<D>, run: Run<K, O, D>)
      returns (longer: Run<K, O, D>)
    requires IsRun(prog, run) && Fixed(w, run) && Decides(prog, w, decide)
    requires ErrorFree(prog, bound, decide, Last(run).objs)
    ensures Continues(prog, run, longer) && Quiet(Last(longer))
    ensures Last(longer).own == Declared(decide, Last(run).objs)
  {
    longer := CanAlwaysDrain(prog, bound, run);
    WorldStaysFixed(prog, w, run, longer);
    DrainsToDeclared(prog, w, decide, longer, |longer.states| - 1);
  }

  /** No object of `objs` has a reconcile that ends in an error. */
  ghost predicate ErrorFree<K(!new), O(!new), D(!new)>(
      prog: Program<K, O, D>, bound: nat, decide: (K, Option<O>) -> Outcome<D>, objs: map<K, O>)
  {
    && (forall k, obj, seen :: |seen| >= bound ==> prog.next(k, obj, seen).Done?)
    && forall k | k in objs :: decide(k, Some(objs[k])).Keep? || decide(k, Some(objs[k])).Drop?
  }

  /**
   * Draining is inevitable: left to itself the controller stops within its load, whatever the scheduler
   * picks, and when it has stopped the commits are what the objects call for.
   */
  lemma EveryScheduleDrains<K(!new), O(!new), D(!new)>(
      prog: Program<K, O, D>, bound: nat, w: World, decide: (K, Option<O>) -> Outcome<D>, run: Run<K, O, D>, i: nat,
      j: nat)
    requires IsRun(prog, run) && Fixed(w, run) && Decides(prog, w, decide) && i <= j < |run.states|
    requires ErrorFree(prog, bound, decide, run.states[i].objs)
    requires forall m | i <= m < j :: Internal(run.steps[m])
    ensures j - i <= Load(prog, bound, run.states[i])
    ensures (forall step: Step<K, O> :: Internal(step) ==> !Enabled(run.states[j], step)) ==>
              run.states[j].own == Declared(decide, run.states[i].objs)
  {
    InternalStepsRunOut(prog, bound, run, i, j);
    if forall step: Step<K, O> :: Internal(step) ==> !Enabled(run.states[j], step) {
      if !Quiet(run.states[j]) { var step := UnquietMoves(run.states[j]); }
      DrainsToDeclared(prog, w, decide, run, j);
    }
  }

  lemma WorldStaysFixed<K(!new), O(!new), D(!new)>(
      prog: Program<K, O, D>, w: World, run: Run<K, O, D>, longer: Run<K, O, D>)
    requires Continues(prog, run, longer) && Fixed(w, run)
    ensures Fixed(w, longer)
  {
    var i := |run.states| - 1;
    while i < |longer.states| - 1
      invariant |run.states| - 1 <= i < |longer.states|
      invariant forall j | 0 <= j <= i :: longer.states[j].world == w
    {
      assert IsStep(prog, longer, i) && Internal(longer.steps[i]);
      i := i + 1;
    }
  }
}
