/** Building runs: one whole reconcile at a time, with every read answered by one cache. */
module Scenarios {
  import opened Wrappers
  import opened Cluster
  import opened Controller
  import opened Provenance
  import opened Draining

  /** A step of one undisturbed reconcile of `k`. */
  predicate Undisturbed<K(==), O>(step: Step<K, O>, k: K) {
    step == Start(k) || step == Get(k, false) || step == Commit(k)
  }

  /** `longer` continues `run` by steps of one undisturbed reconcile of `k`, which begins there. */
  ghost predicate Reconciles<K(!new), O(!new), D(!new)>(
      prog: Program<K, O, D>, run: Run<K, O, D>, longer: Run<K, O, D>, k: K)
  {
    && IsRun(prog, run) && IsRun(prog, longer) && run.states <= longer.states && run.steps < longer.steps
    && longer.steps[|run.steps|] == Start(k)
    && (forall j | |run.steps| <= j < |longer.steps| :: Undisturbed(longer.steps[j], k))
    && forall j | |run.states| <= j < |longer.states| ::
         longer.states[j].objs == Last(run).objs && longer.states[j].now == Last(run).now
  }

  /** No step after the start commits yet. */
  ghost predicate Uncommitted<K(!new), O(!new), D(!new)>(run: Run<K, O, D>, longer: Run<K, O, D>) {
    forall j | |run.steps| <= j < |longer.steps| :: !longer.steps[j].Commit?
  }

  lemma GoOn<K(!new), O(!new), D(!new)>(
      prog: Program<K, O, D>, run: Run<K, O, D>, longer: Run<K, O, D>, step: Step<K, O>, k: K)
      returns (on: Run<K, O, D>)
    requires Reconciles(prog, run, longer, k) && Undisturbed(step, k) && Enabled(Last(longer), step)
    requires Last(longer).objs == Last(run).objs && Last(longer).now == Last(run).now
    ensures Reconciles(prog, run, on, k) && Last(on) == Apply(prog, Last(longer), step)
    ensures on.steps == longer.steps + [step] && longer.states < on.states && |on.states| == |longer.states| + 1
  {
    on := Extend(prog, longer, step);
    var t := Apply(prog, Last(longer), step);
    assert t.objs == Last(longer).objs && t.now == Last(longer).now;
  }

  /** The questions the program asks about `obj`, as the cache `w` answers them. */
  lemma {:induction false} AnswersExist<K(!new), O(!new), D(!new)>(
      prog: Program<K, O, D>, bound: nat, w: World, k: K, obj: O, seen: seq<Answer>) returns (all: seq<Answer>)
    requires forall k, obj, seen :: |seen| >= bound ==> prog.next(k, obj, seen).Done?
    requires Answers(prog, AnswersOf(w), k, obj, seen)
    ensures Answers(prog, AnswersOf(w), k, obj, all) && prog.next(k, obj, all).Done?
    decreases if |seen| < bound then bound - |seen| else 0
  {
    match prog.next(k, obj, seen)
    case Done(_) => all := seen;
    case Ask(query) =>
      var more := seen + [Respond(w, query)];
      forall j | 0 <= j < |more|
        ensures prog.next(k, obj, more[..j]).Ask? && AnswersOf(w)(prog.next(k, obj, more[..j]).query, more[j])
      {
        assert more[..j] == if j < |seen| then seen[..j] else seen;
      }
      all := AnswersExist(prog, bound, w, k, obj, more);
  }

  /** The state `s` with the queued `k` taken up, its worker standing at `local`. */
  function WithWorker<K, O, D>(s: State<K, O, D>, k: K, local: Local<O, D>): State<K, O, D> {
    s.(dirty := s.dirty - {k}, active := s.active[k := local])
  }

  ghost predicate CanStart<K, O, D>(s: State<K, O, D>, k: K) {
    k in s.dirty && s.active == map[]
  }

  lemma TakeUp<K(!new), O(!new), D(!new)>(
      prog: Program<K, O, D>, run: Run<K, O, D>, k: K) returns (longer: Run<K, O, D>)
    requires IsRun(prog, run) && CanStart(Last(run), k)
    ensures Reconciles(prog, run, longer, k) && Uncommitted(run, longer)
    ensures Last(longer) == WithWorker(Last(run), k, Begun)
  {
    longer := Extend(prog, run, Start(k));
  }

  lemma ReadOnce<K(!new), O(!new), D(!new)>(
      prog: Program<K, O, D>, run: Run<K, O, D>, longer: Run<K, O, D>, k: K, before: Local<O, D>)
      returns (on: Run<K, O, D>)
    requires Reconciles(prog, run, longer, k) && Uncommitted(run, longer) && !before.Decided?
    requires Last(longer) == WithWorker(Last(run), k, before)
    ensures Reconciles(prog, run, on, k) && Uncommitted(run, on)
    ensures Last(on) == WithWorker(Last(run), k, AfterGet(prog, Last(longer), k))
  {
    on := GoOn(prog, run, longer, Get(k, false), k);
  }

  /** The worker on `k` has read its object and the first `n` answers. */
  lemma {:induction false} ReadOn<K(!new), O(!new), D(!new)>(
      prog: Program<K, O, D>, run: Run<K, O, D>, k: K, obj: O, seen: seq<Answer>, n: nat) returns (longer: Run<K, O, D>)
    requires IsRun(prog, run) && CanStart(Last(run), k) && Lookup(Last(run).objs, k) == Some(obj)
    requires Answers(prog, AnswersOf(Last(run).world), k, obj, seen) && n <= |seen|
    ensures Reconciles(prog, run, longer, k) && Uncommitted(run, longer)
    ensures Last(longer) == WithWorker(Last(run), k, Advance(prog, k, obj, seen[..n]))
  {
    if n == 0 {
      longer := TakeUp(prog, run, k);
      longer := ReadOnce(prog, run, longer, k, Begun);
      assert seen[..0] == [];
    } else {
      longer := ReadOn(prog, run, k, obj, seen, n - 1);
      assert prog.next(k, obj, seen[..n - 1]).Ask?;
      assert seen[..n] == seen[..n - 1] + [seen[n - 1]];
      longer := ReadOnce(prog, run, longer, k, Reading(obj, seen[..n - 1]));
    }
  }

  /** One whole reconcile of a queued key, whose object the unchanging cache decides as `decide` says. */
  lemma Process<K(!new), O(!new), D(!new)>(
      prog: Program<K, O, D>, bound: nat, decide: (K, Option<O>) -> Outcome<D>, run: Run<K, O, D>, k: K, obj: O)
      returns (longer: Run<K, O, D>, local: Local<O, D>)
    requires IsRun(prog, run) && CanStart(Last(run), k) && Lookup(Last(run).objs, k) == Some(obj)
    requires Decides(prog, Last(run).world, decide)
    requires forall k, obj, seen :: |seen| >= bound ==> prog.next(k, obj, seen).Done?
    ensures Closes(prog, run, longer, k, local) && local.outcome == decide(k, Some(obj))
  {
    var seen := AnswersExist(prog, bound, Last(run).world, k, obj, []);
    longer := ReadOn(prog, run, k, obj, seen, |seen|);
    assert seen[..|seen|] == seen;
    local := Decided(Some(obj), seen, decide(k, Some(obj)));
    longer := Close(prog, run, longer, k, local);
  }

  /** The same for a key whose object is gone: its entry is removed. */
  lemma ProcessAbsent<K(!new), O(!new), D(!new)>(prog: Program<K, O, D>, run: Run<K, O, D>, k: K)
      returns (longer: Run<K, O, D>, local: Local<O, D>)
    requires IsRun(prog, run) && CanStart(Last(run), k) && k !in Last(run).objs
    ensures Closes(prog, run, longer, k, local) && local.outcome == Drop
  {
    longer := TakeUp(prog, run, k);
    longer := ReadOnce(prog, run, longer, k, Begun);
    local := Decided(None, [], Drop);
    longer := Close(prog, run, longer, k, local);
  }

  /** The reconcile ends with its one commit, of a worker that stood at `local`. */
  ghost predicate Closes<K(!new), O(!new), D(!new)>(
      prog: Program<K, O, D>, run: Run<K, O, D>, longer: Run<K, O, D>, k: K, local: Local<O, D>)
  {
    && Reconciles(prog, run, longer, k) && local.Decided?
    && (forall j | |run.steps| <= j < |longer.steps| - 1 :: !longer.steps[j].Commit?)
    && longer.steps[|longer.steps| - 1] == Commit(k)
    && longer.states[|longer.steps| - 1] == WithWorker(Last(run), k, local)
    && Last(longer) == AfterCommit(prog, WithWorker(Last(run), k, local), k)
  }

  lemma Close<K(!new), O(!new), D(!new)>(
      prog: Program<K, O, D>, run: Run<K, O, D>, longer: Run<K, O, D>, k: K, local: Local<O, D>)
      returns (on: Run<K, O, D>)
    requires Reconciles(prog, run, longer, k) && Uncommitted(run, longer) && local.Decided?
    requires Last(longer) == WithWorker(Last(run), k, local)
    ensures Closes(prog, run, on, k, local)
  {
    on := GoOn(prog, run, longer, Commit(k), k);
    assert on.states[|on.steps| - 1] == Last(longer);
  }

  /** The state `s` after a reconcile of `k`, the only one in flight, ended in `outcome`. */
  function Settle<K, O, D>(prog: Program<K, O, D>, s: State<K, O, D>, k: K, outcome: Outcome<D>): State<K, O, D> {
    var t := s.(dirty := s.dirty - {k}, active := map[]);
    match outcome
    case Keep(d) =>
      t.(own := s.own[k := d],
         timers := if prog.resync > 0 then Schedule(s.timers, k, s.now + prog.resync) else s.timers)
    case Drop => t.(own := s.own - {k})
    case DropAndFail => t.(own := s.own - {k}, retries := s.retries + {k})
    case Fail => t.(retries := s.retries + {k})
  }

  lemma CommitSettles<K(!new), O(!new), D(!new)>(prog: Program<K, O, D>, s: State<K, O, D>, k: K, local: Local<O, D>)
    requires s.active == map[] && local.Decided?
    ensures AfterCommit(prog, WithWorker(s, k, local), k) == Settle(prog, s, k, local.outcome)
  {
    var t := WithWorker(s, k, local);
    assert t.active - {k} == map[] && t.active[k] == local;
    match local.outcome
    case Keep(_) =>
    case Drop =>
    case DropAndFail =>
    case Fail =>
  }

  // ---------------------------------------------------------------- promptness as a run grows

  lemma PromptExtends<K(!new), O(!new), D(!new)>(run: Run<K, O, D>, longer: Run<K, O, D>, k: K)
    requires Prompt(run, k) && run.states <= longer.states && run.steps <= longer.steps
    requires |run.states| == |run.steps| + 1 && |longer.steps| < |longer.states|
    requires forall j | |run.steps| <= j < |longer.steps| :: PromptStep(longer.states[j], longer.steps[j], k)
    ensures Prompt(longer, k)
  {
    forall i | 0 <= i < |longer.steps| ensures PromptStep(longer.states[i], longer.steps[i], k) {
      if i < |run.steps| { assert PromptStep(run.states[i], run.steps[i], k); }
    }
  }

  lemma ReconcileIsPrompt<K(!new), O(!new), D(!new)>(
      prog: Program<K, O, D>, run: Run<K, O, D>, longer: Run<K, O, D>, k: K, l: K)
    requires Prompt(run, l) && Reconciles(prog, run, longer, k)
    ensures Prompt(longer, l)
  {
    forall j | |run.steps| <= j < |longer.steps| ensures PromptStep(longer.states[j], longer.steps[j], l) {
      assert Undisturbed(longer.steps[j], k);
    }
    PromptExtends(run, longer, l);
  }

  /** Between any two ticks at the first of which `k` awaits a retry, `k` is processed again. */
  ghost predicate Attended<K(!new), O(!new), D(!new)>(run: Run<K, O, D>, k: K) {
    && |run.steps| < |run.states|
    && forall i, j | 0 <= i < j < |run.steps| && run.steps[i].Tick? && run.steps[j].Tick?
        && k in run.states[i].retries ::
         StartsWithin(run, i, j, k)
  }

  ghost predicate StartsWithin<K(!new), O(!new), D(!new)>(run: Run<K, O, D>, i: nat, j: nat, k: K)
    requires i <= j <= |run.steps|
  {
    exists r | i < r < j :: run.steps[r] == Start(k)
  }

  /** Every tick so far at which `k` awaited a retry has been attended to. */
  ghost predicate CaughtUp<K(!new), O(!new), D(!new)>(run: Run<K, O, D>, k: K) {
    && |run.steps| < |run.states|
    && forall i | 0 <= i < |run.steps| && run.steps[i].Tick? && k in run.states[i].retries ::
         StartsWithin(run, i, |run.steps|, k)
  }

  /** A run stays attended if time passes again only once it has caught up. */
  lemma AttendedExtends<K(!new), O(!new), D(!new)>(prog: Program<K, O, D>, run: Run<K, O, D>, step: Step<K, O>,
                                                   longer: Run<K, O, D>, k: K)
    requires IsRun(prog, run) && Attended(run, k) && (step.Tick? ==> CaughtUp(run, k))
    requires run.states <= longer.states && longer.steps == run.steps + [step] && |longer.states| == |run.states| + 1
    ensures Attended(longer, k)
  {
    forall i, j | 0 <= i < j < |longer.steps| && longer.steps[i].Tick? && longer.steps[j].Tick?
        && k in longer.states[i].retries
      ensures StartsWithin(longer, i, j, k)
    {
      assert StartsWithin(run, i, j, k);
      var r :| i < r < j && run.steps[r] == Start(k);
      assert longer.steps[r] == Start(k);
    }
  }

  /** A whole reconcile lets the run catch up. */
  lemma ReconcileCatchesUp<K(!new), O(!new), D(!new)>(
      prog: Program<K, O, D>, run: Run<K, O, D>, longer: Run<K, O, D>, k: K)
    requires Attended(run, k) && Reconciles(prog, run, longer, k)
    ensures Attended(longer, k) && CaughtUp(longer, k)
  {
    forall i | 0 <= i < |longer.steps| && longer.steps[i].Tick? ensures i < |run.steps| {
      assert i >= |run.steps| ==> Undisturbed(longer.steps[i], k);
    }
    forall i, j | 0 <= i < j < |longer.steps| && longer.steps[i].Tick? && longer.steps[j].Tick?
        && k in longer.states[i].retries
      ensures StartsWithin(longer, i, j, k)
    {
      assert StartsWithin(run, i, j, k);
      var r :| i < r < j && run.steps[r] == Start(k);
      assert longer.steps[r] == Start(k);
    }
    assert longer.steps[|run.steps|] == Start(k);
  }
}
