/**
 * Starting and stopping: the select of `run` over the manager's and the server's goroutine, each of which
 * cancels the other's context once its own error is handed over, and inside the server's goroutine the
 * select of `runServer` over its own listening goroutine. All channels are unbuffered, so a send and the
 * receive that takes it are one step.
 *
 * Assumed of the libraries: `mgr.Start` returns once its context is done, `srv.Shutdown` returns. These
 * are the only returns the progress results count on; all others may or may not come.
 */
module Shutdown {
  import opened Wrappers

  datatype Err = ManagerErr(id: int) | ServeErr(id: int) | ShutdownErr(id: int)

  type Nilable = Option<Err>

  /** The goroutine around `mgr.Start`. */
  datatype Manager = Starting | MgrSending(err: Nilable) | MgrSent | MgrExited

  /** The goroutine around `runServer`. */
  datatype Server = Selecting | ShuttingDown | SrvSending(err: Nilable) | SrvSent | SrvExited

  /** The goroutine around `ListenAndServeTLS`. */
  datatype Listener = Listening | LstSending(err: Err) | Closing | LstExited

  /** `run` itself, from its select on. */
  datatype Main = Waiting | HasMgr(err: Nilable) | HasSrv(err: Nilable) | Returned(first: Nilable, second: Nilable)

  datatype State = State(
    main: Main, mgr: Manager, srv: Server, lst: Listener,
    parentDone: bool, mgrCancelled: bool, srvCancelled: bool,
    shutdownCalled: bool,           // runServer took its ctx.Done branch
    serveFailed: bool,              // ListenAndServeTLS returned a genuine error
    mgrResult: Option<Nilable>,     // what mgr.Start has returned
    srvResult: Option<Nilable>,     // what runServer has returned
    sends: nat, closes: nat         // uses of errCh
  )

  const INITIAL := State(Waiting, Starting, Selecting, Listening, false, false, false, false, false, None, None, 0, 0)

  datatype Step =
    | ParentCancelled
    | MgrReturns(err: Nilable)
    | MgrHandsOver
    | MgrExits
    | ServeFails(id: int)
    | ServeCloses
    | LstHandsOver
    | LstCloses
    | SrvSeesClosed
    | SrvSeesDone
    | ShutdownReturns(failure: Option<int>)
    | SrvHandsOver
    | SrvExits

  predicate MgrDone(s: State) { s.parentDone || s.mgrCancelled }

  predicate SrvDone(s: State) { s.parentDone || s.srvCancelled }

  predicate Enabled(s: State, step: Step) {
    match step
    case ParentCancelled => !s.parentDone
    case MgrReturns(err) => s.mgr.Starting? && (err.Some? ==> err.value.ManagerErr?)
    case MgrHandsOver => s.mgr.MgrSending? && (s.main.Waiting? || s.main.HasSrv?)
    case MgrExits => s.mgr.MgrSent?
    case ServeFails(_) => s.lst.Listening?
    case ServeCloses => s.lst.Listening?
    case LstHandsOver => s.lst.LstSending? && s.srv.Selecting?
    case LstCloses => s.lst.Closing?
    case SrvSeesClosed => s.srv.Selecting? && s.closes > 0
    case SrvSeesDone => s.srv.Selecting? && SrvDone(s)
    case ShutdownReturns(_) => s.srv.ShuttingDown?
    case SrvHandsOver => s.srv.SrvSending? && (s.main.Waiting? || s.main.HasMgr?)
    case SrvExits => s.srv.SrvSent?
  }

  function Apply(s: State, step: Step): State
    requires Enabled(s, step)
  {
    match step
    case ParentCancelled => s.(parentDone := true)
    case MgrReturns(err) => s.(mgr := MgrSending(err), mgrResult := Some(err))
    case MgrHandsOver =>
      s.(mgr := MgrSent, main := if s.main.Waiting? then HasMgr(s.mgr.err) else Returned(s.main.err, s.mgr.err))
    case MgrExits => s.(mgr := MgrExited, srvCancelled := true)
    case ServeFails(id) => s.(lst := LstSending(ServeErr(id)), serveFailed := true)
    case ServeCloses => s.(lst := Closing)
    case LstHandsOver =>
      s.(lst := Closing, sends := s.sends + 1, srv := SrvSending(Some(s.lst.err)), srvResult := Some(Some(s.lst.err)))
    case LstCloses => s.(lst := LstExited, closes := s.closes + 1)
    case SrvSeesClosed => s.(srv := SrvSending(None), srvResult := Some(None))
    case SrvSeesDone => s.(srv := ShuttingDown, shutdownCalled := true)
    case ShutdownReturns(err) =>
      var result := if err.Some? then Some(ShutdownErr(err.value)) else None;
      s.(srv := SrvSending(result), srvResult := Some(result))
    case SrvHandsOver =>
      s.(srv := SrvSent, main := if s.main.Waiting? then HasSrv(s.srv.err) else Returned(s.main.err, s.srv.err))
    case SrvExits => s.(srv := SrvExited, mgrCancelled := true)
  }

  ghost predicate IsRun(states: seq<State>, steps: seq<Step>) {
    && |states| == |steps| + 1 && states[0] == INITIAL
    && forall i {:trigger steps[i]} | 0 <= i < |steps| :: Enabled(states[i], steps[i])
        && states[i + 1] == Apply(states[i], steps[i])
  }

  // ---------------------------------------------------------------- safety

  /** Each side's error is still to come, on its way, or has been handed over; main holds what it received. */
  predicate ErrorsTravel(s: State) {
    && (s.mgr.Starting? <==> s.mgrResult.None?)
    && (s.mgr.MgrSending? ==> s.mgrResult == Some(s.mgr.err))
    && (s.srv.Selecting? || s.srv.ShuttingDown? <==> s.srvResult.None?)
    && (s.srv.SrvSending? ==> s.srvResult == Some(s.srv.err))
  }

  predicate MgrReceived(s: State) { s.mgr.MgrSent? || s.mgr.MgrExited? }

  predicate SrvReceived(s: State) { s.srv.SrvSent? || s.srv.SrvExited? }

  predicate MainHolds(s: State) {
    match s.main
    case Waiting => !MgrReceived(s) && !SrvReceived(s)
    case HasMgr(e) => MgrReceived(s) && s.mgrResult == Some(e) && !SrvReceived(s)
    case HasSrv(e) => !MgrReceived(s) && s.srvResult == Some(e) && SrvReceived(s)
    case Returned(a, b) =>
      && MgrReceived(s) && SrvReceived(s)
      && ((s.mgrResult == Some(a) && s.srvResult == Some(b)) || (s.srvResult == Some(a) && s.mgrResult == Some(b)))
  }

  predicate ChannelUsed(s: State) {
    && s.sends <= 1 && s.closes == (if s.lst.LstExited? then 1 else 0)
    && (s.sends == 1 ==> s.lst.Closing? || s.lst.LstExited?)
    && (s.lst.LstSending? ==> s.serveFailed && s.sends == 0 && s.lst.err.ServeErr?)
    && (s.serveFailed ==> s.lst.LstSending? || s.sends == 1)
    && (s.serveFailed ==> !s.lst.Listening?)
    && (s.shutdownCalled ==> !s.srv.Selecting? && s.sends == 0)
    && (s.srv.ShuttingDown? ==> s.shutdownCalled)
    && ((s.lst.Listening? || s.lst.LstSending?) && !s.srv.Selecting? ==> s.shutdownCalled)
  }

  predicate ServerReports(s: State) {
    && (s.sends == 1 ==> s.srvResult.Some? && s.srvResult.value.Some? && s.srvResult.value.value.ServeErr?)
    && (s.srvResult.Some? && s.srvResult.value.Some? && s.sends == 0 ==>
        s.srvResult.value.value.ShutdownErr? && s.shutdownCalled)
  }

  predicate ContextsFollow(s: State) {
    (s.mgr.MgrExited? <==> s.srvCancelled) && (s.srv.SrvExited? <==> s.mgrCancelled)
  }

  predicate Inv(s: State) {
    ErrorsTravel(s) && MainHolds(s) && ChannelUsed(s) && ServerReports(s) && ContextsFollow(s)
  }

  lemma StepKeepsErrors(s: State, step: Step)
    requires Enabled(s, step) && ErrorsTravel(s) && MainHolds(s)
    ensures ErrorsTravel(Apply(s, step)) && MainHolds(Apply(s, step))
  {
  }

  lemma StepKeepsChannel(s: State, step: Step)
    requires Enabled(s, step) && ErrorsTravel(s) && ChannelUsed(s) && ServerReports(s)
    ensures ChannelUsed(Apply(s, step)) && ServerReports(Apply(s, step))
  {
  }

  lemma {:induction false} InvHolds(states: seq<State>, steps: seq<Step>, i: nat)
    requires IsRun(states, steps) && i < |states|
    ensures Inv(states[i])
  {
    if i > 0 {
      InvHolds(states, steps, i - 1);
      StepKeepsErrors(states[i - 1], steps[i - 1]);
      StepKeepsChannel(states[i - 1], steps[i - 1]);
      StepKeepsContexts(states[i - 1], steps[i - 1]);
    }
  }

  lemma StepKeepsContexts(s: State, step: Step)
    requires Enabled(s, step) && ContextsFollow(s)
    ensures ContextsFollow(Apply(s, step))
  {
  }

  // ---------------------------------------------------------------- what the steps so far amount to

  ghost predicate Before(h: seq<Step>, a: Step, b: Step) {
    exists i, j | 0 <= i < j < |h| :: h[i] == a && h[j] == b
  }

  /** The steps `h` made `runServer` return `err`. */
  ghost predicate ServerReturned(h: seq<Step>, err: Nilable) {
    match err
    case None => SrvSeesClosed in h || ShutdownReturns(None) in h
    case Some(ServeErr(id)) => ServeFails(id) in h && LstHandsOver in h
    case Some(ShutdownErr(id)) => ShutdownReturns(Some(id)) in h
    case Some(ManagerErr(_)) => false
  }

  ghost predicate ManagerHistory(h: seq<Step>, s: State) {
    && (forall e :: s.mgrResult == Some(e) <==> MgrReturns(e) in h)
    && (MgrReceived(s) <==> MgrHandsOver in h) && (SrvReceived(s) <==> SrvHandsOver in h)
    && (s.main.Returned? ==>
          || (Before(h, MgrHandsOver, SrvHandsOver) && s.mgrResult == Some(s.main.first)
              && s.srvResult == Some(s.main.second))
          || (Before(h, SrvHandsOver, MgrHandsOver) && s.srvResult == Some(s.main.first)
              && s.mgrResult == Some(s.main.second)))
  }

  ghost predicate ServerHistory(h: seq<Step>, s: State) {
    && (forall e :: s.srvResult == Some(e) <==> ServerReturned(h, e))
    && (s.srvResult.None? ==> LstHandsOver !in h && SrvSeesClosed !in h && forall f :: ShutdownReturns(f) !in h)
    && (forall id :: ServeFails(id) in h ==> s.serveFailed)
    && (s.lst.LstSending? ==> forall id :: ServeFails(id) in h <==> s.lst.err == ServeErr(id))
    && (LstHandsOver in h ==> !s.lst.Listening? && !s.lst.LstSending?)
    && (s.lst.Listening? ==> forall id :: ServeFails(id) !in h)
  }

  ghost predicate CauseHistory(h: seq<Step>, s: State) {
    && (s.parentDone <==> ParentCancelled in h)
    && (s.mgrCancelled <==> SrvExits in h) && (s.srvCancelled <==> MgrExits in h)
    && (s.shutdownCalled <==> SrvSeesDone in h) && (s.closes > 0 <==> LstCloses in h)
    && (MgrExits in h ==> MgrHandsOver in h) && (SrvExits in h ==> SrvHandsOver in h)
    && (SrvSeesDone in h ==> ParentCancelled in h || MgrExits in h)
    && (SrvSeesClosed in h ==> LstCloses in h)
    && (s.srv.ShuttingDown? ==> SrvSeesDone in h) && (forall f :: ShutdownReturns(f) in h ==> SrvSeesDone in h)
    && (MgrReceived(s) ==> MgrHandsOver in h) && (SrvReceived(s) ==> SrvHandsOver in h)
  }

  lemma BeforeExtends(h: seq<Step>, step: Step, a: Step, b: Step)
    ensures Before(h, a, b) ==> Before(h + [step], a, b)
    ensures a in h && step == b ==> Before(h + [step], a, b)
  {
    if i, j :| 0 <= i < j < |h| && h[i] == a && h[j] == b {
      assert (h + [step])[i] == a && (h + [step])[j] == b;
    }
    if a in h && step == b {
      var i :| 0 <= i < |h| && h[i] == a;
      assert (h + [step])[i] == a && (h + [step])[|h|] == b;
    }
  }

  lemma ManagerHistoryStep(h: seq<Step>, s: State, step: Step)
    requires Enabled(s, step) && Inv(s) && ManagerHistory(h, s)
    ensures ManagerHistory(h + [step], Apply(s, step))
  {
    BeforeExtends(h, step, MgrHandsOver, SrvHandsOver);
    BeforeExtends(h, step, SrvHandsOver, MgrHandsOver);
  }

  lemma ServerHistoryStep(h: seq<Step>, s: State, step: Step)
    requires Enabled(s, step) && Inv(s) && ServerHistory(h, s)
    ensures ServerHistory(h + [step], Apply(s, step))
  {
  }

  lemma CauseHistoryStep(h: seq<Step>, s: State, step: Step)
    requires Enabled(s, step) && Inv(s) && CauseHistory(h, s)
    ensures CauseHistory(h + [step], Apply(s, step))
  {
  }

  lemma {:induction false} HistoryHolds(states: seq<State>, steps: seq<Step>, i: nat)
    requires IsRun(states, steps) && i < |states|
    ensures ManagerHistory(steps[..i], states[i]) && ServerHistory(steps[..i], states[i])
        && CauseHistory(steps[..i], states[i])
  {
    if i > 0 {
      HistoryHolds(states, steps, i - 1);
      InvHolds(states, steps, i - 1);
      ManagerHistoryStep(steps[..i - 1], states[i - 1], steps[i - 1]);
      ServerHistoryStep(steps[..i - 1], states[i - 1], steps[i - 1]);
      CauseHistoryStep(steps[..i - 1], states[i - 1], steps[i - 1]);
      assert steps[..i] == steps[..i - 1] + [steps[i - 1]];
    }
  }

  /**
   * `run` returns only after `mgr.Start` and `runServer` have returned, and returns the very errors they
   * returned, joined in the order they were handed over; by then neither goroutine is still blocked on that.
   */
  lemma RunJoinsBothErrors(states: seq<State>, steps: seq<Step>, i: nat) returns (fromMgr: Nilable, fromServer: Nilable)
    requires IsRun(states, steps) && i < |states| && states[i].main.Returned?
    ensures MgrReturns(fromMgr) in steps[..i] && ServerReturned(steps[..i], fromServer)
    ensures || (Before(steps[..i], MgrHandsOver, SrvHandsOver) && states[i].main == Returned(fromMgr, fromServer))
            || (Before(steps[..i], SrvHandsOver, MgrHandsOver) && states[i].main == Returned(fromServer, fromMgr))
    ensures states[i].mgrResult == Some(fromMgr) && states[i].srvResult == Some(fromServer)
    ensures !states[i].mgr.MgrSending? && !states[i].srv.SrvSending?
  {
    InvHolds(states, steps, i);
    HistoryHolds(states, steps, i);
    fromMgr, fromServer := states[i].mgrResult.value, states[i].srvResult.value;
  }

  /**
   * Why things end: the server shuts down only after the parent context was cancelled or the manager's
   * goroutine had handed its error over and left; the manager's context is cancelled only after the server's
   * goroutine had; and `runServer` sees the channel closed only after it was closed.
   */
  lemma EndsHaveCauses(states: seq<State>, steps: seq<Step>, i: nat)
    requires IsRun(states, steps) && i < |states|
    ensures SrvSeesDone in steps[..i] ==>
        ParentCancelled in steps[..i] || (MgrHandsOver in steps[..i] && MgrExits in steps[..i])
    ensures MgrDone(states[i]) <==> ParentCancelled in steps[..i] || SrvExits in steps[..i]
    ensures SrvExits in steps[..i] ==> SrvHandsOver in steps[..i]
    ensures SrvSeesClosed in steps[..i] ==> LstCloses in steps[..i]
    ensures (exists f :: ShutdownReturns(f) in steps[..i]) ==> SrvSeesDone in steps[..i]
  {
    HistoryHolds(states, steps, i);
  }

  /** errCh carries at most one value, is closed at most once, and is never sent on after it is closed. */
  lemma ErrChannelIsSound(states: seq<State>, steps: seq<Step>, i: nat)
    requires IsRun(states, steps) && i < |states|
    ensures states[i].sends <= 1 && states[i].closes <= 1
    ensures i < |steps| && steps[i].LstHandsOver? ==> states[i].closes == 0 && states[i].sends == 0
    ensures i < |steps| && steps[i].LstCloses? ==> states[i].closes == 0
  {
    InvHolds(states, steps, i);
  }

  /** `runServer` returns the serve error, a shutdown error, or nil; which one, by what happened inside. */
  lemma ServerResult(states: seq<State>, steps: seq<Step>, i: nat)
    requires IsRun(states, steps) && i < |states| && states[i].srvResult.Some?
    ensures forall err :: states[i].srvResult == Some(err) <==> ServerReturned(steps[..i], err)
    ensures var s, result := states[i], states[i].srvResult.value;
            && (s.sends == 1 <==> result.Some? && result.value.ServeErr?)
            && (s.sends == 0 && result.Some? ==> result.value.ShutdownErr? && s.shutdownCalled)
  {
    InvHolds(states, steps, i);
    HistoryHolds(states, steps, i);
  }

  /**
   * Once `runServer` is past its select, the listening goroutine is stuck on its send exactly when serving
   * failed and the ctx.Done branch was the one taken, in either order; and then it stays stuck.
   */
  lemma ListenerLeaksIff(states: seq<State>, steps: seq<Step>, i: nat)
    requires IsRun(states, steps) && i < |states| && !states[i].srv.Selecting?
    ensures states[i].lst.LstSending? <==> states[i].serveFailed && states[i].shutdownCalled
    ensures states[i].lst.LstSending? && i < |steps| ==>
        states[i + 1].lst == states[i].lst && !states[i + 1].srv.Selecting?
  {
    InvHolds(states, steps, i);
    assert i < |steps| ==> Enabled(states[i], steps[i]);
  }

  /** It does happen, in either order, and with `run` having returned. */
  lemma ListenerLeaks(id: int, before: bool) returns (states: seq<State>, steps: seq<Step>)
    ensures IsRun(states, steps) && |steps| == 7
    ensures if before then steps[0] == ServeFails(id) && steps[2] == SrvSeesDone
            else steps[1] == SrvSeesDone && steps[2] == ServeFails(id)
    ensures states[7].main.Returned? && states[7].lst == LstSending(ServeErr(id))
  {
    steps := (if before then [ServeFails(id), ParentCancelled, SrvSeesDone]
        else [ParentCancelled, SrvSeesDone, ServeFails(id)])
             + [ShutdownReturns(None), MgrReturns(None), MgrHandsOver, SrvHandsOver];
    var s1 := Apply(INITIAL, steps[0]);
    var s2 := Apply(s1, steps[1]);
    var s3 := Apply(s2, steps[2]);
    var s4 := Apply(s3, ShutdownReturns(None));
    var s5 := Apply(s4, MgrReturns(None));
    var s6 := Apply(s5, MgrHandsOver);
    states := [INITIAL, s1, s2, s3, s4, s5, s6, Apply(s6, SrvHandsOver)];
  }

  // ---------------------------------------------------------------- termination

  function MgrRank(m: Manager): nat {
    match m case Starting => 3 case MgrSending(_) => 2 case MgrSent => 1 case MgrExited => 0
  }

  function SrvRank(s: Server): nat {
    match s case Selecting => 4 case ShuttingDown => 3 case SrvSending(_) => 2 case SrvSent => 1 case SrvExited => 0
  }

  function LstRank(l: Listener): nat {
    match l case Listening => 3 case LstSending(_) => 2 case Closing => 1 case LstExited => 0
  }

  function Measure(s: State): nat {
    MgrRank(s.mgr) + SrvRank(s.srv) + LstRank(s.lst) + if s.parentDone then 0 else 1
  }

  lemma StepShrinks(s: State, step: Step)
    requires Enabled(s, step)
    ensures Measure(Apply(s, step)) < Measure(s)
  {
  }

  /** Every step uses up some of the measure, so no run has more than eleven steps. */
  lemma {:induction false} RunsAreShort(states: seq<State>, steps: seq<Step>, i: nat)
    requires IsRun(states, steps) && i < |states|
    ensures i + Measure(states[i]) <= Measure(INITIAL) == 11
  {
    if i > 0 {
      RunsAreShort(states, steps, i - 1);
      StepShrinks(states[i - 1], steps[i - 1]);
    }
  }

  /** Something has happened that must bring the process down. */
  predicate Triggered(s: State) {
    s.parentDone || !s.mgr.Starting? || !s.srv.Selecting? || !s.lst.Listening?
  }

  /** A step that is bound to come: the environment owes it, or nobody but the scheduler stands in its way. */
  predicate Due(s: State, step: Step) {
    && Enabled(s, step)
    && match step
       case ParentCancelled => false
       case MgrReturns(_) => MgrDone(s)
       case ServeFails(_) => false
       case ServeCloses => false
       case _ => true
  }

  /** Once triggered, `run` cannot get stuck: until it has returned, some step is due. */
  lemma TriggeredRunProceeds(states: seq<State>, steps: seq<Step>, i: nat) returns (step: Step)
    requires IsRun(states, steps) && i < |states| && Triggered(states[i]) && !states[i].main.Returned?
    ensures Due(states[i], step)
  {
    InvHolds(states, steps, i);
    var s := states[i];
    if s.mgr.MgrSending? { step := MgrHandsOver; }
    else if s.mgr.MgrSent? { step := MgrExits; }
    else if s.srv.SrvSending? { step := SrvHandsOver; }
    else if s.srv.SrvSent? { step := SrvExits; }
    else if s.srv.ShuttingDown? { step := ShutdownReturns(None); }
    else if s.srv.Selecting? && SrvDone(s) { step := SrvSeesDone; }
    else if s.lst.LstSending? && s.srv.Selecting? { step := LstHandsOver; }
    else if s.lst.Closing? { step := LstCloses; }
    else if s.srv.Selecting? && s.closes > 0 { step := SrvSeesClosed; }
    else { step := MgrReturns(None); }
  }

  /** A triggered run stays triggered, so taking due steps ends with `run` having returned. */
  lemma {:induction false} TriggeredRunReturns(
      states: seq<State>, steps: seq<Step>) returns (states': seq<State>, steps': seq<Step>)
    requires IsRun(states, steps) && Triggered(states[|steps|])
    ensures IsRun(states', steps') && states <= states' && steps <= steps' && states'[|steps'|].main.Returned?
    ensures forall i | |steps| <= i < |steps'| :: Due(states'[i], steps'[i])
    decreases Measure(states[|steps|])
  {
    var s := states[|steps|];
    if s.main.Returned? {
      states', steps' := states, steps;
    } else {
      var step := TriggeredRunProceeds(states, steps, |steps|);
      states', steps' := TriggeredRunReturns(states + [Apply(s, step)], steps + [step]);
      assert steps'[|steps|] == step && states'[|steps|] == s;
    }
  }
}
