/**
 The schedule shift of `resume`: a stream stores no pause history, yet behaves as if the paused
 time had never passed, and its formula still counts exactly the unpaused seconds.
 */
module StreamTime {
  import opened Host
  import opened StreamStorage
  import opened StreamMath
  import opened StreamMachine
  import opened StreamInvariants

  // ---- Two runs, one of them `delay` seconds later ----

  /** `b` is `a` seen `delay` seconds later: the clock and every stored instant moved together. */
  predicate Later(a: World, b: World, delay: int) {
    && b.now == a.now + delay
    && b.self == a.self
    && b.balances == a.balances
    && b.info.startTime == a.info.startTime + delay
    && b.info.endTime == (if a.info.endTime > 0 then a.info.endTime + delay else 0)
    && b.info.pausedAt == (if a.info.IsPaused() then a.info.pausedAt + delay else a.info.pausedAt)
    && b.info == a.info.(startTime := b.info.startTime, endTime := b.info.endTime, pausedAt := b.info.pausedAt)
  }

  /** The instants a step computes still fit a u64 when moved `delay` seconds later. */
  predicate Headroom(w: World, action: Action, delay: int) {
    match action
    case Advance(seconds) => w.now + seconds + delay <= U64_MAX
    case Outside(_, _, _) => true
    case Invoke(_, call) =>
      match call
      case Resume =>
        w.info.IsPaused() ==>
          && w.info.startTime + (w.now - w.info.pausedAt) + delay <= U64_MAX
          && (w.info.endTime > 0 ==> w.info.endTime + (w.now - w.info.pausedAt) + delay <= U64_MAX)
      case ExtendDuration(seconds) => w.info.endTime + seconds + delay <= U64_MAX
      case _ => true
  }

  lemma LaterReads(a: World, b: World, delay: nat)
    requires Later(a, b, delay)
    ensures StreamedAmount(b.info, b.now) == StreamedAmount(a.info, a.now)
    ensures Withdrawable(b.info, b.now) == Withdrawable(a.info, a.now)
    ensures StreamedTotalView(b) == StreamedTotalView(a)
    ensures WithdrawableView(b) == WithdrawableView(a)
  {
  }

  /** The two streams answer alike and stay in step. */
  predicate InStep(a: Next, b: Next, delay: int) {
    && b.reply == a.reply
    && Later(a.world, b.world, delay)
  }

  lemma LaterWithdraw(a: World, b: World, signers: set<Address>, amount: i128, delay: nat)
    requires Later(a, b, delay)
    ensures InStep(WithdrawStep(a, signers, amount), WithdrawStep(b, signers, amount), delay)
  {
    LaterReads(a, b, delay);
  }

  lemma LaterSettle(a: World, b: World, delay: nat)
    requires Later(a, b, delay)
    ensures InStep(Settle(a), Settle(b), delay)
  {
    LaterReads(a, b, delay);
  }

  lemma LaterClawback(a: World, b: World, signers: set<Address>, delay: nat)
    requires Later(a, b, delay)
    ensures InStep(ClawbackStep(a, signers), ClawbackStep(b, signers), delay)
  {
    LaterReads(a, b, delay);
  }

  lemma LaterPause(a: World, b: World, signers: set<Address>, delay: nat)
    requires Later(a, b, delay)
    ensures InStep(PauseStep(a, signers), PauseStep(b, signers), delay)
  {
    LaterReads(a, b, delay);
  }

  lemma LaterResume(a: World, b: World, signers: set<Address>, delay: nat)
    requires Inv(a) && Later(a, b, delay)
    ensures var (x, y) := (ResumeStep(a, signers), ResumeStep(b, signers));
            && (y.reply == x.reply <==> (x.reply.Failed? || Headroom(a, Invoke(signers, Resume), delay)))
            && (y.reply == x.reply ==> InStep(x, y, delay))
  {
  }

  lemma LaterExtend(a: World, b: World, signers: set<Address>, seconds: u64, delay: nat)
    requires Later(a, b, delay)
    ensures var (x, y) := (ExtendStep(a, signers, seconds), ExtendStep(b, signers, seconds));
            && (y.reply == x.reply <==>
                  (x.reply.Failed? || Headroom(a, Invoke(signers, ExtendDuration(seconds)), delay)))
            && (y.reply == x.reply ==> InStep(x, y, delay))
  {
  }

  /** Calls that compute no new instant never tell the two streams apart. */
  lemma LaterPlainCall(a: World, b: World, signers: set<Address>, call: Call, delay: nat)
    requires Later(a, b, delay)
    requires !call.Resume? && !call.ExtendDuration?
    ensures InStep(InvokeStep(a, signers, call), InvokeStep(b, signers, call), delay)
  {
    match call
    case Withdraw(amount) => LaterWithdraw(a, b, signers, amount, delay);
    case Cancel => LaterSettle(a, b, delay);
    case Pause => LaterPause(a, b, signers, delay);
    case TopUp(_) =>
    case Clawback => LaterClawback(a, b, signers, delay);
    case ForceCancel => LaterSettle(a, b, delay);
    case TransferRecipient(_) =>
  }

  /**
   One step of the two runs: the later stream answers exactly alike if and only if its twin failed or
   the new instants fit a u64, and then the two stay in step.
   */
  lemma LaterStep(a: World, b: World, action: Action, delay: nat)
    requires Inv(a) && Later(a, b, delay)
    ensures Step(b, action).reply == Step(a, action).reply
       <==> (Step(a, action).reply.Failed? || Headroom(a, action, delay))
    ensures Step(b, action).reply == Step(a, action).reply ==> InStep(Step(a, action), Step(b, action), delay)
  {
    if action.Invoke? {
      if action.call.Resume? {
        LaterResume(a, b, action.signers, delay);
      } else if action.call.ExtendDuration? {
        LaterExtend(a, b, action.signers, action.call.extraSeconds, delay);
      } else {
        LaterPlainCall(a, b, action.signers, action.call, delay);
      }
    }
  }

  /** Along the earlier run, every step that succeeds leaves room for the delay. */
  predicate RunHasHeadroom(w: World, actions: seq<Action>, delay: int) {
    if |actions| == 0 then true
    else
      var before := Execute(w, actions[..|actions| - 1]).world;
      && RunHasHeadroom(w, actions[..|actions| - 1], delay)
      && (Step(before, actions[|actions| - 1]).reply.Done? ==> Headroom(before, actions[|actions| - 1], delay))
  }

  /** The same trace, `delay` seconds later. */
  predicate SameReplies(a: seq<Event>, b: seq<Event>, delay: int) {
    && |a| == |b|
    && forall i :: 0 <= i < |a| ==> b[i].reply == a[i].reply && b[i].at == a[i].at + delay
                                    && b[i].recipient == a[i].recipient
  }

  /**
   Time translation over whole runs: for every sequence of later calls the delayed stream answers
   exactly as its twin for as long as the delayed instants fit, and only for so long.
   */
  lemma {:induction false} LaterRun(a: World, b: World, actions: seq<Action>, delay: nat)
    requires Inv(a) && Later(a, b, delay)
    ensures var (x, y) := (Execute(a, actions), Execute(b, actions));
            && (SameReplies(x.trace, y.trace, delay) <==> RunHasHeadroom(a, actions, delay))
            && (RunHasHeadroom(a, actions, delay) ==>
                  && Later(x.world, y.world, delay)
                  && StreamedTotalView(y.world) == StreamedTotalView(x.world)
                  && WithdrawableView(y.world) == WithdrawableView(x.world))
  {
    if |actions| > 0 {
      var n := |actions| - 1;
      var (x, y) := (Execute(a, actions), Execute(b, actions));
      var (x', y') := (Execute(a, actions[..n]), Execute(b, actions[..n]));
      LaterRun(a, b, actions[..n], delay);
      ReachableWorlds(a, actions[..n]);
      SameRepliesSnoc(x'.trace, y'.trace, x.trace[n], y.trace[n], delay);
      if RunHasHeadroom(a, actions[..n], delay) {
        LaterStep(x'.world, y'.world, actions[n], delay);
      }
    }
    if RunHasHeadroom(a, actions, delay) {
      LaterReads(Execute(a, actions).world, Execute(b, actions).world, delay);
    }
  }

  lemma SameRepliesSnoc(a: seq<Event>, b: seq<Event>, e: Event, f: Event, delay: int)
    requires |a| == |b|
    ensures SameReplies(a + [e], b + [f], delay)
       <==> SameReplies(a, b, delay) && f.reply == e.reply && f.at == e.at + delay && f.recipient == e.recipient
  {
    if SameReplies(a + [e], b + [f], delay) {
      forall i | 0 <= i < |a|
        ensures b[i].reply == a[i].reply && b[i].at == a[i].at + delay && b[i].recipient == a[i].recipient
      {
        assert (a + [e])[i] == a[i] && (b + [f])[i] == b[i];
      }
      assert (a + [e])[|a|] == e && (b + [f])[|a|] == f;
    }
  }

  /** The sender pauses, waits, and resumes. */
  function PauseFor(sender: Address, wait: u64): seq<Action> {
    [Invoke({sender}, Pause), Advance(wait), Invoke({sender}, Resume)]
  }

  /** A pause, a wait and a resume amount to a pure delay of the stream. */
  lemma PauseWaitResumeIsDelay(w: World, wait: u64)
    requires Inv(w) && !w.info.IsCancelled() && !w.info.IsPaused()
    requires Withdrawable(w.info, w.now).Ok?
    requires w.now + wait <= U64_MAX && w.info.startTime + wait <= U64_MAX && w.info.endTime + wait <= U64_MAX
    ensures Later(w, Execute(w, PauseFor(w.info.sender, wait)).world, wait)
  {
    var actions := PauseFor(w.info.sender, wait);
    var paused := PauseStep(w, {w.info.sender}).world;
    var waited := paused.(now := w.now + wait);
    PauseThenResumeRestoresFlags(w.info.flags);
    assert actions[..2][..1] == [actions[0]] && actions[..1] == [actions[0]] && actions[..1][..0] == [];
    assert Execute(w, actions[..1]).world == paused;
    assert Execute(w, actions[..2]).world == waited;
    assert Execute(w, actions).world == ResumeStep(waited, {w.info.sender}).world;
  }

  /**
   Inserting "pause, wait, resume" anywhere into the history of a live unpaused stream changes
   nothing observable but the clock: after it, every later sequence of calls is answered exactly as
   by the never-paused twin `wait` seconds earlier, absent u64 overflow and only then.
   */
  lemma PausedTimeNeverHappened(w: World, past: seq<Action>, wait: u64, future: seq<Action>)
    requires Inv(w)
    requires var live := Execute(w, past).world;
             && !live.info.IsCancelled() && !live.info.IsPaused()
             && Withdrawable(live.info, live.now).Ok?
             && live.now + wait <= U64_MAX
             && live.info.startTime + wait <= U64_MAX
             && live.info.endTime + wait <= U64_MAX
    ensures var live := Execute(w, past).world;
            var twin := Execute(live, future);
            var paused := Execute(w, past + PauseFor(live.info.sender, wait) + future);
            && |paused.trace| == |past| + 3 + |future|
            && (RunHasHeadroom(live, future, wait) <==>
                  SameReplies(twin.trace, paused.trace[|past| + 3..], wait))
            && (RunHasHeadroom(live, future, wait) ==>
                  && Later(twin.world, paused.world, wait)
                  && StreamedTotalView(paused.world) == StreamedTotalView(twin.world)
                  && WithdrawableView(paused.world) == WithdrawableView(twin.world))
  {
    var live := Execute(w, past).world;
    var interlude := PauseFor(live.info.sender, wait);
    ReachableWorlds(w, past);
    PauseWaitResumeIsDelay(live, wait);
    ExecuteConcat(w, past, interlude);
    ExecuteConcat(w, past + interlude, future);
    var resumed := Execute(w, past + interlude).world;
    LaterRun(live, resumed, future, wait);
    assert Execute(w, past + interlude + future).trace[|past| + 3..] == Execute(resumed, future).trace;
  }
}
