/** Pauses that are not idle: calls made while a stream is paused. */
module StreamPauses {
  import opened Host
  import opened StreamStorage
  import opened StreamMath
  import opened StreamMachine
  import opened StreamInvariants
  import opened StreamTime

  // ---- Calls made during a pause ----

  /** What may happen in an interlude: anything but pausing, resuming and settling. */
  predicate IsInterlude(action: Action) {
    action.Invoke? ==>
      !action.call.Pause? && !action.call.Resume? && !action.call.Cancel? && !action.call.ForceCancel?
  }

  /** The actions of a run apart from the passage of time. */
  function WithoutWaiting(actions: seq<Action>): seq<Action> {
    if |actions| == 0 then []
    else
      var n := |actions| - 1;
      WithoutWaiting(actions[..n]) + if actions[n].Advance? then [] else [actions[n]]
  }

  /** `b` is the stream `a`, paused at the instant at which `a` still is. */
  predicate Frozen(a: World, b: World) {
    && !a.info.IsPaused()
    && a.now <= b.now
    && b.self == a.self
    && b.balances == a.balances
    && b.info == MarkPaused(a.info, a.now)
  }

  /** Paused before a start still ahead, or paused at or after the start with no end passed since the pause. */
  predicate Unmoved(w: World) {
    if w.info.pausedAt < w.info.startTime then w.now < w.info.startTime
    else !(w.info.pausedAt < w.info.endTime < w.now)
  }

  /** The calls of an interlude that ask how much has accrued. */
  predicate ReadsAccrual(action: Action) {
    action.Invoke? && (action.call.Withdraw? || action.call.Clawback?)
  }

  /** Every such call of the run finds the stream unmoved. */
  predicate UnmovedAtReads(w: World, actions: seq<Action>) {
    forall i :: 0 <= i < |actions| && ReadsAccrual(actions[i]) ==> Unmoved(Execute(w, actions[..i]).world)
  }

  lemma FrozenReads(a: World, b: World)
    requires Frozen(a, b) && Unmoved(b)
    ensures StreamedAmount(b.info, b.now) == StreamedAmount(a.info, a.now)
    ensures Withdrawable(b.info, b.now) == Withdrawable(a.info, a.now)
  {
  }

  /** Nothing else would do: once the stream is no longer unmoved, the formula answers differently. */
  lemma FrozenReadsExactly(a: World, b: World)
    requires Inv(a) && Frozen(a, b) && StreamedAmount(a.info, a.now).Ok?
    ensures StreamedAmount(b.info, b.now) == StreamedAmount(a.info, a.now) <==> Unmoved(b)
  {
    if Unmoved(b) {
      FrozenReads(a, b);
    } else if b.info.endTime > 0 && b.now > b.info.endTime {
      MulStrict(a.info.rate, Max(0, a.now - a.info.startTime), a.info.endTime - a.info.startTime);
    }
  }

  lemma FrozenWithdraw(a: World, b: World, signers: set<Address>, amount: i128)
    requires Frozen(a, b) && Unmoved(b)
    ensures WithdrawStep(b, signers, amount).reply == WithdrawStep(a, signers, amount).reply
    ensures Frozen(WithdrawStep(a, signers, amount).world, WithdrawStep(b, signers, amount).world)
  {
    FrozenReads(a, b);
  }

  lemma FrozenClawback(a: World, b: World, signers: set<Address>)
    requires Frozen(a, b) && Unmoved(b)
    ensures ClawbackStep(b, signers).reply == ClawbackStep(a, signers).reply
    ensures Frozen(ClawbackStep(a, signers).world, ClawbackStep(b, signers).world)
  {
    FrozenReads(a, b);
  }

  lemma FrozenStep(a: World, b: World, action: Action)
    requires Frozen(a, b) && IsInterlude(action) && !action.Advance?
    requires ReadsAccrual(action) ==> Unmoved(b)
    ensures Step(b, action).reply == Step(a, action).reply
    ensures Frozen(Step(a, action).world, Step(b, action).world)
  {
    if action.Invoke? {
      match action.call
      case Withdraw(amount) => FrozenWithdraw(a, b, action.signers, amount);
      case TopUp(_) =>
      case ExtendDuration(_) =>
      case Clawback => FrozenClawback(a, b, action.signers);
      case TransferRecipient(_) =>
    }
  }

  lemma UnmovedPrefix(w: World, actions: seq<Action>, n: nat)
    requires n <= |actions| && UnmovedAtReads(w, actions)
    ensures UnmovedAtReads(w, actions[..n])
  {
    forall i | 0 <= i < n && ReadsAccrual(actions[..n][i])
      ensures Unmoved(Execute(w, actions[..n][..i]).world)
    {
      assert actions[..n][..i] == actions[..i] && actions[..n][i] == actions[i];
    }
  }

  /** A paused run and the same calls made at the instant of the pause end in the same place. */
  lemma {:induction false} FrozenRun(a: World, b: World, actions: seq<Action>)
    requires Frozen(a, b) && UnmovedAtReads(b, actions)
    requires forall i :: 0 <= i < |actions| ==> IsInterlude(actions[i])
    ensures Frozen(Execute(a, WithoutWaiting(actions)).world, Execute(b, actions).world)
  {
    if |actions| > 0 {
      var n := |actions| - 1;
      UnmovedPrefix(b, actions, n);
      FrozenRun(a, b, actions[..n]);
      var kept := WithoutWaiting(actions[..n]);
      var before := Execute(b, actions[..n]).world;
      assert Execute(b, actions).world == Step(before, actions[n]).world;
      if actions[n].Advance? {
        assert WithoutWaiting(actions) == kept;
      } else {
        assert WithoutWaiting(actions) == kept + [actions[n]];
        ExecuteSnoc(a, kept, actions[n]);
        FrozenStep(Execute(a, kept).world, before, actions[n]);
      }
    }
  }

  /** Each call of the paused run `b` is answered as if made at the instant of the pause. */
  predicate AnsweredAtOnce(a: World, b: World, actions: seq<Action>) {
    forall i :: 0 <= i < |actions| && !actions[i].Advance? ==>
      Execute(b, actions).trace[i].reply == Step(Execute(a, WithoutWaiting(actions[..i])).world, actions[i]).reply
  }

  lemma FrozenReplies(a: World, b: World, actions: seq<Action>)
    requires Frozen(a, b) && UnmovedAtReads(b, actions)
    requires forall i :: 0 <= i < |actions| ==> IsInterlude(actions[i])
    ensures AnsweredAtOnce(a, b, actions)
  {
    forall i | 0 <= i < |actions| && !actions[i].Advance?
      ensures Execute(b, actions).trace[i].reply
           == Step(Execute(a, WithoutWaiting(actions[..i])).world, actions[i]).reply
    {
      UnmovedPrefix(b, actions, i);
      FrozenRun(a, b, actions[..i]);
      FrozenStep(Execute(a, WithoutWaiting(actions[..i])).world, Execute(b, actions[..i]).world, actions[i]);
      ReplyAt(b, actions, i);
    }
  }

  /** Resuming turns the frozen stream into a delayed one, exactly if the delayed schedule fits. */
  lemma ResumeIsDelay(a: World, b: World)
    requires Inv(a) && Frozen(a, b) && !a.info.IsCancelled()
    ensures ResumeStep(b, {a.info.sender}).reply.Done?
       <==> Max(a.info.startTime, a.info.endTime) + b.now - a.now <= U64_MAX
    ensures ResumeStep(b, {a.info.sender}).reply.Done? ==>
              Later(a, ResumeStep(b, {a.info.sender}).world, b.now - a.now)
  {
    PauseThenResumeRestoresFlags(a.info.flags);
  }

  /** Calls that neither pause, resume nor settle leave a stream live, and its sender in place. */
  lemma {:induction false} InterludeKeepsLive(w: World, actions: seq<Action>)
    requires !w.info.IsCancelled()
    requires forall i :: 0 <= i < |actions| ==> IsInterlude(actions[i])
    ensures !Execute(w, actions).world.info.IsCancelled()
    ensures Execute(w, actions).world.info.sender == w.info.sender
  {
    if |actions| > 0 {
      var n := |actions| - 1;
      InterludeKeepsLive(w, actions[..n]);
      InterludeStepKeepsLive(Execute(w, actions[..n]).world, actions[n]);
    }
  }

  lemma InterludeStepKeepsLive(w: World, action: Action)
    requires !w.info.IsCancelled() && IsInterlude(action)
    ensures !Step(w, action).world.info.IsCancelled() && Step(w, action).world.info.sender == w.info.sender
  {
  }

  /** A live, unpaused stream, and an interlude in which the accrual has not moved whenever a call asks for it. */
  predicate Uneventful(live: World, interlude: seq<Action>) {
    && !live.info.IsCancelled() && !live.info.IsPaused()
    && Withdrawable(live.info, live.now).Ok?
    && (forall i :: 0 <= i < |interlude| ==> IsInterlude(interlude[i]))
    && UnmovedAtReads(PauseStep(live, {live.info.sender}).world, interlude)
  }

  /**
   A pause with an interlude of any withdrawals, top-ups, extensions, clawbacks, recipient transfers,
   outside transfers and waiting. Its withdrawals and clawbacks come before the start, if the pause did, and
   otherwise before an end that passes during the pause. Every call in it is answered as if made at the
   instant of the pause; the resume succeeds exactly if the delayed schedule fits; and from then on the
   stream is its twin, which made those calls in one instant and never paused, as much later as the pause
   lasted.
   */
  lemma InterludeTakesNoTime(live: World, interlude: seq<Action>)
    requires Inv(live) && Uneventful(live, interlude)
    ensures var paused := PauseStep(live, {live.info.sender}).world;
            var (twin, end) := (Execute(live, WithoutWaiting(interlude)).world, Execute(paused, interlude).world);
            var resumed := ResumeStep(end, {live.info.sender});
            && AnsweredAtOnce(live, paused, interlude)
            && Inv(twin) && twin.now == live.now <= end.now
            && (resumed.reply.Done? <==> Max(twin.info.startTime, twin.info.endTime) + end.now - live.now <= U64_MAX)
            && (resumed.reply.Done? ==> Later(twin, resumed.world, end.now - live.now))
  {
    var paused := PauseStep(live, {live.info.sender}).world;
    var instant := WithoutWaiting(interlude);
    var twin := Execute(live, instant).world;
    WithoutWaitingIsInterlude(interlude);
    NoTimePasses(live, instant);
    FrozenRun(live, paused, interlude);
    InterludeKeepsLive(live, instant);
    ReachableWorlds(live, instant);
    ResumeIsDelay(twin, Execute(paused, interlude).world);
    FrozenReplies(live, paused, interlude);
  }

  lemma {:induction false} WithoutWaitingIsInterlude(actions: seq<Action>)
    requires forall i :: 0 <= i < |actions| ==> IsInterlude(actions[i])
    ensures forall i :: 0 <= i < |WithoutWaiting(actions)| ==>
              IsInterlude(WithoutWaiting(actions)[i]) && !WithoutWaiting(actions)[i].Advance?
  {
    if |actions| > 0 { WithoutWaitingIsInterlude(actions[..|actions| - 1]); }
  }

  lemma OnlyAdvancePassesTime(w: World, action: Action)
    requires !action.Advance?
    ensures Step(w, action).world.now == w.now
  {
  }

  lemma {:induction false} NoTimePasses(w: World, actions: seq<Action>)
    requires forall i :: 0 <= i < |actions| ==> !actions[i].Advance?
    ensures Execute(w, actions).world.now == w.now
  {
    if |actions| > 0 {
      var n := |actions| - 1;
      NoTimePasses(w, actions[..n]);
      OnlyAdvancePassesTime(Execute(w, actions[..n]).world, actions[n]);
    }
  }

  /** The whole of such a pause, as the sender calls it. */
  function PauseAround(sender: Address, interlude: seq<Action>): (s: seq<Action>)
    ensures |s| == |interlude| + 2
  {
    [Invoke({sender}, Pause)] + interlude + [Invoke({sender}, Resume)]
  }

  lemma PauseAroundRuns(live: World, sender: Address, interlude: seq<Action>)
    ensures Execute(live, PauseAround(sender, interlude)).world
         == ResumeStep(Execute(PauseStep(live, {sender}).world, interlude).world, {sender}).world
  {
    var pause := Invoke({sender}, Pause);
    ExecuteSnoc(live, [], pause);
    assert [] + [pause] == [pause];
    ExecuteConcat(live, [pause], interlude);
    ExecuteSnoc(live, [pause] + interlude, Invoke({sender}, Resume));
  }

  /** `resumed` is `twin` at a later instant, if the delayed schedule fits. */
  predicate ResumedLate(twin: World, resumed: World) {
    && Inv(twin) && resumed.now >= twin.now
    && (Max(twin.info.startTime, twin.info.endTime) + resumed.now - twin.now <= U64_MAX ==>
          Later(twin, resumed, resumed.now - twin.now))
  }

  lemma PauseAroundIsDelay(live: World, interlude: seq<Action>)
    requires Inv(live) && Uneventful(live, interlude)
    ensures Execute(live, WithoutWaiting(interlude)).world.now == live.now
    ensures ResumedLate(Execute(live, WithoutWaiting(interlude)).world,
                        Execute(live, PauseAround(live.info.sender, interlude)).world)
  {
    var sender := live.info.sender;
    InterludeTakesNoTime(live, interlude);
    PauseAroundRuns(live, sender, interlude);
    ResumeTakesNoTime(Execute(PauseStep(live, {sender}).world, interlude).world, sender);
  }

  lemma ResumeTakesNoTime(w: World, sender: Address)
    ensures ResumeStep(w, {sender}).world.now == w.now
  {
  }

  /** From position `at` on, the run answers as the continuation of `twin`, `wait` seconds later. */
  predicate DelayedFrom(twin: World, future: seq<Action>, full: Run, at: nat, wait: int) {
    var future' := Execute(twin, future);
    && |full.trace| == at + |future|
    && (RunHasHeadroom(twin, future, wait) <==> SameReplies(future'.trace, full.trace[at..], wait))
    && (RunHasHeadroom(twin, future, wait) ==>
          && Later(future'.world, full.world, wait)
          && StreamedTotalView(full.world) == StreamedTotalView(future'.world)
          && WithdrawableView(full.world) == WithdrawableView(future'.world))
  }

  lemma DelayedContinuation(w: World, past: seq<Action>, twin: World, future: seq<Action>, wait: nat)
    requires Inv(twin) && Later(twin, Execute(w, past).world, wait)
    ensures DelayedFrom(twin, future, Execute(w, past + future), |past|, wait)
  {
    var here := Execute(w, past).world;
    ExecuteConcat(w, past, future);
    LaterRun(twin, here, future, wait);
    assert Execute(w, past + future).trace[|past|..] == Execute(here, future).trace;
  }

  /** In any history such a pause leaves, if the delayed schedule fits, the twin that much later. */
  lemma InterludeResumesLate(w: World, past: seq<Action>, interlude: seq<Action>)
    requires Inv(w)
    ensures var live := Execute(w, past).world;
            var twin := Execute(live, WithoutWaiting(interlude)).world;
            Uneventful(live, interlude) ==>
              && twin.now == live.now
              && ResumedLate(twin, Execute(w, past + PauseAround(live.info.sender, interlude)).world)
  {
    var live := Execute(w, past).world;
    if Uneventful(live, interlude) {
      ReachableWorlds(w, past);
      PauseAroundIsDelay(live, interlude);
      ExecuteConcat(w, past, PauseAround(live.info.sender, interlude));
    }
  }

  /**
   And after it every later sequence of calls is answered exactly as by that twin, for as long as the
   delayed instants fit a u64 and only for so long.
   */
  lemma PausedInterludeNeverHappened(w: World, past: seq<Action>, interlude: seq<Action>, future: seq<Action>)
    requires Inv(w)
    ensures var live := Execute(w, past).world;
            var before := past + PauseAround(live.info.sender, interlude);
            var twin := Execute(live, WithoutWaiting(interlude)).world;
            var wait := Execute(w, before).world.now - live.now;
            Uneventful(live, interlude) && Max(twin.info.startTime, twin.info.endTime) + wait <= U64_MAX ==>
              DelayedFrom(twin, future, Execute(w, before + future), |before|, wait)
  {
    var live := Execute(w, past).world;
    var before := past + PauseAround(live.info.sender, interlude);
    var twin := Execute(live, WithoutWaiting(interlude)).world;
    var wait := Execute(w, before).world.now - live.now;
    InterludeResumesLate(w, past, interlude);
    if Uneventful(live, interlude) && Max(twin.info.startTime, twin.info.endTime) + wait <= U64_MAX {
      DelayedContinuation(w, before, twin, future, wait);
    }
  }
}
