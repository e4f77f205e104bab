/** The shifted origin refines the pause history that the stream does not store. */
module StreamHistory {
  import opened Host
  import opened StreamStorage
  import opened StreamMath
  import opened StreamMachine
  import opened StreamInvariants
  import opened StreamAccounting

  /** When the pause still in force was called, read off the trace. */
  function LastPause(trace: seq<Event>): Option<u64> {
    if |trace| == 0 then None
    else
      var e := trace[|trace| - 1];
      if IsCall(e) && e.action.call.Pause? then Some(e.at)
      else if IsCall(e) && e.action.call.Resume? then None
      else LastPause(trace[..|trace| - 1])
  }

  /** The total length of the completed pauses: each from its `pause` to its `resume`. */
  function PausedSeconds(trace: seq<Event>): int {
    if |trace| == 0 then 0
    else
      var e := trace[|trace| - 1];
      var earlier := trace[..|trace| - 1];
      PausedSeconds(earlier)
        + if IsCall(e) && e.action.call.Resume? && LastPause(earlier).Some? then e.at - LastPause(earlier).value else 0
  }

  /** The record says the same as the trace. */
  predicate RecordMatchesHistory(origin: StreamInfo, info: StreamInfo, trace: seq<Event>) {
    && PausedSeconds(trace) >= 0
    && info.startTime == origin.startTime + PausedSeconds(trace)
    && info.endTime == (if origin.endTime > 0
                        then origin.endTime + PausedSeconds(trace) + ExtendedSeconds(trace) else 0)
    && (if info.IsPaused() then LastPause(trace) == Some(info.pausedAt) else LastPause(trace) == None)
  }

  lemma StepMatchesHistory(origin: StreamInfo, w: World, trace: seq<Event>, action: Action)
    requires Inv(w) && RecordMatchesHistory(origin, w.info, trace)
    ensures RecordMatchesHistory(origin, Step(w, action).world.info, trace + [EventOf(w, action)])
  {
    assert (trace + [EventOf(w, action)])[..|trace|] == trace;
    match action
    case Advance(_) =>
    case Outside(_, _, _) =>
    case Invoke(signers, call) =>
      match call
      case Withdraw(_) =>
      case Cancel =>
      case Pause =>
      case Resume =>
      case TopUp(_) =>
      case ExtendDuration(_) =>
      case Clawback =>
      case ForceCancel =>
      case TransferRecipient(_) =>
  }

  lemma {:induction false} RunMatchesHistory(w: World, actions: seq<Action>)
    requires Inv(w) && !w.info.IsPaused()
    ensures RecordMatchesHistory(w.info, Execute(w, actions).world.info, Execute(w, actions).trace)
  {
    if |actions| > 0 {
      var n := |actions| - 1;
      var before := Execute(w, actions[..n]);
      RunMatchesHistory(w, actions[..n]);
      ReachableWorlds(w, actions[..n]);
      StepMatchesHistory(w.info, before.world, before.trace, actions[n]);
    }
  }

  /**
   The seconds a stream should have counted by instant `at`: time since the original start, less the
   completed pauses, clipped to the declared length plus all extensions (no upper clip if open-ended).
   */
  function UnpausedSeconds(origin: StreamInfo, trace: seq<Event>, at: int): int {
    var sinceStart := Max(0, at - origin.startTime - PausedSeconds(trace));
    if origin.endTime > 0 then Min(sinceStart, origin.endTime - origin.startTime + ExtendedSeconds(trace))
    else sinceStart
  }

  /**
   In every reachable unpaused state the formula returns rate x unpaused seconds, or the overflow
   error when that product does not fit.
   */
  lemma StreamedIsUnpausedTime(w: World, actions: seq<Action>)
    requires Inv(w) && !w.info.IsPaused()
    ensures var run := Execute(w, actions);
            !run.world.info.IsPaused() ==>
              StreamedAmount(run.world.info, run.world.now)
                == CheckedMul(w.info.rate, UnpausedSeconds(w.info, run.trace, run.world.now))
  {
    RunMatchesHistory(w, actions);
    ReachableWorlds(w, actions);
    if !Execute(w, actions).world.info.IsPaused() {
      StreamedInHistory(w.info, Execute(w, actions).world, Execute(w, actions).trace);
    }
  }

  lemma StreamedInHistory(origin: StreamInfo, w: World, trace: seq<Event>)
    requires Inv(w) && !w.info.IsPaused() && RecordMatchesHistory(origin, w.info, trace)
    ensures StreamedAmount(w.info, w.now) == CheckedMul(w.info.rate, UnpausedSeconds(origin, trace, w.now))
  {
  }

  /**
   In every reachable state paused at or after its start, the formula is frozen at the instant of the
   pause if and only if the end has not passed since, or the frozen product overflows already: the end
   clamp is tested first. Once the end has passed, the whole contracted length counts.
   */
  lemma PausedStreamIsFrozenExactly(w: World, actions: seq<Action>)
    requires Inv(w) && !w.info.IsPaused()
    ensures var run := Execute(w, actions);
            var info := run.world.info;
            info.IsPaused() && info.startTime <= info.pausedAt ==>
              FrozenUnlessEnded(w.info, info, run.world.now, run.trace)
  {
    var run := Execute(w, actions);
    var info := run.world.info;
    RunMatchesHistory(w, actions);
    ReachableWorlds(w, actions);
    if info.IsPaused() && info.startTime <= info.pausedAt {
      FrozenInHistory(w.info, run.world, run.trace);
    }
  }

  /** Frozen at the instant of the last pause, exactly unless the end has passed since; then the whole length counts. */
  predicate FrozenUnlessEnded(origin: StreamInfo, info: StreamInfo, now: u64, trace: seq<Event>) {
    && LastPause(trace) == Some(info.pausedAt)
    && var frozen := CheckedMul(origin.rate, UnpausedSeconds(origin, trace, LastPause(trace).value));
    && (StreamedAmount(info, now) == frozen <==> !(info.pausedAt < info.endTime < now) || frozen.Err?)
    && (info.pausedAt < info.endTime < now ==>
          StreamedAmount(info, now)
            == CheckedMul(origin.rate, origin.endTime - origin.startTime + ExtendedSeconds(trace)))
  }

  lemma FrozenInHistory(origin: StreamInfo, w: World, trace: seq<Event>)
    requires Inv(w) && w.info.IsPaused() && w.info.startTime <= w.info.pausedAt && w.info.rate == origin.rate
    requires RecordMatchesHistory(origin, w.info, trace)
    ensures FrozenUnlessEnded(origin, w.info, w.now, trace)
  {
    FrozenExactly(w);
    FrozenSecondsInHistory(origin, w.info, trace);
  }

  lemma FrozenSecondsInHistory(origin: StreamInfo, info: StreamInfo, trace: seq<Event>)
    requires RecordMatchesHistory(origin, info, trace) && info.startTime <= info.pausedAt
    ensures info.endTime > 0 ==>
              info.endTime - info.startTime == origin.endTime - origin.startTime + ExtendedSeconds(trace)
    ensures UnpausedSeconds(origin, trace, info.pausedAt) == FrozenSeconds(info)
  {
  }

  /** The seconds from the start to the pause, clipped to the end. */
  function FrozenSeconds(info: StreamInfo): int
    requires info.startTime <= info.pausedAt
  {
    if info.endTime > 0 then Min(info.pausedAt - info.startTime, info.endTime - info.startTime)
    else info.pausedAt - info.startTime
  }

  lemma FrozenExactly(w: World)
    requires Inv(w) && w.info.IsPaused() && w.info.startTime <= w.info.pausedAt
    ensures StreamedAmount(w.info, w.now) == CheckedMul(w.info.rate, FrozenSeconds(w.info))
       <==> !(w.info.pausedAt < w.info.endTime < w.now) || CheckedMul(w.info.rate, FrozenSeconds(w.info)).Err?
    ensures w.info.pausedAt < w.info.endTime < w.now ==>
              StreamedAmount(w.info, w.now) == CheckedMul(w.info.rate, w.info.endTime - w.info.startTime)
  {
    if w.info.pausedAt < w.info.endTime < w.now {
      MulMonotone(w.info.rate, 0, w.info.pausedAt - w.info.startTime);
      MulStrict(w.info.rate, w.info.pausedAt - w.info.startTime, w.info.endTime - w.info.startTime);
    }
  }

  /**
   The freeze does fail: paused halfway through, the recipient can withdraw the whole amount once the
   end has passed, and a resume then leaves more withdrawn than streamed.
   */
  lemma PauseDoesNotFreezePastTheEnd(sender: Address, recipient: Address, self: Address, token: Address)
    requires sender != self && recipient != self
    ensures var info := StreamInfo(sender, recipient, token, 1, 0, 100, 0, 0, 0);
            var w := World(50, self, info, map[self := 100]);
            var run := Execute(w, [Invoke({sender}, Pause), Advance(100), Invoke({recipient}, Withdraw(100)),
                                   Invoke({sender}, Resume)]);
            && Inv(w)
            && run.trace[2].reply == Done(100, 0, 0)
            && run.world.info.withdrawn == 100
            && StreamedAmount(run.world.info, run.world.now) == Ok(50)
  {
    var info := StreamInfo(sender, recipient, token, 1, 0, 100, 0, 0, 0);
    var w := World(50, self, info, map[self := 100]);
    var actions := [Invoke({sender}, Pause), Advance(100), Invoke({recipient}, Withdraw(100)),
                    Invoke({sender}, Resume)];
    assert actions[..3][..2] == actions[..2] && actions[..2][..1] == actions[..1] && actions[..1][..0] == [];
    var w1 := PauseStep(w, {sender}).world;
    assert Execute(w, actions[..1]).world == w1;
    var w2 := w1.(now := 150);
    assert Execute(w, actions[..2]).world == w2;
    assert StreamedAmount(w2.info, w2.now) == Ok(100);
    var next := WithdrawStep(w2, {recipient}, 100);
    assert next.reply == Done(100, 0, 0);
    assert Execute(w, actions[..3]).world == next.world;
    assert Execute(w, actions).world == ResumeStep(next.world, {sender}).world;
  }
}
