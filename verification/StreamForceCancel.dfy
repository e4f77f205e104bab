/** How far `force_cancel` protects the recipient: pausing over and over, and pausing before the start. */
module StreamForceCancel {
  import opened Host
  import opened Token
  import opened StreamStorage
  import opened StreamMath
  import opened StreamMachine
  import opened StreamInvariants
  import opened StreamTime
  import Governor

  // ---- Pausing without end ----

  /** The sender pauses, waits, resumes, and pauses again at once, over and over. */
  function Stall(sender: Address, waits: seq<u64>): (s: seq<Action>)
    ensures |s| == 3 * |waits|
  {
    if |waits| == 0 then [] else Stall(sender, waits[..|waits| - 1]) + PauseFor(sender, waits[|waits| - 1])
  }

  function Total(waits: seq<u64>): nat {
    if |waits| == 0 then 0 else Total(waits[..|waits| - 1]) + waits[|waits| - 1]
  }

  /** The stalled schedule still fits a u64. */
  predicate RoomFor(w: World, seconds: nat) {
    w.now + seconds <= U64_MAX && w.info.startTime + seconds <= U64_MAX && w.info.endTime + seconds <= U64_MAX
  }

  lemma LaterTwice(a: World, b: World, c: World, first: nat, second: nat)
    requires Later(a, b, first) && Later(b, c, second)
    ensures Later(a, c, first + second)
  {
  }

  lemma {:induction false} StallIsDelay(w: World, waits: seq<u64>)
    requires Inv(w) && !w.info.IsCancelled() && !w.info.IsPaused() && Withdrawable(w.info, w.now).Ok?
    requires RoomFor(w, Total(waits))
    ensures Later(w, Execute(w, Stall(w.info.sender, waits)).world, Total(waits))
  {
    if |waits| > 0 {
      var n := |waits| - 1;
      var past := Stall(w.info.sender, waits[..n]);
      StallIsDelay(w, waits[..n]);
      var mid := Execute(w, past).world;
      ReachableWorlds(w, past);
      LaterReads(w, mid, Total(waits[..n]));
      PauseWaitResumeIsDelay(mid, waits[n]);
      ExecuteConcat(w, past, PauseFor(w.info.sender, waits[n]));
      LaterTwice(w, mid, Execute(mid, PauseFor(w.info.sender, waits[n])).world, Total(waits[..n]), waits[n]);
    }
  }

  /** The rounds before, and the wait of this one, take no longer than all of them. */
  lemma {:induction false} TotalOfPrefix(waits: seq<u64>, n: nat)
    requires n < |waits|
    ensures Total(waits[..n]) + waits[n] <= Total(waits)
  {
    var m := |waits| - 1;
    if n < m {
      TotalOfPrefix(waits[..m], n);
      assert waits[..m][..n] == waits[..n];
    }
  }

  /** The stream paused now, `wait` seconds on. */
  function Waited(w: World, wait: u64): World {
    Step(PauseStep(w, {w.info.sender}).world, Advance(wait)).world
  }

  lemma LaterWaited(a: World, b: World, wait: u64, delay: nat)
    requires Inv(a) && Later(a, b, delay) && a.now + wait + delay <= U64_MAX
    ensures Later(Waited(a, wait), Waited(b, wait), delay)
  {
    LaterPause(a, b, {a.info.sender}, delay);
  }

  lemma LaterForceCancel(a: World, b: World, signers: set<Address>, delay: nat)
    requires Later(a, b, delay)
    ensures ForceCancelStep(b, signers).reply == ForceCancelStep(a, signers).reply
  {
    LaterSettle(a, b, delay);
  }

  /** `t` seconds into the pause of round `j` a `force_cancel` goes through. */
  predicate ForcedInside(w: World, waits: seq<u64>, j: nat, t: u64, signers: set<Address>)
    requires j < |waits|
  {
    var inside := Stall(w.info.sender, waits[..j]) + [Invoke({w.info.sender}, Pause), Advance(t)];
    ForceCancelStep(Execute(w, inside).world, signers).reply.Done?
  }

  /** After the first `j` rounds, the last of them resumed, a `force_cancel` goes through. */
  predicate ForcedBetween(w: World, waits: seq<u64>, j: nat, signers: set<Address>)
    requires j <= |waits|
  {
    ForceCancelStep(Execute(w, Stall(w.info.sender, waits[..j])).world, signers).reply.Done?
  }

  lemma PausedFor(w: World, t: u64)
    ensures Execute(w, [Invoke({w.info.sender}, Pause), Advance(t)]).world == Waited(w, t)
  {
    ExecuteTwo(w, Invoke({w.info.sender}, Pause), Advance(t));
  }

  /** Inside every round `force_cancel` fares as it would that long into a pause called at once. */
  lemma InsideAsAtOnce(w: World, waits: seq<u64>, j: nat, t: u64, signers: set<Address>)
    requires Inv(w) && !w.info.IsCancelled() && !w.info.IsPaused() && Withdrawable(w.info, w.now).Ok?
    requires RoomFor(w, Total(waits)) && j < |waits| && t <= waits[j]
    ensures ForcedInside(w, waits, j, t, signers) <==> ForceCancelStep(Waited(w, t), signers).reply.Done?
  {
    var past := Stall(w.info.sender, waits[..j]);
    var mid := Execute(w, past).world;
    TotalOfPrefix(waits, j);
    StallIsDelay(w, waits[..j]);
    ExecuteConcat(w, past, [Invoke({w.info.sender}, Pause), Advance(t)]);
    PausedFor(mid, t);
    LaterWaited(w, mid, t, Total(waits[..j]));
    LaterForceCancel(Waited(w, t), Waited(mid, t), signers, Total(waits[..j]));
  }

  /** Between the rounds the stream is not paused, and nothing can be forced. */
  lemma BetweenIsNotForced(w: World, waits: seq<u64>, j: nat, signers: set<Address>)
    requires Inv(w) && !w.info.IsCancelled() && !w.info.IsPaused() && Withdrawable(w.info, w.now).Ok?
    requires RoomFor(w, Total(waits)) && j <= |waits|
    ensures !ForcedBetween(w, waits, j, signers)
  {
    if j < |waits| {
      TotalOfPrefix(waits, j);
    } else {
      assert waits[..j] == waits;
    }
    StallIsDelay(w, waits[..j]);
  }

  /** `force_cancel` ends a pause called now after `wait` seconds. */
  predicate Forceable(w: World, wait: u64) {
    && wait >= PAUSE_THRESHOLD_SECS
    && w.now + wait <= U64_MAX
    && var paused := MarkPaused(w.info, w.now);
    && !PausedBeforeStart(paused, w.now + wait)
    && w.info.rate * CountedSeconds(paused, w.now + wait) <= I128_MAX
  }

  lemma WaitedForcedExactly(w: World, wait: u64, signers: set<Address>)
    requires Inv(w) && Backed(w) && !w.info.IsCancelled() && !w.info.IsPaused() && Withdrawable(w.info, w.now).Ok?
    requires w.now + wait <= U64_MAX
    ensures ForceCancelStep(Waited(w, wait), signers).reply.Done? <==> w.info.recipient in signers && Forceable(w, wait)
  {
    assert Waited(w, wait) == w.(info := MarkPaused(w.info, w.now), now := w.now + wait);
    ForceCancelSucceedsExactly(Waited(w, wait), signers);
  }

  /**
   Whether a pause can be ended at some instant shows at two of them: after thirty days and at its end.
   Before the start, and until the end has passed, waiting longer never helps; once the end has passed,
   nothing changes any more.
   */
  lemma ForceableAtAnEndpoint(w: World, wait: u64, t: u64)
    requires Inv(w) && !w.info.IsPaused() && t <= wait && w.now + wait <= U64_MAX && Forceable(w, t)
    ensures wait >= PAUSE_THRESHOLD_SECS
    ensures Forceable(w, PAUSE_THRESHOLD_SECS) || Forceable(w, wait)
  {
    var paused := MarkPaused(w.info, w.now);
    MulMonotone(w.info.rate, CountedSeconds(paused, w.now + PAUSE_THRESHOLD_SECS),
                Max(CountedSeconds(paused, w.now + PAUSE_THRESHOLD_SECS), CountedSeconds(paused, w.now + t)));
  }

  /** One of the pauses lasts thirty days and can be ended then, or when it is over. */
  predicate SomePauseEnds(w: World, waits: seq<u64>) {
    exists j :: 0 <= j < |waits| && waits[j] >= PAUSE_THRESHOLD_SECS
                && (Forceable(w, PAUSE_THRESHOLD_SECS) || Forceable(w, waits[j]))
  }

  /** At some instant of the stall, inside a pause or between two, a `force_cancel` goes through. */
  predicate ForcedSometime(w: World, waits: seq<u64>, signers: set<Address>) {
    || (exists j :: 0 <= j <= |waits| && ForcedBetween(w, waits, j, signers))
    || (exists j, t: u64 :: 0 <= j < |waits| && t <= waits[j] && ForcedInside(w, waits, j, t, signers))
  }

  /**
   When a live stream is paused, resumed for no time at all and paused again, any number of times, there is
   an instant at which a `force_cancel` goes through if and only if the recipient signs and one of the
   pauses, by itself, could be ended after thirty days or when it is over.
   */
  lemma StallIsForcedExactly(w: World, waits: seq<u64>, signers: set<Address>)
    requires Inv(w) && Backed(w) && !w.info.IsCancelled() && !w.info.IsPaused() && Withdrawable(w.info, w.now).Ok?
    requires RoomFor(w, Total(waits))
    ensures ForcedSometime(w, waits, signers) <==> w.info.recipient in signers && SomePauseEnds(w, waits)
  {
    if j :| 0 <= j <= |waits| && ForcedBetween(w, waits, j, signers) {
      BetweenIsNotForced(w, waits, j, signers);
    }
    if j, t: u64 :| 0 <= j < |waits| && t <= waits[j] && ForcedInside(w, waits, j, t, signers) {
      InsideIsForcedExactly(w, waits, j, t, signers);
      ForceableAtAnEndpoint(w, waits[j], t);
    }
    if w.info.recipient in signers && SomePauseEnds(w, waits) {
      var j :| 0 <= j < |waits| && waits[j] >= PAUSE_THRESHOLD_SECS
               && (Forceable(w, PAUSE_THRESHOLD_SECS) || Forceable(w, waits[j]));
      InsideIsForcedExactly(w, waits, j, PAUSE_THRESHOLD_SECS, signers);
      InsideIsForcedExactly(w, waits, j, waits[j], signers);
    }
  }

  lemma InsideIsForcedExactly(w: World, waits: seq<u64>, j: nat, t: u64, signers: set<Address>)
    requires Inv(w) && Backed(w) && !w.info.IsCancelled() && !w.info.IsPaused() && Withdrawable(w.info, w.now).Ok?
    requires RoomFor(w, Total(waits)) && j < |waits| && t <= waits[j]
    ensures w.now + waits[j] <= U64_MAX
    ensures ForcedInside(w, waits, j, t, signers) <==> w.info.recipient in signers && Forceable(w, t)
  {
    InsideAsAtOnce(w, waits, j, t, signers);
    TotalOfPrefix(waits, j);
    WaitedForcedExactly(w, t, signers);
  }

  /**
   On a started stream with a rate within the governor's default bound that means: if and only if one of
   the pauses lasts thirty days. Shorter ones, however many, never allow it.
   */
  lemma StallIsForcedByALongPause(w: World, waits: seq<u64>)
    requires Inv(w) && Backed(w) && !w.info.IsCancelled() && !w.info.IsPaused()
    requires w.info.startTime <= w.now && w.info.rate <= Governor.DEFAULT_MAX_RATE
    requires RoomFor(w, Total(waits))
    ensures ForcedSometime(w, waits, {w.info.recipient})
       <==> exists j :: 0 <= j < |waits| && waits[j] >= PAUSE_THRESHOLD_SECS
  {
    BoundedRateFits(w.info.rate, CountedSeconds(w.info, w.now));
    StreamedFailsExactly(w);
    StallIsForcedExactly(w, waits, {w.info.recipient});
    forall j | 0 <= j < |waits|
      ensures Forceable(w, waits[j]) <==> waits[j] >= PAUSE_THRESHOLD_SECS
    {
      TotalOfPrefix(waits, j);
      LongPauseIsForceable(w, waits[j]);
    }
  }

  lemma LongPauseIsForceable(w: World, wait: u64)
    requires Inv(w) && w.info.startTime <= w.now && w.info.rate <= Governor.DEFAULT_MAX_RATE
    requires w.now + wait <= U64_MAX
    ensures Forceable(w, wait) <==> wait >= PAUSE_THRESHOLD_SECS
  {
    BoundedRateFits(w.info.rate, CountedSeconds(MarkPaused(w.info, w.now), w.now + wait));
  }

  lemma BoundedRateFits(rate: int, seconds: int)
    requires 0 < rate <= Governor.DEFAULT_MAX_RATE && seconds <= U64_MAX
    ensures rate * seconds <= I128_MAX
  {
    MulMonotone(rate, seconds, U64_MAX);
    MulMonotone(U64_MAX, rate, Governor.DEFAULT_MAX_RATE);
  }

  /** Stalling by short pauses accrues nothing, and at no instant of it can anybody force a cancellation. */
  lemma StallingIsNeverForced(w: World, waits: seq<u64>, signers: set<Address>)
    requires Inv(w) && !w.info.IsCancelled() && !w.info.IsPaused() && Withdrawable(w.info, w.now).Ok?
    requires RoomFor(w, Total(waits))
    requires forall j :: 0 <= j < |waits| ==> waits[j] < PAUSE_THRESHOLD_SECS
    ensures !ForcedSometime(w, waits, signers)
    ensures Later(w, Execute(w, Stall(w.info.sender, waits)).world, Total(waits))
    ensures StreamedTotalView(Execute(w, Stall(w.info.sender, waits)).world) == StreamedTotalView(w)
  {
    StallIsDelay(w, waits);
    LaterReads(w, Execute(w, Stall(w.info.sender, waits)).world, Total(waits));
    if j :| 0 <= j <= |waits| && ForcedBetween(w, waits, j, signers) {
      BetweenIsNotForced(w, waits, j, signers);
    }
    if j, t: u64 :| 0 <= j < |waits| && t <= waits[j] && ForcedInside(w, waits, j, t, signers) {
      InsideAsAtOnce(w, waits, j, t, signers);
      ShortWaitIsNotForced(w, t, signers);
    }
  }

  lemma ShortWaitIsNotForced(w: World, wait: u64, signers: set<Address>)
    requires Inv(w) && !w.info.IsPaused() && wait < PAUSE_THRESHOLD_SECS
    ensures ForceCancelStep(Waited(w, wait), signers).reply.Failed?
  {
    var paused := PauseStep(w, {w.info.sender}).world;
    assert paused.info.IsPaused() ==> paused.info.pausedAt == paused.now;
    assert Waited(w, wait).info == paused.info && Waited(w, wait).now <= paused.now + wait;
  }

  // ---- Paused before the start ----

  /** Live, and paused before a start that has passed since. */
  predicate Caught(w: World) {
    && !w.info.IsCancelled()
    && w.info.IsPaused()
    && w.info.pausedAt < w.info.startTime <= w.now
  }

  predicate EndAhead(w: World) { w.info.endTime == 0 || w.now <= w.info.endTime }

  /** No call of the run finds the end passed. */
  predicate EndAheadAtCalls(w: World, actions: seq<Action>) {
    forall i :: 0 <= i < |actions| && actions[i].Invoke? ==> EndAhead(Execute(w, actions[..i]).world)
  }

  lemma EndAheadPrefix(w: World, actions: seq<Action>, n: nat)
    requires n <= |actions| && EndAheadAtCalls(w, actions)
    ensures EndAheadAtCalls(w, actions[..n])
  {
    forall i | 0 <= i < n && actions[..n][i].Invoke?
      ensures EndAhead(Execute(w, actions[..n][..i]).world)
    {
      assert actions[..n][..i] == actions[..i] && actions[..n][i] == actions[i];
    }
  }

  /** The calls a caught stream refuses: all but those that pay in or change the recipient. */
  predicate Blocked(info: StreamInfo, call: Call) {
    !call.TopUp? && !call.TransferRecipient? && (call.ExtendDuration? ==> info.endTime == 0)
  }

  /** The sender does not resume the stream. */
  predicate NoResume(action: Action, sender: Address) {
    action.Invoke? && action.call.Resume? ==> sender !in action.signers
  }

  lemma CaughtCall(w: World, signers: set<Address>, call: Call)
    requires Caught(w) && EndAhead(w) && NoResume(Invoke(signers, call), w.info.sender)
    ensures Blocked(w.info, call) ==> InvokeStep(w, signers, call).reply.Failed?
    ensures Caught(InvokeStep(w, signers, call).world)
  {
    assert StreamedAmount(w.info, w.now).Err?;
  }

  lemma CaughtBalance(w: World, action: Action)
    requires Caught(w) && NoResume(action, w.info.sender)
    requires action.Invoke? ==> EndAhead(w)
    ensures Step(w, action).world.Balance() >= w.Balance()
  {
    if Step(w, action).reply.Done? {
      match action
      case Advance(_) =>
      case Outside(source, target, amount) => TransferConserves(w.balances, source, target, amount);
      case Invoke(signers, call) =>
        CaughtCall(w, signers, call);
        CallMovesAsReplied(w, signers, call);
        assert MovedAsReplied(w, InvokeStep(w, signers, call));
        assert InvokeStep(w, signers, call).reply.paid == InvokeStep(w, signers, call).reply.returned == 0;
    }
  }

  lemma CaughtStep(w: World, action: Action)
    requires Caught(w) && NoResume(action, w.info.sender)
    requires action.Invoke? ==> EndAhead(w)
    ensures var next := Step(w, action).world;
            && Caught(next)
            && next.info.sender == w.info.sender
            && (next.info.endTime == 0 <==> w.info.endTime == 0)
            && next.Balance() >= w.Balance()
  {
    CaughtBalance(w, action);
    StepKeepsTerms(w, action);
    if action.Invoke? { CaughtCall(w, action.signers, action.call); }
  }

  lemma {:induction false} CaughtRun(w: World, actions: seq<Action>)
    requires Caught(w) && EndAheadAtCalls(w, actions)
    requires forall i :: 0 <= i < |actions| ==> NoResume(actions[i], w.info.sender)
    ensures var end := Execute(w, actions).world;
            && Caught(end)
            && end.info.sender == w.info.sender
            && (end.info.endTime == 0 <==> w.info.endTime == 0)
            && end.Balance() >= w.Balance()
  {
    if |actions| > 0 {
      var n := |actions| - 1;
      EndAheadPrefix(w, actions, n);
      CaughtRun(w, actions[..n]);
      CaughtStep(Execute(w, actions[..n]).world, actions[n]);
    }
  }

  /**
   Until the sender resumes it, a stream caught in a pause from before its start is out of everybody's
   reach: while its end has not passed, every call but a top-up, an extension of a fixed length or a change
   of recipient fails, `force_cancel` and the sender's own `cancel` included, and the balance never shrinks.
   */
  lemma CaughtUntilResumed(w: World, actions: seq<Action>)
    requires Caught(w) && EndAheadAtCalls(w, actions)
    requires forall i :: 0 <= i < |actions| ==> NoResume(actions[i], w.info.sender)
    ensures Caught(Execute(w, actions).world) && Execute(w, actions).world.Balance() >= w.Balance()
    ensures forall i :: 0 <= i < |actions| && actions[i].Invoke? && Blocked(w.info, actions[i].call) ==>
              Execute(w, actions).trace[i].reply.Failed?
  {
    CaughtRun(w, actions);
    forall i | 0 <= i < |actions| && actions[i].Invoke? && Blocked(w.info, actions[i].call)
      ensures Execute(w, actions).trace[i].reply.Failed?
    {
      EndAheadPrefix(w, actions, i);
      CaughtRun(w, actions[..i]);
      CaughtCall(Execute(w, actions[..i]).world, actions[i].signers, actions[i].call);
      ReplyAt(w, actions, i);
    }
  }

  /** An open-ended stream has no end to wait for: it stays caught through every run without such a resume. */
  lemma OpenEndedIsCaughtForGood(w: World, actions: seq<Action>)
    requires Caught(w) && w.info.endTime == 0
    requires forall i :: 0 <= i < |actions| ==> NoResume(actions[i], w.info.sender)
    ensures var end := Execute(w, actions).world;
            end.info.endTime == 0 && PausedBeforeStart(end.info, end.now) && end.Balance() >= w.Balance()
    ensures forall i :: 0 <= i < |actions| && actions[i].Invoke? && Blocked(w.info, actions[i].call) ==>
              Execute(w, actions).trace[i].reply.Failed?
  {
    StaysOpenEnded(w, actions);
    CaughtUntilResumed(w, actions);
    CaughtRun(w, actions);
  }

  lemma StaysOpenEnded(w: World, actions: seq<Action>)
    requires w.info.endTime == 0
    ensures EndAheadAtCalls(w, actions)
  {
    forall i | 0 <= i < |actions| && actions[i].Invoke?
      ensures EndAhead(Execute(w, actions[..i]).world)
    {
      EndStaysOpen(w, actions[..i]);
    }
  }

  lemma {:induction false} EndStaysOpen(w: World, actions: seq<Action>)
    requires w.info.endTime == 0
    ensures Execute(w, actions).world.info.endTime == 0
  {
    if |actions| > 0 {
      var n := |actions| - 1;
      EndStaysOpen(w, actions[..n]);
      StepKeepsTerms(Execute(w, actions[..n]).world, actions[n]);
    }
  }

  /** The sender's resume is the way out: it moves the start ahead again, where nothing is owed and all calls work. */
  lemma ResumeReleases(w: World)
    requires Caught(w) && ResumeStep(w, {w.info.sender}).reply.Done?
    ensures var after := ResumeStep(w, {w.info.sender}).world;
            after.now < after.info.startTime && StreamedAmount(after.info, after.now) == Ok(0)
  {
  }

  /**
   One pause is enough: an open-ended stream is paused before its start, and when the recipient calls
   `force_cancel` more than thirty days later the accrual formula errs.
   */
  lemma PauseBeforeStartDefeatsForceCancel(sender: Address, recipient: Address, token: Address, self: Address)
    ensures var info := Initialized(sender, recipient, token, 1, 100, 0, false).value;
            var run := Execute(World(0, self, info, map[self := 100]),
                               [Invoke({sender}, Pause), Advance(3_000_000), Invoke({recipient}, ForceCancel)]);
            && run.trace[0].reply.Done?
            && run.world.now - run.world.info.pausedAt > PAUSE_THRESHOLD_SECS
            && run.trace[2].reply == Failed(ArithmeticOverflow)
            && Caught(run.world) && run.world.info.endTime == 0
  {
    var info := Initialized(sender, recipient, token, 1, 100, 0, false).value;
    var w := World(0, self, info, map[self := 100]);
    var (a, b, c) := (Invoke({sender}, Pause), Advance(3_000_000), Invoke({recipient}, ForceCancel));
    ExecuteThree(w, a, b, c);
    assert [a, b, c][..0] == [] && [a, b, c][..2] == [a, b];
    ReplyAt(w, [a, b, c], 0);
    ReplyAt(w, [a, b, c], 2);
    var waited := w.(info := MarkPaused(info, 0), now := 3_000_000);
    assert Execute(w, [a, b]).world == waited;
    assert ForceCancelStep(waited, {recipient}).reply == Failed(ArithmeticOverflow);
  }
}
