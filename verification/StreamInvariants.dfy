/** What every step keeps, exactly when calls fail, and what cancellation ends. */
module StreamInvariants {
  import Governor
  import opened Host
  import opened Token
  import opened StreamStorage
  import opened StreamMath
  import opened StreamMachine

  /** Well-formedness of a record at a ledger time, established by `initialize`. */
  predicate Inv(w: World) {
    && w.info.rate > 0
    && w.info.withdrawn >= 0
    && (w.info.endTime > 0 ==> w.info.startTime < w.info.endTime)
    && (if w.info.IsPaused() then w.info.pausedAt <= w.now else w.info.pausedAt == 0)
  }

  /** The token's whole supply fits its balance type. */
  ghost predicate Backed(w: World) {
    Sum(w.balances) <= I128_MAX
  }

  lemma InitializedIsWellFormed(w: World, sender: Address, recipient: Address, token: Address, rate: i128,
                                startTime: u64, endTime: u64, clawback: bool)
    requires Initialized(sender, recipient, token, rate, startTime, endTime, clawback) == Some(w.info)
    ensures Inv(w) && !w.info.IsPaused() && !w.info.IsCancelled() && w.info.IsClawbackEnabled() == clawback
    ensures w.info.startTime == startTime && w.info.endTime == endTime && w.info.withdrawn == 0
  {
  }

  lemma StepKeepsInv(w: World, action: Action)
    requires Inv(w)
    ensures Inv(Step(w, action).world)
  {
    match action
    case Advance(_) =>
    case Outside(_, _, _) =>
    case Invoke(signers, call) =>
      match call
      case Withdraw(_) =>
      case Cancel =>
      case Pause =>
      case Resume =>
      case TopUp(_) =>
      case ExtendDuration(_) =>
      case Clawback =>
      case ForceCancel =>
      case TransferRecipient(_) =>
  }

  lemma PayIfPositiveConserves(b: Balances, from: Address, to: Address, amount: Amount)
    requires PayIfPositive(b, from, to, amount).Some?
    ensures Sum(PayIfPositive(b, from, to, amount).value) == Sum(b)
    ensures forall a ::
      BalanceOf(PayIfPositive(b, from, to, amount).value, a)
        == BalanceOf(b, a) + (if a == to then amount else 0) - (if a == from then amount else 0)
  {
    if amount > 0 { TransferConserves(b, from, to, amount); }
  }

  function Indicator(b: bool, amount: int): int { if b then amount else 0 }

  /** Every token unit a call moves is in its reply: recipient, sender and stream change by exactly these amounts. */
  ghost predicate MovedAsReplied(w: World, next: Next) {
    next.reply.Done? ==>
      forall a ::
        BalanceOf(next.world.balances, a) == BalanceOf(w.balances, a)
          + Indicator(a == w.info.recipient, next.reply.paid)
          + Indicator(a == w.info.sender, next.reply.returned - next.reply.deposited)
          + Indicator(a == w.self, next.reply.deposited - next.reply.paid - next.reply.returned)
  }

  lemma PayBothMoves(b: Balances, from: Address, first: Address, owed: Amount, second: Address, refund: Amount)
    requires PayBoth(b, from, first, owed, second, refund).Some?
    ensures var after := PayBoth(b, from, first, owed, second, refund).value;
            && Sum(after) == Sum(b)
            && forall a ::
                 BalanceOf(after, a) == BalanceOf(b, a) + Indicator(a == first, owed) + Indicator(a == second, refund)
                   - Indicator(a == from, owed + refund)
  {
    PayIfPositiveConserves(b, from, first, owed);
    PayIfPositiveConserves(PayIfPositive(b, from, first, owed).value, from, second, refund);
  }

  lemma SettleMovesAsReplied(w: World)
    ensures MovedAsReplied(w, Settle(w)) && Sum(Settle(w).world.balances) == Sum(w.balances)
  {
    var next := Settle(w);
    if next.reply.Done? {
      PayBothMoves(w.balances, w.self, w.info.recipient, next.reply.paid, w.info.sender, next.reply.returned);
    }
  }

  lemma WithdrawMovesAsReplied(w: World, signers: set<Address>, amount: i128)
    ensures MovedAsReplied(w, WithdrawStep(w, signers, amount))
    ensures Sum(WithdrawStep(w, signers, amount).world.balances) == Sum(w.balances)
  {
    var next := WithdrawStep(w, signers, amount);
    if next.reply.Done? { TransferConserves(w.balances, w.self, w.info.recipient, next.reply.paid); }
  }

  lemma TopUpMovesAsReplied(w: World, signers: set<Address>, amount: i128)
    ensures MovedAsReplied(w, TopUpStep(w, signers, amount))
    ensures Sum(TopUpStep(w, signers, amount).world.balances) == Sum(w.balances)
  {
    if TopUpStep(w, signers, amount).reply.Done? { TransferConserves(w.balances, w.info.sender, w.self, amount); }
  }

  lemma ExtendMovesAsReplied(w: World, signers: set<Address>, extraSeconds: u64)
    ensures MovedAsReplied(w, ExtendStep(w, signers, extraSeconds))
    ensures Sum(ExtendStep(w, signers, extraSeconds).world.balances) == Sum(w.balances)
  {
    var next := ExtendStep(w, signers, extraSeconds);
    if next.reply.Done? { TransferConserves(w.balances, w.info.sender, w.self, next.reply.deposited); }
  }

  lemma ClawbackMovesAsReplied(w: World, signers: set<Address>)
    ensures MovedAsReplied(w, ClawbackStep(w, signers))
    ensures Sum(ClawbackStep(w, signers).world.balances) == Sum(w.balances)
  {
    var next := ClawbackStep(w, signers);
    if next.reply.Done? { PayIfPositiveConserves(w.balances, w.self, w.info.sender, next.reply.returned); }
  }

  lemma CallMovesAsReplied(w: World, signers: set<Address>, call: Call)
    ensures MovedAsReplied(w, InvokeStep(w, signers, call))
    ensures Sum(InvokeStep(w, signers, call).world.balances) == Sum(w.balances)
  {
    match call
    case Withdraw(amount) => WithdrawMovesAsReplied(w, signers, amount);
    case TopUp(amount) => TopUpMovesAsReplied(w, signers, amount);
    case ExtendDuration(seconds) => ExtendMovesAsReplied(w, signers, seconds);
    case Clawback => ClawbackMovesAsReplied(w, signers);
    case Cancel => SettleMovesAsReplied(w);
    case ForceCancel => SettleMovesAsReplied(w);
    case Pause =>
    case Resume =>
    case TransferRecipient(_) =>
  }

  lemma StepKeepsSupply(w: World, action: Action)
    ensures Sum(Step(w, action).world.balances) == Sum(w.balances)
  {
    match action
    case Invoke(signers, call) => CallMovesAsReplied(w, signers, call);
    case Advance(_) =>
    case Outside(source, target, amount) =>
      if Step(w, action).reply.Done? { TransferConserves(w.balances, source, target, amount); }
  }

  /** Parts of the record no call ever changes, and the one bit that is never cleared. */
  predicate SameTerms(before: StreamInfo, after: StreamInfo) {
    && after.sender == before.sender
    && after.token == before.token
    && after.rate == before.rate
    && after.IsClawbackEnabled() == before.IsClawbackEnabled()
    && (before.endTime > 0 <==> after.endTime > 0)
    && (before.IsCancelled() ==> after == before)
  }

  lemma StepKeepsTerms(w: World, action: Action)
    ensures SameTerms(w.info, Step(w, action).world.info)
    ensures Step(w, action).world.now >= w.now
    ensures w.info.IsCancelled() && action.Invoke? ==> Step(w, action) == Fail(w, Step(w, action).reply.error)
  {
    match action
    case Advance(_) =>
    case Outside(_, _, _) =>
    case Invoke(signers, call) =>
      match call
      case Withdraw(_) =>
      case Cancel =>
      case Pause =>
      case Resume =>
      case TopUp(_) =>
      case ExtendDuration(_) =>
      case Clawback =>
      case ForceCancel =>
      case TransferRecipient(_) =>
  }

  /** In every reachable state the record is well-formed, the supply unchanged and the terms kept. */
  lemma {:induction false} ReachableWorlds(w: World, actions: seq<Action>)
    requires Inv(w)
    ensures Inv(Execute(w, actions).world)
    ensures Sum(Execute(w, actions).world.balances) == Sum(w.balances)
    ensures SameTerms(w.info, Execute(w, actions).world.info)
    ensures Execute(w, actions).world.now >= w.now
  {
    if |actions| > 0 {
      var before := Execute(w, actions[..|actions| - 1]).world;
      var action := actions[|actions| - 1];
      ReachableWorlds(w, actions[..|actions| - 1]);
      StepKeepsInv(before, action);
      StepKeepsSupply(before, action);
      StepKeepsTerms(before, action);
    }
  }

  // ---- Terminal settlement ----

  /**
   A settlement is marked, and leaves the stream exactly the shares addressed to the stream
   itself: nothing, unless the recipient or the sender is the stream's own address.
   */
  lemma SettlementEmptiesTheStream(w: World)
    requires Settle(w).reply.Done?
    ensures Settle(w).world.info.IsCancelled()
    ensures Settle(w).reply.paid + Settle(w).reply.returned == w.Balance()
    ensures Settle(w).world.Balance()
         == Indicator(w.info.recipient == w.self, Settle(w).reply.paid)
          + Indicator(w.info.sender == w.self, Settle(w).reply.returned)
  {
    SettleMovesAsReplied(w);
  }

  /**
   That exception is real: a recipient hands its role to the stream's own address, the sender cancels
   halfway, and half of the tokens stay behind for good.
   */
  lemma SettlementCanStrandTheShare(sender: Address, recipient: Address, token: Address, self: Address)
    requires sender != self && recipient != self
    ensures var info := Initialized(sender, recipient, token, 1, 0, 100, false).value;
            var run := Execute(World(50, self, info, map[self := 100]),
                               [Invoke({recipient}, TransferRecipient(self)), Invoke({sender}, Cancel)]);
            && run.trace[1].reply == Done(50, 50, 0)
            && run.world.info.IsCancelled()
            && run.world.Balance() == 50
  {
    var info := Initialized(sender, recipient, token, 1, 0, 100, false).value;
    var w := World(50, self, info, map[self := 100]);
    var actions := [Invoke({recipient}, TransferRecipient(self)), Invoke({sender}, Cancel)];
    assert actions[..1] == [actions[0]] && actions[..1][..0] == [];
    var handed := w.(info := info.(recipient := self));
    assert Execute(w, actions[..1]).world == handed;
    assert StreamedAmount(handed.info, 50) == Ok(50);
    assert Settle(handed).reply == Done(50, 50, 0);
    SettlementEmptiesTheStream(handed);
  }

  /** The steps of a run that are not calls on the stream. */
  function WithoutCalls(actions: seq<Action>): seq<Action> {
    if |actions| == 0 then []
    else
      var n := |actions| - 1;
      WithoutCalls(actions[..n]) + if actions[n].Invoke? then [] else [actions[n]]
  }

  lemma CancelledStep(w: World, action: Action)
    requires w.info.IsCancelled()
    ensures Step(w, action).world.info == w.info
    ensures action.Invoke? ==> Step(w, action).reply.Failed? && Step(w, action).world == w
  {
    StepKeepsTerms(w, action);
  }

  lemma {:induction false} CancelledStaysCancelled(w: World, actions: seq<Action>)
    requires w.info.IsCancelled()
    ensures Execute(w, actions).world.info == w.info
  {
    if |actions| > 0 {
      var n := |actions| - 1;
      CancelledStaysCancelled(w, actions[..n]);
      CancelledStep(Execute(w, actions[..n]).world, actions[n]);
    }
  }

  lemma {:induction false} CallsVanish(w: World, actions: seq<Action>)
    requires w.info.IsCancelled()
    ensures Execute(w, actions).world == Execute(w, WithoutCalls(actions)).world
  {
    if |actions| > 0 {
      var n := |actions| - 1;
      var before := Execute(w, actions[..n]).world;
      CallsVanish(w, actions[..n]);
      CancelledStaysCancelled(w, actions[..n]);
      assert Execute(w, actions).world == Step(before, actions[n]).world;
      var kept := WithoutCalls(actions[..n]);
      if actions[n].Invoke? {
        CancelledStep(before, actions[n]);
        assert WithoutCalls(actions) == kept;
      } else {
        ExecuteSnoc(w, kept, actions[n]);
        assert WithoutCalls(actions) == kept + [actions[n]];
      }
    }
  }

  /**
   Once cancelled, the record is frozen and every later call fails. None of them moves a token or has any
   other effect: whatever the clock and other holders do, the run ends as if the calls had not been made.
   */
  lemma CancelledIsForever(w: World, actions: seq<Action>)
    requires w.info.IsCancelled()
    ensures Execute(w, actions).world.info == w.info
    ensures forall i :: 0 <= i < |actions| && actions[i].Invoke? ==> Execute(w, actions).trace[i].reply.Failed?
    ensures Execute(w, actions).world == Execute(w, WithoutCalls(actions)).world
  {
    CallsVanish(w, actions);
    CancelledStaysCancelled(w, actions);
    forall i | 0 <= i < |actions| && actions[i].Invoke?
      ensures Execute(w, actions).trace[i].reply.Failed?
    {
      CancelledStaysCancelled(w, actions[..i]);
      CancelledStep(Execute(w, actions[..i]).world, actions[i]);
      ReplyAt(w, actions, i);
    }
  }

  // ---- Exact failure set ----

  /** Paused before the start, the start since passed, and no end reached: the seconds would be negative. */
  predicate PausedBeforeStart(info: StreamInfo, now: u64) {
    && info.IsPaused()
    && info.pausedAt < info.startTime <= now
    && (info.endTime == 0 || now <= info.endTime)
  }

  /** The seconds that count, with no clamp or error: the unbounded value the formula aims at. */
  function CountedSeconds(info: StreamInfo, now: u64): int {
    var upTo := if info.endTime > 0 && now > info.endTime then info.endTime
                else if info.IsPaused() then info.pausedAt else now;
    if now < info.startTime then 0 else upTo - info.startTime
  }

  /** In a well-formed state the formula errs exactly in these two cases; the end clamp never underflows. */
  lemma StreamedFailsExactly(w: World)
    requires Inv(w)
    ensures StreamedAmount(w.info, w.now).Err?
       <==> PausedBeforeStart(w.info, w.now) || w.info.rate * CountedSeconds(w.info, w.now) > I128_MAX
    ensures StreamedAmount(w.info, w.now).Ok? ==>
              StreamedAmount(w.info, w.now).value == w.info.rate * CountedSeconds(w.info, w.now) >= 0
  {
    var seconds := CountedSeconds(w.info, w.now);
    if seconds >= 0 {
      MulMonotone(w.info.rate, 0, seconds);
    } else {
      MulMonotone(w.info.rate, seconds, -1);
    }
  }

  /** A settlement succeeds exactly when the formula does: its transfers cannot fail. */
  lemma SettleSucceedsExactly(w: World)
    requires Inv(w) && Backed(w)
    ensures Settle(w).reply.Done? <==> StreamedAmount(w.info, w.now).Ok?
  {
    StreamedFailsExactly(w);
    if StreamedAmount(w.info, w.now).Ok? {
      var streamed := StreamedAmount(w.info, w.now).value;
      var owed: Amount := Min(Max(streamed - w.info.withdrawn, 0), w.Balance());
      TransferSucceedsExactly(w.balances, w.self, w.info.recipient, owed);
      PayIfPositiveConserves(w.balances, w.self, w.info.recipient, owed);
      TransferSucceedsExactly(PayIfPositive(w.balances, w.self, w.info.recipient, owed).value,
                              w.self, w.info.sender, w.Balance() - owed);
    }
  }

  /** What each call asks of the caller and of the state, free of the order of the checks. */
  predicate Enabled(w: World, signers: set<Address>, call: Call) {
    && !w.info.IsCancelled()
    && match call
       case Withdraw(amount) =>
         && amount > 0
         && w.info.recipient in signers
         && Withdrawable(w.info, w.now).Ok?
         && 0 < Min(amount, Withdrawable(w.info, w.now).value) <= w.Balance()
       case Cancel => w.info.sender in signers && StreamedAmount(w.info, w.now).Ok?
       case Pause => w.info.sender in signers && !w.info.IsPaused() && StreamedAmount(w.info, w.now).Ok?
       case Resume =>
         && w.info.sender in signers
         && w.info.IsPaused()
         && Max(w.info.startTime, w.info.endTime) + w.now - w.info.pausedAt <= U64_MAX
       case TopUp(amount) => w.info.sender in signers && 0 < amount <= BalanceOf(w.balances, w.info.sender)
       case ExtendDuration(seconds) =>
         && w.info.sender in signers
         && 0 < seconds
         && 0 < w.info.endTime <= U64_MAX - seconds
         && w.info.rate * seconds <= BalanceOf(w.balances, w.info.sender)
       case Clawback =>
         w.info.sender in signers && w.info.IsClawbackEnabled() && StreamedAmount(w.info, w.now).Ok?
       case ForceCancel =>
         && w.info.recipient in signers
         && w.info.IsPaused()
         && w.now >= w.info.pausedAt + PAUSE_THRESHOLD_SECS
         && StreamedAmount(w.info, w.now).Ok?
       case TransferRecipient(_) => w.info.recipient in signers
  }

  /** In every well-formed state a call succeeds exactly when it is enabled: nothing else can trap it. */
  lemma CallSucceedsExactly(w: World, signers: set<Address>, call: Call)
    requires Inv(w) && Backed(w)
    ensures InvokeStep(w, signers, call).reply.Done? <==> Enabled(w, signers, call)
  {
    match call
    case Withdraw(amount) => WithdrawSucceedsExactly(w, signers, amount);
    case Cancel => SettleSucceedsExactly(w);
    case Pause =>
    case Resume =>
    case TopUp(amount) => TransferSucceedsExactly(w.balances, w.info.sender, w.self, amount);
    case ExtendDuration(seconds) => ExtendSucceedsExactly(w, signers, seconds);
    case Clawback => ClawbackSucceedsExactly(w, signers);
    case ForceCancel => SettleSucceedsExactly(w);
    case TransferRecipient(_) =>
  }

  /**
   So `force_cancel` settles a live stream, paused for thirty days, for its recipient exactly if the stream
   is not caught in a pause from before its start and the accrued amount fits an i128.
   */
  lemma ForceCancelSucceedsExactly(w: World, signers: set<Address>)
    requires Inv(w) && Backed(w)
    ensures ForceCancelStep(w, signers).reply.Done? <==>
              && !w.info.IsCancelled()
              && w.info.IsPaused()
              && w.now >= w.info.pausedAt + PAUSE_THRESHOLD_SECS
              && w.info.recipient in signers
              && !PausedBeforeStart(w.info, w.now)
              && w.info.rate * CountedSeconds(w.info, w.now) <= I128_MAX
  {
    CallSucceedsExactly(w, signers, ForceCancel);
    StreamedFailsExactly(w);
  }

  lemma WithdrawSucceedsExactly(w: World, signers: set<Address>, amount: i128)
    requires Inv(w) && Backed(w)
    ensures WithdrawStep(w, signers, amount).reply.Done? <==> Enabled(w, signers, Withdraw(amount))
  {
    StreamedFailsExactly(w);
    if amount > 0 && Withdrawable(w.info, w.now).Ok? && Withdrawable(w.info, w.now).value > 0 {
      TransferSucceedsExactly(w.balances, w.self, w.info.recipient, Min(amount, Withdrawable(w.info, w.now).value));
    }
  }

  lemma ExtendSucceedsExactly(w: World, signers: set<Address>, seconds: u64)
    requires Inv(w) && Backed(w)
    ensures ExtendStep(w, signers, seconds).reply.Done? <==> Enabled(w, signers, ExtendDuration(seconds))
  {
    MulMonotone(w.info.rate, 0, seconds);
    if FitsI128(seconds * w.info.rate) {
      TransferSucceedsExactly(w.balances, w.info.sender, w.self, seconds * w.info.rate);
    }
  }

  lemma ClawbackSucceedsExactly(w: World, signers: set<Address>)
    requires Inv(w) && Backed(w)
    ensures ClawbackStep(w, signers).reply.Done? <==> Enabled(w, signers, Clawback)
  {
    StreamedFailsExactly(w);
    if StreamedAmount(w.info, w.now).Ok? {
      var excess := Max(w.Balance() - Max(StreamedAmount(w.info, w.now).value - w.info.withdrawn, 0), 0);
      TransferSucceedsExactly(w.balances, w.self, w.info.sender, excess);
    }
  }

  /** Handing over the recipient's role keeps everything earned within reach of the new recipient alone. */
  lemma TransferRecipientHandsOver(w: World, signers: set<Address>, newRecipient: Address, amount: i128)
    requires Inv(w) && TransferRecipientStep(w, signers, newRecipient).reply.Done?
    ensures var after := TransferRecipientStep(w, signers, newRecipient).world;
            && after == w.(info := w.info.(recipient := newRecipient))
            && WithdrawableView(after) == WithdrawableView(w)
            && (newRecipient !in signers ==> WithdrawStep(after, signers, amount).reply.Failed?)
  {
  }

  /** Every pause of the run comes at or after the start time in force when it is called. */
  predicate PausesAfterStart(w: World, actions: seq<Action>) {
    forall i :: 0 <= i < |actions| && actions[i].Invoke? && actions[i].call.Pause? ==>
      Execute(w, actions[..i]).world.now >= Execute(w, actions[..i]).world.info.startTime
  }

  lemma PausesAfterStartPrefix(w: World, actions: seq<Action>)
    requires |actions| > 0 && PausesAfterStart(w, actions)
    ensures PausesAfterStart(w, actions[..|actions| - 1])
  {
    var n := |actions| - 1;
    forall i | 0 <= i < n && actions[..n][i].Invoke? && actions[..n][i].call.Pause?
      ensures Execute(w, actions[..n][..i]).world.now >= Execute(w, actions[..n][..i]).world.info.startTime
    {
      assert actions[..n][..i] == actions[..i] && actions[..n][i] == actions[i];
    }
  }

  predicate PausedAfterStart(info: StreamInfo) {
    info.IsPaused() ==> info.pausedAt >= info.startTime
  }

  lemma StepKeepsPausedAfterStart(w: World, action: Action)
    requires PausedAfterStart(w.info)
    requires action.Invoke? && action.call.Pause? ==> w.now >= w.info.startTime
    ensures PausedAfterStart(Step(w, action).world.info)
  {
    match action
    case Advance(_) =>
    case Outside(_, _, _) =>
    case Invoke(signers, call) =>
      match call
      case Withdraw(_) =>
      case Cancel =>
      case Pause =>
      case Resume =>
      case TopUp(_) =>
      case ExtendDuration(_) =>
      case Clawback =>
      case ForceCancel =>
      case TransferRecipient(_) =>
  }

  lemma {:induction false} NeverPausedBeforeStart(w: World, actions: seq<Action>)
    requires PausedAfterStart(w.info) && PausesAfterStart(w, actions)
    ensures PausedAfterStart(Execute(w, actions).world.info)
  {
    if |actions| > 0 {
      var n := |actions| - 1;
      PausesAfterStartPrefix(w, actions);
      NeverPausedBeforeStart(w, actions[..n]);
      StepKeepsPausedAfterStart(Execute(w, actions[..n]).world, actions[n]);
    }
  }

  /**
   With a rate within the governor's default bound and no pause before the start, no reachable
   live stream can be trapped: an authorised `cancel` succeeds, and so does the recipient's
   `force_cancel` once the stream has been paused for thirty days.
   */
  lemma SettlementIsAlwaysReachable(w: World, actions: seq<Action>, signers: set<Address>)
    requires Inv(w) && Backed(w) && !w.info.IsPaused()
    requires w.info.rate <= Governor.DEFAULT_MAX_RATE
    requires PausesAfterStart(w, actions)
    ensures var end := Execute(w, actions).world;
            && StreamedAmount(end.info, end.now).Ok?
            && (CancelStep(end, signers).reply.Done? <==> !end.info.IsCancelled() && end.info.sender in signers)
            && (ForceCancelStep(end, signers).reply.Done? <==>
                  && !end.info.IsCancelled()
                  && end.info.IsPaused()
                  && end.now >= end.info.pausedAt + PAUSE_THRESHOLD_SECS
                  && end.info.recipient in signers)
  {
    var end := Execute(w, actions).world;
    ReachableWorlds(w, actions);
    NeverPausedBeforeStart(w, actions);
    StreamedFailsExactly(end);
    var seconds := CountedSeconds(end.info, end.now);
    assert 0 <= seconds <= U64_MAX;
    MulMonotone(end.info.rate, seconds, U64_MAX);
    MulMonotone(U64_MAX, end.info.rate, Governor.DEFAULT_MAX_RATE);
    SettleSucceedsExactly(end);
  }
}
