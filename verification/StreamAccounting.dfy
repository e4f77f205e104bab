/** Whole-run bookkeeping: conservation, no double pay, and full-funding solvency. */
module StreamAccounting {
  import opened Host
  import opened Token
  import opened StreamStorage
  import opened StreamMath
  import opened StreamMachine
  import opened StreamInvariants

  // ---- Totals read off a trace ----

  predicate IsCall(e: Event) { e.action.Invoke? && e.reply.Done? }

  /** Tokens handed to the recipients in office, leaving out shares addressed to the stream itself. */
  function PaidOut(trace: seq<Event>, self: Address): int {
    if |trace| == 0 then 0
    else
      var e := trace[|trace| - 1];
      PaidOut(trace[..|trace| - 1], self) + Indicator(IsCall(e) && e.recipient != self, Paid(e))
  }

  function Paid(e: Event): int { if e.reply.Done? then e.reply.paid else 0 }

  function Returned(trace: seq<Event>): int {
    if |trace| == 0 then 0
    else
      var e := trace[|trace| - 1];
      Returned(trace[..|trace| - 1]) + if IsCall(e) then e.reply.returned else 0
  }

  /** Top-ups as requested by the caller. */
  function ToppedUp(trace: seq<Event>): int {
    if |trace| == 0 then 0
    else
      var e := trace[|trace| - 1];
      ToppedUp(trace[..|trace| - 1]) + if IsCall(e) && e.action.call.TopUp? then e.action.call.amount else 0
  }

  function ExtendedSeconds(trace: seq<Event>): nat {
    if |trace| == 0 then 0
    else
      var e := trace[|trace| - 1];
      ExtendedSeconds(trace[..|trace| - 1])
        + if IsCall(e) && e.action.call.ExtendDuration? then e.action.call.extraSeconds else 0
  }

  /** Tokens other holders sent to the stream. */
  function Donated(trace: seq<Event>, self: Address): int {
    if |trace| == 0 then 0
    else
      var e := trace[|trace| - 1];
      Donated(trace[..|trace| - 1], self)
        + if e.action.Outside? && e.reply.Done? && e.action.target == self then e.action.amount else 0
  }

  /** What `withdraw` alone has paid. */
  function WithdrawPayouts(trace: seq<Event>): int {
    if |trace| == 0 then 0
    else
      var e := trace[|trace| - 1];
      WithdrawPayouts(trace[..|trace| - 1]) + if IsCall(e) && e.action.call.Withdraw? then e.reply.paid else 0
  }

  /** Everything the recipients were paid, by `withdraw` and by the settlement. */
  function TotalPaid(trace: seq<Event>): int {
    if |trace| == 0 then 0
    else
      var e := trace[|trace| - 1];
      TotalPaid(trace[..|trace| - 1]) + if IsCall(e) then e.reply.paid else 0
  }

  // ---- Conservation ----

  lemma ReplyMatchesRequest(w: World, signers: set<Address>, call: Call)
    requires InvokeStep(w, signers, call).reply.Done?
    ensures InvokeStep(w, signers, call).reply.deposited
         == (if call.TopUp? then call.amount
             else if call.ExtendDuration? then w.info.rate * call.extraSeconds else 0)
  {
    match call
    case Withdraw(_) =>
    case Cancel =>
    case Pause =>
    case Resume =>
    case TopUp(_) =>
    case ExtendDuration(_) =>
    case Clawback =>
    case ForceCancel =>
    case TransferRecipient(_) =>
  }

  /** The event a step leaves in the trace. */
  function EventOf(w: World, action: Action): Event {
    Event(w.now, w.info.recipient, action, Step(w, action).reply)
  }

  /** What one event adds to the stream, less what it takes out. */
  function NetInflow(e: Event, rate: int, self: Address): int {
    if e.reply.Failed? then 0
    else
      match e.action
      case Advance(_) => 0
      case Outside(_, target, amount) => Indicator(target == self, amount)
      case Invoke(_, call) =>
        (if call.TopUp? then call.amount else if call.ExtendDuration? then rate * call.extraSeconds else 0)
        - Indicator(e.recipient != self, e.reply.paid) - e.reply.returned
  }

  lemma CallBalance(w: World, signers: set<Address>, call: Call)
    requires w.info.sender != w.self && InvokeStep(w, signers, call).reply.Done?
    ensures InvokeStep(w, signers, call).world.Balance()
         == w.Balance() + NetInflow(EventOf(w, Invoke(signers, call)), w.info.rate, w.self)
  {
    CallMovesAsReplied(w, signers, call);
    ReplyMatchesRequest(w, signers, call);
    assert MovedAsReplied(w, InvokeStep(w, signers, call));
  }

  lemma StepBalance(w: World, action: Action)
    requires w.info.sender != w.self
    ensures Step(w, action).world.Balance() == w.Balance() + NetInflow(EventOf(w, action), w.info.rate, w.self)
  {
    if Step(w, action).reply.Done? {
      match action
      case Advance(_) =>
      case Outside(source, target, amount) => TransferConserves(w.balances, source, target, amount);
      case Invoke(signers, call) => CallBalance(w, signers, call);
    }
  }

  /**
   In every reachable state: initial funding + top-ups + rate x extended seconds + tokens sent in
   = tokens paid to the successive recipients + tokens returned to the sender + balance.
   */
  lemma {:induction false} ValueIsConserved(w: World, actions: seq<Action>)
    requires Inv(w) && w.info.sender != w.self
    ensures var run := Execute(w, actions);
            w.Balance() + ToppedUp(run.trace) + w.info.rate * ExtendedSeconds(run.trace) + Donated(run.trace, w.self)
              == PaidOut(run.trace, w.self) + Returned(run.trace) + run.world.Balance()
  {
    if |actions| > 0 {
      var n := |actions| - 1;
      var before := Execute(w, actions[..n]);
      ValueIsConserved(w, actions[..n]);
      ReachableWorlds(w, actions[..n]);
      StepBalance(before.world, actions[n]);
      TotalsGrowByNetInflow(before.trace, EventOf(before.world, actions[n]), w.info.rate, w.self);
    }
  }

  lemma TotalsGrowByNetInflow(trace: seq<Event>, e: Event, rate: int, self: Address)
    ensures var longer := trace + [e];
            ToppedUp(longer) + rate * ExtendedSeconds(longer) + Donated(longer, self)
                - PaidOut(longer, self) - Returned(longer)
              == ToppedUp(trace) + rate * ExtendedSeconds(trace) + Donated(trace, self)
                - PaidOut(trace, self) - Returned(trace) + NetInflow(e, rate, self)
  {
    assert (trace + [e])[..|trace|] == trace;
    if IsCall(e) && e.action.call.ExtendDuration? {
      MulDistributes(rate, ExtendedSeconds(trace), e.action.call.extraSeconds);
    }
  }

  lemma MulDistributes(k: int, x: int, y: int)
    ensures k * (x + y) == k * x + k * y
  {
  }

  // ---- No double pay ----

  lemma StepWithdrawn(w: World, action: Action)
    ensures Step(w, action).world.info.withdrawn
         == w.info.withdrawn
          + (if action.Invoke? && action.call.Withdraw? then Paid(EventOf(w, action)) else 0)
  {
    match action
    case Advance(_) =>
    case Outside(_, _, _) =>
    case Invoke(signers, call) =>
      match call
      case Withdraw(_) =>
      case Cancel =>
      case Pause =>
      case Resume =>
      case TopUp(_) =>
      case ExtendDuration(_) =>
      case Clawback =>
      case ForceCancel =>
      case TransferRecipient(_) =>
  }

  /** The `withdrawn` counter is the sum of what `withdraw` paid, over any run. */
  lemma {:induction false} WithdrawnIsTheSumOfPayouts(w: World, actions: seq<Action>)
    ensures Execute(w, actions).world.info.withdrawn
         == w.info.withdrawn + WithdrawPayouts(Execute(w, actions).trace)
  {
    if |actions| > 0 {
      var n := |actions| - 1;
      var before := Execute(w, actions[..n]);
      WithdrawnIsTheSumOfPayouts(w, actions[..n]);
      StepWithdrawn(before.world, actions[n]);
      assert Execute(w, actions).trace[..n] == before.trace;
    }
  }

  /** Seconds accrued at most: the contracted length, or up to now (or the pause) when open-ended. */
  function AccrualCap(info: StreamInfo, now: u64): int {
    if info.endTime > 0 then info.endTime - info.startTime
    else Max(0, (if info.IsPaused() then info.pausedAt else now) - info.startTime)
  }

  predicate WithinCap(w: World) {
    w.info.withdrawn <= w.info.rate * AccrualCap(w.info, w.now)
  }

  /** Whenever the formula answers, it stays within the cap, and at an open-ended stream's cap once started. */
  lemma StreamedWithinCap(w: World)
    requires Inv(w) && StreamedAmount(w.info, w.now).Ok?
    ensures 0 <= StreamedAmount(w.info, w.now).value <= w.info.rate * AccrualCap(w.info, w.now)
    ensures w.info.endTime == 0 ==> StreamedAmount(w.info, w.now).value == w.info.rate * AccrualCap(w.info, w.now)
  {
    StreamedFailsExactly(w);
    MulMonotone(w.info.rate, CountedSeconds(w.info, w.now), AccrualCap(w.info, w.now));
  }

  lemma StepGrowsCap(w: World, action: Action)
    requires Inv(w)
    ensures var next := Step(w, action).world;
            AccrualCap(next.info, next.now) >= AccrualCap(w.info, w.now)
  {
    match action
    case Advance(_) =>
    case Outside(_, _, _) =>
    case Invoke(signers, call) =>
      match call
      case Withdraw(_) =>
      case Cancel =>
      case Pause =>
      case Resume =>
      case TopUp(_) =>
      case ExtendDuration(_) =>
      case Clawback =>
      case ForceCancel =>
      case TransferRecipient(_) =>
  }

  lemma StepKeepsWithinCap(w: World, action: Action)
    requires Inv(w) && WithinCap(w)
    ensures WithinCap(Step(w, action).world)
  {
    var next := Step(w, action).world;
    StepGrowsCap(w, action);
    StepWithdrawn(w, action);
    StepKeepsTerms(w, action);
    MulMonotone(w.info.rate, AccrualCap(w.info, w.now), AccrualCap(next.info, next.now));
    if action.Invoke? && action.call.Withdraw? && Step(w, action).reply.Done? {
      StreamedWithinCap(w);
    }
  }

  /**
   Over any run of a stream within its cap the recipients never withdraw more than rate x (end - start) of a
   fixed-length stream, nor more than the current streamed amount of an open-ended one.
   */
  lemma {:induction false} NoDoublePay(w: World, actions: seq<Action>)
    requires Inv(w) && WithinCap(w)
    ensures var end := Execute(w, actions).world;
            && WithinCap(end)
            && (end.info.endTime > 0 ==> end.info.withdrawn <= end.info.rate * (end.info.endTime - end.info.startTime))
            && (end.info.endTime == 0 && StreamedAmount(end.info, end.now).Ok? ==>
                  end.info.withdrawn <= StreamedAmount(end.info, end.now).value)
  {
    if |actions| > 0 {
      var n := |actions| - 1;
      ReachableWorlds(w, actions[..n]);
      NoDoublePay(w, actions[..n]);
      StepKeepsWithinCap(Execute(w, actions[..n]).world, actions[n]);
    }
    ReachableWorlds(w, actions);
    var end := Execute(w, actions).world;
    if StreamedAmount(end.info, end.now).Ok? { StreamedWithinCap(end); }
  }

  /** In particular over the whole life of a stream that starts with nothing withdrawn. */
  lemma FreshStreamNeverOverpays(w: World, actions: seq<Action>)
    requires Inv(w) && w.info.withdrawn == 0
    ensures var end := Execute(w, actions).world;
            && WithdrawPayouts(Execute(w, actions).trace) == end.info.withdrawn
            && (end.info.endTime > 0 ==> end.info.withdrawn <= end.info.rate * (end.info.endTime - end.info.startTime))
            && (end.info.endTime == 0 && StreamedAmount(end.info, end.now).Ok? ==>
                  end.info.withdrawn <= StreamedAmount(end.info, end.now).value)
  {
    MulMonotone(w.info.rate, 0, AccrualCap(w.info, w.now));
    NoDoublePay(w, actions);
    WithdrawnIsTheSumOfPayouts(w, actions);
  }

  // ---- Full funding ----

  /** The stream holds, or has already paid by `withdraw`, its whole contracted amount. */
  predicate FullyFunded(w: World) {
    && w.info.endTime > 0
    && w.Balance() + w.info.withdrawn >= w.info.rate * (w.info.endTime - w.info.startTime)
  }

  /** A live, fixed-length stream on which the sender gave up clawback. */
  predicate Committed(w: World) {
    && w.info.sender != w.self
    && !w.info.IsClawbackEnabled()
    && !w.info.IsCancelled()
    && FullyFunded(w)
  }

  lemma ExtendKeepsFunding(w: World, signers: set<Address>, seconds: u64)
    requires Inv(w) && Committed(w) && ExtendStep(w, signers, seconds).reply.Done?
    ensures Committed(ExtendStep(w, signers, seconds).world)
  {
    CallBalance(w, signers, ExtendDuration(seconds));
    MulDistributes(w.info.rate, w.info.endTime - w.info.startTime, seconds);
  }

  lemma StepKeepsFunding(w: World, action: Action)
    requires Inv(w) && Committed(w)
    requires !Step(w, action).world.info.IsCancelled()
    ensures Committed(Step(w, action).world)
  {
    if Step(w, action).reply.Done? {
      if action.Invoke? && action.call.ExtendDuration? {
        ExtendKeepsFunding(w, action.signers, action.call.extraSeconds);
      } else {
        StepBalance(w, action);
        StepWithdrawn(w, action);
        OtherStepsKeepLength(w, action);
      }
    }
  }

  /** Apart from extensions and settlements, no step of a committed stream changes its length or pays from elsewhere. */
  lemma OtherStepsKeepLength(w: World, action: Action)
    requires Inv(w) && Committed(w) && Step(w, action).reply.Done?
    requires !Step(w, action).world.info.IsCancelled()
    requires !(action.Invoke? && action.call.ExtendDuration?)
    ensures var next := Step(w, action);
            && next.world.self == w.self
            && SameTerms(w.info, next.world.info)
            && next.world.info.endTime > 0
            && next.world.info.endTime - next.world.info.startTime == w.info.endTime - w.info.startTime
            && next.reply.returned == 0
            && (next.reply.paid > 0 ==> action.Invoke? && action.call.Withdraw?)
  {
    StepKeepsTerms(w, action);
    if action.Invoke? {
      match action.call
      case Withdraw(_) =>
      case Cancel => assert false by { SettlementEmptiesTheStream(w); }
      case ForceCancel => assert false by { SettlementEmptiesTheStream(w); }
      case Pause =>
      case Resume =>
      case TopUp(_) =>
      case ExtendDuration(_) =>
      case Clawback =>
      case TransferRecipient(_) =>
    }
  }

  /** What is withdrawable is there: at most the balance. */
  lemma FundedMeansSolvent(w: World)
    requires Inv(w) && FullyFunded(w) && Withdrawable(w.info, w.now).Ok?
    ensures Withdrawable(w.info, w.now).value <= w.Balance()
  {
    StreamedWithinCap(w);
  }

  /**
   A withdrawal from a fully funded stream fails only for the caller's own reasons: a bad amount, a
   cancelled stream, a missing signature, an error of the formula, or nothing accrued. When it
   succeeds it pays the smaller of the request and what is withdrawable.
   */
  lemma FundedWithdrawSucceedsExactly(w: World, signers: set<Address>, amount: i128)
    requires Inv(w) && FullyFunded(w) && Backed(w)
    ensures WithdrawStep(w, signers, amount).reply.Done? <==>
              && amount > 0
              && !w.info.IsCancelled()
              && w.info.recipient in signers
              && Withdrawable(w.info, w.now).Ok?
              && Withdrawable(w.info, w.now).value > 0
    ensures WithdrawStep(w, signers, amount).reply.Done? ==>
              WithdrawStep(w, signers, amount).reply.paid == Min(amount, Withdrawable(w.info, w.now).value)
  {
    if Withdrawable(w.info, w.now).Ok? {
      FundedMeansSolvent(w);
      StreamedWithinCap(w);
      if amount > 0 && Withdrawable(w.info, w.now).value > 0 {
        TransferSucceedsExactly(w.balances, w.self, w.info.recipient, Min(amount, Withdrawable(w.info, w.now).value));
      }
    }
  }

  /**
   The read-only view says what a withdrawal of everything would pay exactly while the balance covers it,
   as it does on a fully funded stream; otherwise that withdrawal traps and pays nothing. The view is the
   streamed total less what was withdrawn, never below zero.
   */
  lemma ViewIsWhatWithdrawPays(w: World)
    requires Inv(w) && Backed(w)
    ensures var r := WithdrawStep(w, {w.info.recipient}, I128_MAX).reply;
            && (WithdrawableView(w) == (if r.Done? then r.paid else 0) <==> WithdrawableView(w) <= w.Balance())
            && (WithdrawableView(w) > w.Balance() ==> r == Failed(HostTrap))
    ensures FullyFunded(w) ==> WithdrawableView(w) <= w.Balance()
    ensures WithdrawableView(w) == Max(0, StreamedTotalView(w) - w.info.withdrawn)
  {
    StreamedFailsExactly(w);
    if Withdrawable(w.info, w.now).Ok? {
      if FullyFunded(w) { FundedMeansSolvent(w); }
      if Withdrawable(w.info, w.now).value > 0 {
        TransferSucceedsExactly(w.balances, w.self, w.info.recipient, Withdrawable(w.info, w.now).value);
      }
    }
  }

  /** The view can promise what is not there: an open-ended stream runs dry, and the withdrawal of it all traps. */
  lemma ViewOutrunsTheBalance(sender: Address, recipient: Address, token: Address, self: Address)
    ensures var info := Initialized(sender, recipient, token, 1, 0, 0, false).value;
            var w := Execute(World(0, self, info, map[self := 10]), [Advance(50)]).world;
            && Inv(w)
            && WithdrawableView(w) == 50 > w.Balance()
            && WithdrawStep(w, {recipient}, I128_MAX).reply == Failed(HostTrap)
            && WithdrawStep(w, {recipient}, w.Balance()).reply == Done(10, 0, 0)
  {
    var start := World(0, self, Initialized(sender, recipient, token, 1, 0, 0, false).value, map[self := 10]);
    assert [Advance(50)][..0] == [];
    assert Execute(start, [Advance(50)]).world == start.(now := 50);
  }

  /** Through any run that does not cancel it, a committed stream stays fully funded and solvent. */
  lemma {:induction false} FundingOverRuns(w: World, actions: seq<Action>)
    requires Inv(w) && Committed(w)
    requires !Execute(w, actions).world.info.IsCancelled()
    ensures var end := Execute(w, actions).world;
            && Committed(end)
            && (Withdrawable(end.info, end.now).Ok? ==> Withdrawable(end.info, end.now).value <= end.Balance())
  {
    if |actions| > 0 {
      var n := |actions| - 1;
      ReachableWorlds(w, actions[..n]);
      StepKeepsTerms(Execute(w, actions[..n]).world, actions[n]);
      FundingOverRuns(w, actions[..n]);
      StepKeepsFunding(Execute(w, actions[..n]).world, actions[n]);
    }
    ReachableWorlds(w, actions);
    var end := Execute(w, actions).world;
    if Withdrawable(end.info, end.now).Ok? { FundedMeansSolvent(end); }
  }

  lemma {:induction false} PaidIsWithdrawnWhileLive(w: World, actions: seq<Action>)
    requires !Execute(w, actions).world.info.IsCancelled()
    ensures TotalPaid(Execute(w, actions).trace) == WithdrawPayouts(Execute(w, actions).trace)
  {
    if |actions| > 0 {
      var n := |actions| - 1;
      var before := Execute(w, actions[..n]);
      StepKeepsTerms(before.world, actions[n]);
      PaidIsWithdrawnWhileLive(w, actions[..n]);
      assert Execute(w, actions).trace[..n] == before.trace;
      if actions[n].Invoke? && !actions[n].call.Withdraw? {
        OnlyWithdrawPaysWhileLive(before.world, actions[n]);
      }
    }
  }

  lemma OnlyWithdrawPaysWhileLive(w: World, action: Action)
    requires !Step(w, action).world.info.IsCancelled() && action.Invoke? && !action.call.Withdraw?
    ensures Paid(EventOf(w, action)) == 0
  {
    if Settle(w).reply.Done? { SettlementEmptiesTheStream(w); }
  }

  /**
   The lifetime payout of a fresh, fully funded stream without clawback, settled by `cancel` or
   `force_cancel` after any history, is exactly the larger of what was withdrawn and what had streamed.
   */
  lemma LifetimePayout(w: World, actions: seq<Action>, signers: set<Address>, last: Call)
    requires Inv(w) && Committed(w) && w.info.withdrawn == 0
    requires last == Cancel || last == ForceCancel
    ensures var end := Execute(w, actions).world;
            InvokeStep(end, signers, last).reply.Done? ==>
              && StreamedAmount(end.info, end.now).Ok?
              && TotalPaid(Execute(w, actions + [Invoke(signers, last)]).trace)
                   == Max(end.info.withdrawn, StreamedAmount(end.info, end.now).value)
  {
    var run := Execute(w, actions);
    var longer := actions + [Invoke(signers, last)];
    assert longer[..|actions|] == actions;
    assert Execute(w, longer).trace[..|actions|] == run.trace;
    if InvokeStep(run.world, signers, last).reply.Done? {
      ReachableWorlds(w, actions);
      FundingOverRuns(w, actions);
      WithdrawnIsTheSumOfPayouts(w, actions);
      PaidIsWithdrawnWhileLive(w, actions);
      FundedSettlementPays(run.world);
    }
  }

  /** A fully funded stream settles everything streamed and not yet withdrawn. */
  lemma FundedSettlementPays(w: World)
    requires Inv(w) && FullyFunded(w) && Settle(w).reply.Done?
    ensures StreamedAmount(w.info, w.now).Ok?
    ensures Settle(w).reply.paid == Max(0, StreamedAmount(w.info, w.now).value - w.info.withdrawn)
  {
    StreamedWithinCap(w);
  }
}
