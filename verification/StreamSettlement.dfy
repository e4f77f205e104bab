/** Same-instant confluence: how a stream is settled does not depend on what is called just before. */
module StreamSettlement {
  import opened Host
  import opened Token
  import opened StreamStorage
  import opened StreamMath
  import opened StreamMachine
  import opened StreamInvariants
  import opened StreamAccounting

  /** A withdrawal or a clawback attempted by anybody, for any amount. */
  predicate IsAttempt(action: Action) {
    action.Invoke? && (action.call.Withdraw? || action.call.Clawback?)
  }

  /** Nobody involved is the stream itself, so every payout leaves it. */
  predicate Apart(w: World) {
    w.info.recipient != w.self && w.info.sender != w.self
  }

  /** Earned and not yet withdrawn. */
  function Owed(w: World): int
    requires StreamedAmount(w.info, w.now).Ok?
  {
    Max(StreamedAmount(w.info, w.now).value - w.info.withdrawn, 0)
  }

  /** What a settlement would pay the recipient right now. */
  function Share(w: World): int
    requires StreamedAmount(w.info, w.now).Ok?
  {
    Min(Owed(w), w.Balance())
  }

  /** An attempt moves tokens between the two shares' owners, never between the shares. */
  lemma AttemptKeepsShares(w: World, action: Action)
    requires Inv(w) && Apart(w) && IsAttempt(action) && StreamedAmount(w.info, w.now).Ok?
    ensures var next := Step(w, action);
            if next.reply.Done? then SharesKept(w, next.world, next.reply.paid, next.reply.returned)
            else next.world == w
  {
    StreamedFailsExactly(w);
    StepKeepsInv(w, action);
    CallMovesAsReplied(w, action.signers, action.call);
    assert MovedAsReplied(w, Step(w, action));
    if action.call.Withdraw? {
      WithdrawKeepsShares(w, action.signers, action.call.amount);
    } else {
      ClawbackKeepsShares(w, action.signers);
    }
  }

  lemma WithdrawKeepsShares(w: World, signers: set<Address>, amount: i128)
    requires Inv(w) && Apart(w) && StreamedAmount(w.info, w.now).Ok?
    ensures var next := WithdrawStep(w, signers, amount);
            && next.world.info == w.info.(withdrawn := next.world.info.withdrawn)
            && StreamedAmount(next.world.info, next.world.now) == StreamedAmount(w.info, w.now)
            && Share(next.world) + (if next.reply.Done? then next.reply.paid else 0) == Share(w)
  {
    StreamedFailsExactly(w);
    WithdrawMovesAsReplied(w, signers, amount);
    assert MovedAsReplied(w, WithdrawStep(w, signers, amount));
  }

  lemma ClawbackKeepsShares(w: World, signers: set<Address>)
    requires Inv(w) && Apart(w) && StreamedAmount(w.info, w.now).Ok?
    ensures var next := ClawbackStep(w, signers);
            && next.world.info == w.info
            && Share(next.world) == Share(w)
  {
    StreamedFailsExactly(w);
    ClawbackMovesAsReplied(w, signers);
    assert MovedAsReplied(w, ClawbackStep(w, signers));
  }

  /** A clawback takes everything but the recipient's share. */
  lemma ClawbackLeavesTheShare(w: World, signers: set<Address>)
    requires Inv(w) && w.info.sender != w.self && ClawbackStep(w, signers).reply.Done?
    ensures StreamedAmount(w.info, w.now).Ok?
    ensures ClawbackStep(w, signers).world.Balance() == Share(w)
    ensures ClawbackStep(w, signers).reply == Done(0, w.Balance() - Share(w), 0)
  {
    StreamedFailsExactly(w);
    ClawbackMovesAsReplied(w, signers);
    assert MovedAsReplied(w, ClawbackStep(w, signers));
  }

  /** The shares are where they were: `paid` and `returned` have left, and the counter alone has moved. */
  ghost predicate SharesKept(w: World, after: World, paid: int, returned: int) {
    && Inv(after)
    && Apart(after)
    && after.self == w.self
    && after.now == w.now
    && after.info == w.info.(withdrawn := after.info.withdrawn)
    && Sum(after.balances) == Sum(w.balances)
    && StreamedAmount(w.info, w.now).Ok?
    && StreamedAmount(after.info, after.now) == StreamedAmount(w.info, w.now)
    && Share(after) + paid == Share(w)
    && after.Balance() + paid + returned == w.Balance()
  }

  lemma {:induction false} AttemptsKeepShares(w: World, attempts: seq<Action>)
    requires Inv(w) && Apart(w) && StreamedAmount(w.info, w.now).Ok?
    requires forall i :: 0 <= i < |attempts| ==> IsAttempt(attempts[i])
    ensures var run := Execute(w, attempts);
            SharesKept(w, run.world, TotalPaid(run.trace), Returned(run.trace))
  {
    if |attempts| > 0 {
      var n := |attempts| - 1;
      var before := Execute(w, attempts[..n]);
      assert forall i :: 0 <= i < n ==> attempts[..n][i] == attempts[i];
      AttemptsKeepShares(w, attempts[..n]);
      AttemptKeepsShares(before.world, attempts[n]);
      TotalsSnoc(before.trace, EventOf(before.world, attempts[n]));
    }
  }

  lemma TotalsSnoc(trace: seq<Event>, e: Event)
    ensures TotalPaid(trace + [e]) == TotalPaid(trace) + if IsCall(e) then e.reply.paid else 0
    ensures Returned(trace + [e]) == Returned(trace) + if IsCall(e) then e.reply.returned else 0
  {
    assert (trace + [e])[..|trace|] == trace;
  }

  lemma SettlePaysShare(w: World)
    requires Inv(w) && Backed(w) && StreamedAmount(w.info, w.now).Ok?
    ensures Settle(w).reply == Done(Share(w), w.Balance() - Share(w), 0)
  {
    SettleSucceedsExactly(w);
    StreamedFailsExactly(w);
  }

  /** The two settling calls, as the guard before `Settle`. */
  predicate SettlementEnabled(w: World, signers: set<Address>, last: Call) {
    && !w.info.IsCancelled()
    && (match last
        case Cancel => w.info.sender in signers
        case ForceCancel =>
          && w.info.IsPaused()
          && w.now >= w.info.pausedAt + PAUSE_THRESHOLD_SECS
          && w.info.recipient in signers
        case _ => false)
  }

  lemma SettlingCalls(w: World, signers: set<Address>, last: Call)
    requires Inv(w) && (last == Cancel || last == ForceCancel)
    ensures InvokeStep(w, signers, last).reply.Done? <==>
              SettlementEnabled(w, signers, last) && Settle(w).reply.Done?
    ensures InvokeStep(w, signers, last).reply.Done? ==> InvokeStep(w, signers, last) == Settle(w)
  {
  }

  /**
   Any finite sequence of withdrawals and clawbacks at one instant, followed by `cancel` or
   `force_cancel`: it succeeds exactly when it would have succeeded at once, and then the recipient
   has received min(owed, balance) in total and the sender the rest, both taken before the sequence.
   */
  lemma SettlementIsConfluent(w: World, attempts: seq<Action>, signers: set<Address>, last: Call)
    requires Inv(w) && Backed(w) && Apart(w)
    requires last == Cancel || last == ForceCancel
    requires forall i :: 0 <= i < |attempts| ==> IsAttempt(attempts[i])
    ensures var run := Execute(w, attempts + [Invoke(signers, last)]);
            && (run.trace[|attempts|].reply.Done? <==> InvokeStep(w, signers, last).reply.Done?)
            && (run.trace[|attempts|].reply.Done? ==>
                  && StreamedAmount(w.info, w.now).Ok?
                  && TotalPaid(run.trace) == Min(Owed(w), w.Balance())
                  && Returned(run.trace) == w.Balance() - Min(Owed(w), w.Balance())
                  && run.world.Balance() == 0)
  {
    var longer := attempts + [Invoke(signers, last)];
    var before := Execute(w, attempts);
    assert longer[..|attempts|] == attempts;
    assert Execute(w, longer).trace[..|attempts|] == before.trace;
    SettlingCalls(w, signers, last);
    if StreamedAmount(w.info, w.now).Ok? {
      AttemptsKeepShares(w, attempts);
      SettlingCalls(before.world, signers, last);
      SettlePaysShare(w);
      SettlePaysShare(before.world);
      SettlementEmptiesTheStream(before.world);
    } else {
      BlockedAttempts(w, attempts);
      SettlingCalls(before.world, signers, last);
    }
  }

  /** While the formula errs, no withdrawal and no clawback succeeds either. */
  lemma {:induction false} BlockedAttempts(w: World, attempts: seq<Action>)
    requires StreamedAmount(w.info, w.now).Err?
    requires forall i :: 0 <= i < |attempts| ==> IsAttempt(attempts[i])
    ensures Execute(w, attempts).world == w
  {
    if |attempts| > 0 {
      var n := |attempts| - 1;
      assert forall i :: 0 <= i < n ==> attempts[..n][i] == attempts[i];
      BlockedAttempts(w, attempts[..n]);
    }
  }
}
