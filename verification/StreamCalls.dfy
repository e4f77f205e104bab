/**
 What each call on a stream asks, does and answers, as a table: the checks in their order, the error
 of each, and the effect when all pass. The steps are proved to follow it.
 */
module StreamCalls {
  import opened Host
  import opened Token
  import opened StreamStorage
  import opened StreamMath
  import opened StreamMachine
  import opened StreamInvariants

  /** Earned and not yet withdrawn, counted in unbounded integers. */
  function Due(w: World): int { Max(0, w.info.rate * CountedSeconds(w.info, w.now) - w.info.withdrawn) }

  datatype Check =
    | AmountIsPositive
    | SecondsArePositive
    | IsLive
    | RecipientSigned
    | SenderSigned
    | IsRunning
    | IsPaused
    | PausedThirtyDays
    | ClawbackIsEnabled
    | HasAnEnd
    | AccrualAnswers
    | SomethingIsDue
    | BalanceCovers
    | SenderCanPay
    | DepositFits
    | ScheduleFits
    | EndFits

  /** The checks of each call, in the order in which they decide. */
  function Checks(call: Call): seq<Check> {
    match call
    case Withdraw(_) => [AmountIsPositive, IsLive, RecipientSigned, AccrualAnswers, SomethingIsDue, BalanceCovers]
    case Cancel => [IsLive, SenderSigned, AccrualAnswers]
    case Pause => [IsLive, IsRunning, SenderSigned, AccrualAnswers]
    case Resume => [IsLive, IsPaused, SenderSigned, ScheduleFits]
    case TopUp(_) => [AmountIsPositive, SenderSigned, IsLive, SenderCanPay]
    case ExtendDuration(_) =>
      [SecondsArePositive, IsLive, SenderSigned, HasAnEnd, DepositFits, SenderCanPay, EndFits]
    case Clawback => [IsLive, ClawbackIsEnabled, SenderSigned, AccrualAnswers]
    case ForceCancel => [IsLive, IsPaused, PausedThirtyDays, RecipientSigned, AccrualAnswers]
    case TransferRecipient(_) => [IsLive, RecipientSigned]
  }

  function ErrorOf(check: Check): Error {
    match check
    case AmountIsPositive => InvalidAmount
    case SecondsArePositive => InvalidTimeRange
    case IsLive => StreamCancelled
    case RecipientSigned => HostTrap
    case SenderSigned => HostTrap
    case IsRunning => AlreadyPaused
    case IsPaused => NotPaused
    case PausedThirtyDays => PauseThresholdNotMet
    case ClawbackIsEnabled => ClawbackDisabled
    case HasAnEnd => InvalidTimeRange
    case AccrualAnswers => ArithmeticOverflow
    case SomethingIsDue => NothingToWithdraw
    case BalanceCovers => HostTrap
    case SenderCanPay => HostTrap
    case DepositFits => ArithmeticOverflow
    case ScheduleFits => HostTrap
    case EndFits => ArithmeticOverflow
  }

  /** What the sender pays in. */
  function Payment(w: World, call: Call): int {
    match call
    case TopUp(amount) => amount
    case ExtendDuration(seconds) => w.info.rate * seconds
    case _ => 0
  }

  predicate Passes(w: World, signers: set<Address>, call: Call, check: Check) {
    match check
    case AmountIsPositive => (call.Withdraw? || call.TopUp?) ==> call.amount > 0
    case SecondsArePositive => call.ExtendDuration? ==> call.extraSeconds > 0
    case IsLive => !w.info.IsCancelled()
    case RecipientSigned => w.info.recipient in signers
    case SenderSigned => w.info.sender in signers
    case IsRunning => !w.info.IsPaused()
    case IsPaused => w.info.IsPaused()
    case PausedThirtyDays => w.now - w.info.pausedAt >= 2_592_000
    case ClawbackIsEnabled => w.info.IsClawbackEnabled()
    case HasAnEnd => w.info.endTime > 0
    case AccrualAnswers =>
      !PausedBeforeStart(w.info, w.now) && w.info.rate * CountedSeconds(w.info, w.now) <= I128_MAX
    case SomethingIsDue => Due(w) > 0
    case BalanceCovers => call.Withdraw? ==> Min(call.amount, Due(w)) <= w.Balance()
    case SenderCanPay => Payment(w, call) <= BalanceOf(w.balances, w.info.sender)
    case DepositFits => Payment(w, call) <= I128_MAX
    case ScheduleFits => Max(w.info.startTime, w.info.endTime) + (w.now - w.info.pausedAt) <= U64_MAX
    case EndFits => call.ExtendDuration? ==> w.info.endTime + call.extraSeconds <= U64_MAX
  }

  /** Check number `i` is the first that does not pass. */
  predicate FailsFirst(w: World, signers: set<Address>, call: Call, i: nat) {
    && i < |Checks(call)|
    && !Passes(w, signers, call, Checks(call)[i])
    && forall j :: 0 <= j < i ==> Passes(w, signers, call, Checks(call)[j])
  }

  /** What a call pays to the recipient, returns to the sender and takes from the sender. */
  function Transfers(w: World, call: Call): (int, int, int) {
    match call
    case Withdraw(amount) => (Min(amount, Due(w)), 0, 0)
    case Cancel => (Min(Due(w), w.Balance()), w.Balance() - Min(Due(w), w.Balance()), 0)
    case ForceCancel => (Min(Due(w), w.Balance()), w.Balance() - Min(Due(w), w.Balance()), 0)
    case Clawback => (0, w.Balance() - Min(Due(w), w.Balance()), 0)
    case TopUp(amount) => (0, 0, amount)
    case ExtendDuration(seconds) => (0, 0, w.info.rate * seconds)
    case _ => (0, 0, 0)
  }

  /** The flag words agree but for the one bit. */
  predicate SameFlagsBut(bit: bv32, before: bv32, after: bv32) { before | bit == after | bit }

  predicate MarksCancelled(before: StreamInfo, after: StreamInfo) {
    after == before.(flags := after.flags) && after.IsCancelled() && SameFlagsBut(4, before.flags, after.flags)
  }

  /** What a call changes in the record; every other field stays. */
  predicate Changes(w: World, call: Call, after: StreamInfo) {
    match call
    case Withdraw(amount) => after == w.info.(withdrawn := after.withdrawn)
                             && after.withdrawn == w.info.withdrawn + Min(amount, Due(w))
    case Cancel => MarksCancelled(w.info, after)
    case ForceCancel => MarksCancelled(w.info, after)
    case Pause => after == w.info.(flags := after.flags, pausedAt := w.now)
                  && after.IsPaused() && SameFlagsBut(1, w.info.flags, after.flags)
    case Resume =>
      && after == w.info.(flags := after.flags, startTime := after.startTime, endTime := after.endTime, pausedAt := 0)
      && !after.IsPaused() && SameFlagsBut(1, w.info.flags, after.flags)
      && after.startTime == w.info.startTime + (w.now - w.info.pausedAt)
      && (if w.info.endTime == 0 then after.endTime == 0
          else after.endTime == w.info.endTime + (w.now - w.info.pausedAt))
    case TopUp(_) => after == w.info
    case ExtendDuration(seconds) =>
      after == w.info.(endTime := after.endTime) && after.endTime == w.info.endTime + seconds
    case Clawback => after == w.info
    case TransferRecipient(newRecipient) => after == w.info.(recipient := newRecipient)
  }

  /** The whole effect of a call that goes through. */
  ghost predicate Does(w: World, call: Call, next: Next) {
    && next.reply.Done?
    && (next.reply.paid, next.reply.returned, next.reply.deposited) == Transfers(w, call)
    && Changes(w, call, next.world.info)
    && next.world.now == w.now && next.world.self == w.self
    && MovedAsReplied(w, next)
  }

  lemma AccrualAnswersExactly(w: World)
    requires Inv(w)
    ensures StreamedAmount(w.info, w.now)
         == if PausedBeforeStart(w.info, w.now) || w.info.rate * CountedSeconds(w.info, w.now) > I128_MAX
            then Err(ArithmeticOverflow) else Ok(w.info.rate * CountedSeconds(w.info, w.now))
    ensures StreamedAmount(w.info, w.now).Ok? ==> Withdrawable(w.info, w.now) == Ok(Due(w))
    ensures StreamedAmount(w.info, w.now).Err? ==> Withdrawable(w.info, w.now) == Err(ArithmeticOverflow)
  {
    StreamedFailsExactly(w);
  }

  predicate AllPass(w: World, signers: set<Address>, call: Call) {
    forall i :: 0 <= i < |Checks(call)| ==> Passes(w, signers, call, Checks(call)[i])
  }

  /** A withdrawal pays the smaller of the request and what is due, on every stream, funded or not. */
  lemma WithdrawPaysExactly(w: World, signers: set<Address>, amount: i128)
    requires Inv(w) && WithdrawStep(w, signers, amount).reply.Done?
    ensures WithdrawStep(w, signers, amount).reply.paid == Min(amount, Due(w)) > 0
    ensures WithdrawStep(w, signers, amount).world.info.withdrawn == w.info.withdrawn + Min(amount, Due(w))
  {
    AccrualAnswersExactly(w);
  }

  lemma CancelFlags(flags: bv32)
    ensures SameFlagsBut(4, flags, WithCancel(flags))
  {
  }

  lemma PauseFlags(flags: bv32)
    ensures SameFlagsBut(1, flags, WithPause(flags))
  {
  }

  lemma ResumeFlags(flags: bv32)
    ensures SameFlagsBut(1, flags, WithoutPause(flags))
  {
  }

  /** The call does what the table says if all its checks pass, and fails with the error of the first that does not. */
  ghost predicate Answered(w: World, signers: set<Address>, call: Call) {
    && (AllPass(w, signers, call) ==> Does(w, call, InvokeStep(w, signers, call)))
    && Refuses(w, signers, call)
  }

  ghost predicate Refuses(w: World, signers: set<Address>, call: Call) {
    forall i: nat :: FailsFirst(w, signers, call, i) ==>
      InvokeStep(w, signers, call) == Fail(w, ErrorOf(Checks(call)[i]))
  }

  lemma WithdrawAnswers(w: World, signers: set<Address>, amount: i128)
    requires Inv(w) && Backed(w)
    ensures Answered(w, signers, Withdraw(amount))
  {
    var call := Withdraw(amount);
    var c := Checks(call);
    assert c[0] == AmountIsPositive && c[1] == IsLive && c[2] == RecipientSigned;
    assert c[3] == AccrualAnswers && c[4] == SomethingIsDue && c[5] == BalanceCovers;
    WithdrawRefuses(w, signers, amount);
    if AllPass(w, signers, call) {
      assert Passes(w, signers, call, c[0]) && Passes(w, signers, call, c[1]) && Passes(w, signers, call, c[2]);
      assert Passes(w, signers, call, c[3]) && Passes(w, signers, call, c[4]) && Passes(w, signers, call, c[5]);
      AccrualAnswersExactly(w);
      TransferSucceedsExactly(w.balances, w.self, w.info.recipient, Min(amount, Due(w)));
      WithdrawMovesAsReplied(w, signers, amount);
    }
  }

  lemma WithdrawRefuses(w: World, signers: set<Address>, amount: i128)
    requires Inv(w) && Backed(w)
    ensures Refuses(w, signers, Withdraw(amount))
  {
    var c := Checks(Withdraw(amount));
    assert c[0] == AmountIsPositive && c[1] == IsLive && c[2] == RecipientSigned;
    assert c[3] == AccrualAnswers && c[4] == SomethingIsDue && c[5] == BalanceCovers;
    AccrualAnswersExactly(w);
    if Due(w) > 0 && amount > 0 && Withdrawable(w.info, w.now).Ok? {
      TransferSucceedsExactly(w.balances, w.self, w.info.recipient, Min(amount, Due(w)));
    }
  }

  lemma CancelAnswers(w: World, signers: set<Address>)
    requires Inv(w) && Backed(w)
    ensures Answered(w, signers, Cancel)
  {
    var c := Checks(Cancel);
    assert c[0] == IsLive && c[1] == SenderSigned && c[2] == AccrualAnswers;
    CancelRefuses(w, signers);
    if AllPass(w, signers, Cancel) {
      assert Passes(w, signers, Cancel, c[0]) && Passes(w, signers, Cancel, c[1]) && Passes(w, signers, Cancel, c[2]);
      AccrualAnswersExactly(w);
      SettlementDoes(w);
      assert InvokeStep(w, signers, Cancel) == Settle(w);
    }
  }

  lemma CancelRefuses(w: World, signers: set<Address>)
    requires Inv(w)
    ensures Refuses(w, signers, Cancel)
  {
    var c := Checks(Cancel);
    assert c[0] == IsLive && c[1] == SenderSigned && c[2] == AccrualAnswers;
    AccrualAnswersExactly(w);
  }

  lemma SettlementDoes(w: World)
    requires Inv(w) && Backed(w)
    ensures StreamedAmount(w.info, w.now).Ok? ==> Does(w, Cancel, Settle(w)) && Does(w, ForceCancel, Settle(w))
    ensures StreamedAmount(w.info, w.now).Err? ==> Settle(w) == Fail(w, ArithmeticOverflow)
  {
    AccrualAnswersExactly(w);
    SettleSucceedsExactly(w);
    SettleMovesAsReplied(w);
    CancelFlags(w.info.flags);
  }

  lemma PauseAnswers(w: World, signers: set<Address>)
    requires Inv(w) && Backed(w)
    ensures Answered(w, signers, Pause)
  {
    var c := Checks(Pause);
    assert c[0] == IsLive && c[1] == IsRunning && c[2] == SenderSigned && c[3] == AccrualAnswers;
    PauseRefuses(w, signers);
    if AllPass(w, signers, Pause) {
      assert Passes(w, signers, Pause, c[0]) && Passes(w, signers, Pause, c[1]);
      assert Passes(w, signers, Pause, c[2]) && Passes(w, signers, Pause, c[3]);
      AccrualAnswersExactly(w);
      PauseFlags(w.info.flags);
      assert InvokeStep(w, signers, Pause) == Next(w.(info := MarkPaused(w.info, w.now)), Done(0, 0, 0));
    }
  }

  lemma PauseRefuses(w: World, signers: set<Address>)
    requires Inv(w)
    ensures Refuses(w, signers, Pause)
  {
    var c := Checks(Pause);
    assert c[0] == IsLive && c[1] == IsRunning && c[2] == SenderSigned && c[3] == AccrualAnswers;
    AccrualAnswersExactly(w);
  }

  lemma ResumeAnswers(w: World, signers: set<Address>)
    requires Inv(w) && Backed(w)
    ensures Answered(w, signers, Resume)
  {
    var c := Checks(Resume);
    assert c[0] == IsLive && c[1] == IsPaused && c[2] == SenderSigned && c[3] == ScheduleFits;
    ResumeFlags(w.info.flags);
    CallMovesAsReplied(w, signers, Resume);
  }

  lemma TopUpAnswers(w: World, signers: set<Address>, amount: i128)
    requires Inv(w) && Backed(w)
    ensures Answered(w, signers, TopUp(amount))
  {
    var c := Checks(TopUp(amount));
    assert c[0] == AmountIsPositive && c[1] == SenderSigned && c[2] == IsLive && c[3] == SenderCanPay;
    TransferSucceedsExactly(w.balances, w.info.sender, w.self, amount);
    TopUpMovesAsReplied(w, signers, amount);
  }

  lemma ExtendAnswers(w: World, signers: set<Address>, seconds: u64)
    requires Inv(w) && Backed(w)
    ensures Answered(w, signers, ExtendDuration(seconds))
  {
    var call := ExtendDuration(seconds);
    var c := Checks(call);
    assert c[0] == SecondsArePositive && c[1] == IsLive && c[2] == SenderSigned && c[3] == HasAnEnd;
    assert c[4] == DepositFits && c[5] == SenderCanPay && c[6] == EndFits;
    ExtendRefuses(w, signers, seconds);
    if AllPass(w, signers, call) {
      assert Passes(w, signers, call, c[0]) && Passes(w, signers, call, c[1]) && Passes(w, signers, call, c[2]);
      assert Passes(w, signers, call, c[3]) && Passes(w, signers, call, c[4]) && Passes(w, signers, call, c[5]);
      assert Passes(w, signers, call, c[6]);
      DepositIsPayment(w, seconds);
      ExtendMovesAsReplied(w, signers, seconds);
    }
  }

  /** The deposit is non-negative, and whether it fits and is there decides its transfer. */
  lemma DepositIsPayment(w: World, seconds: u64)
    requires Inv(w) && Backed(w)
    ensures seconds * w.info.rate == Payment(w, ExtendDuration(seconds)) >= 0
    ensures FitsI128(seconds * w.info.rate) ==>
              Transfer(w.balances, w.info.sender, w.self, seconds * w.info.rate).Some?
                == (Payment(w, ExtendDuration(seconds)) <= BalanceOf(w.balances, w.info.sender))
  {
    MulMonotone(w.info.rate, 0, seconds);
    assert seconds * w.info.rate == w.info.rate * seconds;
    if FitsI128(seconds * w.info.rate) {
      TransferSucceedsExactly(w.balances, w.info.sender, w.self, seconds * w.info.rate);
    }
  }

  lemma ExtendRefuses(w: World, signers: set<Address>, seconds: u64)
    requires Inv(w) && Backed(w)
    ensures Refuses(w, signers, ExtendDuration(seconds))
  {
    var c := Checks(ExtendDuration(seconds));
    assert c[0] == SecondsArePositive && c[1] == IsLive && c[2] == SenderSigned && c[3] == HasAnEnd;
    assert c[4] == DepositFits && c[5] == SenderCanPay && c[6] == EndFits;
    DepositIsPayment(w, seconds);
  }

  lemma ClawbackAnswers(w: World, signers: set<Address>)
    requires Inv(w) && Backed(w)
    ensures Answered(w, signers, Clawback)
  {
    var c := Checks(Clawback);
    assert c[0] == IsLive && c[1] == ClawbackIsEnabled && c[2] == SenderSigned && c[3] == AccrualAnswers;
    ClawbackRefuses(w, signers);
    if AllPass(w, signers, Clawback) {
      assert Passes(w, signers, Clawback, c[0]) && Passes(w, signers, Clawback, c[1]);
      assert Passes(w, signers, Clawback, c[2]) && Passes(w, signers, Clawback, c[3]);
      AccrualAnswersExactly(w);
      ClawbackSucceedsExactly(w, signers);
      ClawbackMovesAsReplied(w, signers);
    }
  }

  lemma ClawbackRefuses(w: World, signers: set<Address>)
    requires Inv(w) && Backed(w)
    ensures Refuses(w, signers, Clawback)
  {
    var c := Checks(Clawback);
    assert c[0] == IsLive && c[1] == ClawbackIsEnabled && c[2] == SenderSigned && c[3] == AccrualAnswers;
    AccrualAnswersExactly(w);
  }

  lemma ForceCancelAnswers(w: World, signers: set<Address>)
    requires Inv(w) && Backed(w)
    ensures Answered(w, signers, ForceCancel)
  {
    var c := Checks(ForceCancel);
    assert c[0] == IsLive && c[1] == IsPaused && c[2] == PausedThirtyDays;
    assert c[3] == RecipientSigned && c[4] == AccrualAnswers;
    ForceCancelRefuses(w, signers);
    if AllPass(w, signers, ForceCancel) {
      assert Passes(w, signers, ForceCancel, c[0]) && Passes(w, signers, ForceCancel, c[1]);
      assert Passes(w, signers, ForceCancel, c[2]) && Passes(w, signers, ForceCancel, c[3]);
      assert Passes(w, signers, ForceCancel, c[4]);
      AccrualAnswersExactly(w);
      SettlementDoes(w);
      assert InvokeStep(w, signers, ForceCancel) == Settle(w);
    }
  }

  lemma ForceCancelRefuses(w: World, signers: set<Address>)
    requires Inv(w)
    ensures Refuses(w, signers, ForceCancel)
  {
    var c := Checks(ForceCancel);
    assert c[0] == IsLive && c[1] == IsPaused && c[2] == PausedThirtyDays;
    assert c[3] == RecipientSigned && c[4] == AccrualAnswers;
    AccrualAnswersExactly(w);
  }

  lemma TransferRecipientAnswers(w: World, signers: set<Address>, newRecipient: Address)
    requires Inv(w) && Backed(w)
    ensures Answered(w, signers, TransferRecipient(newRecipient))
  {
    var c := Checks(TransferRecipient(newRecipient));
    assert c[0] == IsLive && c[1] == RecipientSigned;
    CallMovesAsReplied(w, signers, TransferRecipient(newRecipient));
  }

  /**
   In every well-formed state each call has exactly the table's answer: its whole effect, down to the
   amounts and the record, if all checks pass, and otherwise the error of the first that does not, with
   nothing changed.
   */
  lemma CallAnswersExactly(w: World, signers: set<Address>, call: Call)
    requires Inv(w) && Backed(w)
    ensures Answered(w, signers, call)
  {
    match call
    case Withdraw(amount) => WithdrawAnswers(w, signers, amount);
    case Cancel => CancelAnswers(w, signers);
    case Pause => PauseAnswers(w, signers);
    case Resume => ResumeAnswers(w, signers);
    case TopUp(amount) => TopUpAnswers(w, signers, amount);
    case ExtendDuration(seconds) => ExtendAnswers(w, signers, seconds);
    case Clawback => ClawbackAnswers(w, signers);
    case ForceCancel => ForceCancelAnswers(w, signers);
    case TransferRecipient(newRecipient) => TransferRecipientAnswers(w, signers, newRecipient);
  }

  /** Unless all checks pass, one is the first that does not. */
  lemma SomeCheckFailsFirst(w: World, signers: set<Address>, call: Call, n: nat) returns (i: nat)
    requires n < |Checks(call)| && !Passes(w, signers, call, Checks(call)[n])
    ensures i <= n && FailsFirst(w, signers, call, i)
  {
    if j :| 0 <= j < n && !Passes(w, signers, call, Checks(call)[j]) {
      i := SomeCheckFailsFirst(w, signers, call, j);
    } else {
      i := n;
    }
  }

  /** So a call goes through exactly if all checks pass, and an error it returns names one that really fails. */
  lemma RefusalsAreGenuine(w: World, signers: set<Address>, call: Call)
    requires Inv(w) && Backed(w)
    ensures InvokeStep(w, signers, call).reply.Done? <==> AllPass(w, signers, call)
    ensures InvokeStep(w, signers, call).reply.Failed? ==>
              exists i: nat :: FailsFirst(w, signers, call, i)
                               && InvokeStep(w, signers, call).reply.error == ErrorOf(Checks(call)[i])
  {
    CallAnswersExactly(w, signers, call);
    if n :| 0 <= n < |Checks(call)| && !Passes(w, signers, call, Checks(call)[n]) {
      var i := SomeCheckFailsFirst(w, signers, call, n);
    }
  }

  /** What each error tells the caller. */
  predicate Means(w: World, call: Call, e: Error) {
    match e
    case StreamCancelled => w.info.IsCancelled()
    case NothingToWithdraw => call.Withdraw? && Due(w) == 0
    case InvalidTimeRange => call.ExtendDuration? && (call.extraSeconds == 0 || w.info.endTime == 0)
    case AlreadyPaused => call.Pause? && w.info.IsPaused()
    case NotPaused => (call.Resume? || call.ForceCancel?) && !w.info.IsPaused()
    case ClawbackDisabled => call.Clawback? && !w.info.IsClawbackEnabled()
    case ArithmeticOverflow =>
      || PausedBeforeStart(w.info, w.now)
      || w.info.rate * CountedSeconds(w.info, w.now) > I128_MAX
      || Payment(w, call) > I128_MAX
      || (call.ExtendDuration? && w.info.endTime + call.extraSeconds > U64_MAX)
    case PauseThresholdNotMet => call.ForceCancel? && w.info.IsPaused() && w.now - w.info.pausedAt < 2_592_000
    case AlreadyInitialized => false
    case InvalidAmount => (call.Withdraw? || call.TopUp?) && call.amount <= 0
    case HostTrap => true
  }

  /** No error says what is not so. */
  lemma ErrorsAreTrue(w: World, signers: set<Address>, call: Call)
    requires Inv(w) && Backed(w) && InvokeStep(w, signers, call).reply.Failed?
    ensures Means(w, call, InvokeStep(w, signers, call).reply.error)
  {
    RefusalsAreGenuine(w, signers, call);
    var i: nat :| FailsFirst(w, signers, call, i)
                  && InvokeStep(w, signers, call).reply.error == ErrorOf(Checks(call)[i]);
    CheckBelongs(call, i);
    EarlierChecks(w, signers, call, i);
  }

  /** Which calls make which checks. */
  lemma CheckBelongs(call: Call, i: nat)
    requires i < |Checks(call)|
    ensures var check := Checks(call)[i];
            && (check.AmountIsPositive? ==> call.Withdraw? || call.TopUp?)
            && (check.SecondsArePositive? || check.HasAnEnd? || check.EndFits? ==> call.ExtendDuration?)
            && (check.IsRunning? ==> call.Pause?)
            && (check.IsPaused? ==> call.Resume? || call.ForceCancel?)
            && (check.PausedThirtyDays? ==> call.ForceCancel? && i == 2)
            && (check.ClawbackIsEnabled? ==> call.Clawback?)
            && (check.SomethingIsDue? ==> call.Withdraw?)
  {
  }

  /** The thirty days are counted only once the stream is known to be paused. */
  lemma EarlierChecks(w: World, signers: set<Address>, call: Call, i: nat)
    requires FailsFirst(w, signers, call, i)
    ensures Checks(call)[i].PausedThirtyDays? ==> w.info.IsPaused()
  {
    CheckBelongs(call, i);
    if Checks(call)[i].PausedThirtyDays? { assert Passes(w, signers, call, Checks(call)[1]); }
  }

  /** A cancelled stream says so, to every call whose argument is good (and, for a top-up, signed). */
  lemma CancelledStreamSaysSo(w: World, signers: set<Address>, call: Call)
    requires w.info.IsCancelled()
    requires (call.Withdraw? || call.TopUp?) ==> call.amount > 0
    requires call.ExtendDuration? ==> call.extraSeconds > 0
    requires call.TopUp? ==> w.info.sender in signers
    ensures InvokeStep(w, signers, call) == Fail(w, StreamCancelled)
  {
  }

  // ---- Everything else that is asked of a stream, or happens to it ----

  /** Time passes by exactly the seconds asked for, while the clock has room; nothing else happens. */
  lemma TimePassesExactly(w: World, seconds: u64)
    ensures Step(w, Advance(seconds)).world
         == if w.now + seconds <= U64_MAX then w.(now := w.now + seconds) else w
    ensures Step(w, Advance(seconds)).reply.Done? <==> w.now + seconds <= U64_MAX
  {
  }

  /** Others move what they have, between any two holders but never out of the stream; the record stays. */
  lemma OthersMoveTheirOwn(w: World, source: Address, target: Address, amount: i128)
    requires Backed(w)
    ensures var next := Step(w, Outside(source, target, amount));
            && (next.reply.Done? <==> source != w.self && 0 <= amount <= BalanceOf(w.balances, source))
            && (next.reply.Failed? ==> next.world == w)
            && next.world == w.(balances := next.world.balances)
            && (next.reply.Done? ==>
                  forall a :: BalanceOf(next.world.balances, a)
                    == BalanceOf(w.balances, a) + Indicator(a == target, amount) - Indicator(a == source, amount))
  {
    TransferSucceedsExactly(w.balances, source, target, amount);
    if Step(w, Outside(source, target, amount)).reply.Done? { TransferConserves(w.balances, source, target, amount); }
  }

  /** The two views: zero on a cancelled stream or where the formula errs, and otherwise what has accrued and is due. */
  lemma ViewsExactly(w: World)
    requires Inv(w)
    ensures var answers := !w.info.IsCancelled() && !PausedBeforeStart(w.info, w.now)
                           && w.info.rate * CountedSeconds(w.info, w.now) <= I128_MAX;
            && StreamedTotalView(w) == (if answers then w.info.rate * CountedSeconds(w.info, w.now) else 0)
            && WithdrawableView(w) == (if answers then Due(w) else 0)
  {
    AccrualAnswersExactly(w);
  }

  /** `initialize` accepts exactly a positive rate and an end, if any, after the start; the record is as asked. */
  lemma InitializedExactly(sender: Address, recipient: Address, token: Address, rate: i128,
                           startTime: u64, endTime: u64, clawback: bool)
    ensures var r := Initialized(sender, recipient, token, rate, startTime, endTime, clawback);
            && (r.Some? <==> rate > 0 && (endTime == 0 || startTime < endTime))
            && (r.Some? ==>
                  && r.value.sender == sender && r.value.recipient == recipient && r.value.token == token
                  && r.value.rate == rate && r.value.startTime == startTime && r.value.endTime == endTime
                  && r.value.withdrawn == 0 && r.value.pausedAt == 0
                  && r.value.flags == if clawback then 2 else 0)
  {
  }
}
