/**
 One stream as a state machine: its record, the balances of its token and the ledger time.
 Every entry point is a function to the next world; a failed call changes nothing.
 */
module StreamMachine {
  import opened Host
  import opened Token
  import opened StreamStorage
  import opened StreamMath

  const PAUSE_THRESHOLD_SECS: u64 := 2_592_000

  datatype Call =
    | Withdraw(amount: i128)
    | Cancel
    | Pause
    | Resume
    | TopUp(amount: i128)
    | ExtendDuration(extraSeconds: u64)
    | Clawback
    | ForceCancel
    | TransferRecipient(newRecipient: Address)

  /** A call signed by `signers`, the passage of time, or a transfer among other holders. */
  datatype Action =
    | Invoke(signers: set<Address>, call: Call)
    | Advance(seconds: u64)
    | Outside(source: Address, target: Address, amount: i128)

  datatype World = World(now: u64, self: Address, info: StreamInfo, balances: Balances)
  {
    function Balance(): Amount { BalanceOf(balances, self) }
  }

  /** What a successful call paid to the recipient, returned to the sender and took from the sender. */
  datatype Reply =
    | Done(paid: Amount, returned: Amount, deposited: Amount)
    | Failed(error: Error)

  datatype Next = Next(world: World, reply: Reply)

  function Fail(w: World, e: Error): Next { Next(w, Failed(e)) }

  /** The record `initialize` writes; None is one of its panics. */
  function Initialized(sender: Address, recipient: Address, token: Address, rate: i128,
                       startTime: u64, endTime: u64, clawback: bool): Option<StreamInfo>
  {
    if rate <= 0 || (endTime > 0 && endTime <= startTime) then None
    else Some(StreamInfo(sender, recipient, token, rate, startTime, endTime, 0, 0,
                         if clawback then FLAG_CLAWBACK_ENABLED else 0))
  }

  function WithdrawStep(w: World, signers: set<Address>, amount: i128): Next {
    if amount <= 0 then Fail(w, InvalidAmount)
    else if w.info.IsCancelled() then Fail(w, StreamCancelled)
    else if w.info.recipient !in signers then Fail(w, HostTrap)
    else
      match Withdrawable(w.info, w.now)
      case Err(e) => Fail(w, e)
      case Ok(available) =>
        if available == 0 then Fail(w, NothingToWithdraw)
        else
          var toSend := Min(amount, available);
          if w.info.withdrawn + toSend > I128_MAX then Fail(w, ArithmeticOverflow)
          else
            match Transfer(w.balances, w.self, w.info.recipient, toSend)
            case None => Fail(w, HostTrap)
            case Some(b) =>
              Next(w.(info := w.info.(withdrawn := w.info.withdrawn + toSend), balances := b), Done(toSend, 0, 0))
  }

  function PayIfPositive(b: Balances, from: Address, to: Address, amount: Amount): Option<Balances> {
    if amount > 0 then Transfer(b, from, to, amount) else Some(b)
  }

  function PayBoth(b: Balances, from: Address, first: Address, owed: Amount, second: Address, refund: Amount)
    : Option<Balances>
  {
    match PayIfPositive(b, from, first, owed)
    case None => None
    case Some(b') => PayIfPositive(b', from, second, refund)
  }

  function MarkCancelled(info: StreamInfo): (r: StreamInfo)
    ensures r == info.(flags := r.flags)
    ensures r.IsCancelled() && r.IsPaused() == info.IsPaused() && r.IsClawbackEnabled() == info.IsClawbackEnabled()
  {
    info.(flags := WithCancel(info.flags))
  }

  /** The settlement `cancel` and `force_cancel` share: recipient first, remainder to the sender. */
  function Settle(w: World): Next {
    match StreamedAmount(w.info, w.now)
    case Err(e) => Fail(w, e)
    case Ok(streamed) =>
      if !FitsI128(streamed - w.info.withdrawn) then Fail(w, HostTrap)
      else
        var owed: Amount := Min(Max(streamed - w.info.withdrawn, 0), w.Balance());
        var refund: Amount := Max(w.Balance() - owed, 0);
        match PayBoth(w.balances, w.self, w.info.recipient, owed, w.info.sender, refund)
        case None => Fail(w, HostTrap)
        case Some(b) => Next(w.(info := MarkCancelled(w.info), balances := b), Done(owed, refund, 0))
  }

  function CancelStep(w: World, signers: set<Address>): Next {
    if w.info.IsCancelled() then Fail(w, StreamCancelled)
    else if w.info.sender !in signers then Fail(w, HostTrap)
    else Settle(w)
  }

  function MarkPaused(info: StreamInfo, now: u64): (r: StreamInfo)
    ensures r == info.(flags := r.flags, pausedAt := now)
    ensures r.IsPaused() && r.IsCancelled() == info.IsCancelled() && r.IsClawbackEnabled() == info.IsClawbackEnabled()
  {
    info.(flags := WithPause(info.flags), pausedAt := now)
  }

  function PauseStep(w: World, signers: set<Address>): Next {
    if w.info.IsCancelled() then Fail(w, StreamCancelled)
    else if w.info.IsPaused() then Fail(w, AlreadyPaused)
    else if w.info.sender !in signers then Fail(w, HostTrap)
    else
      match Withdrawable(w.info, w.now)
      case Err(e) => Fail(w, e)
      case Ok(_) => Next(w.(info := MarkPaused(w.info, w.now)), Done(0, 0, 0))
  }

  /** Clears the pause and moves the whole schedule later by the paused time. */
  function ShiftSchedule(info: StreamInfo, pausedSeconds: u64): (r: StreamInfo)
    requires info.startTime + pausedSeconds <= U64_MAX
    requires info.endTime > 0 ==> info.endTime + pausedSeconds <= U64_MAX
    ensures r == info.(flags := r.flags, pausedAt := 0, startTime := info.startTime + pausedSeconds,
                       endTime := if info.endTime > 0 then info.endTime + pausedSeconds else 0)
    ensures !r.IsPaused() && r.IsCancelled() == info.IsCancelled() && r.IsClawbackEnabled() == info.IsClawbackEnabled()
  {
    info.(flags := WithoutPause(info.flags), pausedAt := 0, startTime := info.startTime + pausedSeconds,
          endTime := if info.endTime > 0 then info.endTime + pausedSeconds else 0)
  }

  function ResumeStep(w: World, signers: set<Address>): Next {
    if w.info.IsCancelled() then Fail(w, StreamCancelled)
    else if !w.info.IsPaused() then Fail(w, NotPaused)
    else if w.info.sender !in signers then Fail(w, HostTrap)
    else if w.now < w.info.pausedAt then Fail(w, HostTrap)
    else
      var pausedSeconds := w.now - w.info.pausedAt;
      if w.info.startTime + pausedSeconds > U64_MAX then Fail(w, HostTrap)
      else if w.info.endTime > 0 && w.info.endTime + pausedSeconds > U64_MAX then Fail(w, HostTrap)
      else Next(w.(info := ShiftSchedule(w.info, pausedSeconds)), Done(0, 0, 0))
  }

  function TopUpStep(w: World, signers: set<Address>, amount: i128): Next {
    if amount <= 0 then Fail(w, InvalidAmount)
    else if w.info.sender !in signers then Fail(w, HostTrap)
    else if w.info.IsCancelled() then Fail(w, StreamCancelled)
    else
      match Transfer(w.balances, w.info.sender, w.self, amount)
      case None => Fail(w, HostTrap)
      case Some(b) => Next(w.(balances := b), Done(0, 0, amount))
  }

  function ExtendStep(w: World, signers: set<Address>, extraSeconds: u64): Next {
    if extraSeconds == 0 then Fail(w, InvalidTimeRange)
    else if w.info.IsCancelled() then Fail(w, StreamCancelled)
    else if w.info.sender !in signers then Fail(w, HostTrap)
    else if w.info.endTime == 0 then Fail(w, InvalidTimeRange)
    else if !FitsI128(extraSeconds * w.info.rate) then Fail(w, ArithmeticOverflow)
    else
      var deposit: i128 := extraSeconds * w.info.rate;
      match Transfer(w.balances, w.info.sender, w.self, deposit)
      case None => Fail(w, HostTrap)
      case Some(b) =>
        if w.info.endTime + extraSeconds > U64_MAX then Fail(w, ArithmeticOverflow)
        else Next(w.(info := w.info.(endTime := w.info.endTime + extraSeconds), balances := b), Done(0, 0, deposit))
  }

  function ClawbackStep(w: World, signers: set<Address>): Next {
    if w.info.IsCancelled() then Fail(w, StreamCancelled)
    else if !w.info.IsClawbackEnabled() then Fail(w, ClawbackDisabled)
    else if w.info.sender !in signers then Fail(w, HostTrap)
    else
      match StreamedAmount(w.info, w.now)
      case Err(e) => Fail(w, e)
      case Ok(streamed) =>
        if !FitsI128(streamed - w.info.withdrawn) then Fail(w, HostTrap)
        else
          var excess: Amount := Max(w.Balance() - Max(streamed - w.info.withdrawn, 0), 0);
          match PayIfPositive(w.balances, w.self, w.info.sender, excess)
          case None => Fail(w, HostTrap)
          case Some(b) => Next(w.(balances := b), Done(0, excess, 0))
  }

  function ForceCancelStep(w: World, signers: set<Address>): Next {
    if w.info.IsCancelled() then Fail(w, StreamCancelled)
    else if !w.info.IsPaused() then Fail(w, NotPaused)
    else if Max(w.now - w.info.pausedAt, 0) < PAUSE_THRESHOLD_SECS then Fail(w, PauseThresholdNotMet)
    else if w.info.recipient !in signers then Fail(w, HostTrap)
    else Settle(w)
  }

  function TransferRecipientStep(w: World, signers: set<Address>, newRecipient: Address): Next {
    if w.info.IsCancelled() then Fail(w, StreamCancelled)
    else if w.info.recipient !in signers then Fail(w, HostTrap)
    else Next(w.(info := w.info.(recipient := newRecipient)), Done(0, 0, 0))
  }

  function InvokeStep(w: World, signers: set<Address>, call: Call): Next {
    match call
    case Withdraw(amount) => WithdrawStep(w, signers, amount)
    case Cancel => CancelStep(w, signers)
    case Pause => PauseStep(w, signers)
    case Resume => ResumeStep(w, signers)
    case TopUp(amount) => TopUpStep(w, signers, amount)
    case ExtendDuration(extraSeconds) => ExtendStep(w, signers, extraSeconds)
    case Clawback => ClawbackStep(w, signers)
    case ForceCancel => ForceCancelStep(w, signers)
    case TransferRecipient(newRecipient) => TransferRecipientStep(w, signers, newRecipient)
  }

  /** The stream's own address never signs, so nobody else can move its tokens. */
  function OutsideStep(w: World, source: Address, target: Address, amount: i128): Next {
    if source == w.self then Fail(w, HostTrap)
    else
      match Transfer(w.balances, source, target, amount)
      case None => Fail(w, HostTrap)
      case Some(b) => Next(w.(balances := b), Done(0, 0, 0))
  }

  function Step(w: World, action: Action): Next {
    match action
    case Invoke(signers, call) => InvokeStep(w, signers, call)
    case Advance(seconds) =>
      if w.now + seconds > U64_MAX then Fail(w, HostTrap) else Next(w.(now := w.now + seconds), Done(0, 0, 0))
    case Outside(source, target, amount) => OutsideStep(w, source, target, amount)
  }

  /** One observed step: when, who was recipient, what was attempted and what came back. */
  datatype Event = Event(at: u64, recipient: Address, action: Action, reply: Reply)

  datatype Run = Run(world: World, trace: seq<Event>)

  function Execute(w: World, actions: seq<Action>): (r: Run)
    ensures |r.trace| == |actions|
    ensures r.world.self == w.self
  {
    if |actions| == 0 then Run(w, [])
    else
      var before := Execute(w, actions[..|actions| - 1]);
      var action := actions[|actions| - 1];
      var next := Step(before.world, action);
      Run(next.world, before.trace + [Event(before.world.now, before.world.info.recipient, action, next.reply)])
  }

  /** One more action is one more step. */
  lemma ExecuteSnoc(w: World, actions: seq<Action>, action: Action)
    ensures Execute(w, actions + [action]).world == Step(Execute(w, actions).world, action).world
  {
    assert (actions + [action])[..|actions|] == actions;
  }

  lemma ExecuteOne(w: World, action: Action)
    ensures Execute(w, [action]).world == Step(w, action).world
  {
    ExecuteSnoc(w, [], action);
    assert [] + [action] == [action];
  }

  lemma ExecuteTwo(w: World, a: Action, b: Action)
    ensures Execute(w, [a, b]).world == Step(Step(w, a).world, b).world
  {
    ExecuteOne(w, a);
    ExecuteSnoc(w, [a], b);
    assert [a] + [b] == [a, b];
  }

  lemma ExecuteThree(w: World, a: Action, b: Action, c: Action)
    ensures Execute(w, []).world == w
    ensures Execute(w, [a]).world == Step(w, a).world
    ensures Execute(w, [a, b]).world == Step(Step(w, a).world, b).world
    ensures Execute(w, [a, b, c]).world == Step(Step(Step(w, a).world, b).world, c).world
  {
    ExecuteSnoc(w, [], a);
    ExecuteSnoc(w, [a], b);
    ExecuteSnoc(w, [a, b], c);
    assert [] + [a] == [a] && [a] + [b] == [a, b] && [a, b] + [c] == [a, b, c];
  }

  /** Running a continuation is running it from where the first part ended. */
  lemma {:induction false} ExecuteConcat(w: World, first: seq<Action>, second: seq<Action>)
    ensures Execute(w, first + second).world == Execute(Execute(w, first).world, second).world
    ensures Execute(w, first + second).trace
         == Execute(w, first).trace + Execute(Execute(w, first).world, second).trace
  {
    if |second| == 0 {
      assert first + second == first;
    } else {
      var n := |second| - 1;
      assert (first + second)[..|first| + n] == first + second[..n];
      ExecuteConcat(w, first, second[..n]);
    }
  }

  /** The reply at a position is that of the step taken there. */
  lemma ReplyAt(w: World, actions: seq<Action>, i: nat)
    requires i < |actions|
    ensures Execute(w, actions).trace[i].reply == Step(Execute(w, actions[..i]).world, actions[i]).reply
  {
    ExecuteConcat(w, actions[..i + 1], actions[i + 1..]);
    assert actions[..i + 1] + actions[i + 1..] == actions;
    assert actions[..i + 1][..i] == actions[..i];
  }

  /** The two read-only views. */
  function WithdrawableView(w: World): i128 {
    if w.info.IsCancelled() then 0
    else
      match Withdrawable(w.info, w.now)
      case Ok(v) => v
      case Err(_) => 0
  }

  function StreamedTotalView(w: World): i128 {
    if w.info.IsCancelled() then 0
    else
      match StreamedAmount(w.info, w.now)
      case Ok(v) => v
      case Err(_) => 0
  }
}
