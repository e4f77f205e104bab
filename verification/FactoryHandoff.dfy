/** What a successful creation hands over, across the three contracts. */
module FactoryHandoff {
  import opened Host
  import opened Token
  import opened FactoryMachine
  import Governor
  import StreamMachine
  import StreamMath
  import StreamInvariants
  import StreamAccounting

  /** What admission means: the order of the checks only decides which error is reported. */
  predicate Admissible(w: World, q: Request) {
    && !IsPaused(w.store)
    && w.store.governor.Some?
    && w.governor.Some?
    && Governor.LoadConfig(w.governor.value).Ok?
    && var c := Governor.LoadConfig(w.governor.value).value;
    && 0 < q.rate <= c.maxRate
    && w.now <= q.startTime
    && if q.endTime == 0 then q.deposit >= q.rate
       else
         && 0 < q.endTime - q.startTime
         && c.minDuration <= q.endTime - q.startTime <= c.maxDuration
         && q.deposit >= q.rate * (q.endTime - q.startTime)
  }

  /** What an admission error says is wrong, whichever checks came before; no other error is reported. */
  predicate Fault(w: World, q: Request, e: Error) {
    match e
    case ContractPaused => IsPaused(w.store)
    case InvalidDeposit => q.deposit <= 0
    case InvalidRate => q.rate <= 0
    case InsufficientDeposit =>
      q.deposit < q.rate || (q.startTime < q.endTime && q.deposit < q.rate * (q.endTime - q.startTime))
    case InvalidTimeRange => 0 < q.endTime <= q.startTime
    case BackdatedStream => q.startTime < w.now
    case ArithmeticOverflow => q.rate * (q.endTime - q.startTime) > I128_MAX
    case NotInitialized => w.store.governor.None?
    case GovernorNotResponding => GovernorConfig(w.governor).Err?
    case RateExceedsMax => GovernorConfig(w.governor).Ok? && q.rate > GovernorConfig(w.governor).value.maxRate
    case DurationTooShort =>
      GovernorConfig(w.governor).Ok? && q.endTime - q.startTime < GovernorConfig(w.governor).value.minDuration
    case DurationExceedsMax =>
      GovernorConfig(w.governor).Ok? && q.endTime - q.startTime > GovernorConfig(w.governor).value.maxDuration
    case _ => false
  }

  /** A refusal names something really wrong. */
  lemma RefusalsAreGenuine(w: World, q: Request)
    requires AdmissionError(w, q).Some?
    ensures Fault(w, q, AdmissionError(w, q).value)
  {
  }

  /** A deposit covering the whole length covers the first second and is not an overflow. */
  lemma AdmittedExactly(w: World, q: Request)
    ensures AdmissionError(w, q).None? <==> Admissible(w, q)
  {
    if q.rate > 0 && q.endTime > q.startTime {
      MulMonotone(q.rate, 1, q.endTime - q.startTime);
    }
  }

  lemma AdmittedStreamInitializes(w: World, q: Request, sender: Address, clawback: bool)
    requires AdmissionError(w, q).None?
    ensures StreamMachine.Initialized(sender, q.recipient, q.token, q.rate, q.startTime, q.endTime, clawback).Some?
    ensures q.endTime > 0 ==> q.startTime < q.endTime && q.deposit >= q.rate * (q.endTime - q.startTime)
    ensures q.deposit >= q.rate > 0
  {
  }

  /** The two hops conserve the token, leave the factory as it was and move the deposit to the stream. */
  lemma ForwardMoves(b: Balances, sender: Address, factory: Address, stream: Address, deposit: i128)
    requires Forward(b, sender, factory, stream, deposit).Some?
    ensures var after := Forward(b, sender, factory, stream, deposit).value;
            && Sum(after) == Sum(b)
            && forall a ::
                 BalanceOf(after, a) == BalanceOf(b, a) + (if a == stream then deposit else 0)
                   - (if a == sender then deposit else 0)
  {
    TransferConserves(b, sender, factory, deposit);
    TransferConserves(Transfer(b, sender, factory, deposit).value, factory, stream, deposit);
  }

  lemma ForwardSucceedsExactly(b: Balances, sender: Address, factory: Address, stream: Address, deposit: i128)
    requires Sum(b) <= I128_MAX && deposit >= 0
    ensures Forward(b, sender, factory, stream, deposit).Some? <==> BalanceOf(b, sender) >= deposit
  {
    TransferSucceedsExactly(b, sender, factory, deposit);
    if Transfer(b, sender, factory, deposit).Some? {
      TransferConserves(b, sender, factory, deposit);
      TransferSucceedsExactly(Transfer(b, sender, factory, deposit).value, factory, stream, deposit);
    }
  }

  /** The factory is set up, its next address is free and its counter is not full. */
  predicate Ready(w: World) {
    && w.store.wasmHash.Some?
    && StreamAddress(w.self, Count(w.store)) !in w.streams
    && Count(w.store) < U64_MAX
  }

  /**
   A ready factory creates the stream exactly when the sender signed, the request is admitted and the
   sender can pay: `initialize` of the new stream never traps, and neither transfer can fail.
   */
  lemma CreateSucceedsExactly(w: World, signers: set<Address>, sender: Address, q: Request, clawback: bool)
    requires Ready(w) && Sum(BookOf(w.books, q.token)) <= I128_MAX
    ensures Create(w, signers, sender, q, clawback).Ok? <==>
              && sender in signers
              && Admissible(w, q)
              && BalanceOf(BookOf(w.books, q.token), sender) >= q.deposit
  {
    AdmittedExactly(w, q);
    if AdmissionError(w, q).None? {
      AdmittedStreamInitializes(w, q, sender, clawback);
      ForwardSucceedsExactly(BookOf(w.books, q.token), sender, w.self, StreamAddress(w.self, Count(w.store)),
                             q.deposit);
    }
  }

  /** The new stream as its own machine sees it. */
  function StreamWorld(w: World, addr: Address): StreamMachine.World
    requires addr in w.streams
  {
    StreamMachine.World(w.now, addr, w.streams[addr], BookOf(w.books, w.streams[addr].token))
  }

  /**
   What a creation hands over: a well-formed, live, unpaused stream on the requested terms, holding at
   least the deposit, fully funded if it has an end.
   */
  ghost predicate HandedOver(s: StreamMachine.World, sender: Address, q: Request, clawback: bool) {
    && StreamInvariants.Inv(s)
    && !s.info.IsPaused() && !s.info.IsCancelled() && s.info.IsClawbackEnabled() == clawback
    && s.info.sender == sender && s.info.recipient == q.recipient && s.info.token == q.token
    && s.info.rate == q.rate && s.info.startTime == q.startTime && s.info.endTime == q.endTime
    && s.info.withdrawn == 0
    && s.Balance() >= q.deposit
    && (q.endTime > 0 ==> StreamAccounting.FullyFunded(s))
  }

  /** The governor's bounds of this moment, and no backdating. */
  predicate WithinBounds(w: World, q: Request) {
    && GovernorConfig(w.governor).Ok?
    && w.now <= q.startTime
    && var c := GovernorConfig(w.governor).value;
    && q.rate <= c.maxRate
    && (q.endTime > 0 ==> c.minDuration <= q.endTime - q.startTime <= c.maxDuration)
  }

  /** Only `sender` paid and only `stream` received; the token's supply is what it was, as are all other tokens. */
  ghost predicate OnlyDepositMoved(before: map<Address, Balances>, after: map<Address, Balances>, token: Address,
                                   sender: Address, stream: Address, deposit: int)
  {
    && (forall t :: Sum(BookOf(after, t)) == Sum(BookOf(before, t)))
    && (forall t, a ::
          BalanceOf(BookOf(after, t), a)
            == BalanceOf(BookOf(before, t), a)
              + (if t == token && a == stream then deposit else 0)
              - (if t == token && a == sender then deposit else 0))
  }

  lemma CreateMovesOnlyDeposit(w: World, signers: set<Address>, sender: Address, q: Request, clawback: bool)
    requires Create(w, signers, sender, q, clawback).Ok?
    ensures var (after, id) := Create(w, signers, sender, q, clawback).value;
            OnlyDepositMoved(w.books, after.books, q.token, sender, StreamAddress(w.self, id), q.deposit)
  {
    ForwardMoves(BookOf(w.books, q.token), sender, w.self, StreamAddress(w.self, Count(w.store)), q.deposit);
  }

  /**
   The handoff from factory to stream, under the governor's bounds: the new stream is as requested and
   funded, no other stream changes, and only the sender paid (the factory's own balance is what it was).
   */
  lemma CreateHandsOver(w: World, signers: set<Address>, sender: Address, q: Request, clawback: bool)
    requires Create(w, signers, sender, q, clawback).Ok?
    requires sender != StreamAddress(w.self, Count(w.store))
    ensures var (after, id) := Create(w, signers, sender, q, clawback).value;
            var addr := StreamAddress(w.self, id);
            && id == Count(w.store)
            && addr !in w.streams
            && after.streams == w.streams[addr := after.streams[addr]]
            && HandedOver(StreamWorld(after, addr), sender, q, clawback)
            && WithinBounds(w, q)
            && OnlyDepositMoved(w.books, after.books, q.token, sender, addr, q.deposit)
  {
    var (after, id) := Create(w, signers, sender, q, clawback).value;
    AdmittedStreamInitializes(w, q, sender, clawback);
    CreateMovesOnlyDeposit(w, signers, sender, q, clawback);
    StreamInvariants.InitializedIsWellFormed(StreamWorld(after, StreamAddress(w.self, id)), sender, q.recipient,
                                             q.token, q.rate, q.startTime, q.endTime, clawback);
  }

  /**
   End to end: a fixed-length stream created without clawback can always cover what it says is
   withdrawable, whatever sequence of calls, transfers and time follows while it is live.
   */
  lemma CreatedStreamStaysSolvent(w: World, signers: set<Address>, sender: Address, q: Request,
                                  actions: seq<StreamMachine.Action>)
    requires Create(w, signers, sender, q, false).Ok? && q.endTime > 0
    requires sender != StreamAddress(w.self, Count(w.store))
    ensures var (after, id) := Create(w, signers, sender, q, false).value;
            StaysSolvent(StreamWorld(after, StreamAddress(w.self, id)), actions)
  {
    var (after, id) := Create(w, signers, sender, q, false).value;
    CreateHandsOver(w, signers, sender, q, false);
    CommittedStaysSolvent(StreamWorld(after, StreamAddress(w.self, id)), actions);
  }

  /** Unless the run cancels the stream, it ends fully funded and able to pay what is withdrawable. */
  predicate StaysSolvent(s: StreamMachine.World, actions: seq<StreamMachine.Action>) {
    var end := StreamMachine.Execute(s, actions).world;
    !end.info.IsCancelled() ==>
      && end.Balance() + end.info.withdrawn >= end.info.rate * (end.info.endTime - end.info.startTime)
      && (StreamMath.Withdrawable(end.info, end.now).Ok? ==>
            StreamMath.Withdrawable(end.info, end.now).value <= end.Balance())
  }

  lemma CommittedStaysSolvent(s: StreamMachine.World, actions: seq<StreamMachine.Action>)
    requires StreamInvariants.Inv(s) && StreamAccounting.Committed(s)
    ensures StaysSolvent(s, actions)
  {
    if !StreamMachine.Execute(s, actions).world.info.IsCancelled() {
      StreamAccounting.FundingOverRuns(s, actions);
    }
  }

  // ---- The governor's cross-check ----

  /** A fixed-length request of this rate and length, from now, funded as far as an i128 goes. */
  function Probe(now: u64, rate: i128, duration: u64, token: Address): Request
    requires now + duration <= U64_MAX
  {
    Request(Account(0), token, I128_MAX, rate, now, now + duration)
  }

  /** How long a request within the length bound can last from `now` on. */
  function LongestFrom(now: u64, maxDuration: u64): u64 { Min(maxDuration, U64_MAX - now) }

  /**
   The governor bounds max rate x min duration, but a request may last up to the max duration. For every
   setting of the bounds: no request within them meets the overflow error if and only if none is long
   enough to be admitted at all, or max rate x the longest possible duration fits an i128.
   */
  lemma BoundsExcludeOverflowExactly(now: u64, c: Governor.Config, token: Address)
    ensures (forall q: Request :: BoundsError(c, q.rate, q.startTime, q.endTime).None? ==>
              ValidationError(now, q) != Some(ArithmeticOverflow))
       <==> c.minDuration > LongestFrom(now, c.maxDuration)
              || c.maxRate * LongestFrom(now, c.maxDuration) <= I128_MAX
  {
    var longest := LongestFrom(now, c.maxDuration);
    if c.minDuration <= longest && c.maxRate * longest > I128_MAX {
      if c.maxRate <= 0 { MulMonotone(longest, c.maxRate, 0); }
      var q := Probe(now, c.maxRate, longest, token);
      assert BoundsError(c, q.rate, q.startTime, q.endTime).None?;
      assert ValidationError(now, q) == Some(ArithmeticOverflow);
    } else {
      forall q: Request | BoundsError(c, q.rate, q.startTime, q.endTime).None?
        ensures ValidationError(now, q) != Some(ArithmeticOverflow)
      {
        if q.rate > 0 && now <= q.startTime < q.endTime {
          MulMonotone(q.rate, 0, q.endTime - q.startTime);
          MulMonotone(q.rate, q.endTime - q.startTime, longest);
          MulMonotone(longest, q.rate, c.maxRate);
        }
      }
    }
  }

  /**
   And a reachable governor is set so: right after deployment its own cross-check accepts a maximum
   rate for which a request within all the bounds overflows.
   */
  lemma SettersAllowOverflow(a: Address, feeRecipient: Address, factory: Address, now: u64, token: Address)
    requires now + Governor.DEFAULT_MAX_DURATION <= U64_MAX
    ensures var history := [({}, Governor.Initialize(a, feeRecipient, factory)),
                            ({a}, Governor.SetMaxRate(a, I128_MAX / Governor.DEFAULT_MIN_DURATION))];
            var s := Governor.After(history);
            && Governor.LoadConfig(s).Ok?
            && var c := Governor.LoadConfig(s).value;
            && c.maxRate == I128_MAX / Governor.DEFAULT_MIN_DURATION
            && c.maxDuration == Governor.DEFAULT_MAX_DURATION
            && exists q: Request :: BoundsError(c, q.rate, q.startTime, q.endTime).None?
                                    && ValidationError(now, q) == Some(ArithmeticOverflow)
  {
    var init := ({}, Governor.Initialize(a, feeRecipient, factory));
    var rate := I128_MAX / Governor.DEFAULT_MIN_DURATION;
    var history := [init, ({a}, Governor.SetMaxRate(a, rate))];
    assert history[..1] == [init] && history[..1][..0] == [];
    var configured := Governor.Configured(Governor.BLANK, feeRecipient, factory);
    Governor.FirstGrants(configured, a);
    assert Governor.After(history[..1]) == Governor.InitializeStep(Governor.BLANK, a, feeRecipient, factory).value;
    var c := Governor.LoadConfig(Governor.After(history)).value;
    var q := Probe(now, rate, Governor.DEFAULT_MAX_DURATION, token);
    assert BoundsError(c, q.rate, q.startTime, q.endTime).None? && ValidationError(now, q) == Some(ArithmeticOverflow);
  }
}
