/**
 What the factory's calls ask, do and answer, stated apart from the steps that do it: the table of a
 creation's checks, batches as the calls they stand for, and what the maintenance calls leave behind.
 */
module FactoryCalls {
  import opened Host
  import opened Token
  import opened FactoryMachine
  import opened FactoryHandoff
  import opened FactoryRegistry
  import Governor
  import GovernorCalls
  import StreamCalls
  import StreamMachine
  import StreamStorage
  import Walker

  // ---- One creation ----

  datatype Check =
    | SenderSigned
    | NotHalted
    | DepositIsPositive
    | RateIsPositive
    | CoversOneSecond
    | EndsAfterStart
    | NotBackdated
    | TotalFits
    | CoversTheLength
    | GovernorIsKnown
    | GovernorAnswers
    | RateWithinMax
    | LongEnough
    | ShortEnough
    | SenderCanPay
    | CodeIsKnown
    | AddressIsFree
    | CounterHasRoom

  /** The checks of a creation, in the order in which they decide. */
  const CHECKS: seq<Check> :=
    [SenderSigned, NotHalted, DepositIsPositive, RateIsPositive, CoversOneSecond, EndsAfterStart, NotBackdated,
     TotalFits, CoversTheLength, GovernorIsKnown, GovernorAnswers, RateWithinMax, LongEnough, ShortEnough,
     SenderCanPay, CodeIsKnown, AddressIsFree, CounterHasRoom]

  function ErrorOf(check: Check): Error {
    match check
    case SenderSigned => HostTrap
    case NotHalted => ContractPaused
    case DepositIsPositive => InvalidDeposit
    case RateIsPositive => InvalidRate
    case CoversOneSecond => InsufficientDeposit
    case EndsAfterStart => InvalidTimeRange
    case NotBackdated => BackdatedStream
    case TotalFits => ArithmeticOverflow
    case CoversTheLength => InsufficientDeposit
    case GovernorIsKnown => NotInitialized
    case GovernorAnswers => GovernorNotResponding
    case RateWithinMax => RateExceedsMax
    case LongEnough => DurationTooShort
    case ShortEnough => DurationExceedsMax
    case SenderCanPay => HostTrap
    case CodeIsKnown => NotInitialized
    case AddressIsFree => HostTrap
    case CounterHasRoom => HostTrap
  }

  predicate Answering(w: World) { w.governor.Some? && Governor.LoadConfig(w.governor.value).Ok? }

  function NextId(w: World): u64 { ValueOr(w.store.streamCount, 0) }

  predicate Passes(w: World, signers: set<Address>, sender: Address, q: Request, check: Check) {
    match check
    case SenderSigned => sender in signers
    case NotHalted => w.store.paused != Some(true)
    case DepositIsPositive => q.deposit > 0
    case RateIsPositive => q.rate > 0
    case CoversOneSecond => q.deposit >= q.rate
    case EndsAfterStart => q.endTime == 0 || q.startTime < q.endTime
    case NotBackdated => w.now <= q.startTime
    case TotalFits => q.endTime > 0 ==> q.rate * (q.endTime - q.startTime) <= I128_MAX
    case CoversTheLength => q.endTime > 0 ==> q.rate * (q.endTime - q.startTime) <= q.deposit
    case GovernorIsKnown => w.store.governor.Some?
    case GovernorAnswers => Answering(w)
    case RateWithinMax => Answering(w) ==> q.rate <= Governor.LoadConfig(w.governor.value).value.maxRate
    case LongEnough =>
      Answering(w) && q.endTime > 0 ==>
        q.endTime - q.startTime >= Governor.LoadConfig(w.governor.value).value.minDuration
    case ShortEnough =>
      Answering(w) && q.endTime > 0 ==>
        q.endTime - q.startTime <= Governor.LoadConfig(w.governor.value).value.maxDuration
    case SenderCanPay => BalanceOf(BookOf(w.books, q.token), sender) >= q.deposit
    case CodeIsKnown => w.store.wasmHash.Some?
    case AddressIsFree => Deployed(w.self, NextId(w)) !in w.streams
    case CounterHasRoom => NextId(w) < 0xFFFF_FFFF_FFFF_FFFF
  }

  predicate FailsFirst(w: World, signers: set<Address>, sender: Address, q: Request, i: nat) {
    && i < |CHECKS|
    && !Passes(w, signers, sender, q, CHECKS[i])
    && forall j :: 0 <= j < i ==> Passes(w, signers, sender, q, CHECKS[j])
  }

  predicate AllPass(w: World, signers: set<Address>, sender: Address, q: Request) {
    forall i :: 0 <= i < |CHECKS| ==> Passes(w, signers, sender, q, CHECKS[i])
  }

  /** The record of a stream just created: as requested, nothing withdrawn, with the clawback bit or without. */
  function FreshRecord(sender: Address, q: Request, clawback: bool): StreamStorage.StreamInfo {
    StreamStorage.StreamInfo(sender, q.recipient, q.token, q.rate, q.startTime, q.endTime, 0, 0,
                             if clawback then 2 else 0)
  }

  /** One index has `id` appended under `owner`, and is otherwise as before. */
  ghost predicate Appended(before: Index, after: Index, owner: Address, id: u64) {
    forall a :: Lookup(after, a) == Lookup(before, a) + if a == owner then [id] else []
  }

  /** The whole effect of a creation: the next id, its record, its registration and its deposit, and nothing else. */
  ghost predicate Does(w: World, sender: Address, q: Request, clawback: bool, after: World, id: u64) {
    var addr := Deployed(w.self, id);
    && id == NextId(w)
    && id < U64_MAX
    && after == w.(store := after.store, streams := after.streams, books := after.books)
    && after.store == w.store.(streamCount := Some(id + 1), streamAddr := w.store.streamAddr[id := addr],
                               bySender := after.store.bySender, byRecipient := after.store.byRecipient)
    && Appended(w.store.bySender, after.store.bySender, sender, id)
    && Appended(w.store.byRecipient, after.store.byRecipient, q.recipient, id)
    && addr !in w.streams
    && after.streams == w.streams[addr := FreshRecord(sender, q, clawback)]
    && OnlyDepositMoved(w.books, after.books, q.token, sender, addr, q.deposit)
  }

  lemma CreationDoes(w: World, signers: set<Address>, sender: Address, q: Request, clawback: bool)
    requires Create(w, signers, sender, q, clawback).Ok?
    ensures var (after, id) := Create(w, signers, sender, q, clawback).value;
            Does(w, sender, q, clawback, after, id)
  {
    CreateMovesOnlyDeposit(w, signers, sender, q, clawback);
    StreamCalls.InitializedExactly(sender, q.recipient, q.token, q.rate, q.startTime, q.endTime, clawback);
  }

  lemma CheckNames()
    ensures |CHECKS| == 18
    ensures CHECKS[0] == SenderSigned && CHECKS[1] == NotHalted && CHECKS[2] == DepositIsPositive
    ensures CHECKS[3] == RateIsPositive && CHECKS[4] == CoversOneSecond && CHECKS[5] == EndsAfterStart
    ensures CHECKS[6] == NotBackdated && CHECKS[7] == TotalFits && CHECKS[8] == CoversTheLength
    ensures CHECKS[9] == GovernorIsKnown && CHECKS[10] == GovernorAnswers && CHECKS[11] == RateWithinMax
    ensures CHECKS[12] == LongEnough && CHECKS[13] == ShortEnough && CHECKS[14] == SenderCanPay
    ensures CHECKS[15] == CodeIsKnown && CHECKS[16] == AddressIsFree && CHECKS[17] == CounterHasRoom
  {
  }

  /** The errors of validation are those of the checks on the request. */
  lemma ValidationAnswers(w: World, signers: set<Address>, sender: Address, q: Request, i: nat)
    requires FailsFirst(w, signers, sender, q, i) && 2 <= i < 9
    ensures ValidationError(w.now, q) == Some(ErrorOf(CHECKS[i]))
  {
    CheckNames();
  }

  lemma ValidationPasses(w: World, signers: set<Address>, sender: Address, q: Request)
    requires forall j :: 2 <= j < 9 ==> Passes(w, signers, sender, q, CHECKS[j])
    ensures ValidationError(w.now, q).None? && q.rate > 0 && (q.endTime == 0 || q.startTime < q.endTime)
  {
    CheckNames();
    assert Passes(w, signers, sender, q, CHECKS[3]) && Passes(w, signers, sender, q, CHECKS[5]);
    if q.endTime > 0 { MulMonotone(q.rate, 0, q.endTime - q.startTime); }
  }

  /** The errors that follow are those of the checks on the governor and its bounds. */
  lemma BoundsAnswer(w: World, signers: set<Address>, sender: Address, q: Request, i: nat)
    requires FailsFirst(w, signers, sender, q, i) && 9 <= i < 14
    requires !IsPaused(w.store) && ValidationError(w.now, q).None?
    requires q.endTime == 0 || q.startTime < q.endTime
    ensures AdmissionError(w, q) == Some(ErrorOf(CHECKS[i]))
  {
    CheckNames();
  }

  /** The admission errors are those of the checks up to the fourteenth. */
  lemma AdmissionAnswers(w: World, signers: set<Address>, sender: Address, q: Request, i: nat)
    requires FailsFirst(w, signers, sender, q, i) && 1 <= i < 14
    ensures AdmissionError(w, q) == Some(ErrorOf(CHECKS[i]))
  {
    CheckNames();
    if i >= 2 { assert Passes(w, signers, sender, q, CHECKS[1]); }
    if 2 <= i < 9 {
      ValidationAnswers(w, signers, sender, q, i);
    } else if i >= 9 {
      ValidationPasses(w, signers, sender, q);
      BoundsAnswer(w, signers, sender, q, i);
    }
  }

  lemma PassingIsAdmissible(w: World, q: Request)
    requires Passes(w, {}, w.self, q, NotHalted) && Passes(w, {}, w.self, q, RateIsPositive)
    requires Passes(w, {}, w.self, q, CoversOneSecond) && Passes(w, {}, w.self, q, EndsAfterStart)
    requires Passes(w, {}, w.self, q, NotBackdated) && Passes(w, {}, w.self, q, CoversTheLength)
    requires Passes(w, {}, w.self, q, GovernorIsKnown) && Passes(w, {}, w.self, q, GovernorAnswers)
    requires Passes(w, {}, w.self, q, RateWithinMax)
    requires Passes(w, {}, w.self, q, LongEnough) && Passes(w, {}, w.self, q, ShortEnough)
    ensures AdmissionError(w, q).None?
  {
    AdmittedExactly(w, q);
  }

  /** Only the sender's signature and funds depend on who asks. */
  lemma PassesForAll(w: World, signers: set<Address>, sender: Address, q: Request, check: Check)
    requires !check.SenderSigned? && !check.SenderCanPay?
    ensures Passes(w, signers, sender, q, check) <==> Passes(w, {}, w.self, q, check)
  {
  }

  lemma AdmissionPasses(w: World, signers: set<Address>, sender: Address, q: Request)
    requires forall j :: 0 <= j < 14 ==> Passes(w, signers, sender, q, CHECKS[j])
    ensures sender in signers && AdmissionError(w, q).None?
  {
    CheckNames();
    assert Passes(w, signers, sender, q, CHECKS[0]);
    forall j | 1 <= j < 14
      ensures Passes(w, {}, w.self, q, CHECKS[j])
    {
      assert !CHECKS[j].SenderSigned? && !CHECKS[j].SenderCanPay?;
      PassesForAll(w, signers, sender, q, CHECKS[j]);
    }
    assert Passes(w, {}, w.self, q, CHECKS[1]) && Passes(w, {}, w.self, q, CHECKS[3]);
    assert Passes(w, {}, w.self, q, CHECKS[4]) && Passes(w, {}, w.self, q, CHECKS[5]);
    assert Passes(w, {}, w.self, q, CHECKS[6]) && Passes(w, {}, w.self, q, CHECKS[8]);
    assert Passes(w, {}, w.self, q, CHECKS[9]) && Passes(w, {}, w.self, q, CHECKS[10]);
    assert Passes(w, {}, w.self, q, CHECKS[11]) && Passes(w, {}, w.self, q, CHECKS[12]);
    assert Passes(w, {}, w.self, q, CHECKS[13]);
    PassingIsAdmissible(w, q);
  }

  /** Past admission there are four obstacles left, and the transfers succeed where the first is not met. */
  lemma AdmittedAnswers(w: World, sender: Address, q: Request, clawback: bool)
    requires AdmissionError(w, q).None? && Sum(BookOf(w.books, q.token)) <= I128_MAX
    ensures var r := CreateAdmitted(w, sender, q, clawback);
            if !Passes(w, {}, sender, q, SenderCanPay) then r == Err(HostTrap)
            else if !Passes(w, {}, sender, q, CodeIsKnown) then r == Err(NotInitialized)
            else if !Passes(w, {}, sender, q, AddressIsFree) || !Passes(w, {}, sender, q, CounterHasRoom)
            then r == Err(HostTrap) else r.Ok?
  {
    AdmittedStreamInitializes(w, q, sender, clawback);
    FundsDecideTransfers(BookOf(w.books, q.token), sender, w.self, StreamAddress(w.self, Count(w.store)), q.deposit);
  }

  lemma FundsDecideTransfers(book: Balances, sender: Address, factory: Address, stream: Address, deposit: i128)
    requires deposit >= 0 && Sum(book) <= I128_MAX
    ensures Transfer(book, sender, factory, deposit).Some? <==> BalanceOf(book, sender) >= deposit
    ensures Forward(book, sender, factory, stream, deposit).Some? <==> BalanceOf(book, sender) >= deposit
  {
    TransferSucceedsExactly(book, sender, factory, deposit);
    ForwardSucceedsExactly(book, sender, factory, stream, deposit);
  }

  lemma PastAdmission(w: World, signers: set<Address>, sender: Address, q: Request, clawback: bool, i: nat)
    requires FailsFirst(w, signers, sender, q, i) && 14 <= i && Sum(BookOf(w.books, q.token)) <= I128_MAX
    ensures Create(w, signers, sender, q, clawback) == Err(ErrorOf(CHECKS[i]))
  {
    CheckNames();
    AdmissionPasses(w, signers, sender, q);
    AdmittedAnswers(w, sender, q, clawback);
    var check := CHECKS[i];
    assert Passes(w, {}, sender, q, check) == Passes(w, signers, sender, q, check);
    assert i > 14 ==> Passes(w, signers, sender, q, CHECKS[14]);
    assert i > 15 ==> Passes(w, signers, sender, q, CHECKS[15]);
  }

  /**
   In every state a creation has exactly the table's answer: its whole effect if all checks pass, and
   otherwise the error of the first that does not. The two transfers and the new stream's `initialize`
   add no obstacle of their own.
   */
  lemma CreationAnswersExactly(w: World, signers: set<Address>, sender: Address, q: Request, clawback: bool)
    requires Sum(BookOf(w.books, q.token)) <= I128_MAX
    ensures AllPass(w, signers, sender, q) ==>
              && Create(w, signers, sender, q, clawback).Ok?
              && var (after, id) := Create(w, signers, sender, q, clawback).value;
              && Does(w, sender, q, clawback, after, id)
    ensures forall i: nat :: FailsFirst(w, signers, sender, q, i) ==>
              Create(w, signers, sender, q, clawback) == Err(ErrorOf(CHECKS[i]))
  {
    if AllPass(w, signers, sender, q) {
      AllPassCreates(w, signers, sender, q, clawback);
      CreationDoes(w, signers, sender, q, clawback);
    }
    forall i: nat | FailsFirst(w, signers, sender, q, i)
      ensures Create(w, signers, sender, q, clawback) == Err(ErrorOf(CHECKS[i]))
    {
      CheckNames();
      if i >= 14 {
        PastAdmission(w, signers, sender, q, clawback, i);
      } else if i >= 1 {
        AdmissionAnswers(w, signers, sender, q, i);
        assert Passes(w, signers, sender, q, CHECKS[0]);
      }
    }
  }

  lemma AllPassCreates(w: World, signers: set<Address>, sender: Address, q: Request, clawback: bool)
    requires AllPass(w, signers, sender, q) && Sum(BookOf(w.books, q.token)) <= I128_MAX
    ensures Create(w, signers, sender, q, clawback).Ok?
  {
    CheckNames();
    AdmissionPasses(w, signers, sender, q);
    AdmittedAnswers(w, sender, q, clawback);
    assert Passes(w, signers, sender, q, CHECKS[14]) && Passes(w, signers, sender, q, CHECKS[15]);
    assert Passes(w, signers, sender, q, CHECKS[16]) && Passes(w, signers, sender, q, CHECKS[17]);
  }

  /** The call on the contract is that creation, and reports the parties it lists. */
  lemma CreateStreamAnswers(w: World, signers: set<Address>, sender: Address, q: Request, clawback: bool)
    requires Sum(BookOf(w.books, q.token)) <= I128_MAX
    ensures var r := Step(w, CreateStream(signers, sender, q, clawback));
            && (AllPass(w, signers, sender, q) ==>
                  r.Ok? && r.value.1 == [Creation(sender, q.recipient)]
                  && Does(w, sender, q, clawback, r.value.0, NextId(w)))
            && (forall i: nat :: FailsFirst(w, signers, sender, q, i) ==> r == Err(ErrorOf(CHECKS[i])))
  {
    CreationAnswersExactly(w, signers, sender, q, clawback);
    assert Creations(sender, [q]) == [Creation(sender, q.recipient)];
  }

  // ---- The bounds of a governor that was only deployed ----

  /**
   With the deployment's parameters, a request for a fixed length that is funded for it and not backdated is
   admitted exactly between one hour and ten years, and up to a rate of 10^15.
   */
  lemma DefaultGovernorAdmits(w: World, q: Request, a: Address, recipient: Address, factory: Address)
    requires w.store.paused != Some(true) && w.store.governor.Some?
    requires w.governor == Some(Governor.After([({}, Governor.Initialize(a, recipient, factory))]))
    requires q.rate > 0 && w.now <= q.startTime < q.endTime && q.deposit >= q.rate * (q.endTime - q.startTime)
    ensures AdmissionError(w, q).None?
       <==> 3_600 <= q.endTime - q.startTime <= 315_360_000 && q.rate <= 1_000_000_000_000_000
  {
    var history := [({}, Governor.Initialize(a, recipient, factory))];
    assert history[..0] == [];
    GovernorCalls.ConfigFollowsSetters(history);
    Governor.InitializeOrders(a, recipient, factory);
    AdmittedExactly(w, q);
  }

  // ---- Batches ----

  /**
   A batch call goes through exactly if it has between one and a hundred requests and each of them would go
   through as a call of its own, in order and with the same clawback choice; it ends where those calls end.
   */
  lemma BatchAnswersExactly(w: World, signers: set<Address>, sender: Address, requests: seq<Request>, clawback: bool)
    ensures var r := Step(w, CreateBatchStreams(signers, sender, requests, clawback));
            var calls := AsCalls(signers, sender, requests, clawback);
            && (r.Ok? <==> 1 <= |requests| <= 100 && EveryCallSucceeds(w, calls))
            && (r.Ok? ==> r.value == Run(w, calls))
            && (|requests| == 0 ==> r == Err(EmptyBatch))
            && (|requests| > 100 ==> r == Err(BatchTooLarge))
  {
    BatchSucceedsExactly(w, signers, sender, requests, clawback);
    if CreateAll(w, signers, sender, requests, clawback).Ok? {
      BatchIsAFold(w, signers, sender, requests, clawback);
    }
  }

  /** The ids it returns are the next ones, in order. */
  lemma BatchReturnsNextIds(w: World, signers: set<Address>, sender: Address, requests: seq<Request>, clawback: bool)
    requires CreateBatch(w, signers, sender, requests, clawback).Ok?
    ensures CreateBatch(w, signers, sender, requests, clawback).value.1 == ConsecutiveFrom(NextId(w), |requests|)
  {
    BatchIdsAreConsecutive(w, signers, sender, requests, clawback);
    SameIds(CreateAll(w, signers, sender, requests, clawback).value.1, NextId(w), |requests|);
  }

  lemma SameIds(ids: seq<nat>, first: nat, n: nat)
    requires |ids| == n && forall i :: 0 <= i < n ==> ids[i] == first + i
    ensures ids == ConsecutiveFrom(first, n)
  {
  }

  /** The contract's batch is the machine's: it fails with the same error or ends in the same world. */
  lemma BatchIsTheStep(w: World, signers: set<Address>, sender: Address, requests: seq<Request>, clawback: bool)
    ensures var (r, step) := (CreateBatch(w, signers, sender, requests, clawback),
                              Step(w, CreateBatchStreams(signers, sender, requests, clawback)));
            if r.Ok? then step == Ok((r.value.0, Creations(sender, requests))) else step == Err(r.error)
  {
  }

  function ConsecutiveFrom(first: nat, n: nat): (ids: seq<nat>)
    ensures |ids| == n
  {
    seq(n, i requires 0 <= i < n => first + i)
  }

  /** A batch of the right size that does not go through fails with the error of its first call that would not. */
  lemma BatchRefusalIsTheFirst(w: World, signers: set<Address>, sender: Address, requests: seq<Request>,
                               clawback: bool, k: nat)
    requires 1 <= |requests| <= 100 && k < |requests|
    requires EveryCallSucceeds(w, AsCalls(signers, sender, requests[..k], clawback))
    requires var before := Run(w, AsCalls(signers, sender, requests[..k], clawback)).0;
             Create(before, signers, sender, requests[k], clawback).Err?
    ensures var before := Run(w, AsCalls(signers, sender, requests[..k], clawback)).0;
            Step(w, CreateBatchStreams(signers, sender, requests, clawback))
              == Err(Create(before, signers, sender, requests[k], clawback).error)
  {
    BatchSucceedsExactly(w, signers, sender, requests[..k], clawback);
    BatchIsAFold(w, signers, sender, requests[..k], clawback);
    var (before, ids) := CreateAll(w, signers, sender, requests[..k], clawback).value;
    NextRequestDecides(w, signers, sender, requests, clawback, k, before, ids);
  }

  lemma {:induction false} BatchKeepsSelf(w: World, signers: set<Address>, sender: Address, requests: seq<Request>,
                                          clawback: bool)
    requires CreateAll(w, signers, sender, requests, clawback).Ok?
    ensures CreateAll(w, signers, sender, requests, clawback).value.0.self == w.self
  {
    if |requests| > 0 { BatchKeepsSelf(w, signers, sender, requests[..|requests| - 1], clawback); }
  }

  /** The record at an address. */
  predicate HasRecord(w: World, a: Address, info: StreamStorage.StreamInfo) { a in w.streams && w.streams[a] == info }

  /** The last creation of a batch makes its record under the next id, and leaves earlier ones alone. */
  lemma LastOfBatchRecords(w: World, signers: set<Address>, sender: Address, requests: seq<Request>, clawback: bool)
    returns (before: World)
    requires |requests| > 0 && CreateAll(w, signers, sender, requests, clawback).Ok?
    ensures var n := |requests| - 1;
            && CreateAll(w, signers, sender, requests[..n], clawback).Ok?
            && before == CreateAll(w, signers, sender, requests[..n], clawback).value.0
            && before.self == w.self && NextId(before) == NextId(w) + n
    ensures var (n, after) := (|requests| - 1, CreateAll(w, signers, sender, requests, clawback).value.0);
            && after.self == w.self
            && HasRecord(after, Deployed(w.self, NextId(before)), FreshRecord(sender, requests[n], clawback))
            && forall a :: a in before.streams ==> a in after.streams && after.streams[a] == before.streams[a]
  {
    var n := |requests| - 1;
    before := CreateAll(w, signers, sender, requests[..n], clawback).value.0;
    BatchKeepsSelf(w, signers, sender, requests[..n], clawback);
    BatchIdsAreConsecutive(w, signers, sender, requests[..n], clawback);
    CreationDoes(before, signers, sender, requests[n], clawback);
  }

  /** The rest of a batch leaves alone what its first `m` requests created. */
  lemma {:induction false} RestOfBatchKeepsRecord(w: World, signers: set<Address>, sender: Address,
                                                  requests: seq<Request>, clawback: bool, m: nat, a: Address)
    requires m <= |requests| && CreateAll(w, signers, sender, requests, clawback).Ok?
    ensures CreateAll(w, signers, sender, requests[..m], clawback).Ok?
    ensures var part := CreateAll(w, signers, sender, requests[..m], clawback).value.0;
            var after := CreateAll(w, signers, sender, requests, clawback).value.0;
            a in part.streams ==> a in after.streams && after.streams[a] == part.streams[a]
  {
    var n := |requests| - 1;
    if m <= n {
      var before := LastOfBatchRecords(w, signers, sender, requests, clawback);
      assert requests[..n][..m] == requests[..m];
      RestOfBatchKeepsRecord(w, signers, sender, requests[..n], clawback, m, a);
    } else {
      assert requests[..m] == requests;
    }
  }

  lemma CreateAllRecords(w: World, signers: set<Address>, sender: Address, requests: seq<Request>, clawback: bool,
                         i: nat, id: u64)
    requires CreateAll(w, signers, sender, requests, clawback).Ok? && i < |requests| && id == NextId(w) + i
    ensures HasRecord(CreateAll(w, signers, sender, requests, clawback).value.0, Deployed(w.self, id),
                      FreshRecord(sender, requests[i], clawback))
  {
    RestOfBatchKeepsRecord(w, signers, sender, requests, clawback, i + 1, Deployed(w.self, id));
    var before := LastOfBatchRecords(w, signers, sender, requests[..i + 1], clawback);
    assert NextId(before) == id;
  }

  /** Stream number `i` of a batch that goes through is on request `i`'s terms, with the clawback choice asked for. */
  lemma BatchRecordsTerms(w: World, signers: set<Address>, sender: Address, requests: seq<Request>, clawback: bool,
                          i: nat, id: u64)
    requires Step(w, CreateBatchStreams(signers, sender, requests, clawback)).Ok?
    requires i < |requests| && id == NextId(w) + i
    ensures HasRecord(Step(w, CreateBatchStreams(signers, sender, requests, clawback)).value.0, Deployed(w.self, id),
                      FreshRecord(sender, requests[i], clawback))
  {
    CreateAllRecords(w, signers, sender, requests, clawback, i, id);
  }

  // ---- Maintenance ----

  /** Where a walk leaves the cursor: eight further, wrapping round the count, and nowhere without streams. */
  function Walked(s: Store): Option<u64> {
    if ValueOr(s.streamCount, 0) == 0 then s.lastBumped
    else
      var cursor: int := if s.lastBumped.Some? then s.lastBumped.value else 0;
      Some(Min(Min(cursor + 1, U64_MAX) + 7, U64_MAX) % s.streamCount.value)
  }

  /** Of the visited ids a walk extends each that exists, as often as it is visited, and no other. */
  lemma {:induction false} LiveExactly(addresses: map<u64, Address>, ids: seq<u64>, id: u64)
    ensures multiset(Live(addresses, ids))[id] == if id in addresses then multiset(ids)[id] else 0
  {
    if |ids| > 0 {
      var n := |ids| - 1;
      LiveExactly(addresses, ids[..n], id);
      assert ids == ids[..n] + [ids[n]];
    }
  }

  /** Why a maintenance call is refused, if it is: unknown governor, missing signature, or nothing to switch. */
  function Refusal(s: Store, signers: set<Address>, action: Action): Option<Error> {
    if s.governor.None? then Some(NotInitialized)
    else if s.governor.value !in signers then Some(HostTrap)
    else if action.Pause? && s.paused == Some(true) then Some(AlreadyPaused)
    else if action.Unpause? && s.paused != Some(true) then Some(NotPaused)
    else None
  }

  /** Each maintenance call writes its own key and the walker's cursor, and creates nothing. */
  lemma MaintenanceAnswersExactly(w: World, signers: set<Address>, action: Action)
    requires (action.Pause? || action.Unpause? || action.UpgradeStreamWasm?) && action.signers == signers
    ensures var r := Step(w, action);
            match Refusal(w.store, signers, action)
            case Some(e) => r == Err(e)
            case None =>
              && r.Ok? && r.value.1 == []
              && r.value.0 == w.(store := r.value.0.store)
              && r.value.0.store == w.store.(
                   lastBumped := Walked(w.store),
                   paused := if action.UpgradeStreamWasm? then w.store.paused else Some(action.Pause?),
                   wasmHash := if action.UpgradeStreamWasm? then Some(action.hash) else w.store.wasmHash)
  {
  }

  /** Setup goes through once, and starts the counter at zero. */
  lemma SetupAnswersExactly(w: World, hash: WasmHash, governor: Address)
    ensures Step(w, Setup(hash, governor))
         == if w.store.streamCount.Some? then Err(AlreadyInitialized)
            else
              Ok((w.(store := w.store.(wasmHash := Some(hash), governor := Some(governor), streamCount := Some(0))),
                  []))
  {
  }

  // ---- The emergency halt over runs ----

  /** While the factory is halted nobody creates anything, one stream or many. */
  lemma HaltedRefuses(w: World, action: Action)
    requires w.store.paused == Some(true) && (action.CreateStream? || action.CreateBatchStreams?)
    ensures Step(w, action).Err?
    ensures action.CreateStream? && action.sender in action.signers ==> Step(w, action) == Err(ContractPaused)
    ensures action.CreateBatchStreams? && action.sender in action.signers && 1 <= |action.requests| <= 100 ==>
              Step(w, action) == Err(ContractPaused)
  {
    if action.CreateBatchStreams? && 1 <= |action.requests| <= 100 {
      var requests := action.requests;
      assert requests[..0] == [];
      assert Create(w, action.signers, action.sender, requests[0], action.clawback).Err?;
      NextRequestDecides(w, action.signers, action.sender, requests, action.clawback, 0, w, []);
    }
  }

  /** Neither setup, creations nor the environment touch the halt or, once set up, the governor and the code. */
  lemma OthersKeepSettings(w: World, action: Action)
    requires Step(w, action).Ok? && !action.Pause? && !action.Unpause?
    ensures Step(w, action).value.0.store.paused == w.store.paused
    ensures !action.UpgradeStreamWasm? && !action.Setup? ==> Step(w, action).value.0.store.wasmHash == w.store.wasmHash
    ensures !action.Setup? ==> Step(w, action).value.0.store.governor == w.store.governor
  {
    if action.CreateBatchStreams? {
      BatchKeepsSettings(w, action.signers, action.sender, action.requests, action.clawback);
    }
  }

  lemma {:induction false} BatchKeepsSettings(w: World, signers: set<Address>, sender: Address, requests: seq<Request>,
                                              clawback: bool)
    requires CreateAll(w, signers, sender, requests, clawback).Ok?
    ensures var s := CreateAll(w, signers, sender, requests, clawback).value.0.store;
            s.paused == w.store.paused && s.wasmHash == w.store.wasmHash && s.governor == w.store.governor
  {
    if |requests| > 0 { BatchKeepsSettings(w, signers, sender, requests[..|requests| - 1], clawback); }
  }

  /** From a halt on, nothing is created in any run in which no unpause goes through. */
  lemma {:induction false} HaltStopsCreation(w: World, actions: seq<Action>)
    requires w.store.paused == Some(true)
    requires forall i :: 0 <= i < |actions| && actions[i].Unpause? ==> Step(Run(w, actions[..i]).0, actions[i]).Err?
    ensures Run(w, actions).0.store.paused == Some(true) && Run(w, actions).1 == []
  {
    if |actions| > 0 {
      var n := |actions| - 1;
      forall i | 0 <= i < n && actions[..n][i].Unpause?
        ensures Step(Run(w, actions[..n][..i]).0, actions[..n][i]).Err?
      {
        assert actions[..n][..i] == actions[..i] && actions[..n][i] == actions[i];
      }
      HaltStopsCreation(w, actions[..n]);
      HaltedStep(Run(w, actions[..n]).0, actions[n]);
    }
  }

  lemma HaltedStep(w: World, action: Action)
    requires w.store.paused == Some(true) && (action.Unpause? ==> Step(w, action).Err?)
    ensures Step(w, action).Ok? ==> Step(w, action).value.0.store.paused == Some(true) && Step(w, action).value.1 == []
  {
    if action.CreateStream? || action.CreateBatchStreams? {
      HaltedRefuses(w, action);
    } else if action.Pause? || action.Unpause? {
      MaintenanceAnswersExactly(w, action.signers, action);
    } else if Step(w, action).Ok? {
      OthersKeepSettings(w, action);
    }
  }

  /** The last accepted switch of the halt. */
  function LastSwitch(w: World, actions: seq<Action>): Option<bool> {
    if |actions| == 0 then None
    else
      var n := |actions| - 1;
      if (actions[n].Pause? || actions[n].Unpause?) && Step(Run(w, actions[..n]).0, actions[n]).Ok?
      then Some(actions[n].Pause?)
      else LastSwitch(w, actions[..n])
  }

  /** After any run the factory is halted exactly if the last accepted switch was a pause. */
  lemma {:induction false} HaltFollowsSwitches(w: World, actions: seq<Action>)
    ensures Run(w, actions).0.store.paused == Some(true)
       <==> ValueOr(LastSwitch(w, actions), w.store.paused == Some(true))
  {
    if |actions| > 0 {
      var n := |actions| - 1;
      var before := Run(w, actions[..n]).0;
      HaltFollowsSwitches(w, actions[..n]);
      if actions[n].Pause? || actions[n].Unpause? {
        MaintenanceAnswersExactly(before, actions[n].signers, actions[n]);
      } else if Step(before, actions[n]).Ok? {
        OthersKeepSettings(before, actions[n]);
      }
    }
  }
}
