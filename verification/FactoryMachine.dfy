/**
 The factory as a state machine: admission of a request, the deposit's way into a new stream, and
 the registry. The other two contracts are the governor's state and the stream records.
 */
module FactoryMachine {
  import opened Host
  import opened Token
  import Governor
  import StreamMachine
  import StreamStorage
  import Walker

  const MAX_BATCH_SIZE: nat := 100

  datatype Error =
    | NotInitialized
    | InvalidDeposit
    | InvalidRate
    | InvalidTimeRange
    | InsufficientDeposit
    | BackdatedStream
    | AlreadyInitialized
    | RateExceedsMax
    | DurationTooShort
    | ArithmeticOverflow
    | ContractPaused
    | AlreadyPaused
    | NotPaused
    | DurationExceedsMax
    | GovernorNotResponding
    | EmptyBatch
    | BatchTooLarge
    | HostTrap  // a failed authorization, token call or deployment, or a raw overflow

  datatype Request = Request(
    recipient: Address,
    token: Address,
    deposit: i128,
    rate: i128,
    startTime: u64,
    endTime: u64)

  type Index = map<Address, seq<u64>>

  type WasmHash = nat

  /** The factory's instance and persistent storage; None is an absent key. */
  datatype Store = Store(
    streamCount: Option<u64>,
    wasmHash: Option<WasmHash>,
    governor: Option<Address>,
    paused: Option<bool>,
    lastBumped: Option<u64>,
    streamAddr: map<u64, Address>,
    bySender: Index,
    byRecipient: Index)

  const BLANK: Store := Store(None, None, None, None, None, map[], map[], map[])

  /** What the factory sees and touches: its store, the governor's answer, the deployed streams, the token books. */
  datatype World = World(
    now: u64,
    self: Address,
    store: Store,
    governor: Option<Governor.State>,
    streams: map<Address, StreamStorage.StreamInfo>,
    books: map<Address, Balances>)

  function Count(s: Store): u64 { if s.streamCount.Some? then s.streamCount.value else 0 }

  predicate IsPaused(s: Store) { s.paused == Some(true) }

  function Lookup(index: Index, a: Address): seq<u64> { if a in index then index[a] else [] }

  function Push(index: Index, a: Address, id: u64): Index { index[a := Lookup(index, a) + [id]] }

  // ---- Admission ----

  /** The checks on the request itself; None is a pass. */
  function ValidationError(now: u64, q: Request): Option<Error> {
    if q.deposit <= 0 then Some(InvalidDeposit)
    else if q.rate <= 0 then Some(InvalidRate)
    else if q.deposit < q.rate then Some(InsufficientDeposit)
    else if q.endTime > 0 && q.endTime <= q.startTime then Some(InvalidTimeRange)
    else if q.startTime < now then Some(BackdatedStream)
    else if q.endTime > 0 && !FitsI128(q.rate * (q.endTime - q.startTime)) then Some(ArithmeticOverflow)
    else if q.endTime > 0 && q.deposit < q.rate * (q.endTime - q.startTime) then Some(InsufficientDeposit)
    else None
  }

  /** The governor's bounds; a time range that would underflow has been rejected before. */
  function BoundsError(c: Governor.Config, rate: i128, startTime: u64, endTime: u64): Option<Error> {
    if rate > c.maxRate then Some(RateExceedsMax)
    else if endTime > 0 && endTime < startTime then Some(HostTrap)
    else if endTime > 0 && endTime - startTime < c.minDuration then Some(DurationTooShort)
    else if endTime > 0 && endTime - startTime > c.maxDuration then Some(DurationExceedsMax)
    else None
  }

  function GovernorConfig(governor: Option<Governor.State>): Result<Governor.Config, Error> {
    if governor.None? then Err(GovernorNotResponding)
    else
      match Governor.LoadConfig(governor.value)
      case Err(_) => Err(GovernorNotResponding)
      case Ok(c) => Ok(c)
  }

  function AdmissionError(w: World, q: Request): Option<Error> {
    if IsPaused(w.store) then Some(ContractPaused)
    else if ValidationError(w.now, q).Some? then ValidationError(w.now, q)
    else if w.store.governor.None? then Some(NotInitialized)
    else
      match GovernorConfig(w.governor)
      case Err(e) => Some(e)
      case Ok(c) => BoundsError(c, q.rate, q.startTime, q.endTime)
  }

  // ---- Creation ----

  function Register(s: Store, sender: Address, recipient: Address, addr: Address): Store
    requires Count(s) < U64_MAX
  {
    var id := Count(s);
    s.(streamAddr := s.streamAddr[id := addr],
       streamCount := Some(id + 1),
       bySender := Push(s.bySender, sender, id),
       byRecipient := Push(s.byRecipient, recipient, id))
  }

  /** The address the host derives for a stream id: a contract of the factory's, salted by the id. */
  function StreamAddress(self: Address, id: u64): Address { Deployed(self, id) }

  /** Sender to factory, then factory to stream. */
  function Forward(b: Balances, sender: Address, factory: Address, stream: Address, deposit: i128): Option<Balances> {
    match Transfer(b, sender, factory, deposit)
    case None => None
    case Some(b') => Transfer(b', factory, stream, deposit)
  }

  /** The part of a creation that moves tokens, deploys and registers. */
  function CreateAdmitted(w: World, sender: Address, q: Request, clawback: bool): Result<(World, u64), Error> {
    var id := Count(w.store);
    var addr := StreamAddress(w.self, id);
    var book := BookOf(w.books, q.token);
    var info := StreamMachine.Initialized(sender, q.recipient, q.token, q.rate, q.startTime, q.endTime, clawback);
    var forwarded := Forward(book, sender, w.self, addr, q.deposit);
    if Transfer(book, sender, w.self, q.deposit).None? then Err(HostTrap)
    else if w.store.wasmHash.None? then Err(NotInitialized)
    else if addr in w.streams || info.None? || forwarded.None? || id == U64_MAX then Err(HostTrap)
    else
      Ok((w.(store := Register(w.store, sender, q.recipient, addr),
             streams := w.streams[addr := info.value],
             books := w.books[q.token := forwarded.value]), id))
  }

  function Create(w: World, signers: set<Address>, sender: Address, q: Request, clawback: bool)
    : Result<(World, u64), Error>
  {
    if sender !in signers then Err(HostTrap)
    else if AdmissionError(w, q).Some? then Err(AdmissionError(w, q).value)
    else CreateAdmitted(w, sender, q, clawback)
  }

  /** The requests in order, stopping at the first error. */
  function CreateAll(w: World, signers: set<Address>, sender: Address, requests: seq<Request>, clawback: bool)
    : Result<(World, seq<u64>), Error>
  {
    if |requests| == 0 then Ok((w, []))
    else
      match CreateAll(w, signers, sender, requests[..|requests| - 1], clawback)
      case Err(e) => Err(e)
      case Ok((before, ids)) =>
        match Create(before, signers, sender, requests[|requests| - 1], clawback)
        case Err(e) => Err(e)
        case Ok((after, id)) => Ok((after, ids + [id]))
  }

  function CreateBatch(w: World, signers: set<Address>, sender: Address, requests: seq<Request>, clawback: bool)
    : Result<(World, seq<u64>), Error>
  {
    if |requests| == 0 then Err(EmptyBatch)
    else if |requests| > MAX_BATCH_SIZE then Err(BatchTooLarge)
    else CreateAll(w, signers, sender, requests, clawback)
  }

  // ---- Maintenance ----

  /** One walk of the TTL walker: the cursor moves, if there is anything to walk. */
  function Walk(s: Store): Store {
    if Count(s) == 0 then s else s.(lastBumped := Some(Walker.NextCursor(Count(s), Cursor(s))))
  }

  function Cursor(s: Store): u64 { if s.lastBumped.Some? then s.lastBumped.value else 0 }

  /** The visited ids that exist, whose entries get their lifetime extended. */
  function Live(addresses: map<u64, Address>, ids: seq<u64>): seq<u64> {
    if |ids| == 0 then []
    else
      var n := |ids| - 1;
      Live(addresses, ids[..n]) + if ids[n] in addresses then [ids[n]] else []
  }

  function MaintenanceError(s: Store, signers: set<Address>): Option<Error> {
    if s.governor.None? then Some(NotInitialized)
    else if s.governor.value !in signers then Some(HostTrap)
    else None
  }

  function SetPaused(s: Store, signers: set<Address>, paused: bool): Result<Store, Error> {
    if MaintenanceError(s, signers).Some? then Err(MaintenanceError(s, signers).value)
    else if IsPaused(s) == paused then Err(if paused then AlreadyPaused else NotPaused)
    else Ok(Walk(s).(paused := Some(paused)))
  }

  function UpgradeWasm(s: Store, signers: set<Address>, hash: WasmHash): Result<Store, Error> {
    if MaintenanceError(s, signers).Some? then Err(MaintenanceError(s, signers).value)
    else Ok(Walk(s).(wasmHash := Some(hash)))
  }

  function Initialize(s: Store, hash: WasmHash, governor: Address): Result<Store, Error> {
    if s.streamCount.Some? then Err(AlreadyInitialized)
    else Ok(s.(wasmHash := Some(hash), governor := Some(governor), streamCount := Some(0)))
  }

  // ---- Runs ----

  datatype Action =
    | Setup(hash: WasmHash, governor: Address)
    | CreateStream(signers: set<Address>, sender: Address, request: Request, clawback: bool)
    | CreateBatchStreams(signers: set<Address>, sender: Address, requests: seq<Request>, clawback: bool)
    | Pause(signers: set<Address>)
    | Unpause(signers: set<Address>)
    | UpgradeStreamWasm(signers: set<Address>, hash: WasmHash)
    | Environment(now: u64, governorState: Option<Governor.State>, books: map<Address, Balances>)

  /** Who created a stream, and for whom. */
  datatype Creation = Creation(sender: Address, recipient: Address)

  function Creations(sender: Address, requests: seq<Request>): (c: seq<Creation>)
    ensures |c| == |requests|
  {
    seq(|requests|, i requires 0 <= i < |requests| => Creation(sender, requests[i].recipient))
  }

  function Maintained(w: World, r: Result<Store, Error>): Result<(World, seq<Creation>), Error> {
    match r
    case Ok(s) => Ok((w.(store := s), []))
    case Err(e) => Err(e)
  }

  /** The next world and the streams created. */
  function Step(w: World, action: Action): Result<(World, seq<Creation>), Error> {
    match action
    case Setup(hash, governor) => Maintained(w, Initialize(w.store, hash, governor))
    case CreateStream(signers, sender, request, clawback) =>
      (match Create(w, signers, sender, request, clawback)
       case Ok((after, _)) => Ok((after, Creations(sender, [request])))
       case Err(e) => Err(e))
    case CreateBatchStreams(signers, sender, requests, clawback) =>
      (match CreateBatch(w, signers, sender, requests, clawback)
       case Ok((after, _)) => Ok((after, Creations(sender, requests)))
       case Err(e) => Err(e))
    case Pause(signers) => Maintained(w, SetPaused(w.store, signers, true))
    case Unpause(signers) => Maintained(w, SetPaused(w.store, signers, false))
    case UpgradeStreamWasm(signers, hash) => Maintained(w, UpgradeWasm(w.store, signers, hash))
    case Environment(now, governorState, books) => Ok((w.(now := now, governor := governorState, books := books), []))
  }

  /** The world after a history, and every creation in it; a failed call changes nothing. */
  function Run(w: World, actions: seq<Action>): (World, seq<Creation>) {
    if |actions| == 0 then (w, [])
    else
      var (before, created) := Run(w, actions[..|actions| - 1]);
      match Step(before, actions[|actions| - 1])
      case Ok((after, more)) => (after, created + more)
      case Err(_) => (before, created)
  }
}
