/** The factory contract as it is written, proved against the machine. */
module FactoryContract {
  import opened Host
  import opened Token
  import opened FactoryMachine
  import FactoryHandoff
  import FactoryRegistry
  import Governor
  import Query
  import StreamMachine
  import StreamStorage
  import Walker

  class DripFactory {
    const self: Address
    const bank: Bank

    var streamCount: Option<u64>
    var wasmHash: Option<WasmHash>
    var governor: Option<Address>
    var paused: Option<bool>
    var lastBumped: Option<u64>
    var streamAddr: map<u64, Address>
    var bySender: Index
    var byRecipient: Index

    /** The stream contracts that exist, by address. */
    var streams: map<Address, StreamStorage.StreamInfo>
    /** The ids whose registry entries were given a longer lifetime, oldest first. */
    var extended: seq<u64>

    function Snapshot(): Store
      reads this
    {
      Store(streamCount, wasmHash, governor, paused, lastBumped, streamAddr, bySender, byRecipient)
    }

    function WorldAt(now: u64, governorState: Option<Governor.State>): World
      reads this, bank
    {
      World(now, self, Snapshot(), governorState, streams, bank.books)
    }

    constructor (self: Address, bank: Bank, streams: map<Address, StreamStorage.StreamInfo>)
      ensures this.self == self && this.bank == bank && this.streams == streams && extended == []
      ensures Snapshot() == BLANK
    {
      this.self, this.bank, this.streams := self, bank, streams;
      streamCount, wasmHash, governor, paused, lastBumped := None, None, None, None, None;
      streamAddr, bySender, byRecipient, extended := map[], map[], map[], [];
    }

    method Initialize(hash: WasmHash, governorAddress: Address) returns (ok: bool)
      modifies this`streamCount, this`wasmHash, this`governor
      ensures var after := FactoryMachine.Initialize(old(Snapshot()), hash, governorAddress);
              && (ok <==> after.Ok?)
              && Snapshot() == if ok then after.value else old(Snapshot())
    {
      if streamCount.Some? {
        return false;
      }
      wasmHash := Some(hash);
      governor := Some(governorAddress);
      streamCount := Some(0);
      return true;
    }

    /** Validation and the governor's bounds, before anything is touched. */
    method Admit(now: u64, governorState: Option<Governor.State>, q: Request) returns (r: Option<Error>)
      ensures r == AdmissionError(WorldAt(now, governorState), q)
      ensures r.None? <==> FactoryHandoff.Admissible(WorldAt(now, governorState), q)
      ensures r.Some? ==> FactoryHandoff.Fault(WorldAt(now, governorState), q, r.value)
    {
      FactoryHandoff.AdmittedExactly(WorldAt(now, governorState), q);
      if AdmissionError(WorldAt(now, governorState), q).Some? {
        FactoryHandoff.RefusalsAreGenuine(WorldAt(now, governorState), q);
      }
      if paused == Some(true) {
        return Some(ContractPaused);
      }
      if q.deposit <= 0 {
        return Some(InvalidDeposit);
      }
      if q.rate <= 0 {
        return Some(InvalidRate);
      }
      if q.deposit < q.rate {
        return Some(InsufficientDeposit);
      }
      if q.endTime > 0 && q.endTime <= q.startTime {
        return Some(InvalidTimeRange);
      }
      if q.startTime < now {
        return Some(BackdatedStream);
      }
      if q.endTime > 0 {
        var duration := q.endTime - q.startTime;
        var required := q.rate * duration;
        if !FitsI128(required) {
          return Some(ArithmeticOverflow);
        }
        if q.deposit < required {
          return Some(InsufficientDeposit);
        }
      }
      if governor.None? {
        return Some(NotInitialized);
      }
      var config := GovernorConfig(governorState);
      if config.Err? {
        return Some(config.error);
      }
      return BoundsError(config.value, q.rate, q.startTime, q.endTime);
    }

    method CreateStream(now: u64, governorState: Option<Governor.State>, signers: set<Address>, sender: Address,
                        q: Request, clawback: bool)
      returns (r: Result<u64, Error>)
      modifies this, bank
      ensures extended == old(extended)
      ensures var created := Create(old(WorldAt(now, governorState)), signers, sender, q, clawback);
              match created
              case Ok((after, id)) => r == Ok(id) && WorldAt(now, governorState) == after
              case Err(e) => r == Err(e) && WorldAt(now, governorState) == old(WorldAt(now, governorState))
    {
      if sender !in signers {
        return Err(HostTrap);
      }
      var refusal := Admit(now, governorState, q);
      if refusal.Some? {
        return Err(refusal.value);
      }
      r := CreateAdmittedStream(now, governorState, sender, q, clawback);
    }

    /** Creation past the checks; a trap anywhere undoes what came before. */
    method CreateAdmittedStream(now: u64, governorState: Option<Governor.State>, sender: Address, q: Request,
                                clawback: bool)
      returns (r: Result<u64, Error>)
      modifies this, bank
      ensures extended == old(extended)
      ensures var created := CreateAdmitted(old(WorldAt(now, governorState)), sender, q, clawback);
              match created
              case Ok((after, id)) => r == Ok(id) && WorldAt(now, governorState) == after
              case Err(e) => r == Err(e) && WorldAt(now, governorState) == old(WorldAt(now, governorState))
    {
      var (before, booksBefore, streamsBefore) := (Snapshot(), bank.books, streams);
      r := MoveDeployRegister(now, governorState, sender, q, clawback);
      if r.Err? {
        Restore(before, booksBefore, streamsBefore);
      }
    }

    /** Deposit in, deploy, deposit on, index. */
    method MoveDeployRegister(now: u64, governorState: Option<Governor.State>, sender: Address, q: Request,
                              clawback: bool)
      returns (r: Result<u64, Error>)
      modifies this`streams, this`streamAddr, this`streamCount, this`bySender, this`byRecipient, bank
      ensures var created := CreateAdmitted(old(WorldAt(now, governorState)), sender, q, clawback);
              match created
              case Ok((after, id)) => r == Ok(id) && WorldAt(now, governorState) == after
              case Err(e) => r == Err(e)
    {
      ghost var books := bank.books;
      var ok := bank.TransferTokens(q.token, sender, self, q.deposit);
      if !ok {
        return Err(HostTrap);
      }
      var id := if streamCount.Some? then streamCount.value else 0;
      if wasmHash.None? {
        return Err(NotInitialized);
      }
      var addr := StreamAddress(self, id);
      ok := DeployAndFund(addr, sender, q, clawback);
      if !ok {
        return Err(HostTrap);
      }
      assert bank.books == books[q.token := Forward(BookOf(books, q.token), sender, self, addr, q.deposit).value];
      ok := RegisterStream(sender, q.recipient, addr);
      if !ok {
        return Err(HostTrap);
      }
      return Ok(id);
    }

    /** Creates the contract at a free address, initializes it and forwards the deposit to it. */
    method DeployAndFund(addr: Address, sender: Address, q: Request, clawback: bool) returns (ok: bool)
      modifies this`streams, bank
      ensures var info :=
                StreamMachine.Initialized(sender, q.recipient, q.token, q.rate, q.startTime, q.endTime, clawback);
              var funded := Transfer(BookOf(old(bank.books), q.token), self, addr, q.deposit);
              && (ok <==> addr !in old(streams) && info.Some? && funded.Some?)
              && (ok ==> streams == old(streams)[addr := info.value]
                         && bank.books == old(bank.books)[q.token := funded.value])
    {
      var info := StreamMachine.Initialized(sender, q.recipient, q.token, q.rate, q.startTime, q.endTime, clawback);
      if addr in streams || info.None? {
        return false;
      }
      streams := streams[addr := info.value];
      ok := bank.TransferTokens(q.token, self, addr, q.deposit);
    }

    /** Writes the address, the next count and both indices; the count traps when it is full. */
    method RegisterStream(sender: Address, recipient: Address, addr: Address) returns (ok: bool)
      modifies this`streamAddr, this`streamCount, this`bySender, this`byRecipient
      ensures ok <==> Count(old(Snapshot())) < U64_MAX
      ensures ok ==> Snapshot() == Register(old(Snapshot()), sender, recipient, addr)
    {
      var id := if streamCount.Some? then streamCount.value else 0;
      if id == U64_MAX {
        return false;
      }
      streamAddr := streamAddr[id := addr];
      streamCount := Some(id + 1);
      var senderIds := if sender in bySender then bySender[sender] else [];
      senderIds := senderIds + [id];
      bySender := bySender[sender := senderIds];
      var recipientIds := if recipient in byRecipient then byRecipient[recipient] else [];
      recipientIds := recipientIds + [id];
      byRecipient := byRecipient[recipient := recipientIds];
      return true;
    }

    /** The `i`-th request of a batch that began in `w` and has created `ids` so far. */
    method CreateNext(now: u64, governorState: Option<Governor.State>, signers: set<Address>, sender: Address,
                      requests: seq<Request>, clawback: bool, i: nat, ghost w: World, ghost ids: seq<u64>)
      returns (one: Result<u64, Error>)
      requires i < |requests|
      requires CreateAll(w, signers, sender, requests[..i], clawback) == Ok((WorldAt(now, governorState), ids))
      modifies this, bank
      ensures extended == old(extended)
      ensures match one
              case Ok(id) =>
                CreateAll(w, signers, sender, requests[..i + 1], clawback)
                  == Ok((WorldAt(now, governorState), ids + [id]))
              case Err(e) => CreateAll(w, signers, sender, requests, clawback) == Err(e)
    {
      FactoryRegistry.NextRequestDecides(w, signers, sender, requests, clawback, i, WorldAt(now, governorState), ids);
      one := CreateStream(now, governorState, signers, sender, requests[i], clawback);
    }

    /** One `CreateStream` per request, stopping at the first error. */
    method CreateEach(now: u64, governorState: Option<Governor.State>, signers: set<Address>, sender: Address,
                      requests: seq<Request>, clawback: bool)
      returns (r: Result<seq<u64>, Error>)
      modifies this, bank
      ensures extended == old(extended)
      ensures match CreateAll(old(WorldAt(now, governorState)), signers, sender, requests, clawback)
              case Ok((after, ids)) => r == Ok(ids) && WorldAt(now, governorState) == after
              case Err(e) => r == Err(e)
    {
      ghost var w := WorldAt(now, governorState);
      var ids := [];
      var i := 0;
      while i < |requests|
        invariant 0 <= i <= |requests| && extended == old(extended)
        invariant CreateAll(w, signers, sender, requests[..i], clawback) == Ok((WorldAt(now, governorState), ids))
      {
        var one := CreateNext(now, governorState, signers, sender, requests, clawback, i, w, ids);
        if one.Err? {
          return Err(one.error);
        }
        ids := ids + [one.value];
        i := i + 1;
      }
      assert requests[..i] == requests;
      return Ok(ids);
    }

    /** All the requests or none: the first error undoes the streams already created. */
    method CreateBatchStreams(now: u64, governorState: Option<Governor.State>, signers: set<Address>, sender: Address,
                              requests: seq<Request>, clawback: bool)
      returns (r: Result<seq<u64>, Error>)
      modifies this, bank
      ensures extended == old(extended)
      ensures var created := CreateBatch(old(WorldAt(now, governorState)), signers, sender, requests, clawback);
              match created
              case Ok((after, ids)) => r == Ok(ids) && WorldAt(now, governorState) == after
              case Err(e) => r == Err(e) && WorldAt(now, governorState) == old(WorldAt(now, governorState))
    {
      if |requests| == 0 {
        return Err(EmptyBatch);
      }
      if |requests| > MAX_BATCH_SIZE {
        return Err(BatchTooLarge);
      }
      var (before, booksBefore, streamsBefore) := (Snapshot(), bank.books, streams);
      r := CreateEach(now, governorState, signers, sender, requests, clawback);
      if r.Err? {
        Restore(before, booksBefore, streamsBefore);
      }
    }

    method Restore(before: Store, books: map<Address, Balances>, streamsBefore: map<Address, StreamStorage.StreamInfo>)
      modifies this, bank
      ensures Snapshot() == before && bank.books == books && streams == streamsBefore && extended == old(extended)
    {
      streamCount, wasmHash, governor, paused, lastBumped :=
        before.streamCount, before.wasmHash, before.governor, before.paused, before.lastBumped;
      streamAddr, bySender, byRecipient := before.streamAddr, before.bySender, before.byRecipient;
      bank.books, streams := books, streamsBefore;
    }

    /** Walks the next eight ids after the cursor, wrapping round, and extends the entries that exist. */
    method BumpPersistentBucket() returns (touched: nat)
      modifies this`lastBumped, this`extended
      ensures Snapshot() == Walk(old(Snapshot()))
      ensures var visited := if Count(Snapshot()) == 0 then []
                             else Live(streamAddr, Walker.Visited(Count(Snapshot()), Cursor(old(Snapshot()))));
              extended == old(extended) + visited && touched == |visited|
    {
      var count := if streamCount.Some? then streamCount.value else 0;
      if count == 0 {
        return 0;
      }
      var cursor := if lastBumped.Some? then lastBumped.value else 0;
      var newLast := cursor;
      touched := 0;
      ghost var ids := Walker.Visited(count, cursor);
      var i := 0;
      while i < Walker.BATCH_LIMIT
        invariant 0 <= i <= Walker.BATCH_LIMIT
        invariant extended == old(extended) + Live(streamAddr, ids[..i])
        invariant touched == |Live(streamAddr, ids[..i])|
        invariant newLast == if i == 0 then cursor else ids[i - 1]
      {
        var id := Walker.SaturatingAdd(Walker.SaturatingAdd(cursor, 1), i) % count;
        assert ids[..i + 1][..i] == ids[..i] && ids[i] == id;
        if id in streamAddr {
          extended := extended + [id];
          touched := touched + 1;
        }
        newLast := id;
        i := i + 1;
      }
      assert ids[..i] == ids;
      lastBumped := Some(newLast);
    }

    method CheckMaintainer(signers: set<Address>) returns (r: Option<Error>)
      ensures r == MaintenanceError(Snapshot(), signers)
    {
      if governor.None? {
        return Some(NotInitialized);
      }
      if governor.value !in signers {
        return Some(HostTrap);
      }
      return None;
    }

    method Pause(signers: set<Address>) returns (r: Result<(), Error>)
      modifies this`lastBumped, this`extended, this`paused
      ensures Maintains(old(Snapshot()), SetPaused(old(Snapshot()), signers, true), Snapshot(), r)
    {
      var refusal := CheckMaintainer(signers);
      if refusal.Some? {
        return Err(refusal.value);
      }
      if paused == Some(true) {
        return Err(AlreadyPaused);
      }
      var _ := BumpPersistentBucket();
      paused := Some(true);
      return Ok(());
    }

    method Unpause(signers: set<Address>) returns (r: Result<(), Error>)
      modifies this`lastBumped, this`extended, this`paused
      ensures Maintains(old(Snapshot()), SetPaused(old(Snapshot()), signers, false), Snapshot(), r)
    {
      var refusal := CheckMaintainer(signers);
      if refusal.Some? {
        return Err(refusal.value);
      }
      if paused != Some(true) {
        return Err(NotPaused);
      }
      var _ := BumpPersistentBucket();
      paused := Some(false);
      return Ok(());
    }

    method UpgradeStreamWasm(signers: set<Address>, hash: WasmHash) returns (r: Result<(), Error>)
      modifies this`lastBumped, this`extended, this`wasmHash
      ensures Maintains(old(Snapshot()), UpgradeWasm(old(Snapshot()), signers, hash), Snapshot(), r)
    {
      var refusal := CheckMaintainer(signers);
      if refusal.Some? {
        return Err(refusal.value);
      }
      var _ := BumpPersistentBucket();
      wasmHash := Some(hash);
      return Ok(());
    }

    method StreamsBySender(sender: Address, offset: u32, limit: u32) returns (ids: seq<u64>)
      requires |Lookup(bySender, sender)| <= U32_MAX
      ensures ids == Query.Page(Lookup(bySender, sender), offset, limit)
    {
      var all := if sender in bySender then bySender[sender] else [];
      ids := Query.Paginate(all, offset, limit);
    }

    method StreamsByRecipient(recipient: Address, offset: u32, limit: u32) returns (ids: seq<u64>)
      requires |Lookup(byRecipient, recipient)| <= U32_MAX
      ensures ids == Query.Page(Lookup(byRecipient, recipient), offset, limit)
    {
      var all := if recipient in byRecipient then byRecipient[recipient] else [];
      ids := Query.Paginate(all, offset, limit);
    }
  }

  /** A maintenance call answered as the machine says, and without effect when it fails. */
  predicate Maintains(before: Store, expected: Result<Store, Error>, after: Store, r: Result<(), Error>) {
    match expected
    case Ok(next) => r == Ok(()) && after == next
    case Err(e) => r == Err(e) && after == before
  }
}
