/**
 The stream contract as it is written: methods that load the record, change its fields, save it
 and move tokens, rolling everything back when the host traps. Each is proved against the machine.
 */
module StreamContract {
  import opened Host
  import opened Token
  import opened StreamStorage
  import opened StreamMath
  import opened StreamMachine
  import opened StreamInvariants

  /** Store, books and reply after one call. */
  datatype Outcome = Outcome(store: Store, books: map<Address, Balances>, reply: Reply)

  /** The checks made on the arguments before the record is loaded. */
  function ArgumentError(call: Call): Option<Error> {
    match call
    case Withdraw(amount) => if amount <= 0 then Some(InvalidAmount) else None
    case TopUp(amount) => if amount <= 0 then Some(InvalidAmount) else None
    case ExtendDuration(seconds) => if seconds == 0 then Some(InvalidTimeRange) else None
    case _ => None
  }

  predicate Saves(call: Call) { !call.TopUp? && !call.Clawback? }

  function Rebook(books: map<Address, Balances>, token: Address, b: Balances): map<Address, Balances> {
    if b == BookOf(books, token) then books else books[token := b]
  }

  /** What a call does to the store and the books, in terms of the machine's step. */
  function Serve(self: Address, now: u64, signers: set<Address>, call: Call, store: Store,
                 books: map<Address, Balances>): Outcome
  {
    match Load(store)
    case None => Outcome(store, books, Failed(ValueOr(ArgumentError(call), HostTrap)))
    case Some(info) =>
      var next := InvokeStep(World(now, self, info, BookOf(books, info.token)), signers, call);
      if next.reply.Failed? then Outcome(store, books, next.reply)
      else Outcome(if Saves(call) then Save(store, next.world.info) else store,
                   Rebook(books, info.token, next.world.balances), next.reply)
  }

  function UnitResult(reply: Reply): Result<(), Error> {
    match reply
    case Done(_, _, _) => Ok(())
    case Failed(e) => Err(e)
  }

  class DripStream {
    const self: Address
    const bank: Bank
    var store: Store

    /** A deployed contract: no key is set yet. */
    constructor (self: Address, bank: Bank)
      ensures this.self == self && this.bank == bank && store == EMPTY_STORE
    {
      this.self := self;
      this.bank := bank;
      store := EMPTY_STORE;
    }

    method Initialize(sender: Address, recipient: Address, token: Address, rate: i128, startTime: u64, endTime: u64,
                      clawbackEnabled: bool)
      returns (ok: bool)
      modifies this`store
      ensures ok <==> old(store).config.None?
                      && Initialized(sender, recipient, token, rate, startTime, endTime, clawbackEnabled).Some?
      ensures store == if ok
                       then Save(old(store),
                                 Initialized(sender, recipient, token, rate, startTime, endTime, clawbackEnabled).value)
                       else old(store)
    {
      if store.config.Some? {
        return false;
      }
      if rate <= 0 {
        return false;
      }
      if endTime > 0 && endTime <= startTime {
        return false;
      }
      var flags: bv32 := 0;
      if clawbackEnabled {
        flags := flags | FLAG_CLAWBACK_ENABLED;
      }
      store := store.(sender := Some(sender), recipient := Some(recipient), token := Some(token), rate := Some(rate),
                      startTime := Some(startTime), endTime := Some(endTime), withdrawn := Some(0),
                      pausedAt := Some(0), flags := Some(flags));
      store := Save(store, StreamInfo(sender, recipient, token, rate, startTime, endTime, 0, 0, flags));
      return true;
    }

    method Withdraw(now: u64, signers: set<Address>, amount: i128) returns (r: Result<i128, Error>)
      modifies this`store, bank
      ensures var o := Serve(self, now, signers, Call.Withdraw(amount), old(store), old(bank.books));
              && store == o.store && bank.books == o.books
              && r == (match o.reply case Done(paid, _, _) => Ok(paid) case Failed(e) => Err(e))
    {
      if amount <= 0 {
        return Err(InvalidAmount);
      }
      var loaded := Load(store);
      if loaded.None? {
        return Err(HostTrap);
      }
      var info := loaded.value;
      if info.IsCancelled() {
        return Err(StreamCancelled);
      }
      if info.recipient !in signers {
        return Err(HostTrap);
      }
      var w := Withdrawable(info, now);
      if w.Err? {
        return Err(w.error);
      }
      var available := w.value;
      if available == 0 {
        return Err(NothingToWithdraw);
      }
      var toSend: i128 := Min(amount, available);
      if info.withdrawn + toSend > I128_MAX {
        return Err(ArithmeticOverflow);
      }
      var snapshot := store;
      store := SaveWithdrawn(store, info.withdrawn + toSend);
      var ok := bank.TransferTokens(info.token, self, info.recipient, toSend);
      if !ok {
        store := snapshot;
        return Err(HostTrap);
      }
      return Ok(toSend);
    }

    /** The settlement shared by `Cancel` and `ForceCancel`: mark, then pay; a trap undoes the mark too. */
    method SettleNow(info: StreamInfo, now: u64) returns (r: Result<(), Error>)
      requires Load(store) == Some(info)
      modifies this`store, bank
      ensures var next := Settle(World(now, self, info, BookOf(old(bank.books), info.token)));
              && r == UnitResult(next.reply)
              && store == (if r.Ok? then Save(old(store), next.world.info) else old(store))
              && bank.books == if r.Ok? then Rebook(old(bank.books), info.token, next.world.balances)
                               else old(bank.books)
    {
      var balance := BalanceOf(bank.Book(info.token), self);
      var s := StreamedAmount(info, now);
      if s.Err? {
        return Err(s.error);
      }
      if !FitsI128(s.value - info.withdrawn) {
        return Err(HostTrap);
      }
      var owed: Amount := Min(Max(s.value - info.withdrawn, 0), balance);
      var refund: Amount := Max(balance - owed, 0);
      var snapshot := store;
      store := SetCancelled(store);
      store := Save(store, info.(flags := WithCancel(info.flags)));
      var ok := PayShares(info.token, info.recipient, owed, info.sender, refund);
      if !ok {
        store := snapshot;
        return Err(HostTrap);
      }
      return Ok(());
    }

    /** Recipient first, then sender; a trap in either payout undoes both. */
    method PayShares(token: Address, recipient: Address, owed: Amount, sender: Address, refund: Amount)
      returns (ok: bool)
      modifies bank
      ensures var paid := PayBoth(BookOf(old(bank.books), token), self, recipient, owed, sender, refund);
              && (ok <==> paid.Some?)
              && bank.books == if ok && (owed > 0 || refund > 0) then old(bank.books)[token := paid.value]
                               else old(bank.books)
    {
      var snapshot := bank.books;
      ok := true;
      if owed > 0 {
        ok := bank.TransferTokens(token, self, recipient, owed);
      }
      if ok && refund > 0 {
        ok := bank.TransferTokens(token, self, sender, refund);
      }
      if !ok {
        bank.books := snapshot;
      }
    }

    method Cancel(now: u64, signers: set<Address>) returns (r: Result<(), Error>)
      modifies this`store, bank
      ensures var o := Serve(self, now, signers, Call.Cancel, old(store), old(bank.books));
              store == o.store && bank.books == o.books && r == UnitResult(o.reply)
    {
      var loaded := Load(store);
      if loaded.None? {
        return Err(HostTrap);
      }
      var info := loaded.value;
      if info.IsCancelled() {
        return Err(StreamCancelled);
      }
      if info.sender !in signers {
        return Err(HostTrap);
      }
      r := SettleNow(info, now);
    }

    method Pause(now: u64, signers: set<Address>) returns (r: Result<(), Error>)
      modifies this`store
      ensures var o := Serve(self, now, signers, Call.Pause, old(store), bank.books);
              store == o.store && bank.books == o.books && r == UnitResult(o.reply)
    {
      var loaded := Load(store);
      if loaded.None? {
        return Err(HostTrap);
      }
      var info := loaded.value;
      if info.IsCancelled() {
        return Err(StreamCancelled);
      }
      if info.IsPaused() {
        return Err(AlreadyPaused);
      }
      if info.sender !in signers {
        return Err(HostTrap);
      }
      var w := Withdrawable(info, now);
      if w.Err? {
        return Err(w.error);
      }
      store := Save(store, info.(flags := WithPause(info.flags), pausedAt := now));
      return Ok(());
    }

    method Resume(now: u64, signers: set<Address>) returns (r: Result<(), Error>)
      modifies this`store
      ensures var o := Serve(self, now, signers, Call.Resume, old(store), bank.books);
              store == o.store && bank.books == o.books && r == UnitResult(o.reply)
    {
      var loaded := Load(store);
      if loaded.None? {
        return Err(HostTrap);
      }
      var info := loaded.value;
      if info.IsCancelled() {
        return Err(StreamCancelled);
      }
      if !info.IsPaused() {
        return Err(NotPaused);
      }
      if info.sender !in signers {
        return Err(HostTrap);
      }
      if now < info.pausedAt {
        return Err(HostTrap);
      }
      var pausedSeconds := now - info.pausedAt;
      if info.startTime + pausedSeconds > U64_MAX {
        return Err(HostTrap);
      }
      var updated :=
        info.(startTime := info.startTime + pausedSeconds, flags := WithoutPause(info.flags), pausedAt := 0);
      if info.endTime > 0 {
        if info.endTime + pausedSeconds > U64_MAX {
          return Err(HostTrap);
        }
        updated := updated.(endTime := info.endTime + pausedSeconds);
      }
      store := Save(store, updated);
      return Ok(());
    }

    method TopUp(now: u64, signers: set<Address>, amount: i128) returns (r: Result<(), Error>)
      modifies bank
      ensures var o := Serve(self, now, signers, Call.TopUp(amount), store, old(bank.books));
              store == o.store && bank.books == o.books && r == UnitResult(o.reply)
    {
      if amount <= 0 {
        return Err(InvalidAmount);
      }
      var loaded := Load(store);
      if loaded.None? {
        return Err(HostTrap);
      }
      var info := loaded.value;
      if info.sender !in signers {
        return Err(HostTrap);
      }
      if info.IsCancelled() {
        return Err(StreamCancelled);
      }
      var ok := bank.TransferTokens(info.token, info.sender, self, amount);
      if !ok {
        return Err(HostTrap);
      }
      return Ok(());
    }

    /** The deposit moves before the new end is checked, so that error undoes a transfer. */
    method ExtendDuration(now: u64, signers: set<Address>, extraSeconds: u64) returns (r: Result<(), Error>)
      modifies this`store, bank
      ensures var o := Serve(self, now, signers, Call.ExtendDuration(extraSeconds), old(store), old(bank.books));
              store == o.store && bank.books == o.books && r == UnitResult(o.reply)
    {
      if extraSeconds == 0 {
        return Err(InvalidTimeRange);
      }
      var loaded := Load(store);
      if loaded.None? {
        return Err(HostTrap);
      }
      var info := loaded.value;
      if info.IsCancelled() {
        return Err(StreamCancelled);
      }
      if info.sender !in signers {
        return Err(HostTrap);
      }
      var endTime := info.endTime;
      if endTime == 0 {
        return Err(InvalidTimeRange);
      }
      if !FitsI128(extraSeconds * info.rate) {
        return Err(ArithmeticOverflow);
      }
      var snapshot := bank.books;
      var ok := bank.TransferTokens(info.token, info.sender, self, extraSeconds * info.rate);
      if !ok {
        return Err(HostTrap);
      }
      if endTime + extraSeconds > U64_MAX {
        bank.books := snapshot;
        return Err(ArithmeticOverflow);
      }
      endTime := endTime + extraSeconds;
      store := Save(store, info.(endTime := endTime));
      return Ok(());
    }

    method Clawback(now: u64, signers: set<Address>) returns (r: Result<i128, Error>)
      modifies bank
      ensures var o := Serve(self, now, signers, Call.Clawback, store, old(bank.books));
              && store == o.store && bank.books == o.books
              && r == (match o.reply case Done(_, returned, _) => Ok(returned) case Failed(e) => Err(e))
    {
      var loaded := Load(store);
      if loaded.None? {
        return Err(HostTrap);
      }
      var info := loaded.value;
      if info.IsCancelled() {
        return Err(StreamCancelled);
      }
      if !info.IsClawbackEnabled() {
        return Err(ClawbackDisabled);
      }
      if info.sender !in signers {
        return Err(HostTrap);
      }
      var s := StreamedAmount(info, now);
      if s.Err? {
        return Err(s.error);
      }
      if !FitsI128(s.value - info.withdrawn) {
        return Err(HostTrap);
      }
      var owed := Max(s.value - info.withdrawn, 0);
      var amount: Amount := Max(BalanceOf(bank.Book(info.token), self) - owed, 0);
      if amount > 0 {
        var ok := bank.TransferTokens(info.token, self, info.sender, amount);
        if !ok {
          return Err(HostTrap);
        }
      }
      return Ok(amount);
    }

    method ForceCancel(now: u64, signers: set<Address>) returns (r: Result<(), Error>)
      modifies this`store, bank
      ensures var o := Serve(self, now, signers, Call.ForceCancel, old(store), old(bank.books));
              store == o.store && bank.books == o.books && r == UnitResult(o.reply)
    {
      var loaded := Load(store);
      if loaded.None? {
        return Err(HostTrap);
      }
      var info := loaded.value;
      if info.IsCancelled() {
        return Err(StreamCancelled);
      }
      if !info.IsPaused() {
        return Err(NotPaused);
      }
      var pausedSeconds := if now < info.pausedAt then 0 else now - info.pausedAt;
      if pausedSeconds < PAUSE_THRESHOLD_SECS {
        return Err(PauseThresholdNotMet);
      }
      if info.recipient !in signers {
        return Err(HostTrap);
      }
      r := SettleNow(info, now);
    }

    method TransferRecipient(now: u64, signers: set<Address>, newRecipient: Address) returns (r: Result<(), Error>)
      modifies this`store
      ensures var o := Serve(self, now, signers, Call.TransferRecipient(newRecipient), old(store), bank.books);
              store == o.store && bank.books == o.books && r == UnitResult(o.reply)
    {
      var loaded := Load(store);
      if loaded.None? {
        return Err(HostTrap);
      }
      var info := loaded.value;
      if info.IsCancelled() {
        return Err(StreamCancelled);
      }
      if info.recipient !in signers {
        return Err(HostTrap);
      }
      store := Save(store, info.(recipient := newRecipient));
      return Ok(());
    }
  }

  // ---- The stored stream refines the machine ----

  /** The deployed system: ledger time, the stream's store and every token's book. */
  datatype System = System(now: u64, store: Store, books: map<Address, Balances>)

  function View(self: Address, s: System): World
    requires Load(s.store).Some?
  {
    var info := Load(s.store).value;
    World(s.now, self, info, BookOf(s.books, info.token))
  }

  /** A call is served from the store; an outside transfer moves the stream's token. */
  function SystemStep(self: Address, s: System, action: Action): (System, Reply)
    requires Load(s.store).Some?
  {
    match action
    case Invoke(signers, call) =>
      var o := Serve(self, s.now, signers, call, s.store, s.books);
      (System(s.now, o.store, o.books), o.reply)
    case Advance(_) =>
      var next := Step(View(self, s), action);
      (s.(now := next.world.now), next.reply)
    case Outside(_, _, _) =>
      var next := Step(View(self, s), action);
      (s.(books := Rebook(s.books, Load(s.store).value.token, next.world.balances)), next.reply)
  }

  /** Serving a call from the store is stepping the record read from it. */
  lemma ServeRefines(self: Address, s: System, signers: set<Address>, call: Call)
    requires Load(s.store).Some?
    ensures var o := Serve(self, s.now, signers, call, s.store, s.books);
            var next := InvokeStep(View(self, s), signers, call);
            && o.reply == next.reply
            && Load(o.store) == Some(next.world.info)
            && BookOf(o.books, next.world.info.token) == next.world.balances
  {
    var w := View(self, s);
    TokenNeverChanges(w, signers, call);
    if !Saves(call) { UnsavedCallsKeepRecord(w, signers, call); }
  }

  lemma TokenNeverChanges(w: World, signers: set<Address>, call: Call)
    ensures var next := InvokeStep(w, signers, call);
            && next.world.info.token == w.info.token
            && next.world.now == w.now && next.world.self == w.self
            && (next.reply.Failed? ==> next.world == w)
  {
  }

  lemma SystemStepRefines(self: Address, s: System, action: Action)
    requires Load(s.store).Some?
    ensures var (s', reply) := SystemStep(self, s, action);
            && Load(s'.store).Some?
            && Next(View(self, s'), reply) == Step(View(self, s), action)
  {
    if action.Invoke? {
      ServeRefines(self, s, action.signers, action.call);
      TokenNeverChanges(View(self, s), action.signers, action.call);
    }
  }

  lemma UnsavedCallsKeepRecord(w: World, signers: set<Address>, call: Call)
    requires !Saves(call)
    ensures InvokeStep(w, signers, call).world.info == w.info
  {
  }

  function SystemRun(self: Address, s: System, actions: seq<Action>): (r: (System, seq<Reply>))
    requires Load(s.store).Some?
    ensures Load(r.0.store).Some? && |r.1| == |actions|
  {
    if |actions| == 0 then (s, [])
    else
      var (before, replies) := SystemRun(self, s, actions[..|actions| - 1]);
      SystemStepRefines(self, before, actions[|actions| - 1]);
      var (after, reply) := SystemStep(self, before, actions[|actions| - 1]);
      (after, replies + [reply])
  }

  /** Every run of the stored stream is a run of the machine, with the same replies. */
  lemma {:induction false} SystemRefinesMachine(self: Address, s: System, actions: seq<Action>)
    requires Load(s.store).Some?
    ensures var (after, replies) := SystemRun(self, s, actions);
            var run := Execute(View(self, s), actions);
            && View(self, after) == run.world
            && forall i :: 0 <= i < |actions| ==> replies[i] == run.trace[i].reply
  {
    if |actions| > 0 {
      var n := |actions| - 1;
      SystemRefinesMachine(self, s, actions[..n]);
      SystemStepRefines(self, SystemRun(self, s, actions[..n]).0, actions[n]);
    }
  }

  // ---- The two layouts over whole runs ----

  /** One call on the store, whatever the clock and the token books are by then. */
  datatype Invocation = Invocation(now: u64, signers: set<Address>, call: Call, books: map<Address, Balances>)

  function StoreAfter(self: Address, store: Store, invocations: seq<Invocation>): Store {
    if |invocations| == 0 then store
    else
      var i := invocations[|invocations| - 1];
      Serve(self, i.now, i.signers, i.call, StoreAfter(self, store, invocations[..|invocations| - 1]), i.books).store
  }

  /**
   Agreement survives every call: no call clears the clawback or the cancelled bit, so the record
   always covers the two old booleans that are never rewritten.
   */
  lemma ServeKeepsAgreement(self: Address, store: Store, i: Invocation)
    requires LayoutsAgree(store)
    ensures LayoutsAgree(Serve(self, i.now, i.signers, i.call, store, i.books).store)
  {
    AgreementCoversBooleans(store);
    var info := Load(store).value;
    var w := World(i.now, self, info, BookOf(i.books, info.token));
    StepKeepsTerms(w, Invoke(i.signers, i.call));
    var info' := InvokeStep(w, i.signers, i.call).world.info;
    SaveAgreesExactly(store, info');
  }

  /**
   From `initialize` on an empty store, or from a legacy store without the consolidated key, a read
   of the record and a read of the individual keys agree after every sequence of calls.
   */
  lemma {:induction false} LayoutsAgreeOverRuns(self: Address, store: Store, invocations: seq<Invocation>)
    requires LayoutsAgree(store)
    ensures LayoutsAgree(StoreAfter(self, store, invocations))
  {
    if |invocations| > 0 {
      var n := |invocations| - 1;
      LayoutsAgreeOverRuns(self, store, invocations[..n]);
      ServeKeepsAgreement(self, StoreAfter(self, store, invocations[..n]), invocations[n]);
    }
  }

  /**
   `initialize` looks only for the consolidated key. The layouts agree after it exactly when the old
   booleans left in the store claim no more than the new flags: on a leftover legacy store they need not.
   */
  lemma InitializeAgreesExactly(store: Store, sender: Address, recipient: Address, token: Address, rate: i128,
                                startTime: u64, endTime: u64, clawback: bool)
    requires Initialized(sender, recipient, token, rate, startTime, endTime, clawback).Some?
    ensures var info := Initialized(sender, recipient, token, rate, startTime, endTime, clawback).value;
            (LayoutsAgree(Save(store, info)) <==>
               !ValueOr(store.cancelled, false) && (ValueOr(store.clawbackEnabled, false) ==> clawback))
  {
    SaveAgreesExactly(store, Initialized(sender, recipient, token, rate, startTime, endTime, clawback).value);
  }

  /**
   A failed call leaves the store and the books as they were; a top-up and a clawback leave the store. Any
   other call writes the whole new record, and no call touches the book of another token.
   */
  lemma ServeTouchesOnly(self: Address, now: u64, signers: set<Address>, call: Call, store: Store,
                         books: map<Address, Balances>)
    requires Load(store).Some?
    ensures var o := Serve(self, now, signers, call, store, books);
            var info := Load(store).value;
            var next := InvokeStep(World(now, self, info, BookOf(books, info.token)), signers, call);
            && (o.reply.Failed? ==> o == Outcome(store, books, o.reply))
            && (call.TopUp? || call.Clawback? ==> o.store == store)
            && (o.reply.Done? && !call.TopUp? && !call.Clawback? ==>
                  o.store.config == Some(next.world.info) && KeysHold(o.store, next.world.info))
            && (forall t :: t != info.token ==> BookOf(o.books, t) == BookOf(books, t))
  {
  }

  /** Before a record is stored a call traps, unless its argument is refused first; nothing changes. */
  lemma UninitializedIsRefused(self: Address, now: u64, signers: set<Address>, call: Call, store: Store,
                               books: map<Address, Balances>)
    requires Load(store).None?
    ensures Serve(self, now, signers, call, store, books)
         == Outcome(store, books,
                    Failed(if (call.Withdraw? || call.TopUp?) && call.amount <= 0 then InvalidAmount
                           else if call.ExtendDuration? && call.extraSeconds == 0 then InvalidTimeRange else HostTrap))
  {
  }
}
