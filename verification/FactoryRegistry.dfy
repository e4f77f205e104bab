/** The registry over whole runs: ids, addresses and the two indices, and batches as folds. */
module FactoryRegistry {
  import opened Host
  import opened Token
  import opened FactoryMachine
  import FactoryHandoff
  import Walker

  // ---- The ids an owner should be listed under ----

  function Senders(created: seq<Creation>): (s: seq<Address>)
    ensures |s| == |created|
  {
    seq(|created|, i requires 0 <= i < |created| => created[i].sender)
  }

  function Recipients(created: seq<Creation>): (s: seq<Address>)
    ensures |s| == |created|
  {
    seq(|created|, i requires 0 <= i < |created| => created[i].recipient)
  }

  /** The positions of `a` among the owners, in order. */
  function IdsOf(owners: seq<Address>, a: Address): seq<nat> {
    if |owners| == 0 then []
    else
      var n := |owners| - 1;
      IdsOf(owners[..n], a) + if owners[n] == a then [n] else []
  }

  /** That list is strictly increasing and holds exactly the ids with that owner. */
  lemma {:induction false} IdsOfExactly(owners: seq<Address>, a: Address)
    ensures forall i, j :: 0 <= i < j < |IdsOf(owners, a)| ==> IdsOf(owners, a)[i] < IdsOf(owners, a)[j]
    ensures forall id :: id in IdsOf(owners, a) <==> 0 <= id < |owners| && owners[id] == a
  {
    if |owners| > 0 {
      var n := |owners| - 1;
      IdsOfExactly(owners[..n], a);
      var earlier := IdsOf(owners[..n], a);
      forall i | 0 <= i < |earlier|
        ensures earlier[i] < n
      {
        assert earlier[i] in earlier;
      }
      forall id
        ensures id in IdsOf(owners, a) <==> 0 <= id < |owners| && owners[id] == a
      {
        assert id in IdsOf(owners, a) <==> id in earlier || (owners[n] == a && id == n);
        if 0 <= id < n { assert owners[..n][id] == owners[id]; }
      }
    }
  }

  ghost function Lengths(index: Index): map<Address, nat> {
    map a | a in index :: |index[a]|
  }

  /** An index agrees with the owners of the ids, and its lists add up to their number. */
  ghost predicate IndexMatches(index: Index, owners: seq<Address>) {
    && (forall a :: Lookup(index, a) == IdsOf(owners, a))
    && Sum(Lengths(index)) == |owners|
  }

  lemma PushLengths(index: Index, a: Address, id: u64)
    ensures Sum(Lengths(Push(index, a, id))) == Sum(Lengths(index)) + 1
  {
    assert Lengths(Push(index, a, id)) == Lengths(index)[a := |Lookup(index, a)| + 1];
    SumUpdate(Lengths(index), a, |Lookup(index, a)| + 1);
  }

  lemma PushMatches(index: Index, owners: seq<Address>, a: Address)
    requires IndexMatches(index, owners) && |owners| <= U64_MAX
    ensures IndexMatches(Push(index, a, |owners|), owners + [a])
  {
    var after := Push(index, a, |owners|);
    forall b
      ensures Lookup(after, b) == IdsOf(owners + [a], b)
    {
      assert (owners + [a])[..|owners|] == owners;
      assert Lookup(index, b) == IdsOf(owners, b);
    }
    PushLengths(index, a, |owners|);
  }

  // ---- The registry invariant ----

  ghost predicate InOrder(w: World, created: seq<Creation>) {
    && Count(w.store) == |created|
    && (forall id: u64 :: id in w.store.streamAddr <==> id < |created|)
    && (forall id: u64 :: id < |created| ==> w.store.streamAddr[id] == StreamAddress(w.self, id))
    && (forall id: u64 :: StreamAddress(w.self, id) in w.streams <==> id < |created|)
    && IndexMatches(w.store.bySender, Senders(created))
    && IndexMatches(w.store.byRecipient, Recipients(created))
    && (w.store.lastBumped.Some? ==> w.store.lastBumped.value < |created|)
    && (w.store.wasmHash.Some? <==> w.store.streamCount.Some?)
    && (w.store.governor.Some? <==> w.store.streamCount.Some?)
  }

  lemma SnocOwners(created: seq<Creation>, c: Creation)
    ensures Senders(created + [c]) == Senders(created) + [c.sender]
    ensures Recipients(created + [c]) == Recipients(created) + [c.recipient]
  {
  }

  lemma CreateKeepsOrder(w: World, created: seq<Creation>, signers: set<Address>, sender: Address, q: Request,
                         clawback: bool)
    requires InOrder(w, created) && Create(w, signers, sender, q, clawback).Ok?
    ensures var (after, id) := Create(w, signers, sender, q, clawback).value;
            && InOrder(after, created + [Creation(sender, q.recipient)])
            && id == |created|
            && after.self == w.self
  {
    var (after, id) := Create(w, signers, sender, q, clawback).value;
    SnocOwners(created, Creation(sender, q.recipient));
    PushMatches(w.store.bySender, Senders(created), sender);
    PushMatches(w.store.byRecipient, Recipients(created), q.recipient);
  }

  lemma CreationsSnoc(created: seq<Creation>, sender: Address, requests: seq<Request>)
    requires |requests| > 0
    ensures var n := |requests| - 1;
            created + Creations(sender, requests)
              == (created + Creations(sender, requests[..n])) + [Creation(sender, requests[n].recipient)]
  {
  }

  lemma {:induction false} CreateAllKeepsOrder(w: World, created: seq<Creation>, signers: set<Address>,
                                               sender: Address, requests: seq<Request>, clawback: bool)
    requires InOrder(w, created) && CreateAll(w, signers, sender, requests, clawback).Ok?
    ensures var after := CreateAll(w, signers, sender, requests, clawback).value.0;
            InOrder(after, created + Creations(sender, requests)) && after.self == w.self
  {
    if |requests| == 0 {
      assert created + Creations(sender, requests) == created;
    } else {
      var n := |requests| - 1;
      CreateAllKeepsOrder(w, created, signers, sender, requests[..n], clawback);
      var before := CreateAll(w, signers, sender, requests[..n], clawback).value.0;
      CreationsSnoc(created, sender, requests);
      CreateKeepsOrder(before, created + Creations(sender, requests[..n]), signers, sender, requests[n], clawback);
    }
  }

  /** A batch hands out the next ids, consecutively. */
  lemma {:induction false} BatchIdsAreConsecutive(w: World, signers: set<Address>, sender: Address,
                                                  requests: seq<Request>, clawback: bool)
    requires CreateAll(w, signers, sender, requests, clawback).Ok?
    ensures var (after, ids) := CreateAll(w, signers, sender, requests, clawback).value;
            && |ids| == |requests|
            && Count(after.store) == Count(w.store) + |requests|
            && forall i :: 0 <= i < |ids| ==> ids[i] == Count(w.store) + i
  {
    if |requests| > 0 {
      BatchIdsAreConsecutive(w, signers, sender, requests[..|requests| - 1], clawback);
    }
  }

  /** Setup, maintenance and the environment leave the registry alone; the walker's cursor stays below the count. */
  lemma OtherStepsKeepOrder(w: World, created: seq<Creation>, action: Action)
    requires InOrder(w, created) && Step(w, action).Ok?
    requires !action.CreateStream? && !action.CreateBatchStreams?
    ensures Step(w, action).value.1 == []
    ensures InOrder(Step(w, action).value.0, created) && Step(w, action).value.0.self == w.self
  {
  }

  lemma StepKeepsOrder(w: World, created: seq<Creation>, action: Action)
    requires InOrder(w, created) && Step(w, action).Ok?
    ensures var (after, more) := Step(w, action).value;
            InOrder(after, created + more) && after.self == w.self
  {
    if action.CreateStream? {
      CreateKeepsOrder(w, created, action.signers, action.sender, action.request, action.clawback);
      assert Creations(action.sender, [action.request]) == [Creation(action.sender, action.request.recipient)];
    } else if action.CreateBatchStreams? {
      CreateAllKeepsOrder(w, created, action.signers, action.sender, action.requests, action.clawback);
    } else {
      OtherStepsKeepOrder(w, created, action);
      assert created + [] == created;
    }
  }

  /** A factory just deployed, whose future addresses hold no contract. */
  ghost predicate JustDeployed(w: World) {
    w.store == BLANK && forall id: u64 :: StreamAddress(w.self, id) !in w.streams
  }

  /**
   In every reachable state addresses are recorded for exactly the ids 0..count-1, each the address
   derived for it; each index list holds exactly the ids created with that sender (that original
   recipient) and the lists add up to the count; the walker's cursor is below a non-zero count.
   */
  lemma {:induction false} RegistryStaysInOrder(w: World, actions: seq<Action>)
    requires JustDeployed(w)
    ensures InOrder(Run(w, actions).0, Run(w, actions).1) && Run(w, actions).0.self == w.self
  {
    if |actions| == 0 {
      assert Lengths(map[]) == map[];
      assert Sum(Lengths(w.store.bySender)) == 0;
    } else {
      var n := |actions| - 1;
      RegistryStaysInOrder(w, actions[..n]);
      var (before, created) := Run(w, actions[..n]);
      if Step(before, actions[n]).Ok? { StepKeepsOrder(before, created, actions[n]); }
    }
  }

  /** So each id is in exactly one list of each kind, and the next address to deploy is always free. */
  lemma EveryIdHasOneOwner(w: World, created: seq<Creation>, id: u64, a: Address)
    requires InOrder(w, created) && id < Count(w.store)
    ensures id in Lookup(w.store.bySender, a) <==> a == created[id].sender
    ensures id in Lookup(w.store.byRecipient, a) <==> a == created[id].recipient
    ensures StreamAddress(w.self, Count(w.store)) !in w.streams
  {
    IndexHoldsExactly(w.store.bySender, Senders(created), id, a);
    IndexHoldsExactly(w.store.byRecipient, Recipients(created), id, a);
  }

  lemma IndexHoldsExactly(index: Index, owners: seq<Address>, id: u64, a: Address)
    requires IndexMatches(index, owners) && id < |owners|
    ensures id in Lookup(index, a) <==> a == owners[id]
  {
    IdsOfExactly(owners, a);
    assert Lookup(index, a) == IdsOf(owners, a);
  }

  /** A recorded address never changes, and no id is ever reused. */
  lemma {:induction false} AddressesNeverChange(w: World, first: seq<Action>, second: seq<Action>, id: u64)
    requires JustDeployed(w) && id in Run(w, first).0.store.streamAddr
    ensures id in Run(w, first + second).0.store.streamAddr
    ensures Run(w, first + second).0.store.streamAddr[id] == Run(w, first).0.store.streamAddr[id]
  {
    RegistryStaysInOrder(w, first);
    RegistryStaysInOrder(w, first + second);
    CreationsOnlyGrow(w, first, second);
  }

  lemma {:induction false} CreationsOnlyGrow(w: World, first: seq<Action>, second: seq<Action>)
    ensures Run(w, first).1 <= Run(w, first + second).1
  {
    if |second| == 0 {
      assert first + second == first;
    } else {
      var n := |second| - 1;
      assert (first + second)[..|first| + n] == first + second[..n];
      CreationsOnlyGrow(w, first, second[..n]);
    }
  }

  // ---- Batches ----

  /** The requests as separate calls. */
  function AsCalls(signers: set<Address>, sender: Address, requests: seq<Request>, clawback: bool): (s: seq<Action>)
    ensures |s| == |requests|
  {
    seq(|requests|, i requires 0 <= i < |requests| => CreateStream(signers, sender, requests[i], clawback))
  }

  function DepositsIn(requests: seq<Request>, token: Address): int {
    if |requests| == 0 then 0
    else
      var q := requests[|requests| - 1];
      DepositsIn(requests[..|requests| - 1], token) + if q.token == token then q.deposit else 0
  }

  lemma AsCallsSnoc(signers: set<Address>, sender: Address, requests: seq<Request>, clawback: bool)
    requires |requests| > 0
    ensures var n := |requests| - 1;
            && AsCalls(signers, sender, requests, clawback)[..n] == AsCalls(signers, sender, requests[..n], clawback)
            && Creations(sender, requests) == Creations(sender, requests[..n]) + Creations(sender, [requests[n]])
  {
  }

  /** One more request in the batch is one more call on the factory. */
  lemma CreateAllSnoc(w: World, signers: set<Address>, sender: Address, requests: seq<Request>, clawback: bool)
    requires |requests| > 0
    ensures var (all, fewer) := (CreateAll(w, signers, sender, requests, clawback),
                                 CreateAll(w, signers, sender, requests[..|requests| - 1], clawback));
            && (all.Ok? ==> fewer.Ok?)
            && (fewer.Ok? ==>
                  var q := requests[|requests| - 1];
                  var step := Step(fewer.value.0, CreateStream(signers, sender, q, clawback));
                  && (all.Ok? <==> step.Ok?)
                  && (all.Ok? ==> step.value == (all.value.0, Creations(sender, [q]))))
  {
  }

  /** A batch that goes through ends where its requests would end as separate calls in order. */
  lemma {:induction false} BatchIsAFold(w: World, signers: set<Address>, sender: Address, requests: seq<Request>,
                                        clawback: bool)
    requires CreateAll(w, signers, sender, requests, clawback).Ok?
    ensures Run(w, AsCalls(signers, sender, requests, clawback))
         == (CreateAll(w, signers, sender, requests, clawback).value.0, Creations(sender, requests))
  {
    if |requests| > 0 {
      CreateAllSnoc(w, signers, sender, requests, clawback);
      AsCallsSnoc(signers, sender, requests, clawback);
      BatchIsAFold(w, signers, sender, requests[..|requests| - 1], clawback);
    }
  }

  /** Each call of the run succeeds where the ones before it have left the factory. */
  predicate EveryCallSucceeds(w: World, calls: seq<Action>) {
    if |calls| == 0 then true
    else
      && EveryCallSucceeds(w, calls[..|calls| - 1])
      && Step(Run(w, calls[..|calls| - 1]).0, calls[|calls| - 1]).Ok?
  }

  /** And it goes through exactly when each of those calls, made in turn, would. */
  lemma {:induction false} BatchSucceedsExactly(w: World, signers: set<Address>, sender: Address,
                                                requests: seq<Request>, clawback: bool)
    ensures CreateAll(w, signers, sender, requests, clawback).Ok?
       <==> EveryCallSucceeds(w, AsCalls(signers, sender, requests, clawback))
  {
    if |requests| > 0 {
      var n := |requests| - 1;
      AsCallsSnoc(signers, sender, requests, clawback);
      CreateAllSnoc(w, signers, sender, requests, clawback);
      BatchSucceedsExactly(w, signers, sender, requests[..n], clawback);
      if CreateAll(w, signers, sender, requests[..n], clawback).Ok? {
        BatchIsAFold(w, signers, sender, requests[..n], clawback);
      }
    }
  }

  /** The next request either extends what the batch has created or decides the batch's error. */
  lemma NextRequestDecides(w: World, signers: set<Address>, sender: Address, requests: seq<Request>, clawback: bool,
                           i: nat, before: World, ids: seq<u64>)
    requires i < |requests| && CreateAll(w, signers, sender, requests[..i], clawback) == Ok((before, ids))
    ensures match Create(before, signers, sender, requests[i], clawback)
            case Ok((after, id)) =>
              CreateAll(w, signers, sender, requests[..i + 1], clawback) == Ok((after, ids + [id]))
            case Err(e) => CreateAll(w, signers, sender, requests, clawback) == Err(e)
  {
    assert requests[..i + 1][..i] == requests[..i];
    if Create(before, signers, sender, requests[i], clawback).Err? {
      FirstErrorDecides(w, signers, sender, requests, clawback, i + 1,
                        Create(before, signers, sender, requests[i], clawback).error);
    }
  }

  /** Once a prefix is refused, the batch is, with the same error. */
  lemma {:induction false} FirstErrorDecides(w: World, signers: set<Address>, sender: Address, requests: seq<Request>,
                                             clawback: bool, i: nat, e: Error)
    requires i <= |requests| && CreateAll(w, signers, sender, requests[..i], clawback) == Err(e)
    ensures CreateAll(w, signers, sender, requests, clawback) == Err(e)
  {
    if i < |requests| {
      var n := |requests| - 1;
      assert requests[..n][..i] == requests[..i];
      FirstErrorDecides(w, signers, sender, requests[..n], clawback, i, e);
    } else {
      assert requests[..i] == requests;
    }
  }

  /** The sender is an ordinary holder: neither the factory nor a stream it will deploy. */
  predicate OrdinarySender(w: World, sender: Address) {
    sender != w.self && !(sender.Deployed? && sender.deployer == w.self)
  }

  /** Per token, a batch takes exactly the sum of its deposits out of the sender, and nothing stays in the factory. */
  lemma {:induction false} BatchMovesDeposits(w: World, signers: set<Address>, sender: Address,
                                              requests: seq<Request>, clawback: bool, token: Address)
    requires OrdinarySender(w, sender) && CreateAll(w, signers, sender, requests, clawback).Ok?
    ensures var after := CreateAll(w, signers, sender, requests, clawback).value.0;
            && after.self == w.self
            && BalanceOf(BookOf(after.books, token), sender)
                 == BalanceOf(BookOf(w.books, token), sender) - DepositsIn(requests, token)
            && BalanceOf(BookOf(after.books, token), w.self) == BalanceOf(BookOf(w.books, token), w.self)
            && Sum(BookOf(after.books, token)) == Sum(BookOf(w.books, token))
  {
    if |requests| > 0 {
      var n := |requests| - 1;
      BatchMovesDeposits(w, signers, sender, requests[..n], clawback, token);
      var before := CreateAll(w, signers, sender, requests[..n], clawback).value.0;
      CreateMovesDeposit(before, signers, sender, requests[n], clawback, token);
    }
  }

  lemma CreateMovesDeposit(w: World, signers: set<Address>, sender: Address, q: Request, clawback: bool, token: Address)
    requires OrdinarySender(w, sender) && Create(w, signers, sender, q, clawback).Ok?
    ensures var after := Create(w, signers, sender, q, clawback).value.0;
            && after.self == w.self
            && BalanceOf(BookOf(after.books, token), sender)
                 == BalanceOf(BookOf(w.books, token), sender) - (if q.token == token then q.deposit else 0)
            && BalanceOf(BookOf(after.books, token), w.self) == BalanceOf(BookOf(w.books, token), w.self)
            && Sum(BookOf(after.books, token)) == Sum(BookOf(w.books, token))
  {
    FactoryHandoff.CreateMovesOnlyDeposit(w, signers, sender, q, clawback);
  }

  // ---- The walker in the registry ----

  /** With the registry in order every visited entry exists, so a walk extends and counts all eight. */
  lemma WalkTouchesLiveEntries(w: World, created: seq<Creation>)
    requires InOrder(w, created) && Count(w.store) > 0
    ensures Cursor(w.store) < Count(w.store)
    ensures var visited := Walker.Visited(Count(w.store), Cursor(w.store));
            Live(w.store.streamAddr, visited) == visited && |visited| == Walker.BATCH_LIMIT
  {
    AllLive(w.store.streamAddr, Walker.Visited(Count(w.store), Cursor(w.store)));
  }

  lemma {:induction false} AllLive(addresses: map<u64, Address>, ids: seq<u64>)
    requires forall i :: 0 <= i < |ids| ==> ids[i] in addresses
    ensures Live(addresses, ids) == ids
  {
    if |ids| > 0 {
      var n := |ids| - 1;
      AllLive(addresses, ids[..n]);
      assert ids == ids[..n] + [ids[n]];
    }
  }
}
