/** The TTL walker over the factory's runs: what its maintenance calls visit while streams are created. */
module FactoryWalks {
  import opened Host
  import opened Token
  import opened FactoryMachine
  import opened FactoryRegistry
  import FactoryHandoff
  import Governor
  import Walker

  /** A maintenance call that goes through while there is something to walk. */
  predicate Walks(w: World, action: Action) {
    && (action.Pause? || action.Unpause? || action.UpgradeStreamWasm?)
    && Step(w, action).Ok?
    && Count(w.store) > 0
  }

  /** The stream counts that the walks of a run find, oldest first. */
  function CountsSeen(w: World, actions: seq<Action>): seq<u64> {
    if |actions| == 0 then []
    else
      var n := |actions| - 1;
      var before := Run(w, actions[..n]).0;
      CountsSeen(w, actions[..n]) + if Walks(before, actions[n]) then [Count(before.store)] else []
  }

  /** The ids that the walks of a run visit, oldest first. */
  function IdsWalked(w: World, actions: seq<Action>): seq<u64> {
    if |actions| == 0 then []
    else
      var n := |actions| - 1;
      var before := Run(w, actions[..n]).0;
      IdsWalked(w, actions[..n])
        + if Walks(before, actions[n]) then Walker.Visited(Count(before.store), Cursor(before.store)) else []
  }

  lemma {:induction false} CreateAllLeavesCursor(w: World, signers: set<Address>, sender: Address,
                                                 requests: seq<Request>, clawback: bool)
    requires CreateAll(w, signers, sender, requests, clawback).Ok?
    ensures CreateAll(w, signers, sender, requests, clawback).value.0.store.lastBumped == w.store.lastBumped
  {
    if |requests| > 0 { CreateAllLeavesCursor(w, signers, sender, requests[..|requests| - 1], clawback); }
  }

  /** The count never shrinks, and only a walk moves the cursor. */
  lemma StepWalksOrNot(w: World, action: Action)
    requires Step(w, action).Ok?
    ensures var after := Step(w, action).value.0.store;
            && Count(after) >= Count(w.store)
            && Cursor(after) == if Walks(w, action) then Walker.NextCursor(Count(w.store), Cursor(w.store))
                                else Cursor(w.store)
  {
    if action.CreateBatchStreams? {
      BatchIdsAreConsecutive(w, action.signers, action.sender, action.requests, action.clawback);
      CreateAllLeavesCursor(w, action.signers, action.sender, action.requests, action.clawback);
    }
  }

  /** Counts that never shrink and lie between two others. */
  predicate GrowingBetween(counts: seq<u64>, low: int, high: int) {
    && Walker.Growing(counts)
    && low <= high
    && forall i :: 0 <= i < |counts| ==> low <= counts[i] <= high
  }

  lemma GrowingSnoc(counts: seq<u64>, low: int, high: int, count: u64)
    requires GrowingBetween(counts, low, high) && high <= count && 0 < count
    ensures GrowingBetween(counts + [count], low, count)
  {
  }

  /** What the last action of a run does to the count and the cursor. */
  lemma LastAction(w: World, actions: seq<Action>)
    requires |actions| > 0
    ensures var n := |actions| - 1;
            var (before, after) := (Run(w, actions[..n]).0, Run(w, actions).0.store);
            && Count(after) >= Count(before.store)
            && Cursor(after) == if Walks(before, actions[n])
                                then Walker.NextCursor(Count(before.store), Cursor(before.store))
                                else Cursor(before.store)
  {
    var n := |actions| - 1;
    var before := Run(w, actions[..n]).0;
    if Step(before, actions[n]).Ok? { StepWalksOrNot(before, actions[n]); }
  }

  /** The counts found never shrink, and lie between the count at first and the count at last. */
  lemma {:induction false} CountsGrow(w: World, actions: seq<Action>)
    ensures GrowingBetween(CountsSeen(w, actions), Count(w.store), Count(Run(w, actions).0.store))
  {
    if |actions| > 0 {
      var n := |actions| - 1;
      CountsGrow(w, actions[..n]);
      LastAction(w, actions);
      var before := Run(w, actions[..n]).0;
      if Walks(before, actions[n]) {
        GrowingSnoc(CountsSeen(w, actions[..n]), Count(w.store), Count(before.store), Count(before.store));
      }
    }
  }

  /** The walks of a run are the walker's calls on these counts: same cursor, same ids. */
  lemma {:induction false} RunIsWalked(w: World, actions: seq<Action>, id: u64)
    ensures Walker.Growing(CountsSeen(w, actions))
    ensures Cursor(Run(w, actions).0.store) == Walker.CursorThrough(CountsSeen(w, actions), Cursor(w.store))
    ensures id in IdsWalked(w, actions) <==> Walker.VisitedWithin(CountsSeen(w, actions), Cursor(w.store), id)
  {
    CountsGrow(w, actions);
    if |actions| > 0 {
      var n := |actions| - 1;
      RunIsWalked(w, actions[..n], id);
      LastAction(w, actions);
      var before := Run(w, actions[..n]).0;
      if Walks(before, actions[n]) {
        OneMoreCall(CountsSeen(w, actions[..n]), Count(before.store), Cursor(w.store), id);
        assert CountsSeen(w, actions) == CountsSeen(w, actions[..n]) + [Count(before.store)];
      } else {
        assert CountsSeen(w, actions) == CountsSeen(w, actions[..n]);
      }
    }
  }

  lemma OneMoreCall(counts: seq<u64>, count: u64, cursor: u64, id: u64)
    requires 0 < count && Walker.Growing(counts + [count])
    ensures Walker.Growing(counts)
    ensures Walker.CursorThrough(counts + [count], cursor)
         == Walker.NextCursor(count, Walker.CursorThrough(counts, cursor))
    ensures Walker.VisitedWithin(counts + [count], cursor, id) <==>
              || Walker.VisitedWithin(counts, cursor, id)
              || id in Walker.Visited(count, Walker.CursorThrough(counts, cursor))
  {
    var longer := counts + [count];
    assert forall i :: 0 <= i < |counts| ==> counts[i] == longer[i];
    assert longer[..|counts|] == counts;
    forall j | 0 <= j < |counts|
      ensures Walker.VisitsId(longer, cursor, id, j) <==> Walker.VisitsId(counts, cursor, id, j)
    {
      assert longer[..j] == counts[..j];
    }
    if Walker.VisitedWithin(counts, cursor, id) {
      var j :| 0 <= j < |counts| && Walker.VisitsId(counts, cursor, id, j);
      assert Walker.VisitsId(longer, cursor, id, j);
    }
    if id in Walker.Visited(count, Walker.CursorThrough(counts, cursor)) {
      assert Walker.VisitsId(longer, cursor, id, |counts|);
    }
  }

  /**
   From any reachable state and through any run, a registered id (or the first id to be registered) has
   its entry's lifetime extended if and only if the counts that the run's walks find keep it in reach.
   */
  lemma WalkedExactly(w: World, created: seq<Creation>, actions: seq<Action>, id: u64)
    requires InOrder(w, created) && (id < Count(w.store) || id == 0)
    requires Count(Run(w, actions).0.store) + Walker.BATCH_LIMIT - 1 <= U64_MAX
    ensures id in IdsWalked(w, actions) <==> Walker.InReach(CountsSeen(w, actions), Cursor(w.store), id)
  {
    var counts := CountsSeen(w, actions);
    CountsGrow(w, actions);
    RunIsWalked(w, actions, id);
    Walker.VisitedExactly(counts, Cursor(w.store), id);
  }

  // ---- A run that starves an id ----

  const ROUND: nat := 9

  function Repeated(q: Request, n: nat): (s: seq<Request>)
    ensures |s| == n
  {
    seq(n, _ => q)
  }

  /** An open-ended stream of one unit a second from now on, funded for its first second. */
  function Trickle(now: u64, recipient: Address, token: Address): Request {
    Request(recipient, token, 1, 1, now, 0)
  }

  /** The factory can admit and the sender can pay for `n` more such streams. */
  ghost predicate Supplied(w: World, created: seq<Creation>, sender: Address, q: Request, n: nat) {
    && InOrder(w, created)
    && OrdinarySender(w, sender)
    && FactoryHandoff.Admissible(w, q)
    && q.deposit == 1
    && BalanceOf(BookOf(w.books, q.token), sender) >= n
    && Sum(BookOf(w.books, q.token)) <= I128_MAX
    && |created| + n <= U64_MAX
  }

  lemma SupplyLasts(w: World, created: seq<Creation>, sender: Address, q: Request, n: nat)
    requires Supplied(w, created, sender, q, n + 1)
    ensures Create(w, {sender}, sender, q, false).Ok?
    ensures var after := Create(w, {sender}, sender, q, false).value.0;
            Supplied(after, created + [Creation(sender, q.recipient)], sender, q, n)
              && after.store.governor == w.store.governor
  {
    FactoryHandoff.CreateSucceedsExactly(w, {sender}, sender, q, false);
    CreateKeepsOrder(w, created, {sender}, sender, q, false);
    CreateMovesDeposit(w, {sender}, sender, q, false, q.token);
  }

  lemma {:induction false} BatchGoesThrough(w: World, created: seq<Creation>, sender: Address, q: Request, n: nat,
                                            left: nat)
    returns (after: World, all: seq<Creation>)
    requires Supplied(w, created, sender, q, n + left)
    ensures CreateAll(w, {sender}, sender, Repeated(q, n), false).Ok?
    ensures after == CreateAll(w, {sender}, sender, Repeated(q, n), false).value.0
    ensures Supplied(after, all, sender, q, left) && |all| == |created| + n
    ensures after.store.governor == w.store.governor
  {
    if n == 0 {
      after, all := w, created;
    } else {
      assert Repeated(q, n)[..n - 1] == Repeated(q, n - 1);
      var before, fewer := BatchGoesThrough(w, created, sender, q, n - 1, left + 1);
      SupplyLasts(before, fewer, sender, q, left);
      after := Create(before, {sender}, sender, q, false).value.0;
      all := fewer + [Creation(sender, q.recipient)];
    }
  }

  /** Nine streams, then one maintenance call. */
  function Rounds(sender: Address, governor: Address, hash: WasmHash, q: Request, n: nat): (s: seq<Action>)
    ensures |s| == 2 * n
  {
    if n == 0 then []
    else
      Rounds(sender, governor, hash, q, n - 1)
        + [CreateBatchStreams({sender}, sender, Repeated(q, ROUND), false)] + [UpgradeStreamWasm({governor}, hash)]
  }

  lemma BatchStep(w: World, created: seq<Creation>, sender: Address, q: Request, left: nat)
    returns (after: World, all: seq<Creation>)
    requires Supplied(w, created, sender, q, ROUND + left)
    ensures var batch := CreateBatchStreams({sender}, sender, Repeated(q, ROUND), false);
            Step(w, batch).Ok? && after == Step(w, batch).value.0 && !Walks(w, batch)
    ensures Supplied(after, all, sender, q, left) && |all| == |created| + ROUND
    ensures after.store.governor == w.store.governor
  {
    after, all := BatchGoesThrough(w, created, sender, q, ROUND, left);
  }

  lemma UpgradeStep(w: World, created: seq<Creation>, sender: Address, governor: Address, hash: WasmHash, q: Request,
                    left: nat)
    returns (after: World)
    requires Supplied(w, created, sender, q, left) && w.store.governor == Some(governor) && |created| > 0
    ensures var upgrade := UpgradeStreamWasm({governor}, hash);
            Step(w, upgrade).Ok? && after == Step(w, upgrade).value.0 && Walks(w, upgrade)
    ensures Supplied(after, created, sender, q, left) && after.store.governor == Some(governor)
  {
    var upgrade := UpgradeStreamWasm({governor}, hash);
    OtherStepsKeepOrder(w, created, upgrade);
    after := Step(w, upgrade).value.0;
  }

  /** One more action on a run. */
  lemma RunSnoc(w: World, actions: seq<Action>, action: Action)
    ensures var before := Run(w, actions).0;
            && Run(w, actions + [action]).0
                 == (if Step(before, action).Ok? then Step(before, action).value.0 else before)
            && CountsSeen(w, actions + [action])
                 == CountsSeen(w, actions) + if Walks(before, action) then [Count(before.store)] else []
  {
    assert (actions + [action])[..|actions|] == actions;
  }

  /** The run has created `created`, its walks have found `counts`, and there is supply left for `left` streams. */
  ghost predicate Underway(w: World, actions: seq<Action>, counts: seq<int>, created: seq<Creation>, sender: Address,
                           governor: Address, q: Request, left: nat)
  {
    && Supplied(Run(w, actions).0, created, sender, q, left)
    && Run(w, actions).0.store.governor == Some(governor)
    && CountsSeen(w, actions) == counts
  }

  /** One round more: both calls go through, and the walk finds nine streams more. */
  lemma RoundSnoc(w: World, past: seq<Action>, counts: seq<int>, created: seq<Creation>, sender: Address,
                  governor: Address, hash: WasmHash, q: Request, left: nat, found: int)
    returns (all: seq<Creation>)
    requires found == |created| + ROUND
    requires Underway(w, past, counts, created, sender, governor, q, ROUND + left)
    ensures var batch := CreateBatchStreams({sender}, sender, Repeated(q, ROUND), false);
            Underway(w, past + [batch] + [UpgradeStreamWasm({governor}, hash)], counts + [found], all,
                     sender, governor, q, left)
    ensures |all| == found
  {
    var batch := CreateBatchStreams({sender}, sender, Repeated(q, ROUND), false);
    var filled, after: World;
    filled, all := BatchStep(Run(w, past).0, created, sender, q, left);
    RunSnoc(w, past, batch);
    after := UpgradeStep(filled, all, sender, governor, hash, q, left);
    RunSnoc(w, past + [batch], UpgradeStreamWasm({governor}, hash));
  }

  /** The counts that the first `n` maintenance calls find. */
  function RoundCounts(n: nat): seq<int> {
    if n == 0 then [] else RoundCounts(n - 1) + [ROUND * n]
  }

  lemma {:induction false} RoundCountsOutrun(n: nat)
    ensures |RoundCounts(n)| == n && forall j :: 0 <= j < n ==> RoundCounts(n)[j] == ROUND * (j + 1)
  {
    if n > 0 { RoundCountsOutrun(n - 1); }
  }

  lemma {:induction false} RoundsGoThrough(w: World, sender: Address, governor: Address, hash: WasmHash, q: Request,
                                           n: nat, left: nat, supply: nat)
    returns (all: seq<Creation>)
    requires supply == ROUND * n + left
    requires Supplied(w, [], sender, q, supply) && w.store.governor == Some(governor)
    ensures Underway(w, Rounds(sender, governor, hash, q, n), RoundCounts(n), all, sender, governor, q, left)
    ensures |all| == ROUND * n
  {
    if n == 0 {
      all := [];
    } else {
      var past := Rounds(sender, governor, hash, q, n - 1);
      var fewer := RoundsGoThrough(w, sender, governor, hash, q, n - 1, ROUND + left, supply);
      all := RoundSnoc(w, past, RoundCounts(n - 1), fewer, sender, governor, hash, q, left, ROUND * n);
    }
  }

  /** Setup, and an environment in which the governor answers and the sender has `funds` tokens. */
  function Opening(now: u64, sender: Address, token: Address, governor: Address, settings: Governor.State,
                   hash: WasmHash, funds: Amount): (s: seq<Action>)
    ensures |s| == 2
  {
    [Setup(hash, governor), Environment(now, Some(settings), map[token := map[sender := funds]])]
  }

  /**
   Ids behind the cursor are not always covered, however long a factory runs: with nine streams created
   before each maintenance call, id 0 is never visited by any of n calls, for every n the counter can hold.
   */
  lemma RoundsStarveZero(w: World, now: u64, sender: Address, recipient: Address, token: Address,
                         governor: Address, settings: Governor.State, hash: WasmHash, n: nat)
    requires JustDeployed(w) && OrdinarySender(w, sender) && Governor.InOrder(settings)
    requires ROUND * n + Walker.BATCH_LIMIT - 1 <= U64_MAX
    ensures var actions := Opening(now, sender, token, governor, settings, hash, ROUND * n)
                           + Rounds(sender, governor, hash, Trickle(now, recipient, token), n);
            && Count(Run(w, actions).0.store) == ROUND * n
            && |CountsSeen(w, actions)| == n
            && 0 !in IdsWalked(w, actions)
  {
    var q := Trickle(now, recipient, token);
    var opening := Opening(now, sender, token, governor, settings, hash, ROUND * n);
    var rounds := Rounds(sender, governor, hash, q, n);
    var ready := Opened(w, now, sender, recipient, token, governor, settings, hash, ROUND * n);
    var all := RoundsGoThrough(ready, sender, governor, hash, q, n, 0, ROUND * n);
    RunConcat(w, opening, rounds);
    RoundCountsOutrun(n);
    RegistryStaysInOrder(w, []);
    WalkedExactly(w, [], opening + rounds, 0);
  }

  lemma Opened(w: World, now: u64, sender: Address, recipient: Address, token: Address, governor: Address,
               settings: Governor.State, hash: WasmHash, funds: Amount)
    returns (ready: World)
    requires JustDeployed(w) && OrdinarySender(w, sender) && Governor.InOrder(settings) && funds <= U64_MAX
    ensures ready == Run(w, Opening(now, sender, token, governor, settings, hash, funds)).0
    ensures Supplied(ready, [], sender, Trickle(now, recipient, token), funds)
    ensures ready.store.governor == Some(governor) && Cursor(ready.store) == 0
    ensures CountsSeen(w, Opening(now, sender, token, governor, settings, hash, funds)) == []
  {
    var opening := Opening(now, sender, token, governor, settings, hash, funds);
    RunSnoc(w, [], opening[0]);
    RunSnoc(w, [opening[0]], opening[1]);
    assert [] + [opening[0]] == [opening[0]] && [opening[0]] + [opening[1]] == opening;
    RegistryStaysInOrder(w, []);
    OtherStepsKeepOrder(w, [], opening[0]);
    var setUp := Step(w, opening[0]).value.0;
    OtherStepsKeepOrder(setUp, [], opening[1]);
    ready := Step(setUp, opening[1]).value.0;
    SumUpdate(map[], sender, funds);
    assert map[sender := funds] == map[][sender := funds];
  }

  /** A run's counts are those of its parts. */
  lemma {:induction false} RunConcat(w: World, first: seq<Action>, second: seq<Action>)
    ensures Run(w, first + second).0 == Run(Run(w, first).0, second).0
    ensures CountsSeen(w, first + second) == CountsSeen(w, first) + CountsSeen(Run(w, first).0, second)
  {
    if |second| == 0 {
      assert first + second == first;
    } else {
      var n := |second| - 1;
      assert (first + second)[..|first| + n] == first + second[..n];
      RunConcat(w, first, second[..n]);
    }
  }
}
