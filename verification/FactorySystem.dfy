/**
 The whole deployment: the factory and every stream it created, over the same clock and the same token
 books. To each stream the rest of the system is a sequence of transfers by others.
 */
module FactorySystem {
  import opened Host
  import opened Token
  import opened FactoryHandoff
  import Factory = FactoryMachine
  import Governor
  import Stream = StreamMachine
  import StreamAccounting
  import StreamInvariants
  import StreamMath

  datatype Action =
    | OnFactory(action: Factory.Action)
    | OnStream(stream: Address, signers: set<Address>, call: Stream.Call)
    | Elapse(seconds: u64)
    | Move(token: Address, source: Address, target: Address, amount: i128)
    | Govern(governor: Option<Governor.State>)

  /** The streams, deployed or to come: addresses that never sign. */
  predicate IsStream(w: Factory.World, a: Address) {
    a in w.streams || (a.Deployed? && a.deployer == w.self)
  }

  predicate NoStreamSigns(w: Factory.World, signers: set<Address>) {
    forall a :: a in signers ==> !IsStream(w, a)
  }

  /** No stream signs or sends by itself, and time, tokens and the governor have actions of their own. */
  predicate Permitted(w: Factory.World, action: Action) {
    match action
    case OnFactory(call) =>
      (match call
       case CreateStream(signers, _, _, _) => NoStreamSigns(w, signers)
       case CreateBatchStreams(signers, _, _, _) => NoStreamSigns(w, signers)
       case Environment(_, _, _) => false
       case _ => true)
    case OnStream(_, signers, _) => NoStreamSigns(w, signers)
    case Move(_, source, _, _) => !IsStream(w, source)
    case _ => true
  }

  function CallStream(w: Factory.World, a: Address, signers: set<Address>, call: Stream.Call): Factory.World
    requires a in w.streams
  {
    var next := Stream.InvokeStep(StreamWorld(w, a), signers, call);
    if next.reply.Failed? then w
    else w.(streams := w.streams[a := next.world.info], books := w.books[w.streams[a].token := next.world.balances])
  }

  /** A call that fails, or that nobody may make, changes nothing. */
  function Step(w: Factory.World, action: Action): Factory.World {
    if !Permitted(w, action) then w
    else
      match action
      case OnFactory(call) => (match Factory.Step(w, call) case Ok((after, _)) => after case Err(_) => w)
      case OnStream(a, signers, call) => if a in w.streams then CallStream(w, a, signers, call) else w
      case Elapse(seconds) => if w.now + seconds > U64_MAX then w else w.(now := w.now + seconds)
      case Move(token, source, target, amount) =>
        (match Transfer(BookOf(w.books, token), source, target, amount)
         case Some(b) => w.(books := w.books[token := b])
         case None => w)
      case Govern(governor) => w.(governor := governor)
  }

  function After(w: Factory.World, actions: seq<Action>): Factory.World {
    if |actions| == 0 then w
    else Step(After(w, actions[..|actions| - 1]), actions[|actions| - 1])
  }

  // ---- What one stream sees ----

  function IfPositive(amount: int, action: Stream.Action): seq<Stream.Action> {
    if amount > 0 then [action] else []
  }

  /** The transfers a successful call on the stream at `a` made. */
  function Payments(w: Factory.World, a: Address, call: Stream.Call, reply: Stream.Reply): seq<Stream.Action>
    requires a in w.streams && reply.Done?
  {
    var info := w.streams[a];
    match call
    case Withdraw(_) => [Stream.Outside(a, info.recipient, reply.paid)]
    case TopUp(_) => [Stream.Outside(info.sender, a, reply.deposited)]
    case ExtendDuration(_) => [Stream.Outside(info.sender, a, reply.deposited)]
    case Clawback => IfPositive(reply.returned, Stream.Outside(a, info.sender, reply.returned))
    case Cancel => Shares(a, info.recipient, info.sender, reply)
    case ForceCancel => Shares(a, info.recipient, info.sender, reply)
    case _ => []
  }

  function Shares(a: Address, recipient: Address, sender: Address, reply: Stream.Reply): seq<Stream.Action>
    requires reply.Done?
  {
    IfPositive(reply.paid, Stream.Outside(a, recipient, reply.paid))
      + IfPositive(reply.returned, Stream.Outside(a, sender, reply.returned))
  }

  /** The two hops of a deposit. */
  function Deposit(w: Factory.World, signers: set<Address>, sender: Address, q: Factory.Request, clawback: bool,
                   token: Address): seq<Stream.Action>
  {
    if q.token == token && Factory.Create(w, signers, sender, q, clawback).Ok? then
      [Stream.Outside(sender, w.self, q.deposit)]
        + [Stream.Outside(w.self, Factory.StreamAddress(w.self, Factory.Count(w.store)), q.deposit)]
    else []
  }

  function Deposits(w: Factory.World, signers: set<Address>, sender: Address, requests: seq<Factory.Request>,
                    clawback: bool, token: Address): seq<Stream.Action>
  {
    if |requests| == 0 then []
    else
      var n := |requests| - 1;
      match Factory.CreateAll(w, signers, sender, requests[..n], clawback)
      case Err(_) => []
      case Ok((before, _)) =>
        Deposits(w, signers, sender, requests[..n], clawback, token)
          + Deposit(before, signers, sender, requests[n], clawback, token)
  }

  /** One action of the system as the stream at `a` sees it: its own calls, time, and transfers by others. */
  function Seen(w: Factory.World, action: Action, a: Address): seq<Stream.Action> {
    if a !in w.streams || !Permitted(w, action) then []
    else
      var token := w.streams[a].token;
      match action
      case OnStream(b, signers, call) =>
        if b == a then [Stream.Invoke(signers, call)]
        else if b !in w.streams || w.streams[b].token != token then []
        else
          var reply := Stream.InvokeStep(StreamWorld(w, b), signers, call).reply;
          if reply.Done? then Payments(w, b, call, reply) else []
      case Elapse(seconds) => [Stream.Advance(seconds)]
      case Move(t, source, target, amount) => if t == token then [Stream.Outside(source, target, amount)] else []
      case OnFactory(CreateStream(signers, sender, q, clawback)) => Deposit(w, signers, sender, q, clawback, token)
      case OnFactory(CreateBatchStreams(signers, sender, requests, clawback)) =>
        if Factory.CreateBatch(w, signers, sender, requests, clawback).Ok?
        then Deposits(w, signers, sender, requests, clawback, token) else []
      case _ => []
  }

  /** The calls a stream sees are the calls made on it, and nothing else. */
  lemma SeenCallsAreOwn(w: Factory.World, action: Action, a: Address, i: nat)
    requires a in w.streams && i < |Seen(w, action, a)| && Seen(w, action, a)[i].Invoke?
    ensures action == OnStream(a, Seen(w, action, a)[i].signers, Seen(w, action, a)[i].call)
  {
    if action.OnFactory? && action.action.CreateBatchStreams? {
      DepositsAreTransfers(w, action.action.signers, action.action.sender, action.action.requests,
                           action.action.clawback,
                           w.streams[a].token);
    }
  }

  lemma {:induction false} DepositsAreTransfers(w: Factory.World, signers: set<Address>, sender: Address,
                                                requests: seq<Factory.Request>, clawback: bool, token: Address)
    ensures forall i :: 0 <= i < |Deposits(w, signers, sender, requests, clawback, token)| ==>
              Deposits(w, signers, sender, requests, clawback, token)[i].Outside?
  {
    if |requests| > 0 { DepositsAreTransfers(w, signers, sender, requests[..|requests| - 1], clawback, token); }
  }

  // ---- And it sees all that matters ----

  lemma OneTransfer(s: Stream.World, source: Address, target: Address, amount: i128)
    requires source != s.self && Transfer(s.balances, source, target, amount).Some?
    ensures Stream.Execute(s, [Stream.Outside(source, target, amount)]).world
         == s.(balances := Transfer(s.balances, source, target, amount).value)
  {
    Stream.ExecuteOne(s, Stream.Outside(source, target, amount));
  }

  lemma TransferIfPositive(s: Stream.World, source: Address, target: Address, amount: Amount)
    requires source != s.self && Stream.PayIfPositive(s.balances, source, target, amount).Some?
    ensures Stream.Execute(s, IfPositive(amount, Stream.Outside(source, target, amount))).world
         == s.(balances := Stream.PayIfPositive(s.balances, source, target, amount).value)
  {
    if amount > 0 { OneTransfer(s, source, target, amount); }
  }

  lemma BothTransfers(s: Stream.World, a: Address, recipient: Address, sender: Address, reply: Stream.Reply)
    requires a != s.self && reply.Done?
    requires Stream.PayBoth(s.balances, a, recipient, reply.paid, sender, reply.returned).Some?
    ensures Stream.Execute(s, Shares(a, recipient, sender, reply)).world
         == s.(balances := Stream.PayBoth(s.balances, a, recipient, reply.paid, sender, reply.returned).value)
  {
    var first := IfPositive(reply.paid, Stream.Outside(a, recipient, reply.paid));
    TransferIfPositive(s, a, recipient, reply.paid);
    var s' := s.(balances := Stream.PayIfPositive(s.balances, a, recipient, reply.paid).value);
    TransferIfPositive(s', a, sender, reply.returned);
    Stream.ExecuteConcat(s, first, IfPositive(reply.returned, Stream.Outside(a, sender, reply.returned)));
  }

  /** Running another stream's payments has the effect its call had on the shared book. */
  lemma PaymentsRun(w: Factory.World, b: Address, signers: set<Address>, call: Stream.Call, s: Stream.World)
    requires b in w.streams && Stream.InvokeStep(StreamWorld(w, b), signers, call).reply.Done?
    requires s.self != b && s.self !in signers && s.balances == StreamWorld(w, b).balances
    ensures var next := Stream.InvokeStep(StreamWorld(w, b), signers, call);
            Stream.Execute(s, Payments(w, b, call, next.reply)).world == s.(balances := next.world.balances)
  {
    var info := w.streams[b];
    var reply := Stream.InvokeStep(StreamWorld(w, b), signers, call).reply;
    match call
    case Withdraw(_) => OneTransfer(s, b, info.recipient, reply.paid);
    case TopUp(_) => OneTransfer(s, info.sender, b, reply.deposited);
    case ExtendDuration(_) => OneTransfer(s, info.sender, b, reply.deposited);
    case Clawback => TransferIfPositive(s, b, info.sender, reply.returned);
    case Cancel => BothTransfers(s, b, info.recipient, info.sender, reply);
    case ForceCancel => BothTransfers(s, b, info.recipient, info.sender, reply);
    case Pause =>
    case Resume =>
    case TransferRecipient(_) =>
  }

  lemma OtherStreamSeen(w: Factory.World, b: Address, signers: set<Address>, call: Stream.Call, a: Address)
    requires a in w.streams && b in w.streams && a != b && NoStreamSigns(w, signers)
    ensures var after := CallStream(w, b, signers, call);
            && a in after.streams
            && Stream.Execute(StreamWorld(w, a), Seen(w, OnStream(b, signers, call), a)).world == StreamWorld(after, a)
  {
    var next := Stream.InvokeStep(StreamWorld(w, b), signers, call);
    if next.reply.Done? && w.streams[b].token == w.streams[a].token {
      PaymentsRun(w, b, signers, call, StreamWorld(w, a));
    }
  }

  lemma OwnCallSeen(w: Factory.World, a: Address, signers: set<Address>, call: Stream.Call)
    requires a in w.streams
    ensures var after := CallStream(w, a, signers, call);
            && a in after.streams
            && Stream.Execute(StreamWorld(w, a), [Stream.Invoke(signers, call)]).world == StreamWorld(after, a)
  {
    Stream.ExecuteOne(StreamWorld(w, a), Stream.Invoke(signers, call));
    CallKeepsFrame(StreamWorld(w, a), signers, call);
  }

  lemma CallKeepsFrame(s: Stream.World, signers: set<Address>, call: Stream.Call)
    ensures var next := Stream.InvokeStep(s, signers, call);
            && next.world.now == s.now && next.world.self == s.self && next.world.info.token == s.info.token
            && (next.reply.Failed? ==> next.world == s)
  {
  }

  lemma DepositSeen(w: Factory.World, signers: set<Address>, sender: Address, q: Factory.Request, clawback: bool,
                    a: Address)
    requires a in w.streams && a != w.self && NoStreamSigns(w, signers)
    requires Factory.Create(w, signers, sender, q, clawback).Ok?
    ensures var after := Factory.Create(w, signers, sender, q, clawback).value.0;
            && a in after.streams && after.streams[a] == w.streams[a]
            && Stream.Execute(StreamWorld(w, a), Deposit(w, signers, sender, q, clawback, w.streams[a].token)).world
                 == StreamWorld(after, a)
  {
    var s := StreamWorld(w, a);
    if q.token == w.streams[a].token {
      var addr := Factory.StreamAddress(w.self, Factory.Count(w.store));
      OneTransfer(s, sender, w.self, q.deposit);
      var s' := s.(balances := Transfer(s.balances, sender, w.self, q.deposit).value);
      OneTransfer(s', w.self, addr, q.deposit);
      Stream.ExecuteConcat(s, [Stream.Outside(sender, w.self, q.deposit)], [Stream.Outside(w.self, addr, q.deposit)]);
    }
  }

  /** A creation neither makes nor unmakes an address that may not sign. */
  lemma CreateKeepsStreams(w: Factory.World, signers: set<Address>, sender: Address, q: Factory.Request, clawback: bool)
    requires Factory.Create(w, signers, sender, q, clawback).Ok?
    ensures var after := Factory.Create(w, signers, sender, q, clawback).value.0;
            && after.self == w.self && after.now == w.now
            && (w.self !in w.streams ==> w.self !in after.streams)
            && (NoStreamSigns(w, signers) ==> NoStreamSigns(after, signers))
  {
    assert Factory.StreamAddress(w.self, Factory.Count(w.store)) != w.self;
  }

  lemma {:induction false} DepositsSeen(w: Factory.World, signers: set<Address>, sender: Address,
                                        requests: seq<Factory.Request>, clawback: bool, a: Address)
    requires a in w.streams && w.self !in w.streams && NoStreamSigns(w, signers)
    requires Factory.CreateAll(w, signers, sender, requests, clawback).Ok?
    ensures var after := Factory.CreateAll(w, signers, sender, requests, clawback).value.0;
            && after.self == w.self && w.self !in after.streams && NoStreamSigns(after, signers)
            && a in after.streams && after.streams[a] == w.streams[a]
            && var seen := Deposits(w, signers, sender, requests, clawback, w.streams[a].token);
               Stream.Execute(StreamWorld(w, a), seen).world == StreamWorld(after, a)
  {
    if |requests| > 0 {
      var n := |requests| - 1;
      var token := w.streams[a].token;
      DepositsSeen(w, signers, sender, requests[..n], clawback, a);
      var before := Factory.CreateAll(w, signers, sender, requests[..n], clawback).value.0;
      DepositSeen(before, signers, sender, requests[n], clawback, a);
      CreateKeepsStreams(before, signers, sender, requests[n], clawback);
      Stream.ExecuteConcat(StreamWorld(w, a), Deposits(w, signers, sender, requests[..n], clawback, token),
                           Deposit(before, signers, sender, requests[n], clawback, token));
    }
  }

  lemma FactoryCallSeen(w: Factory.World, call: Factory.Action, a: Address)
    requires a in w.streams && w.self !in w.streams && Permitted(w, OnFactory(call))
    ensures var after := Step(w, OnFactory(call));
            && after.self == w.self && w.self !in after.streams
            && a in after.streams
            && Stream.Execute(StreamWorld(w, a), Seen(w, OnFactory(call), a)).world == StreamWorld(after, a)
  {
    if Factory.Step(w, call).Ok? {
      match call
      case CreateStream(signers, sender, q, clawback) =>
        DepositSeen(w, signers, sender, q, clawback, a);
        CreateKeepsStreams(w, signers, sender, q, clawback);
      case CreateBatchStreams(signers, sender, requests, clawback) =>
        DepositsSeen(w, signers, sender, requests, clawback, a);
      case Setup(_, _) =>
      case Pause(_) =>
      case Unpause(_) =>
      case UpgradeStreamWasm(_, _) =>
    }
  }

  lemma StepSeen(w: Factory.World, action: Action, a: Address)
    requires a in w.streams && w.self !in w.streams
    ensures var after := Step(w, action);
            && after.self == w.self && w.self !in after.streams
            && a in after.streams
            && Stream.Execute(StreamWorld(w, a), Seen(w, action, a)).world == StreamWorld(after, a)
  {
    var s := StreamWorld(w, a);
    if Permitted(w, action) {
      match action
      case OnFactory(call) => FactoryCallSeen(w, call, a);
      case OnStream(b, signers, call) =>
        if b == a { OwnCallSeen(w, a, signers, call); }
        else if b in w.streams { OtherStreamSeen(w, b, signers, call, a); }
      case Elapse(seconds) => Stream.ExecuteOne(s, Stream.Advance(seconds));
      case Move(token, source, target, amount) => Stream.ExecuteOne(s, Stream.Outside(source, target, amount));
      case Govern(_) =>
    }
  }

  /** The run one stream sees while the whole system runs. */
  function Projected(w: Factory.World, actions: seq<Action>, a: Address): seq<Stream.Action> {
    if |actions| == 0 then []
    else
      var n := |actions| - 1;
      Projected(w, actions[..n], a) + Seen(After(w, actions[..n]), actions[n], a)
  }

  /**
   Any run of the system, through the factory and all streams in any order, is for each deployed stream a
   run of that stream alone: so whatever holds over a stream's runs holds under every interleaving.
   */
  lemma {:induction false} ProjectionIsARun(w: Factory.World, actions: seq<Action>, a: Address)
    requires a in w.streams && w.self !in w.streams
    ensures var after := After(w, actions);
            && after.self == w.self && w.self !in after.streams
            && a in after.streams
            && Stream.Execute(StreamWorld(w, a), Projected(w, actions, a)).world == StreamWorld(after, a)
  {
    if |actions| > 0 {
      var n := |actions| - 1;
      ProjectionIsARun(w, actions[..n], a);
      StepSeen(After(w, actions[..n]), actions[n], a);
      var seen := Seen(After(w, actions[..n]), actions[n], a);
      Stream.ExecuteConcat(StreamWorld(w, a), Projected(w, actions[..n], a), seen);
    }
  }

  // ---- Every stream stays solvent ----

  /** A well-formed stream that, if it is live, of fixed length and without clawback, is fully funded. */
  predicate Sound(s: Stream.World) {
    && StreamInvariants.Inv(s)
    && (s.info.endTime > 0 && !s.info.IsClawbackEnabled() && !s.info.IsCancelled() ==> StreamAccounting.Committed(s))
  }

  predicate AllSound(w: Factory.World) {
    && w.self !in w.streams
    && forall a :: a in w.streams ==> Sound(StreamWorld(w, a))
  }

  lemma RunKeepsSound(s: Stream.World, actions: seq<Stream.Action>)
    requires Sound(s)
    ensures Sound(Stream.Execute(s, actions).world)
  {
    var end := Stream.Execute(s, actions).world;
    StreamInvariants.ReachableWorlds(s, actions);
    if end.info.endTime > 0 && !end.info.IsClawbackEnabled() && !end.info.IsCancelled() {
      StreamAccounting.FundingOverRuns(s, actions);
    }
  }

  lemma CreateKeepsSound(w: Factory.World, signers: set<Address>, sender: Address, q: Factory.Request, clawback: bool)
    requires AllSound(w) && NoStreamSigns(w, signers) && Factory.Create(w, signers, sender, q, clawback).Ok?
    ensures AllSound(Factory.Create(w, signers, sender, q, clawback).value.0)
  {
    var (after, id) := Factory.Create(w, signers, sender, q, clawback).value;
    var addr := Factory.StreamAddress(w.self, id);
    CreateHandsOver(w, signers, sender, q, clawback);
    CreateKeepsStreams(w, signers, sender, q, clawback);
    forall a | a in after.streams
      ensures Sound(StreamWorld(after, a))
    {
      if a != addr {
        DepositSeen(w, signers, sender, q, clawback, a);
        RunKeepsSound(StreamWorld(w, a), Deposit(w, signers, sender, q, clawback, w.streams[a].token));
      }
    }
  }

  lemma {:induction false} CreateAllKeepsSound(w: Factory.World, signers: set<Address>, sender: Address,
                                               requests: seq<Factory.Request>, clawback: bool)
    requires AllSound(w) && NoStreamSigns(w, signers)
    requires Factory.CreateAll(w, signers, sender, requests, clawback).Ok?
    ensures var after := Factory.CreateAll(w, signers, sender, requests, clawback).value.0;
            AllSound(after) && NoStreamSigns(after, signers)
  {
    if |requests| > 0 {
      var n := |requests| - 1;
      CreateAllKeepsSound(w, signers, sender, requests[..n], clawback);
      var before := Factory.CreateAll(w, signers, sender, requests[..n], clawback).value.0;
      CreateKeepsSound(before, signers, sender, requests[n], clawback);
      CreateKeepsStreams(before, signers, sender, requests[n], clawback);
    }
  }

  /** Whatever is not a creation deploys nothing. */
  lemma OtherStepsDeployNothing(w: Factory.World, action: Action)
    requires !(action.OnFactory? && (action.action.CreateStream? || action.action.CreateBatchStreams?))
    ensures Step(w, action).streams.Keys == w.streams.Keys
  {
  }

  lemma StepKeepsSound(w: Factory.World, action: Action)
    requires AllSound(w)
    ensures AllSound(Step(w, action))
  {
    var after := Step(w, action);
    if action.OnFactory? && (action.action.CreateStream? || action.action.CreateBatchStreams?) {
      CreationKeepsSound(w, action.action);
    } else {
      OtherStepsDeployNothing(w, action);
      forall a | a in after.streams
        ensures Sound(StreamWorld(after, a))
      {
        assert a in w.streams.Keys;
        StepSeen(w, action, a);
        RunKeepsSound(StreamWorld(w, a), Seen(w, action, a));
      }
      assert w.self !in w.streams.Keys;
    }
  }

  lemma CreationKeepsSound(w: Factory.World, call: Factory.Action)
    requires AllSound(w) && (call.CreateStream? || call.CreateBatchStreams?)
    ensures AllSound(Step(w, OnFactory(call)))
  {
    if Permitted(w, OnFactory(call)) && Factory.Step(w, call).Ok? {
      if call.CreateStream? {
        CreateKeepsSound(w, call.signers, call.sender, call.request, call.clawback);
      } else {
        CreateAllKeepsSound(w, call.signers, call.sender, call.requests, call.clawback);
      }
    }
  }

  /**
   In every state the whole system can reach, whatever was created, called, paid and moved in whatever
   order: each live stream of fixed length without clawback holds or has paid out its whole contracted
   amount, and can pay what it reports as withdrawable.
   */
  lemma EveryStreamIsSolvent(w: Factory.World, actions: seq<Action>, a: Address)
    requires w.streams == map[] && a in After(w, actions).streams
    ensures var s := StreamWorld(After(w, actions), a);
            s.info.endTime > 0 && !s.info.IsClawbackEnabled() && !s.info.IsCancelled() ==>
              && s.Balance() + s.info.withdrawn >= s.info.rate * (s.info.endTime - s.info.startTime)
              && (StreamMath.Withdrawable(s.info, s.now).Ok? ==>
                    StreamMath.Withdrawable(s.info, s.now).value <= s.Balance())
  {
    AllSoundOverRuns(w, actions);
    var s := StreamWorld(After(w, actions), a);
    if StreamAccounting.Committed(s) && StreamMath.Withdrawable(s.info, s.now).Ok? {
      StreamAccounting.FundedMeansSolvent(s);
    }
  }

  lemma {:induction false} AllSoundOverRuns(w: Factory.World, actions: seq<Action>)
    requires AllSound(w)
    ensures AllSound(After(w, actions))
  {
    if |actions| > 0 {
      AllSoundOverRuns(w, actions[..|actions| - 1]);
      StepKeepsSound(After(w, actions[..|actions| - 1]), actions[|actions| - 1]);
    }
  }
}
