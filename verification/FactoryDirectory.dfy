/** The registry over runs of the whole deployment: what its indices say of the streams they list. */
module FactoryDirectory {
  import opened Host
  import opened FactoryHandoff
  import opened FactorySystem
  import Factory = FactoryMachine
  import FactoryCalls
  import FactoryRegistry
  import Stream = StreamMachine

  /** Who created the streams of a run, and for whom, in the order of their ids. */
  function Created(w: Factory.World, actions: seq<Action>): seq<Factory.Creation> {
    if |actions| == 0 then []
    else
      var n := |actions| - 1;
      Created(w, actions[..n]) + NewlyCreated(After(w, actions[..n]), actions[n])
  }

  function NewlyCreated(w: Factory.World, action: Action): seq<Factory.Creation> {
    if action.OnFactory? && Permitted(w, action) && Factory.Step(w, action.action).Ok?
    then Factory.Step(w, action.action).value.1 else []
  }

  lemma CallKeepsOrder(w: Factory.World, created: seq<Factory.Creation>, a: Address, signers: set<Address>,
                       call: Stream.Call)
    requires FactoryRegistry.InOrder(w, created) && a in w.streams
    ensures FactoryRegistry.InOrder(CallStream(w, a, signers, call), created)
  {
    assert CallStream(w, a, signers, call).streams.Keys == w.streams.Keys;
    assert forall id: u64 :: Factory.StreamAddress(w.self, id) in CallStream(w, a, signers, call).streams
                        <==> Factory.StreamAddress(w.self, id) in w.streams;
  }

  lemma StepKeepsOrder(w: Factory.World, created: seq<Factory.Creation>, action: Action)
    requires FactoryRegistry.InOrder(w, created)
    ensures FactoryRegistry.InOrder(Step(w, action), created + NewlyCreated(w, action))
    ensures Step(w, action).self == w.self
  {
    assert created + [] == created;
    if Permitted(w, action) {
      if action.OnFactory? {
        if Factory.Step(w, action.action).Ok? { FactoryRegistry.StepKeepsOrder(w, created, action.action); }
      } else if action.OnStream? && action.stream in w.streams {
        CallKeepsOrder(w, created, action.stream, action.signers, action.call);
      }
    }
  }

  /** The registry stays in order over every run of the whole deployment. */
  lemma {:induction false} RegistryStaysInOrder(w: Factory.World, actions: seq<Action>)
    requires FactoryRegistry.JustDeployed(w)
    ensures FactoryRegistry.InOrder(After(w, actions), Created(w, actions)) && After(w, actions).self == w.self
  {
    if |actions| == 0 {
      FactoryRegistry.RegistryStaysInOrder(w, []);
    } else {
      var n := |actions| - 1;
      RegistryStaysInOrder(w, actions[..n]);
      StepKeepsOrder(After(w, actions[..n]), Created(w, actions[..n]), actions[n]);
    }
  }

  /** The action is a `transfer_recipient` of the stream at `a` that goes through. */
  predicate HandsOver(w: Factory.World, action: Action, a: Address) {
    && action.OnStream? && action.stream == a && a in w.streams && Permitted(w, action)
    && action.call.TransferRecipient?
    && Stream.InvokeStep(StreamWorld(w, a), action.signers, action.call).reply.Done?
  }

  /** To whom the stream at `a` was last handed over, if ever. */
  function LastHandover(w: Factory.World, actions: seq<Action>, a: Address): Option<Address> {
    if |actions| == 0 then None
    else
      var n := |actions| - 1;
      if HandsOver(After(w, actions[..n]), actions[n], a) then Some(actions[n].call.newRecipient)
      else LastHandover(w, actions[..n], a)
  }

  lemma CallKeepsParties(s: Stream.World, signers: set<Address>, call: Stream.Call)
    ensures var next := Stream.InvokeStep(s, signers, call);
            && next.world.info.sender == s.info.sender
            && next.world.info.recipient
                 == if call.TransferRecipient? && next.reply.Done? then call.newRecipient else s.info.recipient
  {
  }

  /** A step leaves the parties of a stream as they are, but for a handover of that stream. */
  lemma StepKeepsParties(w: Factory.World, action: Action, a: Address)
    requires a in w.streams
    ensures var after := Step(w, action);
            && a in after.streams
            && after.streams[a].sender == w.streams[a].sender
            && after.streams[a].recipient
                 == if HandsOver(w, action, a) then action.call.newRecipient else w.streams[a].recipient
  {
    if Permitted(w, action) {
      if action.OnStream? && action.stream == a {
        CallKeepsParties(StreamWorld(w, a), action.signers, action.call);
      } else if action.OnFactory? && action.action.CreateBatchStreams? {
        var call := action.action;
        if Factory.CreateAll(w, call.signers, call.sender, call.requests, call.clawback).Ok? {
          assert call.requests[..0] == [];
          FactoryCalls.RestOfBatchKeepsRecord(w, call.signers, call.sender, call.requests, call.clawback, 0, a);
        }
      }
    }
  }

  /** The parties recorded at an address. */
  predicate HasParties(w: Factory.World, a: Address, sender: Address, recipient: Address) {
    a in w.streams && w.streams[a].sender == sender && w.streams[a].recipient == recipient
  }

  /** A new stream has the parties it is listed under. */
  lemma CreationRecordsParties(w: Factory.World, action: Action, i: nat, id: u64)
    requires i < |NewlyCreated(w, action)| && id == Factory.Count(w.store) + i
    ensures var creation := NewlyCreated(w, action)[i];
            HasParties(Step(w, action), Factory.StreamAddress(w.self, id), creation.sender, creation.recipient)
  {
    var call := action.action;
    if call.CreateBatchStreams? {
      FactoryCalls.CreateAllRecords(w, call.signers, call.sender, call.requests, call.clawback, i, id);
    } else {
      FactoryCalls.CreationDoes(w, call.signers, call.sender, call.request, call.clawback);
    }
  }

  /** Nothing is handed over before it exists. */
  lemma {:induction false} NoEarlyHandover(w: Factory.World, actions: seq<Action>, id: u64)
    requires FactoryRegistry.JustDeployed(w) && id >= |Created(w, actions)|
    ensures LastHandover(w, actions, Factory.StreamAddress(w.self, id)).None?
  {
    if |actions| > 0 {
      var n := |actions| - 1;
      RegistryStaysInOrder(w, actions[..n]);
      NoEarlyHandover(w, actions[..n], id);
    }
  }

  /** The record names the sender it was created by, and the recipient it was last handed over to. */
  predicate PartiesFollow(w: Factory.World, a: Address, creation: Factory.Creation, handover: Option<Address>) {
    HasParties(w, a, creation.sender, ValueOr(handover, creation.recipient))
  }

  lemma {:induction false} PartiesFollowCreation(w: Factory.World, actions: seq<Action>, id: u64)
    requires FactoryRegistry.JustDeployed(w) && id < |Created(w, actions)|
    ensures var a := Factory.StreamAddress(w.self, id);
            PartiesFollow(After(w, actions), a, Created(w, actions)[id], LastHandover(w, actions, a))
  {
    if |actions| > 0 {
      var n := |actions| - 1;
      var a := Factory.StreamAddress(w.self, id);
      var (before, created) := (After(w, actions[..n]), Created(w, actions[..n]));
      RegistryStaysInOrder(w, actions[..n]);
      if id < |created| {
        PartiesFollowCreation(w, actions[..n], id);
        PartiesFollowStep(before, actions[n], a, created[id], LastHandover(w, actions[..n], a));
        assert Created(w, actions)[id] == created[id];
        assert After(w, actions) == Step(before, actions[n]);
      } else {
        NoEarlyHandover(w, actions[..n], id);
        NewStreamFollows(before, created, actions[n], id);
        assert Created(w, actions)[id] == NewlyCreated(before, actions[n])[id - |created|];
        assert After(w, actions) == Step(before, actions[n]);
      }
    }
  }

  /** A stream just created has its own creation's parties, and was not there to be handed over. */
  lemma NewStreamFollows(w: Factory.World, created: seq<Factory.Creation>, action: Action, id: u64)
    requires FactoryRegistry.InOrder(w, created) && |created| <= id < |created| + |NewlyCreated(w, action)|
    ensures !HandsOver(w, action, Factory.StreamAddress(w.self, id))
    ensures PartiesFollow(Step(w, action), Factory.StreamAddress(w.self, id),
                          NewlyCreated(w, action)[id - |created|], None)
  {
    CreationRecordsParties(w, action, id - |created|, id);
  }

  lemma PartiesFollowStep(w: Factory.World, action: Action, a: Address, creation: Factory.Creation,
                          handover: Option<Address>)
    requires PartiesFollow(w, a, creation, handover)
    ensures PartiesFollow(Step(w, action), a, creation,
                          if HandsOver(w, action, a) then Some(action.call.newRecipient) else handover)
  {
    StepKeepsParties(w, action, a);
  }

  /**
   What the indices say of the streams themselves, after any run of the whole deployment: an id is listed
   under its stream's sender and no other; it is listed under its stream's current recipient exactly if
   the stream was never handed over, or last back to the recipient it was created for.
   */
  lemma IndicesFollowStreams(w: Factory.World, actions: seq<Action>, id: u64, a: Address)
    requires FactoryRegistry.JustDeployed(w) && id < |Created(w, actions)|
    ensures var (end, addr) := (After(w, actions), Factory.StreamAddress(w.self, id));
            var handover := LastHandover(w, actions, addr);
            && id in end.store.streamAddr && end.store.streamAddr[id] == addr && addr in end.streams
            && (id in Factory.Lookup(end.store.bySender, a) <==> a == end.streams[addr].sender)
            && (id in Factory.Lookup(end.store.byRecipient, end.streams[addr].recipient)
               <==> handover.None? || handover == Some(Created(w, actions)[id].recipient))
  {
    var (end, created) := (After(w, actions), Created(w, actions));
    RegistryStaysInOrder(w, actions);
    PartiesFollowCreation(w, actions, id);
    FactoryRegistry.EveryIdHasOneOwner(end, created, id, a);
    FactoryRegistry.EveryIdHasOneOwner(end, created, id, end.streams[Factory.StreamAddress(w.self, id)].recipient);
  }
}
