/** The governor: role bookkeeping with an admin counter, and role-gated protocol parameters. */
module Governor {
  import opened Host

  const DEFAULT_FEE_BPS: u32 := 30
  const DEFAULT_MIN_DURATION: u64 := 3_600
  const DEFAULT_MAX_DURATION: u64 := 315_360_000
  const DEFAULT_MAX_RATE: i128 := 1_000_000_000_000_000
  const MAX_FEE_BPS: int := 10_000

  datatype Role = Admin | FeeManager | RateManager

  datatype Error = NotAuthorized | InvalidParam | AlreadyInitialized | LastAdmin | NotInitialized | HostTrap

  /** Instance storage; None is an absent key, and a grant is the presence of its key. */
  datatype State = State(
    feeBps: Option<u32>,
    feeRecipient: Option<Address>,
    minDuration: Option<u64>,
    maxDuration: Option<u64>,
    maxRate: Option<i128>,
    factoryAddress: Option<Address>,
    grants: set<(Role, Address)>,
    adminCount: Option<u32>)

  const BLANK: State := State(None, None, None, None, None, None, {}, None)

  datatype Config = Config(feeBps: u32, feeRecipient: Address, minDuration: u64, maxDuration: u64, maxRate: i128,
                           factoryAddress: Address)

  function LoadConfig(s: State): Result<Config, Error> {
    if s.feeRecipient.None? || s.factoryAddress.None? then Err(NotInitialized)
    else
      Ok(Config(ValueOr(s.feeBps, DEFAULT_FEE_BPS), s.feeRecipient.value,
                ValueOr(s.minDuration, DEFAULT_MIN_DURATION), ValueOr(s.maxDuration, DEFAULT_MAX_DURATION),
                ValueOr(s.maxRate, DEFAULT_MAX_RATE), s.factoryAddress.value))
  }

  predicate HasRole(s: State, role: Role, account: Address) { (role, account) in s.grants }

  function AdminCount(s: State): u32 { ValueOr(s.adminCount, 0) }

  /** Idempotent; an Err is the overflow trap of the counter. */
  function Grant(s: State, role: Role, account: Address): Result<State, Error> {
    if HasRole(s, role, account) then Ok(s)
    else
      var granted := s.(grants := s.grants + {(role, account)});
      if role != Admin then Ok(granted)
      else if AdminCount(s) + 1 > U32_MAX then Err(HostTrap)
      else Ok(granted.(adminCount := Some(AdminCount(s) + 1)))
  }

  function Revoke(s: State, role: Role, account: Address): Result<State, Error> {
    if !HasRole(s, role, account) then Ok(s)
    else if role == Admin && AdminCount(s) <= 1 then Err(LastAdmin)
    else
      var counted := if role == Admin then s.(adminCount := Some(AdminCount(s) - 1)) else s;
      Ok(counted.(grants := s.grants - {(role, account)}))
  }

  datatype Call =
    | Initialize(authority: Address, feeRecipient: Address, factoryAddress: Address)
    | GrantRole(caller: Address, role: Role, account: Address)
    | RevokeRole(caller: Address, role: Role, account: Address)
    | TransferAuthority(caller: Address, newAuthority: Address)
    | SetFeeBps(caller: Address, feeBps: u32)
    | SetFeeRecipient(caller: Address, feeRecipient: Address)
    | SetMinDuration(caller: Address, seconds: u64)
    | SetMaxRate(caller: Address, maxRate: i128)
    | SetMaxDuration(caller: Address, seconds: u64)

  predicate MayAct(s: State, signers: set<Address>, caller: Address, role: Role) {
    caller in signers && HasRole(s, role, caller)
  }

  /** A missing signature traps before the role is looked up. */
  function Denial(signers: set<Address>, caller: Address): Error {
    if caller in signers then NotAuthorized else HostTrap
  }

  /** The parameters at deployment. */
  function Configured(s: State, feeRecipient: Address, factoryAddress: Address): State {
    s.(feeBps := Some(DEFAULT_FEE_BPS), feeRecipient := Some(feeRecipient),
       minDuration := Some(DEFAULT_MIN_DURATION), maxDuration := Some(DEFAULT_MAX_DURATION),
       maxRate := Some(DEFAULT_MAX_RATE), factoryAddress := Some(factoryAddress))
  }

  function InitializeStep(s: State, authority: Address, feeRecipient: Address, factoryAddress: Address)
    : Result<State, Error>
  {
    if s.factoryAddress.Some? then Err(AlreadyInitialized)
    else
      var configured := Configured(s, feeRecipient, factoryAddress);
      match Grant(configured, Admin, authority)
      case Err(e) => Err(e)
      case Ok(s1) =>
        match Grant(s1, FeeManager, authority)
        case Err(e) => Err(e)
        case Ok(s2) => Grant(s2, RateManager, authority)
  }

  function TransferStep(s: State, caller: Address, newAuthority: Address): Result<State, Error> {
    match Grant(s, Admin, newAuthority)
    case Err(e) => Err(e)
    case Ok(s1) => Revoke(s1, Admin, caller)
  }

  function Step(s: State, signers: set<Address>, call: Call): Result<State, Error> {
    match call
    case Initialize(authority, feeRecipient, factoryAddress) =>
      InitializeStep(s, authority, feeRecipient, factoryAddress)
    case GrantRole(caller, role, account) =>
      if MayAct(s, signers, caller, Admin) then Grant(s, role, account) else Err(Denial(signers, caller))
    case RevokeRole(caller, role, account) =>
      if MayAct(s, signers, caller, Admin) then Revoke(s, role, account) else Err(Denial(signers, caller))
    case TransferAuthority(caller, newAuthority) =>
      if MayAct(s, signers, caller, Admin) then TransferStep(s, caller, newAuthority) else Err(Denial(signers, caller))
    case SetFeeBps(caller, feeBps) =>
      if !MayAct(s, signers, caller, FeeManager) then Err(Denial(signers, caller))
      else if feeBps > MAX_FEE_BPS then Err(InvalidParam)
      else Ok(s.(feeBps := Some(feeBps)))
    case SetFeeRecipient(caller, feeRecipient) =>
      if !MayAct(s, signers, caller, FeeManager) then Err(Denial(signers, caller))
      else Ok(s.(feeRecipient := Some(feeRecipient)))
    case SetMinDuration(caller, seconds) =>
      if !MayAct(s, signers, caller, RateManager) then Err(Denial(signers, caller))
      else if seconds == 0 || !FitsI128(ValueOr(s.maxRate, DEFAULT_MAX_RATE) * seconds) then Err(InvalidParam)
      else Ok(s.(minDuration := Some(seconds)))
    case SetMaxRate(caller, maxRate) =>
      if !MayAct(s, signers, caller, RateManager) then Err(Denial(signers, caller))
      else if maxRate <= 0 || !FitsI128(maxRate * ValueOr(s.minDuration, DEFAULT_MIN_DURATION)) then Err(InvalidParam)
      else Ok(s.(maxRate := Some(maxRate)))
    case SetMaxDuration(caller, seconds) =>
      if !MayAct(s, signers, caller, RateManager) then Err(Denial(signers, caller))
      else if seconds == 0 then Err(InvalidParam)
      else Ok(s.(maxDuration := Some(seconds)))
  }

  // ---- The contract ----

  class DripGovernor {
    var feeBps: Option<u32>
    var feeRecipient: Option<Address>
    var minDuration: Option<u64>
    var maxDuration: Option<u64>
    var maxRate: Option<i128>
    var factoryAddress: Option<Address>
    var grants: set<(Role, Address)>
    var adminCount: Option<u32>

    function Snapshot(): State
      reads this
    {
      State(feeBps, feeRecipient, minDuration, maxDuration, maxRate, factoryAddress, grants, adminCount)
    }

    constructor ()
      ensures Snapshot() == BLANK
    {
      feeBps, feeRecipient, minDuration, maxDuration, maxRate, factoryAddress := None, None, None, None, None, None;
      grants, adminCount := {}, None;
    }

    method GrantKey(role: Role, account: Address) returns (ok: bool)
      modifies this`grants, this`adminCount
      ensures var after := Grant(old(Snapshot()), role, account);
              && (ok <==> after.Ok?)
              && Snapshot() == if ok then after.value else old(Snapshot())
    {
      if (role, account) in grants {
        return true;
      }
      if role == Admin {
        if ValueOr(adminCount, 0) + 1 > U32_MAX {
          return false;
        }
        adminCount := Some(ValueOr(adminCount, 0) + 1);
      }
      grants := grants + {(role, account)};
      return true;
    }

    method RevokeKey(role: Role, account: Address) returns (r: Result<(), Error>)
      modifies this`grants, this`adminCount
      ensures var after := Revoke(old(Snapshot()), role, account);
              && (if after.Ok? then r == Ok(()) else r == Err(after.error))
              && Snapshot() == if after.Ok? then after.value else old(Snapshot())
    {
      if (role, account) !in grants {
        return Ok(());
      }
      if role == Admin {
        var count := ValueOr(adminCount, 0);
        if count <= 1 {
          return Err(LastAdmin);
        }
        adminCount := Some(count - 1);
      }
      grants := grants - {(role, account)};
      return Ok(());
    }

    method Initialize(authority: Address, recipient: Address, factory: Address) returns (ok: bool)
      modifies this
      ensures var after := InitializeStep(old(Snapshot()), authority, recipient, factory);
              && (ok <==> after.Ok?)
              && Snapshot() == if ok then after.value else old(Snapshot())
    {
      if factoryAddress.Some? {
        return false;
      }
      var before := Snapshot();
      feeBps, feeRecipient := Some(DEFAULT_FEE_BPS), Some(recipient);
      minDuration, maxDuration := Some(DEFAULT_MIN_DURATION), Some(DEFAULT_MAX_DURATION);
      maxRate, factoryAddress := Some(DEFAULT_MAX_RATE), Some(factory);
      ok := GrantKey(Admin, authority);
      if ok {
        ok := GrantKey(FeeManager, authority);
      }
      if ok {
        ok := GrantKey(RateManager, authority);
      }
      if !ok {
        Restore(before);
      }
    }

    /** The host's rollback of a failed call. */
    method Restore(before: State)
      modifies this
      ensures Snapshot() == before
    {
      feeBps, feeRecipient := before.feeBps, before.feeRecipient;
      minDuration, maxDuration, maxRate := before.minDuration, before.maxDuration, before.maxRate;
      factoryAddress, grants, adminCount := before.factoryAddress, before.grants, before.adminCount;
    }

    method RequireRole(signers: set<Address>, caller: Address, role: Role) returns (r: Result<(), Error>)
      ensures r == if MayAct(Snapshot(), signers, caller, role) then Ok(()) else Err(Denial(signers, caller))
    {
      if caller !in signers {
        return Err(HostTrap);
      }
      if (role, caller) !in grants {
        return Err(NotAuthorized);
      }
      return Ok(());
    }

    method GrantRole(signers: set<Address>, caller: Address, role: Role, account: Address)
      returns (r: Result<(), Error>)
      modifies this`grants, this`adminCount
      ensures Answers(old(Snapshot()), signers, Call.GrantRole(caller, role, account), Snapshot(), r)
    {
      r := RequireRole(signers, caller, Admin);
      if r.Err? {
        return;
      }
      var ok := GrantKey(role, account);
      r := if ok then Ok(()) else Err(HostTrap);
    }

    method RevokeRole(signers: set<Address>, caller: Address, role: Role, account: Address)
      returns (r: Result<(), Error>)
      modifies this`grants, this`adminCount
      ensures Answers(old(Snapshot()), signers, Call.RevokeRole(caller, role, account), Snapshot(), r)
    {
      r := RequireRole(signers, caller, Admin);
      if r.Err? {
        return;
      }
      r := RevokeKey(role, account);
    }

    method TransferAuthority(signers: set<Address>, caller: Address, newAuthority: Address)
      returns (r: Result<(), Error>)
      modifies this`grants, this`adminCount
      ensures Answers(old(Snapshot()), signers, Call.TransferAuthority(caller, newAuthority), Snapshot(), r)
    {
      r := RequireRole(signers, caller, Admin);
      if r.Err? {
        return;
      }
      var grantsBefore, countBefore := grants, adminCount;
      var ok := GrantKey(Admin, newAuthority);
      if !ok {
        return Err(HostTrap);
      }
      r := RevokeKey(Admin, caller);
      if r.Err? {
        grants, adminCount := grantsBefore, countBefore;
      }
    }

    method SetFeeBps(signers: set<Address>, caller: Address, bps: u32) returns (r: Result<(), Error>)
      modifies this`feeBps
      ensures Answers(old(Snapshot()), signers, Call.SetFeeBps(caller, bps), Snapshot(), r)
    {
      r := RequireRole(signers, caller, FeeManager);
      if r.Err? {
        return;
      }
      if bps > MAX_FEE_BPS {
        return Err(InvalidParam);
      }
      feeBps := Some(bps);
    }

    method SetFeeRecipient(signers: set<Address>, caller: Address, recipient: Address) returns (r: Result<(), Error>)
      modifies this`feeRecipient
      ensures Answers(old(Snapshot()), signers, Call.SetFeeRecipient(caller, recipient), Snapshot(), r)
    {
      r := RequireRole(signers, caller, FeeManager);
      if r.Err? {
        return;
      }
      feeRecipient := Some(recipient);
    }

    method SetMinDuration(signers: set<Address>, caller: Address, seconds: u64) returns (r: Result<(), Error>)
      modifies this`minDuration
      ensures Answers(old(Snapshot()), signers, Call.SetMinDuration(caller, seconds), Snapshot(), r)
    {
      r := RequireRole(signers, caller, RateManager);
      if r.Err? {
        return;
      }
      if seconds == 0 {
        return Err(InvalidParam);
      }
      if !FitsI128(ValueOr(maxRate, DEFAULT_MAX_RATE) * seconds) {
        return Err(InvalidParam);
      }
      minDuration := Some(seconds);
    }

    method SetMaxRate(signers: set<Address>, caller: Address, rate: i128) returns (r: Result<(), Error>)
      modifies this`maxRate
      ensures Answers(old(Snapshot()), signers, Call.SetMaxRate(caller, rate), Snapshot(), r)
    {
      r := RequireRole(signers, caller, RateManager);
      if r.Err? {
        return;
      }
      if rate <= 0 {
        return Err(InvalidParam);
      }
      if !FitsI128(rate * ValueOr(minDuration, DEFAULT_MIN_DURATION)) {
        return Err(InvalidParam);
      }
      maxRate := Some(rate);
    }

    method SetMaxDuration(signers: set<Address>, caller: Address, seconds: u64) returns (r: Result<(), Error>)
      modifies this`maxDuration
      ensures Answers(old(Snapshot()), signers, Call.SetMaxDuration(caller, seconds), Snapshot(), r)
    {
      r := RequireRole(signers, caller, RateManager);
      if r.Err? {
        return;
      }
      if seconds == 0 {
        return Err(InvalidParam);
      }
      maxDuration := Some(seconds);
    }
  }

  /** A call answered as the step says, and rolled back when it fails. */
  predicate Answers(before: State, signers: set<Address>, call: Call, after: State, r: Result<(), Error>) {
    match Step(before, signers, call)
    case Ok(next) => r == Ok(()) && after == next
    case Err(e) => r == Err(e) && after == before
  }

  // ---- The counter is a cardinality ----

  function Admins(s: State): set<Address> {
    set g | g in s.grants && g.0 == Admin :: g.1
  }

  /** Initialized and in order: the counter counts the admins, and the parameters respect their bounds. */
  predicate InOrder(s: State) {
    && AdminCount(s) == |Admins(s)| >= 1
    && s.feeRecipient.Some?
    && s.factoryAddress.Some?
    && ValueOr(s.feeBps, DEFAULT_FEE_BPS) <= MAX_FEE_BPS
    && 1 <= ValueOr(s.minDuration, DEFAULT_MIN_DURATION)
    && 1 <= ValueOr(s.maxDuration, DEFAULT_MAX_DURATION)
    && 1 <= ValueOr(s.maxRate, DEFAULT_MAX_RATE)
    && ValueOr(s.maxRate, DEFAULT_MAX_RATE) * ValueOr(s.minDuration, DEFAULT_MIN_DURATION) <= I128_MAX
  }

  lemma GrantAdds(s: State, role: Role, account: Address)
    requires Grant(s, role, account).Ok?
    ensures Admins(Grant(s, role, account).value) == Admins(s) + if role == Admin then {account} else {}
    ensures AdminCount(s) == |Admins(s)| ==>
              AdminCount(Grant(s, role, account).value) == |Admins(Grant(s, role, account).value)|
  {
    var after := Grant(s, role, account).value;
    AdminsMember(s);
    AdminsMember(after);
    assert Admins(after) == Admins(s) + if role == Admin then {account} else {};
  }

  lemma RevokeRemoves(s: State, role: Role, account: Address)
    requires Revoke(s, role, account).Ok?
    ensures Admins(Revoke(s, role, account).value) == Admins(s) - if role == Admin then {account} else {}
    ensures AdminCount(s) == |Admins(s)| ==>
              AdminCount(Revoke(s, role, account).value) == |Admins(Revoke(s, role, account).value)|
  {
    var after := Revoke(s, role, account).value;
    AdminsMember(s);
    AdminsMember(after);
    assert Admins(after) == Admins(s) - if role == Admin then {account} else {};
  }

  lemma AdminsMember(s: State)
    ensures forall a :: a in Admins(s) <==> HasRole(s, Admin, a)
  {
    forall a | HasRole(s, Admin, a)
      ensures a in Admins(s)
    {
      var g := (Admin, a);
      assert g in s.grants && g.0 == Admin && g.1 == a;
    }
  }

  /** The first account to be granted all roles is the only admin. */
  lemma FirstGrants(s: State, a: Address)
    requires s.grants == {} && s.adminCount.None?
    ensures var s1 := s.(grants := {(Admin, a)}, adminCount := Some(1));
            var s2 := s1.(grants := {(Admin, a), (FeeManager, a)});
            && Grant(s, Admin, a) == Ok(s1)
            && Grant(s1, FeeManager, a) == Ok(s2)
            && Grant(s2, RateManager, a) == Ok(s2.(grants := {(Admin, a), (FeeManager, a), (RateManager, a)}))
  {
    assert {} + {(Admin, a)} == {(Admin, a)};
    assert {(Admin, a)} + {(FeeManager, a)} == {(Admin, a), (FeeManager, a)};
    assert {(Admin, a), (FeeManager, a)} + {(RateManager, a)} == {(Admin, a), (FeeManager, a), (RateManager, a)};
  }

  lemma SoleAdmin(s: State, a: Address)
    requires s.grants == {(Admin, a), (FeeManager, a), (RateManager, a)}
    ensures Admins(s) == {a} && |Admins(s)| == 1
  {
    AdminsMember(s);
    assert Admins(s) == {a};
  }

  lemma InitializeOrders(authority: Address, feeRecipient: Address, factoryAddress: Address)
    ensures InitializeStep(BLANK, authority, feeRecipient, factoryAddress).Ok?
    ensures var s := InitializeStep(BLANK, authority, feeRecipient, factoryAddress).value;
            && InOrder(s)
            && Admins(s) == {authority}
            && HasRole(s, FeeManager, authority) && HasRole(s, RateManager, authority)
  {
    FirstGrants(Configured(BLANK, feeRecipient, factoryAddress), authority);
    SoleAdmin(InitializeStep(BLANK, authority, feeRecipient, factoryAddress).value, authority);
  }

  lemma GrantKeepsOrder(s: State, role: Role, account: Address)
    requires InOrder(s) && Grant(s, role, account).Ok?
    ensures InOrder(Grant(s, role, account).value)
  {
    GrantAdds(s, role, account);
    if role == Admin { SubsetSize({account}, Admins(s) + {account}); }
  }

  lemma RevokeKeepsOrder(s: State, role: Role, account: Address)
    requires InOrder(s) && Revoke(s, role, account).Ok?
    ensures InOrder(Revoke(s, role, account).value)
  {
    RevokeRemoves(s, role, account);
  }

  lemma SettersKeepOrder(s: State, signers: set<Address>, call: Call)
    requires InOrder(s) && Step(s, signers, call).Ok?
    requires !call.Initialize? && !call.GrantRole? && !call.RevokeRole? && !call.TransferAuthority?
    ensures InOrder(Step(s, signers, call).value)
  {
    assert Admins(Step(s, signers, call).value) == Admins(s);
  }

  lemma StepKeepsOrder(s: State, signers: set<Address>, call: Call)
    requires InOrder(s) && Step(s, signers, call).Ok?
    ensures InOrder(Step(s, signers, call).value)
  {
    if call.GrantRole? {
      GrantKeepsOrder(s, call.role, call.account);
    } else if call.RevokeRole? {
      RevokeKeepsOrder(s, call.role, call.account);
    } else if call.TransferAuthority? {
      GrantKeepsOrder(s, Admin, call.newAuthority);
      RevokeKeepsOrder(Grant(s, Admin, call.newAuthority).value, Admin, call.caller);
    } else if !call.Initialize? {
      SettersKeepOrder(s, signers, call);
    }
  }

  /** The governor after a history of signed calls; a failed call changes nothing. */
  function After(history: seq<(set<Address>, Call)>): State {
    if |history| == 0 then BLANK
    else
      var (signers, call) := history[|history| - 1];
      var before := After(history[..|history| - 1]);
      match Step(before, signers, call)
      case Ok(s) => s
      case Err(_) => before
  }

  /**
   In every reachable state the governor is untouched or in order: the admin counter equals the number
   of accounts holding Admin, and max rate x min duration fits an i128. Once in order it stays so: the
   number of admins never returns to zero.
   */
  lemma {:induction false} AdminCountIsCardinality(history: seq<(set<Address>, Call)>)
    ensures After(history) == BLANK || InOrder(After(history))
    ensures forall k :: 0 <= k <= |history| && InOrder(After(history[..k])) ==> InOrder(After(history))
  {
    assert history[..|history|] == history;
    if |history| > 0 {
      var (signers, call) := history[|history| - 1];
      var before := After(history[..|history| - 1]);
      AdminCountIsCardinality(history[..|history| - 1]);
      assert forall k :: 0 <= k < |history| ==> history[..|history| - 1][..k] == history[..k];
      if Step(before, signers, call).Ok? {
        if InOrder(before) {
          StepKeepsOrder(before, signers, call);
        } else {
          FirstStepOrders(signers, call);
        }
      }
    }
  }

  /** Nobody holds a role before initialization, so nothing else can happen first. */
  lemma FirstStepOrders(signers: set<Address>, call: Call)
    requires Step(BLANK, signers, call).Ok?
    ensures call.Initialize? && InOrder(Step(BLANK, signers, call).value)
  {
    if call.Initialize? { InitializeOrders(call.authority, call.feeRecipient, call.factoryAddress); }
  }

  /** Revoking Admin is refused exactly when it would remove the only one. */
  lemma LastAdminExactly(s: State, signers: set<Address>, caller: Address, account: Address)
    requires InOrder(s) && MayAct(s, signers, caller, Admin)
    ensures Step(s, signers, RevokeRole(caller, Admin, account)) == Err(LastAdmin) <==> Admins(s) == {account}
    ensures Step(s, signers, RevokeRole(caller, Admin, account)).Ok? ==>
              Admins(Step(s, signers, RevokeRole(caller, Admin, account)).value) == Admins(s) - {account}
  {
    AdminsMember(s);
    if account in Admins(s) && |Admins(s)| == 1 {
      assert |Admins(s) - {account}| == 0;
      assert Admins(s) == {account};
    }
    if Revoke(s, Admin, account).Ok? { RevokeRemoves(s, Admin, account); }
  }

  /**
   Handing authority to a different account never meets the last-admin guard (only a full counter can
   stop it) and leaves the new account in and the caller out. Handing it to oneself is a revocation:
   refused to the only admin, and otherwise the caller simply loses the role.
   */
  lemma TransferAuthorityExactly(s: State, signers: set<Address>, caller: Address, newAuthority: Address)
    requires InOrder(s) && MayAct(s, signers, caller, Admin)
    ensures var r := Step(s, signers, TransferAuthority(caller, newAuthority));
            && (r == Err(LastAdmin) <==> caller == newAuthority && Admins(s) == {caller})
            && (r == Err(HostTrap) <==> newAuthority !in Admins(s) && |Admins(s)| == U32_MAX)
            && (r.Ok? <==> r != Err(LastAdmin) && r != Err(HostTrap))
            && (r.Ok? ==>
                  && Admins(r.value) == Admins(s) + {newAuthority} - {caller}
                  && !HasRole(r.value, Admin, caller)
                  && (HasRole(r.value, Admin, newAuthority) <==> newAuthority != caller))
  {
    AdminsMember(s);
    if Grant(s, Admin, newAuthority).Ok? {
      var s1 := Grant(s, Admin, newAuthority).value;
      GrantAdds(s, Admin, newAuthority);
      AdminsMember(s1);
      if caller != newAuthority { SubsetSize({caller, newAuthority}, Admins(s1)); }
      if |Admins(s)| == 1 {
        assert |Admins(s) - {caller}| == 0;
        assert Admins(s) == {caller};
      }
      if Revoke(s1, Admin, caller).Ok? {
        RevokeRemoves(s1, Admin, caller);
        AdminsMember(Revoke(s1, Admin, caller).value);
      }
    }
  }

  /** And the guard is met at once: the account a governor is deployed with cannot transfer to itself. */
  lemma SoleAdminCannotTransferToItself(a: Address, feeRecipient: Address, factoryAddress: Address)
    ensures var s := After([({}, Initialize(a, feeRecipient, factoryAddress))]);
            Step(s, {a}, TransferAuthority(a, a)) == Err(LastAdmin)
  {
    var history := [({}, Initialize(a, feeRecipient, factoryAddress))];
    assert history[..0] == [];
    InitializeOrders(a, feeRecipient, factoryAddress);
    assert After(history) == InitializeStep(BLANK, a, feeRecipient, factoryAddress).value;
    AdminsMember(After(history));
    TransferAuthorityExactly(After(history), {a}, a, a);
  }

  lemma SubsetSize(x: set<Address>, y: set<Address>)
    requires x <= y
    ensures |x| <= |y|
  {
    assert y == x + (y - x);
  }
}
