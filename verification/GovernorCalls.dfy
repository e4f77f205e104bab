/**
 What the governor's calls ask, do and answer, as a table; and what its roles and parameters are after
 any history: what the last accepted call made of them.
 */
module GovernorCalls {
  import opened Host
  import opened Governor

  // ---- The table ----

  datatype Check =
    | IsNew
    | CallerSigned
    | CallerHolds(role: Role)
    | CounterHasRoom
    | AnAdminRemains
    | FeeIsInRange
    | ArgumentIsPositive
    | ProductFits

  /** The checks of each call, in the order in which they decide. */
  function Checks(call: Call): seq<Check> {
    match call
    case Initialize(_, _, _) => [IsNew]
    case GrantRole(_, _, _) => [CallerSigned, CallerHolds(Admin), CounterHasRoom]
    case RevokeRole(_, _, _) => [CallerSigned, CallerHolds(Admin), AnAdminRemains]
    case TransferAuthority(_, _) => [CallerSigned, CallerHolds(Admin), CounterHasRoom, AnAdminRemains]
    case SetFeeBps(_, _) => [CallerSigned, CallerHolds(FeeManager), FeeIsInRange]
    case SetFeeRecipient(_, _) => [CallerSigned, CallerHolds(FeeManager)]
    case SetMinDuration(_, _) => [CallerSigned, CallerHolds(RateManager), ArgumentIsPositive, ProductFits]
    case SetMaxRate(_, _) => [CallerSigned, CallerHolds(RateManager), ArgumentIsPositive, ProductFits]
    case SetMaxDuration(_, _) => [CallerSigned, CallerHolds(RateManager), ArgumentIsPositive]
  }

  function ErrorOf(check: Check): Error {
    match check
    case IsNew => AlreadyInitialized
    case CallerSigned => HostTrap
    case CallerHolds(_) => NotAuthorized
    case CounterHasRoom => HostTrap
    case AnAdminRemains => LastAdmin
    case FeeIsInRange => InvalidParam
    case ArgumentIsPositive => InvalidParam
    case ProductFits => InvalidParam
  }

  /** The grants a call adds, and those it takes away. */
  function Added(call: Call): set<(Role, Address)> {
    match call
    case Initialize(a, _, _) => {(Admin, a), (FeeManager, a), (RateManager, a)}
    case GrantRole(_, role, account) => {(role, account)}
    case TransferAuthority(_, newAuthority) => {(Admin, newAuthority)}
    case _ => {}
  }

  function Removed(call: Call): set<(Role, Address)> {
    match call
    case RevokeRole(_, role, account) => {(role, account)}
    case TransferAuthority(caller, _) => {(Admin, caller)}
    case _ => {}
  }

  /** The number a setter is given. */
  function Argument(call: Call): int {
    match call
    case SetFeeBps(_, bps) => bps
    case SetMinDuration(_, seconds) => seconds
    case SetMaxRate(_, rate) => rate
    case SetMaxDuration(_, seconds) => seconds
    case _ => 0
  }

  predicate Passes(s: State, signers: set<Address>, call: Call, check: Check) {
    match check
    case IsNew => s == BLANK
    case CallerSigned => !call.Initialize? ==> call.caller in signers
    case CallerHolds(role) => !call.Initialize? ==> (role, call.caller) in s.grants
    case CounterHasRoom => |AdminsOf(s.grants + Added(call))| <= 0xFFFF_FFFF
    case AnAdminRemains => AdminsOf((s.grants + Added(call)) - Removed(call)) != {}
    case FeeIsInRange => Argument(call) <= 10_000
    case ArgumentIsPositive => Argument(call) > 0
    case ProductFits =>
      (if call.SetMinDuration? then Argument(call) * ValueOr(s.maxRate, 0)
       else Argument(call) * ValueOr(s.minDuration, 0)) <= I128_MAX
  }

  function AdminsOf(grants: set<(Role, Address)>): set<Address> {
    set g | g in grants && g.0 == Admin :: g.1
  }

  predicate FailsFirst(s: State, signers: set<Address>, call: Call, i: nat) {
    && i < |Checks(call)|
    && !Passes(s, signers, call, Checks(call)[i])
    && forall j :: 0 <= j < i ==> Passes(s, signers, call, Checks(call)[j])
  }

  predicate AllPass(s: State, signers: set<Address>, call: Call) {
    forall i :: 0 <= i < |Checks(call)| ==> Passes(s, signers, call, Checks(call)[i])
  }

  /** The parameter a setter writes; every other parameter, and every grant a call does not name, stays. */
  function WithArgument(s: State, call: Call): State {
    match call
    case Initialize(_, recipient, factory) =>
      s.(feeBps := Some(30), feeRecipient := Some(recipient), minDuration := Some(3_600),
         maxDuration := Some(315_360_000), maxRate := Some(1_000_000_000_000_000), factoryAddress := Some(factory))
    case SetFeeBps(_, bps) => s.(feeBps := Some(bps))
    case SetFeeRecipient(_, recipient) => s.(feeRecipient := Some(recipient))
    case SetMinDuration(_, seconds) => s.(minDuration := Some(seconds))
    case SetMaxDuration(_, seconds) => s.(maxDuration := Some(seconds))
    case SetMaxRate(_, rate) => s.(maxRate := Some(rate))
    case _ => s
  }

  /** The whole effect of a call that goes through. */
  predicate Does(s: State, call: Call, after: State) {
    && after == WithArgument(s, call).(grants := (s.grants + Added(call)) - Removed(call),
                                       adminCount := after.adminCount)
    && AdminCount(after) == |AdminsOf(after.grants)|
  }

  /** Not yet initialized, or in order with every parameter stored. */
  predicate Settled(s: State) {
    s == BLANK
    || (InOrder(s) && s.feeBps.Some? && s.minDuration.Some? && s.maxDuration.Some? && s.maxRate.Some?)
  }

  ghost predicate Answered(s: State, signers: set<Address>, call: Call) {
    && (AllPass(s, signers, call) ==> Step(s, signers, call).Ok? && Does(s, call, Step(s, signers, call).value))
    && Refuses(s, signers, call)
  }

  ghost predicate Refuses(s: State, signers: set<Address>, call: Call) {
    forall i: nat :: FailsFirst(s, signers, call, i) ==>
      Step(s, signers, call) == Err(ErrorOf(Checks(call)[i]))
  }

  lemma InitializeAnswers(s: State, signers: set<Address>, a: Address, recipient: Address, factory: Address)
    requires Settled(s)
    ensures Answered(s, signers, Initialize(a, recipient, factory))
  {
    var call := Initialize(a, recipient, factory);
    assert Checks(call)[0] == IsNew;
    if s == BLANK {
      var configured := Configured(BLANK, recipient, factory);
      FirstGrants(configured, a);
      SoleAdmin(InitializeStep(BLANK, a, recipient, factory).value, a);
      assert ({} + Added(call)) - Removed(call) == Added(call);
    }
  }

  lemma SameAdmins(s: State)
    ensures AdminsOf(s.grants) == Admins(s)
  {
  }

  lemma GrantAnswers(s: State, signers: set<Address>, caller: Address, role: Role, account: Address)
    requires Settled(s)
    ensures Answered(s, signers, GrantRole(caller, role, account))
  {
    var call := GrantRole(caller, role, account);
    var c := Checks(call);
    assert c[0] == CallerSigned && c[1] == CallerHolds(Admin) && c[2] == CounterHasRoom;
    assert (s.grants + Added(call)) - Removed(call) == s.grants + {(role, account)};
    if MayAct(s, signers, caller, Admin) {
      GrantOutcome(s, role, account);
    } else {
      assert !Passes(s, signers, call, c[0]) || !Passes(s, signers, call, c[1]);
    }
  }

  lemma GrantedAdmins(grants: set<(Role, Address)>, role: Role, account: Address)
    ensures AdminsOf(grants + {(role, account)}) == AdminsOf(grants) + if role == Admin then {account} else {}
    ensures account in AdminsOf(grants) <==> (Admin, account) in grants
  {
    AdminsHold(grants);
    AdminsHold(grants + {(role, account)});
    assert AdminsOf(grants + {(role, account)}) == AdminsOf(grants) + if role == Admin then {account} else {};
  }

  lemma RevokedAdmins(grants: set<(Role, Address)>, role: Role, account: Address)
    ensures AdminsOf(grants - {(role, account)}) == AdminsOf(grants) - if role == Admin then {account} else {}
    ensures account in AdminsOf(grants) <==> (Admin, account) in grants
  {
    AdminsHold(grants);
    AdminsHold(grants - {(role, account)});
    assert AdminsOf(grants - {(role, account)}) == AdminsOf(grants) - if role == Admin then {account} else {};
  }

  lemma AdminsHold(grants: set<(Role, Address)>)
    ensures forall a :: a in AdminsOf(grants) <==> (Admin, a) in grants
  {
    forall a | (Admin, a) in grants
      ensures a in AdminsOf(grants)
    {
      var g := (Admin, a);
      assert g in grants && g.0 == Admin && g.1 == a;
    }
  }

  lemma OneLeft(admins: set<Address>, a: Address)
    requires a in admins
    ensures |admins| <= 1 <==> admins - {a} == {}
    ensures |admins - {a}| == |admins| - 1
  {
    assert |admins - {a}| == |admins| - 1;
    if |admins| <= 1 { assert |admins - {a}| == 0; }
  }

  lemma RevokeAnswers(s: State, signers: set<Address>, caller: Address, role: Role, account: Address)
    requires Settled(s)
    ensures Answered(s, signers, RevokeRole(caller, role, account))
  {
    var call := RevokeRole(caller, role, account);
    var c := Checks(call);
    assert c[0] == CallerSigned && c[1] == CallerHolds(Admin) && c[2] == AnAdminRemains;
    assert (s.grants + Added(call)) - Removed(call) == s.grants - {(role, account)};
    if MayAct(s, signers, caller, Admin) {
      RevokeOutcome(s, caller, role, account);
    } else {
      assert !Passes(s, signers, call, c[0]) || !Passes(s, signers, call, c[1]);
    }
  }

  lemma RevokeOutcome(s: State, admin: Address, role: Role, account: Address)
    requires InOrder(s) && HasRole(s, Admin, admin)
    ensures var left := s.grants - {(role, account)};
            if AdminsOf(left) == {} then Revoke(s, role, account) == Err(LastAdmin)
            else
              && Revoke(s, role, account).Ok?
              && var s1 := Revoke(s, role, account).value;
              && s1 == s.(grants := left, adminCount := s1.adminCount)
              && AdminCount(s1) == |AdminsOf(left)|
  {
    SameAdmins(s);
    AdminsHold(s.grants);
    RevokedAdmins(s.grants, role, account);
    if account in AdminsOf(s.grants) { OneLeft(AdminsOf(s.grants), account); }
    if (role, account) !in s.grants { assert s.grants - {(role, account)} == s.grants; }
  }

  lemma TransferAnswers(s: State, signers: set<Address>, caller: Address, newAuthority: Address)
    requires Settled(s)
    ensures Answered(s, signers, TransferAuthority(caller, newAuthority))
  {
    var call := TransferAuthority(caller, newAuthority);
    var c := Checks(call);
    assert c[0] == CallerSigned && c[1] == CallerHolds(Admin) && c[2] == CounterHasRoom && c[3] == AnAdminRemains;
    if MayAct(s, signers, caller, Admin) {
      TransferOutcome(s, caller, newAuthority);
    } else {
      assert !Passes(s, signers, call, c[0]) || !Passes(s, signers, call, c[1]);
    }
  }

  /** A grant and then a revoke, each decided by the admins there are. */
  lemma TransferOutcome(s: State, caller: Address, newAuthority: Address)
    requires InOrder(s) && HasRole(s, Admin, caller)
    ensures var granted := s.grants + {(Admin, newAuthority)};
            var r := TransferStep(s, caller, newAuthority);
            && (|AdminsOf(granted)| > 0xFFFF_FFFF <==> r == Err(HostTrap))
            && (|AdminsOf(granted)| <= 0xFFFF_FFFF ==>
                  if AdminsOf(granted - {(Admin, caller)}) == {} then r == Err(LastAdmin)
                  else r.Ok? && Does(s, TransferAuthority(caller, newAuthority), r.value))
  {
    var granted := s.grants + {(Admin, newAuthority)};
    SameAdmins(s);
    GrantedAdmins(s.grants, Admin, newAuthority);
    GrantedAdmins(s.grants, Admin, caller);
    if Grant(s, Admin, newAuthority).Ok? {
      var s1 := Grant(s, Admin, newAuthority).value;
      GrantOutcome(s, Admin, newAuthority);
      RevokedAdmins(granted, Admin, caller);
      OneLeft(AdminsOf(granted), caller);
    }
  }

  lemma GrantOutcome(s: State, role: Role, account: Address)
    requires InOrder(s)
    ensures var granted := s.grants + {(role, account)};
            if |AdminsOf(granted)| > 0xFFFF_FFFF then Grant(s, role, account) == Err(HostTrap)
            else
              && Grant(s, role, account).Ok?
              && var s1 := Grant(s, role, account).value;
              && s1 == s.(grants := granted, adminCount := s1.adminCount)
              && AdminCount(s1) == |AdminsOf(granted)|
  {
    SameAdmins(s);
    GrantedAdmins(s.grants, role, account);
    if (role, account) in s.grants { assert s.grants + {(role, account)} == s.grants; }
  }

  lemma SetterAnswers(s: State, signers: set<Address>, call: Call)
    requires Settled(s)
    requires Added(call) == {} && Removed(call) == {}
    ensures Answered(s, signers, call)
  {
    SetterRefuses(s, signers, call);
    var c := Checks(call);
    assert c[0] == CallerSigned && c[1].CallerHolds?;
    assert |c| > 2 ==> c[2] == FeeIsInRange || c[2] == ArgumentIsPositive;
    assert |c| > 3 ==> c[3] == ProductFits;
    if AllPass(s, signers, call) {
      assert (s.grants + Added(call)) - Removed(call) == s.grants;
      SameAdmins(s);
    }
  }

  lemma SetterRefuses(s: State, signers: set<Address>, call: Call)
    requires Settled(s)
    requires Added(call) == {} && Removed(call) == {}
    ensures Refuses(s, signers, call)
  {
    var c := Checks(call);
    assert c[0] == CallerSigned && c[1].CallerHolds?;
    assert |c| > 2 ==> c[2] == FeeIsInRange || c[2] == ArgumentIsPositive;
    assert |c| > 3 ==> c[3] == ProductFits;
  }

  /**
   In every reachable state each call has exactly the table's answer: its whole effect if all checks pass,
   and otherwise the error of the first that does not.
   */
  lemma CallAnswersExactly(s: State, signers: set<Address>, call: Call)
    requires Settled(s)
    ensures Answered(s, signers, call)
  {
    match call
    case Initialize(a, recipient, factory) => InitializeAnswers(s, signers, a, recipient, factory);
    case GrantRole(caller, role, account) => GrantAnswers(s, signers, caller, role, account);
    case RevokeRole(caller, role, account) => RevokeAnswers(s, signers, caller, role, account);
    case TransferAuthority(caller, newAuthority) => TransferAnswers(s, signers, caller, newAuthority);
    case SetFeeBps(_, _) => SetterAnswers(s, signers, call);
    case SetFeeRecipient(_, _) => SetterAnswers(s, signers, call);
    case SetMinDuration(_, _) => SetterAnswers(s, signers, call);
    case SetMaxRate(_, _) => SetterAnswers(s, signers, call);
    case SetMaxDuration(_, _) => SetterAnswers(s, signers, call);
  }

  // ---- Over any history ----

  lemma StepKeepsSettled(s: State, signers: set<Address>, call: Call)
    requires Settled(s) && Step(s, signers, call).Ok?
    ensures Settled(Step(s, signers, call).value)
  {
    if s == BLANK { FirstStepOrders(signers, call); } else { StepKeepsOrder(s, signers, call); }
    AcceptedDoes(s, signers, call);
  }

  /** A call that is accepted has its effect. */
  lemma AcceptedDoes(s: State, signers: set<Address>, call: Call)
    requires Settled(s) && Step(s, signers, call).Ok?
    ensures AllPass(s, signers, call) && Does(s, call, Step(s, signers, call).value)
  {
    CallAnswersExactly(s, signers, call);
    if n :| 0 <= n < |Checks(call)| && !Passes(s, signers, call, Checks(call)[n]) {
      var i := SomeCheckFailsFirst(s, signers, call, n);
    }
  }

  lemma SomeCheckFailsFirst(s: State, signers: set<Address>, call: Call, n: nat) returns (i: nat)
    requires n < |Checks(call)| && !Passes(s, signers, call, Checks(call)[n])
    ensures i <= n && FailsFirst(s, signers, call, i)
  {
    if j :| 0 <= j < n && !Passes(s, signers, call, Checks(call)[j]) {
      i := SomeCheckFailsFirst(s, signers, call, j);
    } else {
      i := n;
    }
  }

  lemma {:induction false} AlwaysSettled(history: seq<(set<Address>, Call)>)
    ensures Settled(After(history))
  {
    if |history| > 0 {
      var (signers, call) := history[|history| - 1];
      AlwaysSettled(history[..|history| - 1]);
      if Step(After(history[..|history| - 1]), signers, call).Ok? {
        StepKeepsSettled(After(history[..|history| - 1]), signers, call);
      }
    }
  }

  /** Whether the account was given the role by the last accepted call that gave or took it. */
  predicate LastGiven(history: seq<(set<Address>, Call)>, role: Role, account: Address) {
    if |history| == 0 then false
    else
      var (signers, call) := history[|history| - 1];
      var past := history[..|history| - 1];
      if Step(After(past), signers, call).Err? then LastGiven(past, role, account)
      else if (role, account) in Removed(call) then false
      else if (role, account) in Added(call) then true
      else LastGiven(past, role, account)
  }

  /** After any history an account holds a role exactly if the last accepted call about that pair gave it. */
  lemma {:induction false} RolesFollowCalls(history: seq<(set<Address>, Call)>, role: Role, account: Address)
    ensures HasRole(After(history), role, account) <==> LastGiven(history, role, account)
  {
    if |history| > 0 {
      var (signers, call) := history[|history| - 1];
      var past := history[..|history| - 1];
      RolesFollowCalls(past, role, account);
      AlwaysSettled(past);
      if Step(After(past), signers, call).Ok? { AcceptedDoes(After(past), signers, call); }
    }
  }

  /** The parameters, each with its setter. */
  datatype Parameter = FeeBps | FeeRecipient | MinDuration | MaxDuration | MaxRate | Deployment

  function Sets(call: Call): Option<Parameter> {
    match call
    case Initialize(_, _, _) => Some(Deployment)
    case SetFeeBps(_, _) => Some(FeeBps)
    case SetFeeRecipient(_, _) => Some(FeeRecipient)
    case SetMinDuration(_, _) => Some(MinDuration)
    case SetMaxDuration(_, _) => Some(MaxDuration)
    case SetMaxRate(_, _) => Some(MaxRate)
    case _ => None
  }

  /** The last accepted call that set the parameter. */
  function LastSetting(history: seq<(set<Address>, Call)>, p: Parameter): (r: Option<Call>)
    ensures r.Some? ==> Sets(r.value) == Some(p)
  {
    if |history| == 0 then None
    else
      var (signers, call) := history[|history| - 1];
      var past := history[..|history| - 1];
      if Sets(call) == Some(p) && Step(After(past), signers, call).Ok? then Some(call) else LastSetting(past, p)
  }

  /** The configuration that the last settings, or else the deployment, amount to. */
  predicate Reflects(r: Result<Config, Error>, history: seq<(set<Address>, Call)>) {
    match LastSetting(history, Deployment)
    case None => r == Err(NotInitialized)
    case Some(deployed) =>
      && r.Ok?
      && r.value.factoryAddress == deployed.factoryAddress
      && r.value.feeBps == (match LastSetting(history, FeeBps) case Some(c) => c.feeBps case None => 30)
      && r.value.feeRecipient
           == (match LastSetting(history, FeeRecipient)
               case Some(c) => c.feeRecipient
               case None => deployed.feeRecipient)
      && r.value.minDuration == (match LastSetting(history, MinDuration) case Some(c) => c.seconds case None => 3_600)
      && r.value.maxDuration
           == (match LastSetting(history, MaxDuration) case Some(c) => c.seconds case None => 315_360_000)
      && r.value.maxRate
           == (match LastSetting(history, MaxRate) case Some(c) => c.maxRate case None => 1_000_000_000_000_000)
  }

  /** Nothing is set before the deployment. */
  lemma {:induction false} NothingSetBeforeDeployment(history: seq<(set<Address>, Call)>, p: Parameter)
    ensures After(history) == BLANK <==> LastSetting(history, Deployment).None?
    ensures After(history) == BLANK ==> LastSetting(history, p).None?
  {
    if |history| > 0 {
      var (signers, call) := history[|history| - 1];
      var past := history[..|history| - 1];
      NothingSetBeforeDeployment(past, p);
      AlwaysSettled(past);
      if Step(After(past), signers, call).Ok? {
        if After(past) == BLANK {
          FirstStepOrders(signers, call);
        } else {
          StepKeepsOrder(After(past), signers, call);
          AcceptedDoes(After(past), signers, call);
          OnlyOnce(After(past), signers, call);
        }
      }
    }
  }

  /** After any history the configuration the factory reads is the one the last accepted setters asked for. */
  lemma {:induction false} ConfigFollowsSetters(history: seq<(set<Address>, Call)>)
    ensures Reflects(LoadConfig(After(history)), history)
  {
    if |history| > 0 {
      var (signers, call) := history[|history| - 1];
      var past := history[..|history| - 1];
      ConfigFollowsSetters(past);
      AlwaysSettled(past);
      NothingSetBeforeDeployment(past, FeeBps);
      if Step(After(past), signers, call).Ok? {
        AcceptedDoes(After(past), signers, call);
        SettingReflects(past, signers, call);
      }
    }
  }

  lemma OnlyOnce(s: State, signers: set<Address>, call: Call)
    requires AllPass(s, signers, call) && s != BLANK
    ensures !call.Initialize?
  {
    var first := Checks(call)[0];
    assert call.Initialize? ==> first == IsNew;
  }

  /** An accepted call is the last setting of what it sets, and leaves the other settings. */
  lemma LastSettingSnoc(past: seq<(set<Address>, Call)>, signers: set<Address>, call: Call, p: Parameter)
    requires Step(After(past), signers, call).Ok?
    ensures LastSetting(past + [(signers, call)], p)
         == if Sets(call) == Some(p) then Some(call) else LastSetting(past, p)
  {
    assert (past + [(signers, call)])[..|past|] == past;
  }

  lemma SettingReflects(past: seq<(set<Address>, Call)>, signers: set<Address>, call: Call)
    requires Settled(After(past)) && Reflects(LoadConfig(After(past)), past)
    requires Step(After(past), signers, call).Ok? && Does(After(past), call, Step(After(past), signers, call).value)
    requires AllPass(After(past), signers, call)
    ensures Reflects(LoadConfig(Step(After(past), signers, call).value), past + [(signers, call)])
  {
    forall p: Parameter
      ensures LastSetting(past + [(signers, call)], p)
           == if Sets(call) == Some(p) then Some(call) else LastSetting(past, p)
    {
      LastSettingSnoc(past, signers, call, p);
    }
    if After(past) == BLANK {
      FirstStepOrders(signers, call);
      forall p: Parameter
        ensures LastSetting(past, p).None?
      {
        NothingSetBeforeDeployment(past, p);
      }
    } else {
      OnlyOnce(After(past), signers, call);
      ParametersReflect(After(past), Step(After(past), signers, call).value, past, past + [(signers, call)], call);
    }
  }

  /** Where only the named setting changes, in the state and in the history, the two keep agreeing. */
  lemma ParametersReflect(s: State, after: State, past: seq<(set<Address>, Call)>, history: seq<(set<Address>, Call)>,
                          call: Call)
    requires Settled(s) && s != BLANK && Does(s, call, after) && !call.Initialize?
    requires Reflects(LoadConfig(s), past)
    requires forall p: Parameter ::
               LastSetting(history, p) == if Sets(call) == Some(p) then Some(call) else LastSetting(past, p)
    ensures Reflects(LoadConfig(after), history)
  {
    assert LastSetting(history, Deployment) == LastSetting(past, Deployment);
    assert Sets(call) != Some(FeeBps) ==> LastSetting(history, FeeBps) == LastSetting(past, FeeBps);
    assert Sets(call) != Some(MaxRate) ==> LastSetting(history, MaxRate) == LastSetting(past, MaxRate);
  }
}
