/**
 The persisted state of one stream: the consolidated record, its flag bits, and the
 store that keeps the record both under one key and under the older per-field keys.
 */
module StreamStorage {
  import opened Host

  const FLAG_PAUSED: bv32 := 1
  const FLAG_CLAWBACK_ENABLED: bv32 := 2
  const FLAG_CANCELLED: bv32 := 4

  datatype Error =
    | StreamCancelled
    | NothingToWithdraw
    | InvalidTimeRange
    | AlreadyPaused
    | NotPaused
    | ClawbackDisabled
    | ArithmeticOverflow
    | PauseThresholdNotMet
    | AlreadyInitialized
    | InvalidAmount
    | HostTrap  // a panic, a failed authorization or a failed token call

  datatype StreamInfo = StreamInfo(
    sender: Address,
    recipient: Address,
    token: Address,
    rate: i128,
    startTime: u64,
    endTime: u64,
    withdrawn: i128,
    pausedAt: u64,
    flags: bv32)
  {
    predicate IsPaused() { flags & FLAG_PAUSED != 0 }

    predicate IsCancelled() { flags & FLAG_CANCELLED != 0 }

    predicate IsClawbackEnabled() { flags & FLAG_CLAWBACK_ENABLED != 0 }
  }

  /** Setting the pause bit leaves the other two bits alone, and clearing it afterwards undoes it. */
  function WithPause(flags: bv32): (r: bv32)
    ensures r & FLAG_PAUSED != 0
    ensures r & FLAG_CANCELLED == flags & FLAG_CANCELLED
    ensures r & FLAG_CLAWBACK_ENABLED == flags & FLAG_CLAWBACK_ENABLED
  {
    flags | FLAG_PAUSED
  }

  function WithoutPause(flags: bv32): (r: bv32)
    ensures r & FLAG_PAUSED == 0
    ensures r & FLAG_CANCELLED == flags & FLAG_CANCELLED
    ensures r & FLAG_CLAWBACK_ENABLED == flags & FLAG_CLAWBACK_ENABLED
  {
    flags & !FLAG_PAUSED
  }

  function WithCancel(flags: bv32): (r: bv32)
    ensures r & FLAG_CANCELLED != 0
    ensures r & FLAG_PAUSED == flags & FLAG_PAUSED
    ensures r & FLAG_CLAWBACK_ENABLED == flags & FLAG_CLAWBACK_ENABLED
  {
    flags | FLAG_CANCELLED
  }

  lemma PauseThenResumeRestoresFlags(flags: bv32)
    requires flags & FLAG_PAUSED == 0
    ensures WithoutPause(WithPause(flags)) == flags
  {
  }

  /** Instance storage, one field per key; None is an absent key. */
  datatype Store = Store(
    config: Option<StreamInfo>,
    sender: Option<Address>,
    recipient: Option<Address>,
    token: Option<Address>,
    rate: Option<i128>,
    startTime: Option<u64>,
    endTime: Option<u64>,
    withdrawn: Option<i128>,
    pausedAt: Option<u64>,
    flags: Option<bv32>,
    clawbackEnabled: Option<bool>,
    cancelled: Option<bool>)

  const EMPTY_STORE: Store := Store(None, None, None, None, None, None, None, None, None, None, None, None)

  /** The read rebuilt from the individual keys; None is the trap of an `unwrap` on a missing key. */
  function LoadFields(s: Store): Option<StreamInfo> {
    if s.sender.None? || s.recipient.None? || s.token.None? || s.rate.None? || s.startTime.None? || s.endTime.None?
    then None
    else
      var base := ValueOr(s.flags, 0);
      var withClawback := if ValueOr(s.clawbackEnabled, false) then base | FLAG_CLAWBACK_ENABLED else base;
      var allFlags := if ValueOr(s.cancelled, false) then withClawback | FLAG_CANCELLED else withClawback;
      Some(StreamInfo(s.sender.value, s.recipient.value, s.token.value, s.rate.value,
                      s.startTime.value, s.endTime.value,
                      ValueOr(s.withdrawn, 0), ValueOr(s.pausedAt, 0), allFlags))
  }

  /** The consolidated key wins; the individual keys are the fallback. */
  function Load(s: Store): Option<StreamInfo> {
    if s.config.Some? then s.config else LoadFields(s)
  }

  /** Writes the consolidated key and every individual key except the two old booleans. */
  function Save(s: Store, info: StreamInfo): Store {
    s.(config := Some(info),
       sender := Some(info.sender),
       recipient := Some(info.recipient),
       token := Some(info.token),
       rate := Some(info.rate),
       startTime := Some(info.startTime),
       endTime := Some(info.endTime),
       withdrawn := Some(info.withdrawn),
       pausedAt := Some(info.pausedAt),
       flags := Some(info.flags))
  }

  /** Load, change one field, save. */
  function SaveWithdrawn(s: Store, amount: i128): Store
    requires Load(s).Some?
  {
    Save(s, Load(s).value.(withdrawn := amount))
  }

  function SetCancelled(s: Store): Store
    requires Load(s).Some?
  {
    var info := Load(s).value;
    Save(s, info.(flags := WithCancel(info.flags)))
  }

  /** What the two old booleans assert is also asserted by the flag bits. */
  predicate OldBooleansAgree(s: Store, info: StreamInfo) {
    && (ValueOr(s.clawbackEnabled, false) ==> info.IsClawbackEnabled())
    && (ValueOr(s.cancelled, false) ==> info.IsCancelled())
  }

  /** Both layouts hold a readable stream, and the same one. */
  predicate LayoutsAgree(s: Store) {
    && Load(s).Some?
    && LoadFields(s) == Load(s)
  }

  /**
   After a save the two layouts agree exactly when the saved flags include what the two
   old booleans, which `Save` never writes, assert.
   */
  lemma SaveAgreesExactly(s: Store, info: StreamInfo)
    ensures Load(Save(s, info)) == Some(info)
    ensures LayoutsAgree(Save(s, info)) <==> OldBooleansAgree(s, info)
  {
    if ValueOr(s.clawbackEnabled, false) {
      if ValueOr(s.cancelled, false) {
        OrBothExactly(info.flags);
      } else {
        OrClawbackExactly(info.flags);
      }
    } else if ValueOr(s.cancelled, false) {
      OrCancelledExactly(info.flags);
    }
  }

  lemma OrClawbackExactly(flags: bv32)
    ensures flags | FLAG_CLAWBACK_ENABLED == flags <==> flags & FLAG_CLAWBACK_ENABLED != 0
  {
  }

  lemma OrCancelledExactly(flags: bv32)
    ensures flags | FLAG_CANCELLED == flags <==> flags & FLAG_CANCELLED != 0
  {
  }

  lemma OrBothExactly(flags: bv32)
    ensures (flags | FLAG_CLAWBACK_ENABLED) | FLAG_CANCELLED == flags
       <==> flags & FLAG_CLAWBACK_ENABLED != 0 && flags & FLAG_CANCELLED != 0
  {
  }

  /** Agreement gives the bits back: the booleans never assert more than the record read. */
  lemma AgreementCoversBooleans(s: Store)
    requires LayoutsAgree(s)
    ensures OldBooleansAgree(s, Load(s).value)
  {
    OrSetsBits(ValueOr(s.flags, 0));
  }

  lemma OrSetsBits(flags: bv32)
    ensures (flags | FLAG_CLAWBACK_ENABLED) & FLAG_CLAWBACK_ENABLED != 0
    ensures (flags | FLAG_CANCELLED) & FLAG_CANCELLED != 0
    ensures ((flags | FLAG_CLAWBACK_ENABLED) | FLAG_CANCELLED) & FLAG_CLAWBACK_ENABLED != 0
    ensures ((flags | FLAG_CLAWBACK_ENABLED) | FLAG_CANCELLED) & FLAG_CANCELLED != 0
  {
  }

  /** A store with individual keys only agrees with itself, whatever its booleans say. */
  lemma LegacyStoreAgrees(s: Store)
    requires s.config.None? && LoadFields(s).Some?
    ensures LayoutsAgree(s) && OldBooleansAgree(s, Load(s).value)
  {
    AgreementCoversBooleans(s);
  }

  /** Each individual key holds its own part of the record. */
  predicate KeysHold(s: Store, info: StreamInfo) {
    && s.sender == Some(info.sender) && s.recipient == Some(info.recipient) && s.token == Some(info.token)
    && s.rate == Some(info.rate) && s.startTime == Some(info.startTime) && s.endTime == Some(info.endTime)
    && s.withdrawn == Some(info.withdrawn) && s.pausedAt == Some(info.pausedAt) && s.flags == Some(info.flags)
  }

  /** A save leaves the record in the consolidated key, each part in its own key, and the old booleans alone. */
  lemma SaveWritesEveryKey(s: Store, info: StreamInfo)
    ensures Save(s, info).config == Some(info) && KeysHold(Save(s, info), info)
    ensures Save(s, info).clawbackEnabled == s.clawbackEnabled && Save(s, info).cancelled == s.cancelled
  {
  }

  /**
   A legacy store is readable exactly if the six keys without a default are there. Each part of the record is
   read from its own key, zero standing for an absent counter, pause instant or flag word, and the clawback
   and cancelled bits are set by the flag word or by the old boolean.
   */
  lemma LegacyReadsEveryKey(s: Store)
    requires s.config.None?
    ensures Load(s).Some? <==> s.sender.Some? && s.recipient.Some? && s.token.Some? && s.rate.Some?
                               && s.startTime.Some? && s.endTime.Some?
    ensures Load(s).Some? ==>
              var info := Load(s).value;
              && KeysHold(s.(withdrawn := Some(ValueOr(s.withdrawn, 0)), pausedAt := Some(ValueOr(s.pausedAt, 0)),
                             flags := Some(info.flags)), info)
              && (info.IsPaused() <==> ValueOr(s.flags, 0) & 1 != 0)
              && (info.IsClawbackEnabled() <==> ValueOr(s.flags, 0) & 2 != 0 || s.clawbackEnabled == Some(true))
              && (info.IsCancelled() <==> ValueOr(s.flags, 0) & 4 != 0 || s.cancelled == Some(true))
  {
    OrKeepsOtherBits(ValueOr(s.flags, 0));
  }

  lemma OrKeepsOtherBits(flags: bv32)
    ensures (flags | 2) & 1 == flags & 1 && (flags | 4) & 1 == flags & 1 && ((flags | 2) | 4) & 1 == flags & 1
    ensures (flags | 4) & 2 == flags & 2 && ((flags | 2) | 4) & 2 != 0 && (flags | 2) & 2 != 0
    ensures (flags | 2) & 4 == flags & 4 && ((flags | 2) | 4) & 4 != 0 && (flags | 4) & 4 != 0
  {
  }
}
