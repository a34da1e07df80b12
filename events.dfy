/** The two jobs that drive the synchronisation: `history`, run once at start, and the
    handler of the era-payout events, which runs the whole synchronisation for every event
    unless the `syncing` flag of the info hash says a synchronisation is under way. */
module SyncEvents {
  import opened Common
  import opened Text
  import opened Errors
  import opened Keys
  import opened Store
  import opened ChainData
  import opened Sync
  import opened SyncActive
  import opened SyncNominators
  import opened SyncEras

  const NETWORK := Render(Key.Network)

  // ---------------------------------------------------------------------------------
  // history

  /** `history`: the flag raised, the network's details, the flag lowered. The other steps
      of the history sync are commented out in the source. */
  function HistoryStep(db: Db, chain: Chain, now: nat): Db {
    var db1 := HSet(db, INFO, StatusFields(Started, now));
    var db2 := HSet(db1, NETWORK, NetworkFields(chain));
    HSet(db2, INFO, StatusFields(Finished, now))
  }

  method History(cache: Cache, chain: Chain, now: nat)
    modifies cache
    ensures cache.State() == HistoryStep(old(cache.State()), chain, now)
  {
    SetStatus(cache, Started, now);
    Sync.Network(cache, chain);
    SetStatus(cache, Finished, now);
  }

  /** After `history` the flag reads false and the network hash holds the chain's details. */
  lemma HistoryResult(db: Db, chain: Chain, now: nat)
    ensures !Syncing(HistoryStep(db, chain, now))
    ensures var db' := HistoryStep(db, chain, now);
      FieldAt(db', NETWORK, "name") == Some(chain.chainName) &&
      FieldAt(db', NETWORK, "substrate_node_url") == Some(chain.nodeUrl) &&
      FieldAt(db', INFO, "syncing_finished_at") == Some(NatToString(now))
  {
    var db1 := HSet(db, INFO, StatusFields(Started, now));
    var db2 := HSet(db1, NETWORK, NetworkFields(chain));
    StatusSetsFlag(db2, Finished, now);
    assert HashAt(HistoryStep(db, chain, now), NETWORK) == HashAt(db2, NETWORK);
  }

  // ---------------------------------------------------------------------------------
  // One era-payout event

  /** The steps between the two status writes, each stopping the handler at its fault:
      the active era, the paid era's history forced, the validators, the active
      validators and the nominators. */
  function PayoutSteps(db: Db, chain: Chain, era: EraIndex, rate: (nat, nat) -> string, now: nat): Outcome {
    match chain.activeEra
    case None => Outcome(db, Some(NoActiveEra))
    case Some(active) =>
      HistoryOnward(SetString(db, Render(Key.ActiveEra), NatToString(active)), chain, era, rate, now)
  }

  /** The paid era's history forced, then the validators onward. */
  function HistoryOnward(db: Db, chain: Chain, era: EraIndex, rate: (nat, nat) -> string, now: nat): Outcome {
    var o := ErasHistoryStep(db, chain, era, Some(true), now);
    if o.fault.Some? then o else ValidatorsOnward(o.db, chain, rate)
  }

  /** The validators, then the active validators and the nominators. */
  function ValidatorsOnward(db: Db, chain: Chain, rate: (nat, nat) -> string): Outcome {
    var o := ValidatorsStep(db, chain, rate);
    if o.fault.Some? then o else ActiveOnward(o.db, chain)
  }

  /** The active validators, then the nominators. */
  function ActiveOnward(db: Db, chain: Chain): Outcome {
    var o := ActiveValidatorsStep(db, chain);
    if o.fault.Some? then o else NominatorsStep(o.db, chain)
  }

  /** The handler of an era-payout event for era `era`, as written: skipped while the flag
      is up; otherwise the flag raised, the steps run, and the flag lowered only when every
      step succeeded. */
  function PayoutStep(db: Db, chain: Chain, era: EraIndex, rate: (nat, nat) -> string, now: nat): Outcome {
    if Syncing(db) then Outcome(db, None)
    else
      var o := PayoutSteps(HSet(db, INFO, StatusFields(Started, now)), chain, era, rate, now);
      if o.fault.Some? then o else Outcome(HSet(o.db, INFO, StatusFields(Finished, now)), None)
  }

  method HandlePayout(cache: Cache, chain: Chain, era: EraIndex, rate: (nat, nat) -> string, now: nat)
    returns (fault: Option<Fault<SyncError>>)
    modifies cache
    ensures Outcome(cache.State(), fault) == PayoutStep(old(cache.State()), chain, era, rate, now)
  {
    var syncing := IsSyncing(cache);
    if syncing {
      return None;
    }
    SetStatus(cache, Started, now);
    fault := RunPayoutSteps(cache, chain, era, rate, now);
    if fault.Some? {
      return;
    }
    SetStatus(cache, Finished, now);
  }

  method RunPayoutSteps(cache: Cache, chain: Chain, era: EraIndex, rate: (nat, nat) -> string, now: nat)
    returns (fault: Option<Fault<SyncError>>)
    modifies cache
    ensures Outcome(cache.State(), fault) == PayoutSteps(old(cache.State()), chain, era, rate, now)
  {
    var active := Sync.ActiveEra(cache, chain);
    if active.Err? {
      return Some(active.error);
    }
    fault := ErasHistory(cache, chain, era, Some(true), now);
    if fault.Some? {
      return;
    }
    fault := Validators(cache, chain, rate);
    if fault.Some? {
      return;
    }
    fault := ActiveValidators(cache, chain);
    if fault.Some? {
      return;
    }
    fault := Nominators(cache, chain);
  }

  /** The era-payout subscription: each event either does not decode (skipped) or carries
      the paid era, the node's state when it is handled and the clock. */
  datatype PayoutEvent = PayoutEvent(chain: Chain, era: EraIndex, now: nat)

  /** The loop over the events still to come; the first handler fault ends the
      subscription with that fault. */
  function RunPayouts(db: Db, events: seq<Option<PayoutEvent>>, rate: (nat, nat) -> string): Outcome
    decreases |events|
  {
    if events == [] then Outcome(db, None)
    else
      match events[0]
      case None => RunPayouts(db, events[1..], rate)
      case Some(e) =>
        var o := PayoutStep(db, e.chain, e.era, rate, e.now);
        if o.fault.Some? then o else RunPayouts(o.db, events[1..], rate)
  }

  method SubscribeEraPayouts(cache: Cache, events: seq<Option<PayoutEvent>>, rate: (nat, nat) -> string)
    returns (fault: Option<Fault<SyncError>>)
    modifies cache
    ensures Outcome(cache.State(), fault) == RunPayouts(old(cache.State()), events, rate)
  {
    ghost var run := RunPayouts(cache.State(), events, rate);
    var i := 0;
    assert events[0..] == events;
    while i < |events|
      invariant 0 <= i <= |events|
      invariant RunPayouts(cache.State(), events[i..], rate) == run
    {
      assert events[i..][1..] == events[i + 1..];
      match events[i] {
        case None =>
        case Some(e) =>
          fault := HandlePayout(cache, e.chain, e.era, rate, e.now);
          if fault.Some? {
            return;
          }
      }
      i := i + 1;
    }
    fault := None;
  }

  // ---------------------------------------------------------------------------------
  // The steps keep the flag

  lemma ActiveOnwardKeepsFlag(db: Db, chain: Chain)
    ensures SameFlag(db, ActiveOnward(db, chain).db)
  {
    var o := ActiveValidatorsStep(db, chain);
    ActiveValidatorsKeepsFlag(db, chain);
    if o.fault.None? {
      RunNominatorsKeepsFlag(o.db, chain, chain.nominators, 0);
    }
  }

  lemma ValidatorsOnwardKeepsFlag(db: Db, chain: Chain, rate: (nat, nat) -> string)
    ensures SameFlag(db, ValidatorsOnward(db, chain, rate).db)
  {
    var o := ValidatorsStep(db, chain, rate);
    ValidatorsKeepsFlag(db, chain, rate);
    if o.fault.None? {
      ActiveOnwardKeepsFlag(o.db, chain);
    }
  }

  lemma HistoryOnwardKeepsFlag(db: Db, chain: Chain, era: EraIndex, rate: (nat, nat) -> string, now: nat)
    ensures SameFlag(db, HistoryOnward(db, chain, era, rate, now).db)
  {
    var o := ErasHistoryStep(db, chain, era, Some(true), now);
    ErasHistoryKeepsInfo(db, chain, era, Some(true), now);
    if o.fault.None? {
      ValidatorsOnwardKeepsFlag(o.db, chain, rate);
    }
  }

  /** Every step between the status writes leaves the flag as it found it. */
  lemma PayoutStepsKeepFlag(db: Db, chain: Chain, era: EraIndex, rate: (nat, nat) -> string, now: nat)
    ensures SameFlag(db, PayoutSteps(db, chain, era, rate, now).db)
  {
    if chain.activeEra.Some? {
      var db0 := SetString(db, Render(Key.ActiveEra), NatToString(chain.activeEra.value));
      assert SameFlag(db, db0);
      HistoryOnwardKeepsFlag(db0, chain, era, rate, now);
    }
  }

  // ---------------------------------------------------------------------------------
  // The flag protocol

  /** While the flag is up an event is skipped and nothing is written. */
  lemma SkipWhileSyncing(db: Db, chain: Chain, era: EraIndex, rate: (nat, nat) -> string, now: nat)
    requires Syncing(db)
    ensures PayoutStep(db, chain, era, rate, now) == Outcome(db, None)
  {
  }

  /** A handled event that succeeds leaves the flag down, with the finish time recorded. */
  lemma PayoutLowersFlag(db: Db, chain: Chain, era: EraIndex, rate: (nat, nat) -> string, now: nat)
    requires !Syncing(db) && PayoutStep(db, chain, era, rate, now).fault.None?
    ensures var db' := PayoutStep(db, chain, era, rate, now).db;
      !Syncing(db') && FieldAt(db', INFO, "syncing_finished_at") == Some(NatToString(now))
  {
    var o := PayoutSteps(HSet(db, INFO, StatusFields(Started, now)), chain, era, rate, now);
    StatusSetsFlag(o.db, Finished, now);
  }

  /** A handled event whose steps fail leaves the flag up: the fault returns before the
      status is set to finished. */
  lemma FailedPayoutKeepsFlag(db: Db, chain: Chain, era: EraIndex, rate: (nat, nat) -> string, now: nat)
    requires !Syncing(db) && PayoutStep(db, chain, era, rate, now).fault.Some?
    ensures Syncing(PayoutStep(db, chain, era, rate, now).db)
  {
    var db1 := HSet(db, INFO, StatusFields(Started, now));
    StatusSetsFlag(db, Started, now);
    PayoutStepsKeepFlag(db1, chain, era, rate, now);
  }

  /** So after one failed event every later event is skipped, whatever it carries: the
      restarted subscription never syncs again. */
  lemma FailedPayoutBlocksLater(db: Db, chain: Chain, era: EraIndex, rate: (nat, nat) -> string, now: nat,
                                later: seq<Option<PayoutEvent>>)
    requires !Syncing(db) && PayoutStep(db, chain, era, rate, now).fault.Some?
    ensures var db' := PayoutStep(db, chain, era, rate, now).db;
      RunPayouts(db', later, rate) == Outcome(db', None)
  {
    FailedPayoutKeepsFlag(db, chain, era, rate, now);
    SkippedWhileSyncing(PayoutStep(db, chain, era, rate, now).db, later, rate);
  }

  lemma {:induction false} SkippedWhileSyncing(db: Db, events: seq<Option<PayoutEvent>>, rate: (nat, nat) -> string)
    requires Syncing(db)
    ensures RunPayouts(db, events, rate) == Outcome(db, None)
    decreases |events|
  {
    if events != [] {
      SkippedWhileSyncing(db, events[1..], rate);
    }
  }

  /** An event that arrives while the node reports no active era fails, and leaves the flag
      up. */
  lemma NoActiveEraBlocks(db: Db, chain: Chain, era: EraIndex, rate: (nat, nat) -> string, now: nat)
    requires !Syncing(db) && chain.activeEra.None?
    ensures PayoutStep(db, chain, era, rate, now).fault == Some(NoActiveEra)
    ensures Syncing(PayoutStep(db, chain, era, rate, now).db)
  {
    StatusSetsFlag(db, Started, now);
  }

  // ---------------------------------------------------------------------------------
  // The handler as evidently intended: the flag lowered on every way out

  function PayoutStepReleasing(db: Db, chain: Chain, era: EraIndex, rate: (nat, nat) -> string, now: nat): Outcome {
    if Syncing(db) then Outcome(db, None)
    else
      var o := PayoutSteps(HSet(db, INFO, StatusFields(Started, now)), chain, era, rate, now);
      Outcome(HSet(o.db, INFO, StatusFields(Finished, now)), o.fault)
  }

  /** A handled event leaves the flag down whether its steps fail or not, and agrees with
      the handler as written when they succeed. */
  lemma ReleasingLowersFlag(db: Db, chain: Chain, era: EraIndex, rate: (nat, nat) -> string, now: nat)
    requires !Syncing(db)
    ensures !Syncing(PayoutStepReleasing(db, chain, era, rate, now).db)
    ensures PayoutStep(db, chain, era, rate, now).fault.None? ==>
      PayoutStepReleasing(db, chain, era, rate, now) == PayoutStep(db, chain, era, rate, now)
  {
    var o := PayoutSteps(HSet(db, INFO, StatusFields(Started, now)), chain, era, rate, now);
    StatusSetsFlag(o.db, Finished, now);
  }

  /** With the flag lowered on failure, the next event is handled again. */
  lemma ReleasingAllowsNext(db: Db, chain: Chain, era: EraIndex, rate: (nat, nat) -> string, now: nat,
                            next: Chain, era': EraIndex, now': nat)
    requires !Syncing(db)
    ensures var db' := PayoutStepReleasing(db, chain, era, rate, now).db;
      PayoutStep(db', next, era', rate, now') ==
        (var o := PayoutSteps(HSet(db', INFO, StatusFields(Started, now')), next, era', rate, now');
         if o.fault.Some? then o else Outcome(HSet(o.db, INFO, StatusFields(Finished, now')), None))
  {
    ReleasingLowersFlag(db, chain, era, rate, now);
  }
}
