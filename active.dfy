/** `active_validators`: the stashes of the current session's validator set marked active
    in their records and added to the active era's board of active validators. */
module SyncActive {
  import opened Common
  import opened Errors
  import opened Keys
  import opened Store
  import opened ChainData
  import opened Sync

  /** One stash of the session set: its record's flag set to "true", then the stash added
      to the board with score 0. */
  function MarkActive(db: Db, era: EraIndex, stash: string): Db {
    ZAdd(HSet(db, ValidatorKey(stash), map["active" := "true"]), ActiveBoard(era), 0, stash)
  }

  /** The loop over the session stashes still to come. */
  function RunActive(db: Db, era: EraIndex, stashes: seq<string>): Db
    decreases |stashes|
  {
    if stashes == [] then db else RunActive(MarkActive(db, era, stashes[0]), era, stashes[1..])
  }

  /** The whole step: an error, with nothing written, when the node has no active era. */
  function ActiveValidatorsStep(db: Db, chain: Chain): Outcome {
    match chain.activeEra
    case None => Outcome(db, Some(NoActiveEra))
    case Some(era) => Outcome(RunActive(db, era, chain.sessionValidators), None)
  }

  method ActiveValidators(cache: Cache, chain: Chain) returns (fault: Option<Fault<SyncError>>)
    modifies cache
    ensures Outcome(cache.State(), fault) == ActiveValidatorsStep(old(cache.State()), chain)
  {
    if chain.activeEra.None? {
      return Some(NoActiveEra);
    }
    var era := chain.activeEra.value;
    var stashes := chain.sessionValidators;
    ghost var run := RunActive(cache.State(), era, stashes);
    var i := 0;
    assert stashes[0..] == stashes;
    while i < |stashes|
      invariant 0 <= i <= |stashes|
      invariant RunActive(cache.State(), era, stashes[i..]) == run
    {
      assert stashes[i..][1..] == stashes[i + 1..];
      cache.HSetFields(ValidatorKey(stashes[i]), map["active" := "true"]);
      cache.ZAddMember(ActiveBoard(era), 0, stashes[i]);
      i := i + 1;
    }
    fault := None;
  }

  /** Marking one stash touches only that stash's "active" field among all hash fields. */
  lemma MarkActiveField(db: Db, era: EraIndex, stash: string, s: string, f: string)
    ensures FieldAt(MarkActive(db, era, stash), ValidatorKey(s), f) ==
      if s == stash && f == "active" then Some("true") else FieldAt(db, ValidatorKey(s), f)
  {
    var db' := MarkActive(db, era, stash);
    if s != stash {
      if ValidatorKey(s) == ValidatorKey(stash) {
        ValidatorKeyInjective(s, stash);
      }
      assert HashAt(db', ValidatorKey(s)) == HashAt(db, ValidatorKey(s));
    }
  }

  /** After the loop a stash's "active" field is "true" when it is in the session set and
      as before otherwise, and every other field of every record is as before. */
  lemma {:induction false} RunActiveField(db: Db, era: EraIndex, stashes: seq<string>, s: string, f: string)
    ensures FieldAt(RunActive(db, era, stashes), ValidatorKey(s), f) ==
      if s in stashes && f == "active" then Some("true") else FieldAt(db, ValidatorKey(s), f)
    decreases |stashes|
  {
    if stashes != [] {
      MarkActiveField(db, era, stashes[0], s, f);
      RunActiveField(MarkActive(db, era, stashes[0]), era, stashes[1..], s, f);
      assert s in stashes <==> s == stashes[0] || s in stashes[1..];
    }
  }

  /** The active era's board gains exactly the session stashes. */
  lemma {:induction false} RunActiveBoard(db: Db, era: EraIndex, stashes: seq<string>)
    ensures ZSetAt(RunActive(db, era, stashes), ActiveBoard(era)).Keys ==
      ZSetAt(db, ActiveBoard(era)).Keys + set s | s in stashes
    decreases |stashes|
  {
    if stashes != [] {
      var db1 := MarkActive(db, era, stashes[0]);
      assert RunActive(db, era, stashes) == RunActive(db1, era, stashes[1..]);
      MarkActiveBoard(db, era, stashes[0]);
      RunActiveBoard(db1, era, stashes[1..]);
      SetOfCons(stashes);
    }
  }

  /** Marking one stash adds it to the board and nothing else. */
  lemma MarkActiveBoard(db: Db, era: EraIndex, stash: string)
    ensures ZSetAt(MarkActive(db, era, stash), ActiveBoard(era)).Keys ==
      ZSetAt(db, ActiveBoard(era)).Keys + {stash}
  {
    var db1 := HSet(db, ValidatorKey(stash), map["active" := "true"]);
    assert ZSetAt(db1, ActiveBoard(era)) == ZSetAt(db, ActiveBoard(era));
    assert ZSetAt(MarkActive(db, era, stash), ActiveBoard(era)) == ZSetAt(db1, ActiveBoard(era))[stash := 0];
  }

  lemma SetOfCons(stashes: seq<string>)
    requires stashes != []
    ensures (set s | s in stashes) == {stashes[0]} + set s | s in stashes[1..]
  {
    assert forall s :: s in stashes <==> s == stashes[0] || s in stashes[1..];
  }

  /** The info hash, with the flag the synchronisation keeps there, is untouched. */
  lemma {:induction false} RunActiveInfo(db: Db, era: EraIndex, stashes: seq<string>)
    ensures HashAt(RunActive(db, era, stashes), INFO) == HashAt(db, INFO)
    decreases |stashes|
  {
    if stashes != [] {
      NotInfoKey(Key.Validator(stashes[0]));
      RunActiveInfo(MarkActive(db, era, stashes[0]), era, stashes[1..]);
    }
  }

  lemma ActiveValidatorsKeepsFlag(db: Db, chain: Chain)
    ensures SameFlag(db, ActiveValidatorsStep(db, chain).db)
  {
    if chain.activeEra.Some? {
      RunActiveInfo(db, chain.activeEra.value, chain.sessionValidators);
    }
  }
}
