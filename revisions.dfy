/**
 * Score revisions: each upload of a player's scores becomes a new
 * revision holding one record per (tier, known tune). A revision is
 * written invalid, filled, then committed valid with all its records in
 * one transaction; on any failure it is deleted again, so readers only
 * ever see the newest valid revision and its complete record set.
 */
module Revisions {

  import opened Wrappers
  import opened Levels
  import opened Catalog
  import opened Records

  /** A ScoreRevision entity: its datastore id, `is_valid` and `created_at`. */
  datatype Revision = Revision(id: nat, isValid: bool, createdAt: Timestamp)

  /**
   * What the datastore holds: the revisions in store order, the records
   * stored under each revision, and the id the next new revision gets.
   */
  datatype StoreState = StoreState(revisions: seq<Revision>, records: map<nat, seq<RecordValue>>, nextId: nat)

  /** Which datastore calls of one registration fail: the first put, the transaction, the delete. */
  datatype Faults = Faults(put: bool, commit: bool, delete: bool)

  // ---------------------------------------------------------------------
  // latest_revision
  // ---------------------------------------------------------------------

  /**
   * `latest_revision`: the valid revision with the newest `created_at`.
   * The query leaves ties open; the model takes the later one in store order.
   */
  function LatestOf(revs: seq<Revision>): (r: Option<Revision>)
    ensures r.Some? ==> r.value.isValid && r.value in revs
  {
    if revs == [] then None
    else
      var prev := LatestOf(revs[..|revs| - 1]);
      var last := revs[|revs| - 1];
      if last.isValid && (prev.None? || prev.value.createdAt <= last.createdAt) then Some(last) else prev
  }

  /** `revs[i]` is valid, no valid revision is newer, and none after it is as new. */
  predicate NewestValidAt(revs: seq<Revision>, i: nat)
  {
    && i < |revs| && revs[i].isValid
    && (forall j :: 0 <= j < |revs| && revs[j].isValid ==> revs[j].createdAt <= revs[i].createdAt)
    && (forall j :: i < j < |revs| && revs[j].isValid ==> revs[j].createdAt < revs[i].createdAt)
  }

  /** The latest revision is missing exactly when no revision is valid. */
  lemma {:induction false} LatestNoneIff(revs: seq<Revision>)
    ensures LatestOf(revs).None? <==> forall i :: 0 <= i < |revs| ==> !revs[i].isValid
  {
    if revs != [] {
      var front := revs[..|revs| - 1];
      LatestNoneIff(front);
      assert forall j :: 0 <= j < |front| ==> front[j] == revs[j];
    }
  }

  /** The latest revision exists exactly when a valid one does, and it is the newest valid one. */
  lemma {:induction false} LatestIsNewestValid(revs: seq<Revision>)
    ensures LatestOf(revs).None? <==> forall i :: 0 <= i < |revs| ==> !revs[i].isValid
    ensures LatestOf(revs).Some? ==> exists i: nat :: NewestValidAt(revs, i) && revs[i] == LatestOf(revs).value
  {
    LatestNoneIff(revs);
    if revs != [] {
      var front := revs[..|revs| - 1];
      var last := revs[|revs| - 1];
      assert revs == front + [last];
      LatestIsNewestValid(front);
      LatestStep(front, last);
    }
  }

  /** Step case: the newest valid revision of the front extends to one more revision. */
  lemma LatestStep(front: seq<Revision>, last: Revision)
    requires LatestOf(front).None? ==> forall i :: 0 <= i < |front| ==> !front[i].isValid
    requires LatestOf(front).Some? ==> exists i: nat :: NewestValidAt(front, i) && front[i] == LatestOf(front).value
    ensures LatestOf(front + [last]).Some? ==>
      exists i: nat :: NewestValidAt(front + [last], i) && (front + [last])[i] == LatestOf(front + [last]).value
  {
    var revs := front + [last];
    assert revs[..|front|] == front;
    var prev := LatestOf(front);
    if last.isValid && (prev.None? || prev.value.createdAt <= last.createdAt) {
      assert LatestOf(revs) == Some(last);
      if prev.Some? {
        var i: nat :| NewestValidAt(front, i) && front[i] == prev.value;
        LastBecomesNewest(revs, i);
      } else {
        NoneBeforeLast(front, last);
      }
      assert NewestValidAt(revs, |front|) && revs[|front|] == LatestOf(revs).value;
    } else if prev.Some? {
      assert LatestOf(revs) == prev;
      var i: nat :| NewestValidAt(front, i) && front[i] == prev.value;
      EarlierStaysNewest(revs, i);
      assert NewestValidAt(revs, i) && revs[i] == LatestOf(revs).value;
    }
  }

  /** Step case: with no valid revision before it, a valid last revision is the newest. */
  lemma NoneBeforeLast(front: seq<Revision>, last: Revision)
    requires last.isValid
    requires forall i :: 0 <= i < |front| ==> !front[i].isValid
    ensures NewestValidAt(front + [last], |front|)
  {
    var revs := front + [last];
    forall j | 0 <= j < |front|
      ensures !revs[j].isValid
    {
      assert revs[j] == front[j];
    }
  }

  /** Step case: a valid last revision at least as new as the front's newest is the newest. */
  lemma LastBecomesNewest(revs: seq<Revision>, i: nat)
    requires revs != [] && revs[|revs| - 1].isValid && NewestValidAt(revs[..|revs| - 1], i)
    requires revs[i].createdAt <= revs[|revs| - 1].createdAt
    ensures NewestValidAt(revs, |revs| - 1)
  {
    var n := |revs|;
    var front := revs[..n - 1];
    forall j | 0 <= j < n - 1 && revs[j].isValid
      ensures revs[j].createdAt <= revs[n - 1].createdAt
    {
      assert front[j] == revs[j];
    }
  }

  /** Step case: when the last revision does not win, the front's newest stays the newest. */
  lemma EarlierStaysNewest(revs: seq<Revision>, i: nat)
    requires revs != [] && NewestValidAt(revs[..|revs| - 1], i)
    requires revs[|revs| - 1].isValid ==> revs[|revs| - 1].createdAt < revs[i].createdAt
    ensures NewestValidAt(revs, i)
  {
    var n := |revs|;
    var front := revs[..n - 1];
    forall j | 0 <= j < n && revs[j].isValid
      ensures revs[j].createdAt <= revs[i].createdAt
      ensures i < j ==> revs[j].createdAt < revs[i].createdAt
    {
      if j < n - 1 {
        assert front[j] == revs[j];
      }
    }
  }

  /** An invalid revision, such as one still being filled, never becomes the latest. */
  lemma LatestIgnoresInvalid(revs: seq<Revision>, r: Revision)
    requires !r.isValid
    ensures LatestOf(revs + [r]) == LatestOf(revs)
  {
    assert (revs + [r])[..|revs|] == revs;
  }

  /** A valid revision appended with a `created_at` no older than any other becomes the latest. */
  lemma NewestBecomesLatest(revs: seq<Revision>, r: Revision)
    requires r.isValid
    requires forall i :: 0 <= i < |revs| ==> revs[i].createdAt <= r.createdAt
    ensures LatestOf(revs + [r]) == Some(r)
  {
    assert (revs + [r])[..|revs|] == revs;
    LatestIsNewestValid(revs);
    if LatestOf(revs).Some? {
      var i: nat :| NewestValidAt(revs, i) && revs[i] == LatestOf(revs).value;
    }
  }

  // ---------------------------------------------------------------------
  // The records of a revision and the prior-score dictionary
  // ---------------------------------------------------------------------

  /** `query_score_records`: the records stored under a revision, in store order. */
  function RecordsOf(records: map<nat, seq<RecordValue>>, id: nat): (rs: seq<RecordValue>)
    ensures id in records ==> rs == records[id]
    ensures id !in records ==> rs == []
  {
    if id in records then records[id] else []
  }

  /** The records a registration compares against: those of the current latest revision, if any. */
  function PriorOf(records: map<nat, seq<RecordValue>>, current: Option<Revision>): seq<RecordValue>
  {
    if current.Some? then RecordsOf(records, current.value.id) else []
  }

  function PriorRecords(st: StoreState): seq<RecordValue>
  {
    PriorOf(st.records, LatestOf(st.revisions))
  }

  /** `filter('level_kind', tier)`: the records of one tier, in order. */
  function OfTier(rs: seq<RecordValue>, tier: Tier): (out: seq<RecordValue>)
    ensures |out| <= |rs|
    ensures forall k :: 0 <= k < |out| ==> out[k].levelKind == tier
  {
    if rs == [] then []
    else
      var last := rs[|rs| - 1];
      OfTier(rs[..|rs| - 1], tier) + if last.levelKind == tier then [last] else []
  }

  /** Every record of one tier is one of the given records. */
  lemma {:induction false} OfTierIsSubset(rs: seq<RecordValue>, tier: Tier)
    ensures forall r :: r in OfTier(rs, tier) ==> r in rs
  {
    if rs != [] {
      var front := rs[..|rs| - 1];
      OfTierIsSubset(front, tier);
      forall r | r in OfTier(front, tier)
        ensures r in rs
      {
        var m :| 0 <= m < |front| && front[m] == r;
        assert rs[m] == r;
      }
    }
  }

  function RecordKey(r: RecordValue): int
  {
    r.tuneId
  }

  /**
   * `current_scores_dict` for one tier: the first LIMIT records of that
   * tier keyed by tune id, the later of two with one id kept.
   */
  function PriorIndex(rs: seq<RecordValue>, tier: Tier): map<int, RecordValue>
  {
    IndexBy(Take(OfTier(rs, tier), LIMIT), RecordKey)
  }

  /** `current_scores_dict.get(tune_id)`. */
  function Lookup(d: map<int, RecordValue>, id: int): Option<RecordValue>
  {
    if id in d then Some(d[id]) else None
  }

  /** A prior record found for a tune is one of the given records, for that tune and that tier. */
  lemma PriorIsSameTuneAndTier(rs: seq<RecordValue>, tier: Tier, id: int)
    requires Lookup(PriorIndex(rs, tier), id).Some?
    ensures var p := Lookup(PriorIndex(rs, tier), id).value;
      p.tuneId == id && p.levelKind == tier && p in rs
  {
    var fetched := Take(OfTier(rs, tier), LIMIT);
    IndexByFacts(fetched, RecordKey);
    OfTierIsSubset(rs, tier);
    var i: nat :| LastWithKey(fetched, RecordKey, id, i) && PriorIndex(rs, tier)[id] == fetched[i];
    assert fetched[i] == OfTier(rs, tier)[i];
  }

  /** With nothing to compare against, the dictionary is empty. */
  lemma NoPriorRecords(tier: Tier, id: int)
    ensures Lookup(PriorIndex([], tier), id) == None
  {
    assert Take(OfTier([], tier), LIMIT) == [];
  }

  // ---------------------------------------------------------------------
  // Building the records of one registration (the loops of models.py 111-130)
  // ---------------------------------------------------------------------

  /**
   * One entry for one tier: a missing `tune_id` raises, an unknown tune is
   * skipped, and a known one yields its record or what that raises.
   */
  function Step(tier: Tier, tunes: map<int, Tune>, prior: map<int, RecordValue>, e: RawEntry): Result<Option<RecordValue>, Error>
  {
    if e.tuneId.None? then Err(MissingField)
    else if e.tuneId.value !in tunes then Ok(None)
    else
      match BuildRecord(tier, tunes[e.tuneId.value], Lookup(prior, e.tuneId.value), e)
      case Err(err) => Err(err)
      case Ok(r) => Ok(Some(r))
  }

  /** The inner loop: one tier over all entries, in order, stopping at the first error. */
  function BuildTier(tier: Tier, tunes: map<int, Tune>, prior: map<int, RecordValue>, es: seq<RawEntry>): Result<seq<RecordValue>, Error>
  {
    if es == [] then Ok([])
    else
      match BuildTier(tier, tunes, prior, es[..|es| - 1])
      case Err(err) => Err(err)
      case Ok(rs) =>
        match Step(tier, tunes, prior, es[|es| - 1])
        case Err(err) => Err(err)
        case Ok(None) => Ok(rs)
        case Ok(Some(r)) => Ok(rs + [r])
  }

  /** The outer loop: tier after tier, each against its own prior dictionary. */
  function BuildTiers(tiers: seq<Tier>, tunes: map<int, Tune>, prev: seq<RecordValue>, es: seq<RawEntry>): Result<seq<RecordValue>, Error>
  {
    if tiers == [] then Ok([])
    else
      match BuildTiers(tiers[..|tiers| - 1], tunes, prev, es)
      case Err(err) => Err(err)
      case Ok(rs) =>
        var tier := tiers[|tiers| - 1];
        match BuildTier(tier, tunes, PriorIndex(prev, tier), es)
        case Err(err) => Err(err)
        case Ok(ts) => Ok(rs + ts)
  }

  /** Every record of one registration, in the order they are appended to `new_entities`. */
  function BuildAll(tunes: map<int, Tune>, prev: seq<RecordValue>, es: seq<RawEntry>): Result<seq<RecordValue>, Error>
  {
    BuildTiers(LEVEL_KINDS, tunes, prev, es)
  }

  /** The entries that name a tune of the catalog, in order. */
  function Known(tunes: map<int, Tune>, es: seq<RawEntry>): (ks: seq<RawEntry>)
    ensures |ks| <= |es|
    ensures forall k :: 0 <= k < |ks| ==> ks[k].tuneId.Some? && ks[k].tuneId.value in tunes
  {
    if es == [] then []
    else
      var last := es[|es| - 1];
      Known(tunes, es[..|es| - 1]) + (if last.tuneId.Some? && last.tuneId.value in tunes then [last] else [])
  }

  /** The record a known entry yields for one tier. */
  function RecordFor(tier: Tier, tunes: map<int, Tune>, prior: map<int, RecordValue>, e: RawEntry): Result<RecordValue, Error>
    requires e.tuneId.Some? && e.tuneId.value in tunes
  {
    BuildRecord(tier, tunes[e.tuneId.value], Lookup(prior, e.tuneId.value), e)
  }

  /** A tier that builds yields one record per known entry, in entry order, each built against its own prior. */
  lemma {:induction false} BuildTierShape(tier: Tier, tunes: map<int, Tune>, prior: map<int, RecordValue>, es: seq<RawEntry>)
    requires BuildTier(tier, tunes, prior, es).Ok?
    ensures var rs := BuildTier(tier, tunes, prior, es).value;
      var ks := Known(tunes, es);
      |rs| == |ks| && forall k :: 0 <= k < |ks| ==> RecordFor(tier, tunes, prior, ks[k]) == Ok(rs[k])
  {
    if es != [] {
      var front := es[..|es| - 1];
      BuildTierShape(tier, tunes, prior, front);
    }
  }

  /**
   * Against the catalog of a tune table, the k-th record of a tier is for
   * the k-th known entry's tune id, and carries the metadata of the last
   * fetched tune with that id.
   */
  lemma RecordTuneIsCatalogs(tier: Tier, table: seq<Tune>, prior: map<int, RecordValue>, es: seq<RawEntry>, k: nat)
    requires BuildTier(tier, IndexTunes(Take(table, LIMIT)), prior, es).Ok?
    requires k < |BuildTier(tier, IndexTunes(Take(table, LIMIT)), prior, es).value|
    ensures var fetched := Take(table, LIMIT);
      && k < |Known(IndexTunes(fetched), es)|
      && var r := BuildTier(tier, IndexTunes(fetched), prior, es).value[k];
      var e := Known(IndexTunes(fetched), es)[k];
      && r.levelKind == tier && r.tuneId == e.tuneId.value
      && exists i: nat :: LastWithKey(fetched, TuneKey, r.tuneId, i)
           && r.title == fetched[i].title && r.artist == fetched[i].artist && r.level == LevelOf(fetched[i], tier)
  {
    var fetched := Take(table, LIMIT);
    var tunes := IndexTunes(fetched);
    var rs := BuildTier(tier, tunes, prior, es).value;
    BuildTierShape(tier, tunes, prior, es);
    var e := Known(tunes, es)[k];
    var id := e.tuneId.value;
    assert RecordFor(tier, tunes, prior, e) == Ok(rs[k]);
    BuildRecordFacts(tier, tunes[id], Lookup(prior, id), e);
    IndexByFacts(fetched, TuneKey);
    var i: nat :| LastWithKey(fetched, TuneKey, id, i) && tunes[id] == fetched[i];
  }

  /** `es[i]` is the first entry whose step fails, and it fails with `err`. */
  predicate FirstError(tier: Tier, tunes: map<int, Tune>, prior: map<int, RecordValue>, es: seq<RawEntry>, i: nat, err: Error)
  {
    && i < |es| && Step(tier, tunes, prior, es[i]) == Err(err)
    && forall j :: 0 <= j < i ==> Step(tier, tunes, prior, es[j]).Ok?
  }

  /** A tier builds exactly when every entry's step succeeds, and otherwise fails with the first failure. */
  lemma {:induction false} BuildTierFailsAtFirstError(tier: Tier, tunes: map<int, Tune>, prior: map<int, RecordValue>, es: seq<RawEntry>)
    ensures BuildTier(tier, tunes, prior, es).Ok? <==> forall i :: 0 <= i < |es| ==> Step(tier, tunes, prior, es[i]).Ok?
    ensures BuildTier(tier, tunes, prior, es).Err? ==>
      exists i: nat :: FirstError(tier, tunes, prior, es, i, BuildTier(tier, tunes, prior, es).error)
  {
    if es != [] {
      var n := |es|;
      var front := es[..n - 1];
      BuildTierFailsAtFirstError(tier, tunes, prior, front);
      assert forall i :: 0 <= i < n - 1 ==> front[i] == es[i];
      if BuildTier(tier, tunes, prior, front).Err? {
        var i: nat :| FirstError(tier, tunes, prior, front, i, BuildTier(tier, tunes, prior, front).error);
        assert FirstError(tier, tunes, prior, es, i, BuildTier(tier, tunes, prior, es).error);
      } else if Step(tier, tunes, prior, es[n - 1]).Err? {
        assert FirstError(tier, tunes, prior, es, n - 1, BuildTier(tier, tunes, prior, es).error);
      }
    }
  }

  /** The whole batch builds exactly when each tier does, and is the three tiers' records in tier order. */
  lemma BuildAllParts(tunes: map<int, Tune>, prev: seq<RecordValue>, es: seq<RawEntry>)
    ensures var b := BuildTier(Bas, tunes, PriorIndex(prev, Bas), es);
      var a := BuildTier(Adv, tunes, PriorIndex(prev, Adv), es);
      var x := BuildTier(Ext, tunes, PriorIndex(prev, Ext), es);
      && (BuildAll(tunes, prev, es).Ok? <==> b.Ok? && a.Ok? && x.Ok?)
      && (BuildAll(tunes, prev, es).Ok? ==> BuildAll(tunes, prev, es).value == b.value + a.value + x.value)
  {
    var b := BuildTier(Bas, tunes, PriorIndex(prev, Bas), es);
    var a := BuildTier(Adv, tunes, PriorIndex(prev, Adv), es);
    var one := BuildTiers([Bas], tunes, prev, es);
    var two := BuildTiers([Bas, Adv], tunes, prev, es);
    assert [Bas][..0] == [] && [Bas][0] == Bas;
    assert BuildTiers([], tunes, prev, es) == Ok([]);
    if b.Ok? {
      var none: seq<RecordValue> := [];
      assert none + b.value == b.value;
    }
    assert one.Ok? <==> b.Ok?;
    assert one.Ok? ==> one.value == b.value;
    assert [Bas, Adv][..1] == [Bas];
    assert two.Ok? <==> b.Ok? && a.Ok?;
    assert two.Ok? ==> two.value == b.value + a.value;
    assert LEVEL_KINDS[..2] == [Bas, Adv];
  }

  /** With nothing to compare against, every record of the batch is a first submission. */
  lemma FirstBatch(tunes: map<int, Tune>, es: seq<RawEntry>)
    requires BuildAll(tunes, [], es).Ok?
    ensures forall r :: r in BuildAll(tunes, [], es).value ==>
      r.scoreDiff == r.score && r.score != 0 && r.lastUpdateDate == r.lastPlayDate
  {
    BuildAllParts(tunes, [], es);
    FirstTier(Bas, tunes, es);
    FirstTier(Adv, tunes, es);
    FirstTier(Ext, tunes, es);
  }

  lemma FirstTier(tier: Tier, tunes: map<int, Tune>, es: seq<RawEntry>)
    requires BuildTier(tier, tunes, PriorIndex([], tier), es).Ok?
    ensures forall r :: r in BuildTier(tier, tunes, PriorIndex([], tier), es).value ==>
      r.scoreDiff == r.score && r.score != 0 && r.lastUpdateDate == r.lastPlayDate
  {
    var prior := PriorIndex([], tier);
    var rs := BuildTier(tier, tunes, prior, es).value;
    var ks := Known(tunes, es);
    BuildTierShape(tier, tunes, prior, es);
    forall r | r in rs
      ensures r.scoreDiff == r.score && r.score != 0 && r.lastUpdateDate == r.lastPlayDate
    {
      var k :| 0 <= k < |rs| && rs[k] == r;
      var e := ks[k];
      NoPriorRecords(tier, e.tuneId.value);
      FirstSubmission(tier, tunes[e.tuneId.value], e);
    }
  }

  /** Once a prefix of the entries fails, the tier fails with the same error. */
  lemma {:induction false} BuildTierErrStays(tier: Tier, tunes: map<int, Tune>, prior: map<int, RecordValue>, es: seq<RawEntry>, j: nat)
    requires j <= |es| && BuildTier(tier, tunes, prior, es[..j]).Err?
    ensures BuildTier(tier, tunes, prior, es) == BuildTier(tier, tunes, prior, es[..j])
  {
    if j < |es| {
      var front := es[..|es| - 1];
      assert front[..j] == es[..j];
      BuildTierErrStays(tier, tunes, prior, front, j);
    } else {
      assert es[..j] == es;
    }
  }

  /** Once a prefix of the tiers fails, the batch fails with the same error. */
  lemma {:induction false} BuildTiersErrStays(tiers: seq<Tier>, tunes: map<int, Tune>, prev: seq<RecordValue>, es: seq<RawEntry>, i: nat)
    requires i <= |tiers| && BuildTiers(tiers[..i], tunes, prev, es).Err?
    ensures BuildTiers(tiers, tunes, prev, es) == BuildTiers(tiers[..i], tunes, prev, es)
  {
    if i < |tiers| {
      var front := tiers[..|tiers| - 1];
      assert front[..i] == tiers[..i];
      BuildTiersErrStays(front, tunes, prev, es, i);
    } else {
      assert tiers[..i] == tiers;
    }
  }

  /** One more tier: its records are appended, or its error ends the batch. */
  lemma BuildTiersNext(tiers: seq<Tier>, tunes: map<int, Tune>, prev: seq<RecordValue>, es: seq<RawEntry>, i: nat, acc: seq<RecordValue>)
    requires i < |tiers| && BuildTiers(tiers[..i], tunes, prev, es) == Ok(acc)
    ensures var b := BuildTier(tiers[i], tunes, PriorIndex(prev, tiers[i]), es);
      BuildTiers(tiers[..i + 1], tunes, prev, es) == if b.Ok? then Ok(acc + b.value) else Err(b.error)
  {
    assert tiers[..i + 1][..i] == tiers[..i];
  }

  // ---------------------------------------------------------------------
  // regist_new_revision on the datastore state
  // ---------------------------------------------------------------------

  /**
   * `regist_new_revision`: the first put writes an invalid revision; the
   * transaction writes it valid together with every record; on a failure
   * after the first put the revision is deleted again, and when that
   * delete fails too the invalid revision stays behind.
   */
  function RegistOf(st: StoreState, tunes: map<int, Tune>, scores: seq<RawEntry>, now: Timestamp, f: Faults): (StoreState, Option<Error>)
  {
    if f.put then (st, Some(StorageFailure))
    else Finish(st, now, BuildAll(tunes, PriorRecords(st), scores), f)
  }

  /** What follows the build: commit the revision with its records, or delete it, or leave it behind. */
  function Finish(st: StoreState, now: Timestamp, built: Result<seq<RecordValue>, Error>, f: Faults): (StoreState, Option<Error>)
  {
    var id := st.nextId;
    if built.Ok? && !f.commit then
      (StoreState(st.revisions + [Revision(id, true, now)], st.records[id := built.value], id + 1), None)
    else if f.delete then
      (StoreState(st.revisions + [Revision(id, false, now)], st.records, id + 1), Some(StorageFailure))
    else
      (StoreState(st.revisions, st.records, id + 1), Some(if built.Err? then built.error else StorageFailure))
  }

  /** `revs` has a valid revision with this id. */
  predicate IsValidId(revs: seq<Revision>, id: nat)
  {
    exists i :: 0 <= i < |revs| && revs[i].id == id && revs[i].isValid
  }

  /** Revision ids are unique and below the next id, and records hang only under valid revisions. */
  predicate StoreValid(st: StoreState)
  {
    && (forall i, j :: 0 <= i < j < |st.revisions| ==> st.revisions[i].id != st.revisions[j].id)
    && (forall i :: 0 <= i < |st.revisions| ==> st.revisions[i].id < st.nextId)
    && (forall id :: id in st.records ==> IsValidId(st.revisions, id))
  }

  /** The next id is used by no revision and no record set. */
  lemma FreshId(st: StoreState)
    requires StoreValid(st)
    ensures st.nextId !in st.records
    ensures forall i :: 0 <= i < |st.revisions| ==> st.revisions[i].id != st.nextId
  {
    forall k | k in st.records
      ensures k < st.nextId
    {
      var i :| 0 <= i < |st.revisions| && st.revisions[i].id == k && st.revisions[i].isValid;
    }
  }

  /** Appending a revision with the next id, with records only if it is valid, keeps the store consistent. */
  lemma AppendKeepsStore(st: StoreState, r: Revision, recs: Option<seq<RecordValue>>)
    requires StoreValid(st) && r.id == st.nextId
    requires recs.Some? ==> r.isValid
    ensures StoreValid(StoreState(st.revisions + [r],
      if recs.Some? then st.records[r.id := recs.value] else st.records, st.nextId + 1))
  {
    FreshId(st);
    var revs := st.revisions + [r];
    forall k | k in st.records
      ensures IsValidId(revs, k)
    {
      var i :| 0 <= i < |st.revisions| && st.revisions[i].id == k && st.revisions[i].isValid;
      assert revs[i] == st.revisions[i];
    }
    if recs.Some? {
      assert revs[|st.revisions|] == r;
    }
  }

  /** A registration, successful or not, keeps the store consistent and never touches earlier revisions' records. */
  lemma RegistKeepsStore(st: StoreState, tunes: map<int, Tune>, scores: seq<RawEntry>, now: Timestamp, f: Faults)
    requires StoreValid(st)
    ensures var st' := RegistOf(st, tunes, scores, now, f).0;
      && StoreValid(st')
      && (forall id :: id in st.records ==> id in st'.records && st'.records[id] == st.records[id])
      && st'.revisions[..|st.revisions|] == st.revisions
  {
    if !f.put {
      FreshId(st);
      var id := st.nextId;
      var built := BuildAll(tunes, PriorRecords(st), scores);
      if built.Ok? && !f.commit {
        AppendKeepsStore(st, Revision(id, true, now), Some(built.value));
      } else if f.delete {
        AppendKeepsStore(st, Revision(id, false, now), None);
      }
    }
  }

  /** In a consistent store, a revision that has records is a valid one. */
  lemma RecordsOnlyUnderValid(st: StoreState, id: nat)
    requires StoreValid(st) && RecordsOf(st.records, id) != []
    ensures IsValidId(st.revisions, id)
  {
  }

  /** A registration succeeds exactly when both datastore writes succeed and every record builds. */
  lemma RegistSucceedsIff(st: StoreState, tunes: map<int, Tune>, scores: seq<RawEntry>, now: Timestamp, f: Faults)
    ensures RegistOf(st, tunes, scores, now, f).1.None? <==>
      !f.put && !f.commit && BuildAll(tunes, PriorRecords(st), scores).Ok?
  {
  }

  /**
   * After a success the new revision is the latest one, provided no other
   * revision is newer, and the next registration compares against its records.
   * A revision with the same `created_at` loses to the new one only by the
   * model's tie rule (the later in store order wins); when every other
   * revision is strictly older the conclusion does not depend on that rule.
   */
  lemma RegistPublishes(st: StoreState, tunes: map<int, Tune>, scores: seq<RawEntry>, now: Timestamp, f: Faults)
    requires RegistOf(st, tunes, scores, now, f).1.None?
    requires forall i :: 0 <= i < |st.revisions| ==> st.revisions[i].createdAt <= now
    ensures var st' := RegistOf(st, tunes, scores, now, f).0;
      && LatestOf(st'.revisions) == Some(Revision(st.nextId, true, now))
      && PriorRecords(st') == BuildAll(tunes, PriorRecords(st), scores).value
  {
    NewestBecomesLatest(st.revisions, Revision(st.nextId, true, now));
  }

  /**
   * `query_score_records` after a registration: a successful one stores the
   * built batch under the new revision's id; every other revision, and on a
   * failure every revision, answers as before.
   */
  lemma QueryAfterRegist(st: StoreState, tunes: map<int, Tune>, scores: seq<RawEntry>, now: Timestamp, f: Faults, id: nat)
    ensures var (st', err) := RegistOf(st, tunes, scores, now, f);
      && (err.None? ==> RecordsOf(st'.records, st.nextId) == BuildAll(tunes, PriorRecords(st), scores).value)
      && (err.Some? || id != st.nextId ==> RecordsOf(st'.records, id) == RecordsOf(st.records, id))
  {
  }

  /** After a failure readers see what they saw before: the same latest revision and the same records. */
  lemma RegistFailureIsInvisible(st: StoreState, tunes: map<int, Tune>, scores: seq<RawEntry>, now: Timestamp, f: Faults)
    requires RegistOf(st, tunes, scores, now, f).1.Some?
    ensures var st' := RegistOf(st, tunes, scores, now, f).0;
      && st'.records == st.records
      && LatestOf(st'.revisions) == LatestOf(st.revisions)
      && PriorRecords(st') == PriorRecords(st)
  {
    LatestIgnoresInvalid(st.revisions, Revision(st.nextId, false, now));
  }

  /**
   * The inner loop of `regist_new_revision` for one tier: each entry that
   * names a known tune becomes a new ScoreRecord, copied from the tune and
   * updated against the prior record of that tune, if any.
   */
  method BuildTierEntities(lk: Tier, tunes: map<int, Tune>, prior: map<int, RecordValue>, scores: seq<RawEntry>)
    returns (res: Result<seq<RecordValue>, Error>)
    ensures res == BuildTier(lk, tunes, prior, scores)
  {
    var entities: seq<RecordValue> := [];
    for j := 0 to |scores|
      invariant BuildTier(lk, tunes, prior, scores[..j]) == Ok(entities)
    {
      var s := scores[j];
      assert scores[..j + 1][..j] == scores[..j];
      if s.tuneId.None? {
        BuildTierErrStays(lk, tunes, prior, scores, j + 1);
        return Err(MissingField);
      }
      var id := s.tuneId.value;
      if id in tunes {
        var t := tunes[id];
        var sr := new ScoreRecord(lk, t.tuneId);
        sr.DupTune(t);
        var err := sr.UpdateNewScore(Lookup(prior, id), s);
        if err.Some? {
          BuildTierErrStays(lk, tunes, prior, scores, j + 1);
          return Err(err.value);
        }
        entities := entities + [sr.rec];
      }
    }
    assert scores[..|scores|] == scores;
    return Ok(entities);
  }

  /** The datastore, with the registration protocol and its queries. */
  class ScoreStore {
    var revisions: seq<Revision>
    var records: map<nat, seq<RecordValue>>
    var nextId: nat

    function State(): StoreState
      reads this
    {
      StoreState(revisions, records, nextId)
    }

    predicate Valid()
      reads this
    {
      StoreValid(State())
    }

    constructor ()
      ensures State() == StoreState([], map[], 0) && Valid()
    {
      revisions, records, nextId := [], map[], 0;
    }

    /**
     * The loops of `regist_new_revision`: for each tier the prior
     * dictionary of the current revision, then that tier's records.
     */
    method BuildEntities(tunes: map<int, Tune>, current: Option<Revision>, scores: seq<RawEntry>)
      returns (res: Result<seq<RecordValue>, Error>)
      ensures res == BuildAll(tunes, PriorOf(records, current), scores)
    {
      ghost var prev := PriorOf(records, current);
      var entities: seq<RecordValue> := [];
      for i := 0 to |LEVEL_KINDS|
        invariant BuildTiers(LEVEL_KINDS[..i], tunes, prev, scores) == Ok(entities)
      {
        var lk := LEVEL_KINDS[i];
        var prior: map<int, RecordValue>;
        if current.Some? {
          prior := PriorIndex(RecordsOf(records, current.value.id), lk);
        } else {
          prior := map[];
          assert prior == PriorIndex(prev, lk) by {
            assert Take(OfTier(prev, lk), LIMIT) == [];
          }
        }
        var tierRecs := BuildTierEntities(lk, tunes, prior, scores);
        BuildTiersNext(LEVEL_KINDS, tunes, prev, scores, i, entities);
        if tierRecs.Err? {
          BuildTiersErrStays(LEVEL_KINDS, tunes, prev, scores, i + 1);
          return Err(tierRecs.error);
        }
        entities := entities + tierRecs.value;
      }
      assert LEVEL_KINDS[..|LEVEL_KINDS|] == LEVEL_KINDS;
      return Ok(entities);
    }
    /**
     * `regist_new_revision`: the catalog is read through its cache, the
     * latest revision is looked up, a new invalid revision is put, the
     * records are built, and then either the transaction commits the
     * revision as valid with its records, or the revision is deleted.
     */
    method RegistNewRevision(catalog: TuneCatalog, scores: seq<RawEntry>, now: Timestamp, faults: Faults)
      returns (err: Option<Error>)
      requires Valid() && catalog.Valid()
      modifies this, catalog
      ensures catalog.Valid() && catalog.cache == IndexTunes(Take(catalog.table, LIMIT))
      ensures catalog.cache == CachedIndex(old(catalog.cache), catalog.table)
      ensures State() == RegistOf(old(State()), catalog.cache, scores, now, faults).0
      ensures err == RegistOf(old(State()), catalog.cache, scores, now, faults).1
      ensures Valid()
    {
      ghost var before := State();
      var tunes := catalog.TunesDict();
      var current := LatestOf(revisions);
      if faults.put {
        return Some(StorageFailure);
      }
      var id := nextId;
      revisions := revisions + [Revision(id, false, now)];
      nextId := nextId + 1;
      var built := BuildEntities(tunes, current, scores);
      err := Commit(before, now, built, faults);
      RegistKeepsStore(old(State()), tunes, scores, now, faults);
    }

    /**
     * The end of `regist_new_revision`: the transaction puts the revision,
     * now valid, together with its records; if building raised or the
     * transaction fails, the revision put at the start is deleted.
     */
    method Commit(ghost pre: StoreState, now: Timestamp, built: Result<seq<RecordValue>, Error>, faults: Faults)
      returns (err: Option<Error>)
      requires revisions == pre.revisions + [Revision(pre.nextId, false, now)]
      requires records == pre.records && nextId == pre.nextId + 1
      modifies this
      ensures State() == Finish(pre, now, built, faults).0
      ensures err == Finish(pre, now, built, faults).1
    {
      var id := nextId - 1;
      if built.Ok? && !faults.commit {
        revisions := revisions[|revisions| - 1 := Revision(id, true, now)];
        records := records[id := built.value];
        assert revisions == pre.revisions + [Revision(id, true, now)];
        err := None;
      } else if faults.delete {
        err := Some(StorageFailure);
      } else {
        revisions := revisions[..|revisions| - 1];
        assert revisions == pre.revisions;
        err := Some(if built.Err? then built.error else StorageFailure);
      }
    }
  }
}
