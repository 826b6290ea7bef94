/**
 * The record builder: one score record per (tier, submitted entry), made
 * from the tune's metadata, the submitted fields and the prior record of
 * the same tune and tier, if there is one.
 */
module Records {

  import opened Wrappers
  import opened Ratings
  import opened Bitmap
  import opened Levels
  import opened Catalog

  /** A point in time, already parsed; the model only compares and copies it. */
  type Timestamp = int

  /** A tier's `mb_<tier>` field after base64 decoding, which may fail. */
  datatype Decoded = Bytes(bytes: seq<Byte>) | BadBase64

  /** The `last_play_date` field after parsing with `%Y-%m-%dT%H:%M:%S`, which may fail. */
  datatype Parsed = At(time: Timestamp) | BadFormat

  /**
   * One submitted entry, a JSON object: `tune_id`, then per tier
   * `score_<tier>`, `fc_<tier>`, `mb_<tier>`, and `last_play_date`.
   * A key the entry lacks is absent from its map, or None.
   */
  datatype RawEntry = RawEntry(
    tuneId: Option<int>,
    score: map<Tier, int>,
    fc: map<Tier, bool>,
    mb: map<Tier, Decoded>,
    lastPlayDate: Option<Parsed>)

  /** What can raise while a revision is built or committed. */
  datatype Error =
    | MissingField   // a KeyError on the submitted entry
    | BadTimestamp   // strptime rejects last_play_date
    | BadBitmap      // the bitmap is not valid base64
    | NoPriorRecord  // score unchanged but there is no prior record to carry from
    | StorageFailure // a datastore put, transaction or delete fails

  /** The persisted fields of a ScoreRecord entity. */
  datatype RecordValue = RecordValue(
    levelKind: Tier,
    tuneId: int,
    title: string,
    artist: Option<string>,
    level: Option<int>,
    score: int,
    fc: bool,
    rating: Rating,
    mb: seq<int>,
    ng: bool,
    ay: bool,
    scoreDiff: int,
    lastPlayDate: Option<Timestamp>,
    lastUpdateDate: Option<Timestamp>)

  /**
   * A record as `ScoreRecord(parent=..., tune_id=..., level_kind=...)`
   * creates it; the fields the two builder steps always assign start at
   * placeholder values.
   */
  function NewRecord(tier: Tier, tuneId: int): RecordValue
  {
    RecordValue(tier, tuneId, "", None, None, 0, false, Unrated, [], false, false, 0, None, None)
  }

  /** `dup_tune` on a record value. */
  function DupTuneOf(r: RecordValue, t: Tune): RecordValue
  {
    r.(tuneId := t.tuneId, title := t.title, artist := t.artist, level := LevelOf(t, r.levelKind))
  }

  /** `cur.score if cur else 0`. */
  function PriorScore(cur: Option<RecordValue>): int
  {
    if cur.Some? then cur.value.score else 0
  }

  /**
   * The first part of `update_new_score`: score, fc, rating, play date,
   * difference and update date, or what raises first while they are read.
   */
  function SetScoreOf(r: RecordValue, cur: Option<RecordValue>, e: RawEntry): Result<RecordValue, Error>
  {
    var lk := r.levelKind;
    if lk !in e.score || lk !in e.fc || e.lastPlayDate.None? then Err(MissingField)
    else if e.lastPlayDate.value.BadFormat? then Err(BadTimestamp)
    else
      var score := e.score[lk];
      var played := e.lastPlayDate.value.time;
      var diff := score - PriorScore(cur);
      if diff == 0 && cur.None? then Err(NoPriorRecord)
      else
        Ok(r.(score := score, fc := e.fc[lk], rating := RatingByScore(score),
              lastPlayDate := Some(played), scoreDiff := diff,
              lastUpdateDate := if diff != 0 then Some(played) else cur.value.lastUpdateDate))
  }

  /** The second part: the decoded bitmap of the record's tier and its two flags. */
  function SetBitmapOf(r: RecordValue, e: RawEntry): Result<RecordValue, Error>
  {
    var lk := r.levelKind;
    if lk !in e.mb then Err(MissingField)
    else if e.mb[lk].BadBase64? then Err(BadBitmap)
    else
      var mb := Unpack(e.mb[lk].bytes);
      Ok(r.(mb := mb, ng := NoGrey(mb), ay := AllYellow(mb)))
  }

  /** `update_new_score` on a record value: the fields it sets, or what it raises first. */
  function UpdateNewScoreOf(r: RecordValue, cur: Option<RecordValue>, e: RawEntry): Result<RecordValue, Error>
  {
    match SetScoreOf(r, cur, e)
    case Err(err) => Err(err)
    case Ok(r1) => SetBitmapOf(r1, e)
  }

  /** The entry's fields that `update_new_score` reads are all present and decode. */
  predicate WellFormed(tier: Tier, e: RawEntry)
  {
    tier in e.score && tier in e.fc && tier in e.mb && e.mb[tier].Bytes? &&
    e.lastPlayDate.Some? && e.lastPlayDate.value.At?
  }

  /**
   * The record of one entry for one tier: created, then `dup_tune`, then
   * `update_new_score` against the prior record `cur`.
   */
  function BuildRecord(tier: Tier, t: Tune, cur: Option<RecordValue>, e: RawEntry): (r: Result<RecordValue, Error>)
    ensures r.Ok? ==> r.value.levelKind == tier && r.value.tuneId == t.tuneId
  {
    UpdateNewScoreOf(DupTuneOf(NewRecord(tier, t.tuneId), t), cur, e)
  }

  /** When building a record fails, and what a built record holds. */
  lemma BuildRecordFacts(tier: Tier, t: Tune, cur: Option<RecordValue>, e: RawEntry)
    // it fails exactly on a malformed entry, or on an unchanged score with no prior record
    ensures BuildRecord(tier, t, cur, e).Ok? <==> WellFormed(tier, e) && (cur.Some? || e.score[tier] != 0)
    ensures BuildRecord(tier, t, cur, e).Ok? ==>
      var r := BuildRecord(tier, t, cur, e).value;
      // tune metadata for the record's own tier
      && r.levelKind == tier && r.tuneId == t.tuneId && r.title == t.title && r.artist == t.artist
      && r.level == LevelOf(t, tier)
      // the submitted fields, the grade and the difference against the prior score
      && r.score == e.score[tier] && r.fc == e.fc[tier] && r.rating == RatingByScore(r.score)
      && r.score == PriorScore(cur) + r.scoreDiff
      && r.lastPlayDate == Some(e.lastPlayDate.value.time)
      // the update date moves with the score and is carried forward otherwise
      && (r.scoreDiff != 0 ==> r.lastUpdateDate == r.lastPlayDate)
      && (r.scoreDiff == 0 ==> cur.Some? && r.lastUpdateDate == cur.value.lastUpdateDate)
      // the decoded bitmap and its two flags
      && r.mb == Unpack(e.mb[tier].bytes) && |r.mb| == 4 * |e.mb[tier].bytes| && AreMarkers(r.mb)
      && r.ng == NoGrey(r.mb)
      && r.ay == AllYellow(r.mb)
      && (r.ay ==> r.ng)
  {
  }

  /** The stored bitmap repacks into exactly the submitted bytes. */
  lemma RecordBitmapRepacks(tier: Tier, t: Tune, cur: Option<RecordValue>, e: RawEntry)
    requires BuildRecord(tier, t, cur, e).Ok?
    ensures Pack(BuildRecord(tier, t, cur, e).value.mb) == e.mb[tier].bytes
  {
    PackUnpack(e.mb[tier].bytes);
  }

  /** With no prior record the difference is the whole score and the update date is the play date. */
  lemma FirstSubmission(tier: Tier, t: Tune, e: RawEntry)
    requires BuildRecord(tier, t, None, e).Ok?
    ensures var r := BuildRecord(tier, t, None, e).value;
      r.scoreDiff == r.score && r.score != 0 && r.lastUpdateDate == r.lastPlayDate
  {
  }

  /**
   * A first submission with a zero score raises: the score is unchanged
   * against "no prior" and `cur.last_update_date` is read from None.
   */
  lemma FirstZeroScoreRaises(tier: Tier, t: Tune, e: RawEntry)
    requires WellFormed(tier, e) && e.score[tier] == 0
    ensures BuildRecord(tier, t, None, e) == Err(NoPriorRecord)
  {
  }

  /**
   * Resubmitting an unchanged score against the record it produced keeps
   * that record's update date, recomputes the same grade and reports no change.
   */
  lemma ResubmitUnchanged(tier: Tier, t: Tune, cur: Option<RecordValue>, e1: RawEntry, e2: RawEntry)
    requires BuildRecord(tier, t, cur, e1).Ok?
    requires WellFormed(tier, e2) && e2.score[tier] == e1.score[tier]
    ensures var r1 := BuildRecord(tier, t, cur, e1).value;
      var r2 := BuildRecord(tier, t, Some(r1), e2);
      r2.Ok? && r2.value.scoreDiff == 0 && r2.value.lastUpdateDate == r1.lastUpdateDate &&
      r2.value.rating == r1.rating && r2.value.lastPlayDate == Some(e2.lastPlayDate.value.time)
  {
  }

  /** A record built against a prior record that has an update date has one too. */
  lemma UpdateDateStaysSet(tier: Tier, t: Tune, cur: Option<RecordValue>, e: RawEntry)
    requires cur.Some? ==> cur.value.lastUpdateDate.Some?
    requires BuildRecord(tier, t, cur, e).Ok?
    ensures BuildRecord(tier, t, cur, e).value.lastUpdateDate.Some?
  {
  }

  /**
   * A ScoreRecord entity under construction: its property values are
   * assigned one at a time, as the builder steps run.
   */
  class ScoreRecord {
    var rec: RecordValue

    constructor (levelKind: Tier, tuneId: int)
      ensures rec == NewRecord(levelKind, tuneId)
    {
      rec := NewRecord(levelKind, tuneId);
    }

    /** `dup_tune`: copies the tune's id, title, artist and this tier's level; nothing else changes. */
    method DupTune(t: Tune)
      modifies this
      ensures rec == DupTuneOf(old(rec), t)
    {
      rec := rec.(tuneId := t.tuneId);
      rec := rec.(title := t.title);
      rec := rec.(artist := t.artist);
      rec := rec.(level := LevelOf(t, rec.levelKind));
    }

    /**
     * `update_new_score`: reads this tier's fields of the entry and sets
     * score, fc, rating, the dates, the difference, the bitmap and its
     * flags, or stops at the first thing that raises.
     */
    method UpdateNewScore(cur: Option<RecordValue>, e: RawEntry) returns (err: Option<Error>)
      modifies this
      ensures UpdateNewScoreOf(old(rec), cur, e).Ok? ==>
        err == None && rec == UpdateNewScoreOf(old(rec), cur, e).value
      ensures UpdateNewScoreOf(old(rec), cur, e).Err? ==>
        err == Some(UpdateNewScoreOf(old(rec), cur, e).error)
    {
      err := SetScore(cur, e);
      if err == None {
        err := SetBitmap(e);
      }
    }

    /** Lines up to the update date: each field is set as soon as it is read. */
    method SetScore(cur: Option<RecordValue>, e: RawEntry) returns (err: Option<Error>)
      modifies this
      ensures SetScoreOf(old(rec), cur, e).Ok? ==> err == None && rec == SetScoreOf(old(rec), cur, e).value
      ensures SetScoreOf(old(rec), cur, e).Err? ==> err == Some(SetScoreOf(old(rec), cur, e).error)
    {
      var lk := rec.levelKind;
      if lk !in e.score {
        return Some(MissingField);
      }
      rec := rec.(score := e.score[lk]);
      if lk !in e.fc {
        return Some(MissingField);
      }
      rec := rec.(fc := e.fc[lk]);
      rec := rec.(rating := RatingByScore(rec.score));
      if e.lastPlayDate.None? {
        return Some(MissingField);
      }
      if e.lastPlayDate.value.BadFormat? {
        return Some(BadTimestamp);
      }
      rec := rec.(lastPlayDate := Some(e.lastPlayDate.value.time));
      rec := rec.(scoreDiff := rec.score - (if cur.Some? then cur.value.score else 0));
      if rec.scoreDiff != 0 {
        rec := rec.(lastUpdateDate := rec.lastPlayDate);
      } else {
        if cur.None? {
          // `cur.last_update_date` with cur None raises
          return Some(NoPriorRecord);
        }
        rec := rec.(lastUpdateDate := cur.value.lastUpdateDate);
      }
      return None;
    }

    /** The `convert_mb` call and the two flags computed from its result. */
    method SetBitmap(e: RawEntry) returns (err: Option<Error>)
      modifies this
      ensures SetBitmapOf(old(rec), e).Ok? ==> err == None && rec == SetBitmapOf(old(rec), e).value
      ensures SetBitmapOf(old(rec), e).Err? ==> err == Some(SetBitmapOf(old(rec), e).error)
    {
      var lk := rec.levelKind;
      if lk !in e.mb {
        return Some(MissingField);
      }
      if e.mb[lk].BadBase64? {
        return Some(BadBitmap);
      }
      var l := ConvertMb(e.mb[lk].bytes);
      rec := rec.(mb := l);
      rec := rec.(ng := MB_GREY !in rec.mb);
      rec := rec.(ay := MB_GREY !in rec.mb && MB_BLUE !in rec.mb);
      return None;
    }
  }
}
