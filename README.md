# juvisual score revisions, modelled in Dafny

juvisual stores a jubeat player's scores. One upload is a JSON list, with
one entry per tune: its `tune_id`, and per difficulty tier (`bas`, `adv`,
`ext`) a score, a full-combo flag and a base64 "musicbar" bitmap, plus the
date it was last played.

Each upload becomes a new *score revision*:

- It is first written invalid.
- For each tier and each entry naming a known tune, one record is built. The record holds:
  - the tune's metadata;
  - the new score and its grade (`rating_by_score`);
  - the difference against the same tune and tier in the previous latest revision;
  - the carried-forward update date;
  - the decoded 2-bit markers of the bitmap;
  - the "no grey" and "all yellow" flags.
- The revision is then committed valid, together with all its records, in one transaction.
- Any failure deletes the revision again.

Readers see only the newest valid revision.

Modules:

- `Wrappers`: `Option` and `Result`.
- `Ratings`: the grade ladder (`rating_by_score`), the grades and their stored names.
- `Bitmap`: `convert_mb` as a loop over decoded bytes, its specification `Unpack`, the inverse `Pack`, and the `ng`/`ay` flags.
- `Levels`: the tiers and `run_by_level`.
- `Properties`: `dup_property_values` and Python's `split(' ')`.
- `Catalog`: `Tune`, `Tune.LIMIT`, and `tunes_dict` with its class-level cache (class `TuneCatalog`).
- `Records`: the ScoreRecord entity.
  - Class `ScoreRecord` is assigned step by step by `dup_tune` and `update_new_score`.
  - `BuildRecord` is the value-level specification of creating, copying and updating one record.
- `Revisions`: covers the following.
  - The datastore (class `ScoreStore`): revisions, records per revision, next id.
  - `latest_revision` and `query_score_records`.
  - The loops of `regist_new_revision` (`BuildTierEntities`, `ScoreStore.BuildEntities`), specified by `BuildTier`/`BuildAll`.
  - The put / transaction / delete protocol (`ScoreStore.RegistNewRevision`, specified by `RegistOf`).

Behaviours of the code worth noting, which the model keeps:

- Negative scores are not clamped; they grade as unrated.
- A 0 ("null") marker neither empties the bitmap nor clears a flag.
- Both `ng` and `ay` hold for an empty bitmap.
- A first submission of a tier with score 0 raises: the difference is 0, so `cur.last_update_date` is read from `None`. The whole upload then rolls back.

## Model

| member | source | states |
|---|---|---|
| Ratings.RatingByScore | app/apps/juvisual/models.py:40-59 | the two ends of the ladder and its last step: the grade is `exc` exactly from 1000000 up, `e` exactly for scores 1 to 499999, and empty exactly for scores of 0 or below |
| Ratings.RatingIsFirstThresholdMet | app/apps/juvisual/models.py:38-59 | the grade of a score is the grade whose threshold is the first, from the top, that the score meets; the thresholds are 1000000, 980000, 950000, 900000, 850000, 800000, 700000, 500000 and `> 0` |
| Ratings.RatingMonotone | app/apps/juvisual/models.py:40-59 | a higher score never gets a worse grade |
| Ratings.NonPositiveIsUnrated | app/apps/juvisual/models.py:57-59 | zero and negative scores get the empty grade, with no clamping |
| Ratings.NamesAreDistinct | app/apps/juvisual/models.py:38 | each grade is stored under its own name from the RATINGS list |
| Ratings.FirstMetMonotone | app/apps/juvisual/models.py:40-59 | a higher score meets a threshold of the ladder no later than a lower one |
| Bitmap.ConvertMb | app/apps/juvisual/models.py:190-197 | the decoding loop yields exactly `Unpack` of the bytes: four markers per byte, least-significant pair first |
| Bitmap.UnpackAt | app/apps/juvisual/models.py:192-196 | marker 4i+k is bits 2k..2k+1 of byte i |
| Bitmap.PackUnpack | app/apps/juvisual/models.py:190-199 | repacking the stored markers gives back the decoded bytes |
| Bitmap.UnpackPack | app/apps/juvisual/models.py:190-199 | any marker list whose length is a multiple of four and whose values are 0..3 is the decoding of its packing |
| Bitmap.ByteRoundTrip | app/apps/juvisual/models.py:193-196 | one byte is recovered from its four markers |
| Bitmap.MarkersRoundTrip | app/apps/juvisual/models.py:193-196 | four markers are recovered from the byte they pack to |
| Bitmap.NoGrey | app/apps/juvisual/models.py:201 | `ng` holds exactly when no marker is grey |
| Bitmap.AllYellow | app/apps/juvisual/models.py:202 | `ay` holds exactly when no marker is grey or blue, and it implies `ng` |
| Bitmap.AllYellowImpliesNoGrey | app/apps/juvisual/models.py:201-202 | `ay` implies `ng` |
| Bitmap.EmptyBitmapFlags | app/apps/juvisual/models.py:201-202 | both flags hold for an empty bitmap |
| Bitmap.AllYellowMeansYellowOrNull | app/apps/juvisual/models.py:202 | `ay` holds exactly when every marker is yellow or 0 |
| Bitmap.NoGreyOfBytes | app/apps/juvisual/models.py:190-201 | `ng` holds exactly when no 2-bit pair of any decoded byte is 01 |
| Bitmap.AllFfIsAllYellow | app/apps/juvisual/models.py:190-202 | bytes 0xFF decode to yellow markers only, so both flags hold |
| Levels.RunByLevel | app/apps/juvisual/models.py:65-69 | the callback runs once per tier in LEVEL_KINDS order, then once with 'all' exactly when asked |
| Properties.DupPropertyValues | app/apps/juvisual/models.py:61-63 | every name of `props.split(' ')` is copied from the source to the destination; on a missing name it fails after copying exactly the names before it |
| Properties.JoinSplit | app/apps/juvisual/models.py:62 | `split(' ')` loses nothing: joining the pieces with spaces gives back the string |
| Properties.Split | app/apps/juvisual/models.py:62 | the pieces contain no space, and there is at least one |
| Properties.CopyAllFacts | app/apps/juvisual/models.py:62-63 | after copying, the keys are the destination's plus the names, and each named attribute holds the source's value |
| Catalog.TuneCatalog.TunesDict | app/apps/juvisual/models.py:79-90 | the cache is always empty or the index of the scan; the dictionary returned, and left in the cache, is the first LIMIT tunes keyed by id, taken from a non-empty cache as is and scanned otherwise |
| Catalog.IndexByFacts | app/apps/juvisual/models.py:86-88 | every scanned tune's id is a key, every key is some tune's id, and of two tunes with one id the later is kept |
| Catalog.NonEmptyTableFillsCache | app/apps/juvisual/models.py:84-89 | a non-empty table leaves a non-empty cache, so later calls return it without scanning |
| Catalog.Take | app/apps/juvisual/models.py:79-90 | `fetch(LIMIT)` returns exactly the first LIMIT entities, or all of them when there are fewer |
| Records.ScoreRecord.DupTune | app/apps/juvisual/models.py:169-173 | copies the tune's id, title and artist, and the level of the record's own tier; nothing else changes |
| Records.ScoreRecord.UpdateNewScore | app/apps/juvisual/models.py:175-202 | sets the record to `UpdateNewScoreOf` of its old value, or reports the first error that would raise |
| Records.ScoreRecord.SetScore | app/apps/juvisual/models.py:176-188 | score, fc, grade, play date, difference and update date, field by field as they are read, or the first failing read |
| Records.ScoreRecord.SetBitmap | app/apps/juvisual/models.py:190-202 | the decoded bitmap and its two flags, or the missing or undecodable bitmap error |
| Records.BuildRecord | app/apps/juvisual/models.py:124-129 | a built record is for the tier it was created for and for the tune's id |
| Records.BuildRecordFacts | app/apps/juvisual/models.py:169-202 | building fails exactly when a field is missing or malformed, or the score is unchanged with no prior record. A built record carries the tune's metadata for its tier, the submitted score and fc, the grade of the score, score = prior score + difference, the play date, an update date that moves only when the score changes, the decoded markers and both flags |
| Records.RecordBitmapRepacks | app/apps/juvisual/models.py:190-199 | the stored markers repack into exactly the submitted bytes |
| Records.FirstSubmission | app/apps/juvisual/models.py:184-186 | with no prior record the difference is the whole score and the update date is the play date |
| Records.FirstZeroScoreRaises | app/apps/juvisual/models.py:184-188 | a first submission with score 0 raises even when every field is well formed |
| Records.ResubmitUnchanged | app/apps/juvisual/models.py:184-188 | resubmitting an unchanged score against its own record keeps that update date and grade and reports no difference |
| Records.UpdateDateStaysSet | app/apps/juvisual/models.py:184-188 | once a prior record has an update date, every later record has one |
| Revisions.LatestOf | app/apps/juvisual/models.py:96-99 | the latest revision, when there is one, is a valid revision of the store |
| Revisions.LatestIsNewestValid | app/apps/juvisual/models.py:96-99 | the latest revision exists exactly when a valid one does; it is valid, none is newer, and of equally new ones it is the last |
| Revisions.LatestIgnoresInvalid | app/apps/juvisual/models.py:96-107 | a revision still invalid, such as one being filled, never becomes the latest |
| Revisions.NewestBecomesLatest | app/apps/juvisual/models.py:94-99 | a valid revision no older than any other becomes the latest |
| Revisions.RecordsOf | app/apps/juvisual/models.py:142-143 | a revision's records are those stored under its id, and none for an id nothing was stored under |
| Revisions.QueryAfterRegist | app/apps/juvisual/models.py:142-143 | after a successful registration the new revision's records are the built batch; every other revision, and after a failure every revision, has the same records as before |
| Revisions.RecordsOnlyUnderValid | app/apps/juvisual/models.py:142-143 | in a consistent store, a revision that has records is a valid one |
| Revisions.PriorIsSameTuneAndTier | app/apps/juvisual/models.py:112-124 | the prior record found for an entry belongs to the current revision, to the same tune and to the same tier |
| Revisions.NoPriorRecords | app/apps/juvisual/models.py:115-116 | with no current revision every look-up finds nothing |
| Revisions.BuildTierEntities | app/apps/juvisual/models.py:118-130 | the inner loop yields exactly `BuildTier`, including which error it stops at |
| Revisions.ScoreStore.BuildEntities | app/apps/juvisual/models.py:111-130 | the nested loops yield exactly `BuildAll` against the current revision's records |
| Revisions.RecordTuneIsCatalogs | app/apps/juvisual/models.py:118-124 | against the catalog of a tune table, each record of a tier is for its entry's tune id and carries the title, artist and tier level of the last fetched tune with that id |
| Revisions.BuildTierShape | app/apps/juvisual/models.py:118-130 | a tier that builds yields one record per entry naming a known tune, in entry order, each built against that tune's prior record |
| Revisions.BuildTierFailsAtFirstError | app/apps/juvisual/models.py:118-130 | a tier builds exactly when every entry's step succeeds, and otherwise fails with the first failing entry's error |
| Revisions.BuildAllParts | app/apps/juvisual/models.py:111-130 | the batch builds exactly when all three tiers do, and is the bas, adv and ext records in that order |
| Revisions.FirstBatch | app/apps/juvisual/models.py:115-130 | with no prior records, every record of the batch has difference = score, a non-zero score and update date = play date |
| Revisions.ScoreStore.RegistNewRevision | app/apps/juvisual/models.py:101-140 | the catalog cache ends as the index of the tune table's first LIMIT tunes; the new store state and error are those of `RegistOf` over that catalog, and the store and catalog stay consistent |
| Revisions.ScoreStore.Commit | app/apps/juvisual/models.py:132-140 | a commit writes the valid revision and its records; otherwise the revision is deleted, or left invalid when the delete fails |
| Revisions.RegistSucceedsIff | app/apps/juvisual/models.py:101-140 | a registration succeeds exactly when the put, every record and the transaction succeed |
| Revisions.RegistPublishes | app/apps/juvisual/models.py:132-136 | after a success the new revision is the latest one, given no other revision is newer, and the next registration compares against its records |
| Revisions.RegistFailureIsInvisible | app/apps/juvisual/models.py:137-140 | after any failure readers see the same latest revision and the same records as before |
| Revisions.RegistKeepsStore | app/apps/juvisual/models.py:101-140 | ids stay unique, records hang only under valid revisions, and earlier revisions and their records are untouched |
| Revisions.AppendKeepsStore | app/apps/juvisual/models.py:106-136 | appending a revision under a fresh id, with records only if it is valid, keeps the store consistent |

## Left out

- The datastore and the clock are parameters:
  - the store is a sequence of revisions and a map from revision id to records;
  - `created_at` is the `now` argument;
  - three datastore writes may fail (the first put, the transaction, the delete); each is a flag in `Faults`;
  - every failure is one `StorageFailure` error.
- Datastore queries are assumed to succeed: the tune scan of `tunes_dict`, the `latest_revision` query, and the prior-records fetch inside the loop. A failing prior-records fetch would take the same delete-and-raise path as a failing build; the model has no fault flag for it.
- Catalog.TuneCatalog.TunesDict: the tune table never changes while a catalog exists, so a cache that has gone stale is not represented. In the source the cache lives for the whole process, and a tune added after the first scan stays unknown, and its entries are skipped, until the process restarts.
- Property typing: the model's integers are unbounded and property assignments are not checked. The datastore library rejects a `score` or `score_diff` that does not fit in 64 bits, a `level_kind` outside its choices, and similar values; those errors are not modelled.
- Base64 decoding happens before the model: an entry's bitmap arrives decoded, or it is marked undecodable.
- `strptime` and the UTC time zone happen before the model: a play date arrives as an opaque timestamp, or marked unparsable.
- Exceptions are error values, returned in the order the source raises them. The exception types and messages are not modelled.
- Query order: `latest_revision` breaks `created_at` ties by store order. Records of a revision come back in the order the model stored them. In the datastore, ties and the record order follow key order, which the model's ids (allocation order) do not represent.
- Property values: a record's properties start at placeholder values (empty string, `None`, 0, `false`, unrated, empty bitmap) instead of unset. Each of them is overwritten before the record is stored.
- Grades are a datatype. `Name` gives the stored string.
- Bit operations: `b >> 2k & 3` on a byte is written `(b / 4^k) % 4`. This is the same on values 0..255.
- `setattr`/`getattr` on entities: `Properties.DupPropertyValues` works on a map from attribute name to value.
- Levels.RunByLevel: the callback's effect is not modelled; the method returns the sequence of arguments it would be called with.
- Records.ScoreRecord.UpdateNewScore: on an error the contract does not state which fields were already assigned, because the whole upload is discarded.
- Records.ScoreRecord.SetScore: on an error the contract does not state which fields were already assigned, for the same reason.
- Records.ScoreRecord.SetBitmap: on an error the contract does not state the record's fields, for the same reason.
- The statistics comments at the top of models.py and the commented-out `ScoreRecord.__init__` have no behaviour and are not modelled.
- app/apps/juvisual/handlers.py (a page handler that lists the tunes ordered by id and renders a template) is not part of this model. No caller of `regist_new_revision` is modelled: the upload arrives as already decoded entries.
