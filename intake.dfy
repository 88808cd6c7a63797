/**
  The records `upload_inventory` creates: one per uploaded entry, in entry
  order, or an error for the first entry that is rejected.
 */
module Intake {
  import opened Text
  import opened Records

  /**
    One entry of `InventoryUploadRequest.items`: `None` stands for a key the
    dictionary does not have.
   */
  datatype UploadEntry = UploadEntry(
    imageBase64: Option<string>,
    name: Option<string>,
    status: Option<string>,
    owner: Option<string>,
    notes: Option<string>)

  /** `entry.get(key, fallback)`. */
  function GetOr(value: Option<string>, fallback: string): string {
    match value
    case None => fallback
    case Some(v) => v
  }

  /** `entry.get("name") or "Item"`: an absent or empty name becomes "Item". */
  function EntryName(e: UploadEntry): (r: string)
    ensures r != ""
    ensures e.name.Some? && e.name.value != "" ==> r == e.name.value
    ensures e.name.None? || e.name.value == "" ==> r == "Item"
  {
    if e.name.Some? && e.name.value != "" then e.name.value else "Item"
  }

  const MissingImageDetail: string := "Each item must include image_base64 data."
  const InvalidBase64Detail: string := "Invalid base64 in one of the items."

  /** Where the image of record `id` is served from. */
  function ImagePath(id: string): string {
    "/inventory/images/" + id + ".png"
  }

  /**
    One iteration of the upload loop: `id` stands for `uuid.uuid4()`,
    `createdAt` for `time.time()`, and `isValidBase64` for whether
    `base64.b64decode(..., validate=True)` accepts the text. The test
    `not raw_base64.strip()` is written `AllSpace(rawBase64)`, which `Trim`'s
    contract shows to be the same.
   */
  function NewRecord(e: UploadEntry, id: string, createdAt: real, isValidBase64: string -> bool): Result<Item>
  {
    var rawBase64 := GetOr(e.imageBase64, "");
    var name := EntryName(e);
    if AllSpace(rawBase64) then Failure(HttpError(400, MissingImageDetail))
    else if !isValidBase64(rawBase64) then Failure(HttpError(400, InvalidBase64Detail))
    else
      match EnsureValidStatus(e.status)
      case Failure(err) => Failure(err)
      case Success(status) =>
        Success(Item(id, name, status, GetOr(e.owner, ""), createdAt, ImagePath(id),
                     GetOr(e.notes, ""), None, None))
  }

  /**
    An entry is accepted exactly when its image data is non-blank, decodes,
    and its status is acceptable; the record it makes has the fresh id and
    time, no score or label, an allowed status and the default name.
   */
  lemma NewRecordSpec(e: UploadEntry, id: string, createdAt: real, isValidBase64: string -> bool)
    ensures var r := NewRecord(e, id, createdAt, isValidBase64);
            && (r.Success? <==>
              && !AllSpace(GetOr(e.imageBase64, ""))
              && isValidBase64(GetOr(e.imageBase64, ""))
              && EnsureValidStatus(e.status).Success?)
            && (r.Failure? ==> r.error.statusCode == 400)
            && (r.Success? ==>
              && r.value.id == id && r.value.createdAt == createdAt
              && r.value.imagePath == ImagePath(id)
              && r.value.name == EntryName(e)
              && r.value.status == EnsureValidStatus(e.status).value
              && r.value.status in AllowedStatuses
              && r.value.owner == GetOr(e.owner, "") && r.value.notes == GetOr(e.notes, "")
              && r.value.score.None? && r.value.classLabel.None?)
  {
  }

  /** The outcome of each entry taken alone, entry i using `ids[i]` and `clock[i]`. */
  function Attempts(entries: seq<UploadEntry>, ids: seq<string>, clock: seq<real>,
                    isValidBase64: string -> bool): (r: seq<Result<Item>>)
    requires |ids| == |entries| && |clock| == |entries|
    ensures |r| == |entries|
  {
    seq(|entries|, i requires 0 <= i < |entries| => NewRecord(entries[i], ids[i], clock[i], isValidBase64))
  }

  /** Attempt i is the outcome of entry i. */
  lemma AttemptAt(entries: seq<UploadEntry>, ids: seq<string>, clock: seq<real>,
                  isValidBase64: string -> bool, i: nat)
    requires |ids| == |entries| && |clock| == |entries| && i < |entries|
    ensures Attempts(entries, ids, clock, isValidBase64)[i] == NewRecord(entries[i], ids[i], clock[i], isValidBase64)
  {
  }

  /**
    The records for the first `n` entries, in entry order; the first
    rejected entry decides the error. Defined by the number of entries
    handled so far, as the upload loop proceeds.
   */
  function NewRecords(entries: seq<UploadEntry>, ids: seq<string>, clock: seq<real>,
                      isValidBase64: string -> bool, n: nat): Result<seq<Item>>
    requires |ids| == |entries| && |clock| == |entries| && n <= |entries|
  {
    Collect(Attempts(entries, ids, clock, isValidBase64), n)
  }

  /** Entry i of the upload is accepted. */
  predicate Accepted(entries: seq<UploadEntry>, ids: seq<string>, clock: seq<real>,
                     isValidBase64: string -> bool, i: nat)
    requires |ids| == |entries| && |clock| == |entries| && i < |entries|
  {
    NewRecord(entries[i], ids[i], clock[i], isValidBase64).Success?
  }

  /** The first `n` records are made exactly when each of the first `n` entries is accepted. */
  lemma NewRecordsSucceeds(entries: seq<UploadEntry>, ids: seq<string>, clock: seq<real>,
                           isValidBase64: string -> bool, n: nat)
    requires |ids| == |entries| && |clock| == |entries| && n <= |entries|
    ensures NewRecords(entries, ids, clock, isValidBase64, n).Success? <==>
              forall i :: 0 <= i < n ==> Accepted(entries, ids, clock, isValidBase64, i)
  {
    var attempts := Attempts(entries, ids, clock, isValidBase64);
    CollectSucceeds(attempts, n);
    forall i | 0 <= i < n ensures Accepted(entries, ids, clock, isValidBase64, i) <==> attempts[i].Success? {
      AttemptAt(entries, ids, clock, isValidBase64, i);
    }
  }

  /** On success there is one record per entry, in entry order. */
  lemma NewRecordsValues(entries: seq<UploadEntry>, ids: seq<string>, clock: seq<real>,
                         isValidBase64: string -> bool, n: nat)
    requires |ids| == |entries| && |clock| == |entries| && n <= |entries|
    requires NewRecords(entries, ids, clock, isValidBase64, n).Success?
    ensures var records := NewRecords(entries, ids, clock, isValidBase64, n).value;
            && |records| == n
            && forall i :: 0 <= i < n ==>
                 && Accepted(entries, ids, clock, isValidBase64, i)
                 && records[i] == NewRecord(entries[i], ids[i], clock[i], isValidBase64).value
  {
    var attempts := Attempts(entries, ids, clock, isValidBase64);
    CollectValues(attempts, n);
    forall i | 0 <= i < n ensures attempts[i] == NewRecord(entries[i], ids[i], clock[i], isValidBase64) {
      AttemptAt(entries, ids, clock, isValidBase64, i);
    }
  }

  /** On failure the error is that of the first rejected entry. */
  lemma NewRecordsFirstError(entries: seq<UploadEntry>, ids: seq<string>, clock: seq<real>,
                             isValidBase64: string -> bool, n: nat)
    requires |ids| == |entries| && |clock| == |entries| && n <= |entries|
    requires NewRecords(entries, ids, clock, isValidBase64, n).Failure?
    ensures exists i :: 0 <= i < n
              && NewRecord(entries[i], ids[i], clock[i], isValidBase64)
                   == Failure(NewRecords(entries, ids, clock, isValidBase64, n).error)
              && forall j :: 0 <= j < i ==> Accepted(entries, ids, clock, isValidBase64, j)
  {
    var attempts := Attempts(entries, ids, clock, isValidBase64);
    CollectFirstError(attempts, n);
    var i :| 0 <= i < n && attempts[i] == Failure(Collect(attempts, n).error)
             && forall j :: 0 <= j < i ==> attempts[j].Success?;
    forall j | 0 <= j <= i ensures attempts[j] == NewRecord(entries[j], ids[j], clock[j], isValidBase64) {
      AttemptAt(entries, ids, clock, isValidBase64, j);
    }
  }

  /** What `upload_inventory` returns or raises, given the stored list. */
  function UploadResult(items: seq<Item>, entries: seq<UploadEntry>, ids: seq<string>, clock: seq<real>,
                        isValidBase64: string -> bool): Result<seq<Item>>
    requires |ids| == |entries| && |clock| == |entries|
  {
    match NewRecords(entries, ids, clock, isValidBase64, |entries|)
    case Failure(err) => Failure(err)
    case Success(records) => Success(items + records)
  }

  /** The fresh ids: pairwise distinct and not already stored. */
  predicate FreshIds(ids: seq<string>, items: seq<Item>) {
    && (forall i, j :: 0 <= i < j < |ids| ==> ids[i] != ids[j])
    && (forall i, k :: 0 <= i < |ids| && 0 <= k < |items| ==> ids[i] != items[k].id)
  }

  /**
    A successful upload keeps the stored list as a prefix and adds one
    well-formed record per entry; with fresh ids it keeps the inventory invariant.
   */
  lemma UploadAppends(items: seq<Item>, entries: seq<UploadEntry>, ids: seq<string>, clock: seq<real>,
                      isValidBase64: string -> bool)
    requires |ids| == |entries| && |clock| == |entries|
    requires UploadResult(items, entries, ids, clock, isValidBase64).Success?
    ensures var next := UploadResult(items, entries, ids, clock, isValidBase64).value;
            && |next| == |items| + |entries| && next[..|items|] == items
            && (forall i :: 0 <= i < |entries| ==>
                  next[|items| + i].id == ids[i] && next[|items| + i].name == EntryName(entries[i])
                  && next[|items| + i].score.None? && next[|items| + i].classLabel.None?
                  && next[|items| + i].status in AllowedStatuses)
            && (WellFormed(items) && FreshIds(ids, items) ==> WellFormed(next))
  {
    NewRecordsValues(entries, ids, clock, isValidBase64, |entries|);
    var records := NewRecords(entries, ids, clock, isValidBase64, |entries|).value;
    var next := items + records;
    forall i | 0 <= i < |entries|
      ensures next[|items| + i] == records[i]
      ensures WellFormedItem(records[i]) && records[i].id == ids[i] && records[i].name == EntryName(entries[i])
    {
      NewRecordSpec(entries[i], ids[i], clock[i], isValidBase64);
    }
    if WellFormed(items) && FreshIds(ids, items) {
      forall i, j | 0 <= i < j < |next| ensures next[i].id != next[j].id {
        if j >= |items| && i >= |items| {
          assert next[i].id == ids[i - |items|];
        } else if j >= |items| {
          assert next[i] == items[i];
        }
      }
    }
  }

  /** An entry with blank image data makes the whole upload fail with 400, saving nothing. */
  lemma BlankImageRejectsUpload(items: seq<Item>, entries: seq<UploadEntry>, ids: seq<string>, clock: seq<real>,
                                isValidBase64: string -> bool, i: nat)
    requires |ids| == |entries| && |clock| == |entries| && i < |entries|
    requires Trim(GetOr(entries[i].imageBase64, "")) == ""
    ensures UploadResult(items, entries, ids, clock, isValidBase64).Failure?
    ensures UploadResult(items, entries, ids, clock, isValidBase64).error.statusCode == 400
  {
    NewRecordsSucceeds(entries, ids, clock, isValidBase64, |entries|);
    NewRecordSpec(entries[i], ids[i], clock[i], isValidBase64);
    assert !Accepted(entries, ids, clock, isValidBase64, i);
    NewRecordsFirstError(entries, ids, clock, isValidBase64, |entries|);
    var j :| 0 <= j < |entries|
             && NewRecord(entries[j], ids[j], clock[j], isValidBase64)
                  == Failure(NewRecords(entries, ids, clock, isValidBase64, |entries|).error);
    NewRecordSpec(entries[j], ids[j], clock[j], isValidBase64);
  }
}
