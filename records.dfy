/**
  The inventory record, the status allow-list and the error values that
  the HTTP handlers raise.
 */
module Records {
  import opened Text

  datatype Option<T> = None | Some(value: T)

  /** An `HTTPException(status_code, detail)`, or the 500 an unhandled exception becomes. */
  datatype HttpError = HttpError(statusCode: int, detail: string)

  /** Either the handler's return value or the error it raised. */
  datatype Result<T> = Success(value: T) | Failure(error: HttpError)

  /**
    The values of the first `n` results, in order, or the error of the first
    failure among them: the shape of a handler loop that appends one value
    per element and raises on the first bad one.
   */
  function Collect<T>(results: seq<Result<T>>, n: nat): Result<seq<T>>
    requires n <= |results|
  {
    if n == 0 then Success([])
    else
      match Collect(results, n - 1)
      case Failure(err) => Failure(err)
      case Success(done) =>
        match results[n - 1]
        case Failure(err) => Failure(err)
        case Success(v) => Success(done + [v])
  }

  /** Collecting succeeds exactly when each of the first `n` results is a success. */
  lemma {:induction false} CollectSucceeds<T>(results: seq<Result<T>>, n: nat)
    requires n <= |results|
    ensures Collect(results, n).Success? <==> forall i :: 0 <= i < n ==> results[i].Success?
  {
    if n > 0 {
      CollectSucceeds(results, n - 1);
      if Collect(results, n - 1).Failure? {
        var i :| 0 <= i < n - 1 && !results[i].Success?;
      }
    }
  }

  /** On success there is one value per result, in order. */
  lemma {:induction false} CollectValues<T>(results: seq<Result<T>>, n: nat)
    requires n <= |results| && Collect(results, n).Success?
    ensures |Collect(results, n).value| == n
    ensures forall i :: 0 <= i < n ==> results[i].Success? && Collect(results, n).value[i] == results[i].value
  {
    if n > 0 {
      CollectValues(results, n - 1);
    }
  }

  /** On failure the error is that of the first failed result. */
  lemma {:induction false} CollectFirstError<T>(results: seq<Result<T>>, n: nat)
    requires n <= |results| && Collect(results, n).Failure?
    ensures exists i :: 0 <= i < n && results[i] == Failure(Collect(results, n).error)
                        && forall j :: 0 <= j < i ==> results[j].Success?
  {
    var err := Collect(results, n).error;
    if Collect(results, n - 1).Failure? {
      CollectFirstError(results, n - 1);
      assert Collect(results, n - 1).error == err;
      var i :| 0 <= i < n - 1 && results[i] == Failure(err) && forall j :: 0 <= j < i ==> results[j].Success?;
      assert 0 <= i < n;
    } else {
      CollectSucceeds(results, n - 1);
      assert results[n - 1] == Failure(err);
      assert forall j :: 0 <= j < n - 1 ==> results[j].Success?;
    }
  }

  /** A success adds its value after those before it. */
  lemma CollectNext<T>(results: seq<Result<T>>, i: nat)
    requires i < |results| && Collect(results, i).Success? && results[i].Success?
    ensures Collect(results, i + 1) == Success(Collect(results, i).value + [results[i].value])
  {
  }

  /** After the first failure every longer prefix fails with its error. */
  lemma {:induction false} CollectStopsAt<T>(results: seq<Result<T>>, i: nat, n: nat)
    requires i < n <= |results| && Collect(results, i).Success? && results[i].Failure?
    ensures Collect(results, n) == Failure(results[i].error)
  {
    if n > i + 1 {
      CollectStopsAt(results, i, n - 1);
    }
  }

  const AwaitingReview: string := "awaiting_review"
  const InReview: string := "in_review"
  const NeedsAttention: string := "needs_attention"
  const Cleared: string := "cleared"

  /** `ALLOWED_STATUSES`. */
  const AllowedStatuses: set<string> := {AwaitingReview, InReview, NeedsAttention, Cleared}

  /**
    One `InventoryItem`. `score` is a Python float, modelled as a real (the
    only arithmetic on it anywhere in the core is comparison); `classLabel`
    is the `label` field.
   */
  datatype Item = Item(
    id: string,
    name: string,
    status: string,
    owner: string,
    createdAt: real,
    imagePath: string,
    notes: string,
    score: Option<real>,
    classLabel: Option<int>)

  /**
    `ensure_valid_status`: a missing or blank value defaults to
    `awaiting_review`; otherwise the stripped value must be allowed.
   */
  function EnsureValidStatus(value: Option<string>): (r: Result<string>)
    ensures r.Success? ==> r.value in AllowedStatuses
    ensures r.Failure? ==> r.error.statusCode == 400
  {
    match value
    case None => Success(AwaitingReview)
    case Some(v) =>
      var candidate := Trim(v);
      if candidate == "" then Success(AwaitingReview)
      else if candidate in AllowedStatuses then Success(candidate)
      else Failure(HttpError(400, "Status '" + v + "' is not allowed."))
  }

  /**
    A missing or blank status becomes `awaiting_review`; a non-blank one is
    accepted exactly when its stripped text is allowed, and is then stored
    stripped.
   */
  lemma EnsureValidStatusSpec(value: Option<string>)
    ensures var r := EnsureValidStatus(value);
            && ((value.None? || Trim(value.value) == "") ==> r == Success(AwaitingReview))
            && (value.Some? && Trim(value.value) != "" ==>
                  (r.Success? <==> Trim(value.value) in AllowedStatuses))
            && (r.Success? && value.Some? && Trim(value.value) != "" ==> r.value == Trim(value.value))
  {
  }

  /** Every allowed status is accepted unchanged. */
  lemma EnsureValidStatusAcceptsAllowed(s: string)
    requires s in AllowedStatuses
    ensures EnsureValidStatus(Some(s)) == Success(s)
  {
    TrimOfTrimmed(s);
  }

  /** Validating a status that was already validated returns it unchanged. */
  lemma EnsureValidStatusIdempotent(value: Option<string>)
    requires EnsureValidStatus(value).Success?
    ensures EnsureValidStatus(Some(EnsureValidStatus(value).value)) == EnsureValidStatus(value)
  {
    EnsureValidStatusAcceptsAllowed(EnsureValidStatus(value).value);
  }

  /** No two records share an id. */
  predicate UniqueIds(items: seq<Item>) {
    forall i, j :: 0 <= i < j < |items| ==> items[i].id != items[j].id
  }

  /** A record as every writer of the inventory produces it. */
  predicate WellFormedItem(item: Item) {
    && item.status in AllowedStatuses
    && (item.score.Some? <==> item.classLabel.Some?)
  }

  /** The inventory invariant: unique ids and well-formed records. */
  predicate WellFormed(items: seq<Item>) {
    && UniqueIds(items)
    && forall k :: 0 <= k < |items| ==> WellFormedItem(items[k])
  }

  /** The ids of `items`, in order. */
  function Ids(items: seq<Item>): (r: seq<string>)
    ensures |r| == |items|
    ensures forall k :: 0 <= k < |items| ==> r[k] == items[k].id
  {
    seq(|items|, k requires 0 <= k < |items| => items[k].id)
  }
}
