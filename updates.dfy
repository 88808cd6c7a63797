/**
  Partial updates of inventory records: `apply_updates` on one record, the
  list rewrite shared by the single-item patch and the batch update, and the
  outcome of `batch_update_inventory`.
 */
module Updates {
  import opened Text
  import opened Records

  /**
    `InventoryUpdateRequest`: every field is optional; `appendNotes` is the
    `append_notes` flag. The batch request carries the same fields.
   */
  datatype UpdateRequest = UpdateRequest(
    name: Option<string>,
    status: Option<string>,
    notes: Option<string>,
    owner: Option<string>,
    appendNotes: bool)

  /** A request with every field absent. */
  function NoChange(appendNotes: bool): UpdateRequest {
    UpdateRequest(None, None, None, None, appendNotes)
  }

  /** The request carries a status that is non-blank once stripped and is not allowed. */
  predicate StatusRejected(p: UpdateRequest) {
    p.status.Some? && Trim(p.status.value) != "" && Trim(p.status.value) !in AllowedStatuses
  }

  /** The error `apply_updates` raises for a rejected status. */
  function StatusError(p: UpdateRequest): HttpError
    requires StatusRejected(p)
  {
    HttpError(400, "Status '" + Trim(p.status.value) + "' is not allowed.")
  }

  /** The `name` update: stripped, and ignored when absent or blank. */
  function NewName(current: string, requested: Option<string>): string {
    match requested
    case None => current
    case Some(n) => if Trim(n) != "" then Trim(n) else current
  }

  /** The `status` update: stripped, and ignored when absent or blank. */
  function NewStatus(current: string, requested: Option<string>): string {
    match requested
    case None => current
    case Some(s) => if Trim(s) != "" then Trim(s) else current
  }

  /** The `owner` update: stripped, and stored even when that leaves it empty. */
  function NewOwner(current: string, requested: Option<string>): string {
    match requested
    case None => current
    case Some(o) => Trim(o)
  }

  /**
    The `notes` update. With `append` and non-empty existing notes, a non-blank
    stripped text is added after a newline and a blank one keeps the notes; in
    every other case the notes become the stripped text.
   */
  function NewNotes(existing: string, incoming: Option<string>, append: bool): string {
    match incoming
    case None => existing
    case Some(n) =>
      if append && existing != "" then
        (if Trim(n) != "" then existing + "\n" + Trim(n) else existing)
      else Trim(n)
  }

  /** The record `apply_updates` returns when the status is acceptable. */
  function Patched(item: Item, p: UpdateRequest): (r: Item)
    ensures r.id == item.id && r.createdAt == item.createdAt && r.imagePath == item.imagePath
    ensures r.score == item.score && r.classLabel == item.classLabel
    ensures !StatusRejected(p) && item.status in AllowedStatuses ==> r.status in AllowedStatuses
    ensures p.name.None? || Trim(p.name.value) == "" ==> r.name == item.name
    ensures p.name.Some? && Trim(p.name.value) != "" ==> r.name == Trim(p.name.value)
    ensures p.status.None? || Trim(p.status.value) == "" ==> r.status == item.status
    ensures p.status.Some? && Trim(p.status.value) != "" ==> r.status == Trim(p.status.value)
    ensures p.owner.None? ==> r.owner == item.owner
    ensures p.owner.Some? ==> r.owner == Trim(p.owner.value)
    ensures p.notes.None? ==> r.notes == item.notes
    ensures p.notes.Some? && !(p.appendNotes && item.notes != "") ==> r.notes == Trim(p.notes.value)
    ensures p.notes.Some? && p.appendNotes && item.notes != "" ==>
              r.notes == if Trim(p.notes.value) == "" then item.notes else item.notes + "\n" + Trim(p.notes.value)
  {
    item.(name := NewName(item.name, p.name),
          status := NewStatus(item.status, p.status),
          owner := NewOwner(item.owner, p.owner),
          notes := NewNotes(item.notes, p.notes, p.appendNotes))
  }

  /** What `apply_updates(item, payload)` returns or raises. */
  function Updated(item: Item, p: UpdateRequest): (r: Result<Item>)
    ensures r.Failure? <==> StatusRejected(p)
    ensures r.Failure? ==> r.error.statusCode == 400
    ensures r.Success? ==> r.value.id == item.id && r.value.createdAt == item.createdAt
    ensures r.Success? ==> r.value.imagePath == item.imagePath
    ensures r.Success? ==> r.value.score == item.score && r.value.classLabel == item.classLabel
    ensures r.Success? ==> r.value == Patched(item, p)
  {
    if StatusRejected(p) then Failure(StatusError(p)) else Success(Patched(item, p))
  }

  /**
    `apply_updates`: copy the record, then handle name, status, owner and
    notes in turn; an unacceptable status raises before anything is returned.
   */
  method ApplyUpdates(item: Item, payload: UpdateRequest) returns (r: Result<Item>)
    ensures r == Updated(item, payload)
  {
    var data := item;
    if payload.name.Some? {
      var candidate := Trim(payload.name.value);
      if candidate != "" {
        data := data.(name := candidate);
      }
    }
    assert data == item.(name := NewName(item.name, payload.name));
    if payload.status.Some? {
      var trimmedStatus := Trim(payload.status.value);
      if trimmedStatus != "" {
        var checked := EnsureValidStatus(Some(trimmedStatus));
        TrimIdempotent(payload.status.value);
        if checked.Failure? {
          return Failure(checked.error);
        }
        data := data.(status := checked.value);
      }
    }
    assert !StatusRejected(payload);
    assert data == item.(name := NewName(item.name, payload.name),
                         status := NewStatus(item.status, payload.status));
    if payload.owner.Some? {
      data := data.(owner := Trim(payload.owner.value));
    }
    assert data == item.(name := NewName(item.name, payload.name),
                         status := NewStatus(item.status, payload.status),
                         owner := NewOwner(item.owner, payload.owner));
    if payload.notes.Some? {
      var existing := data.notes;
      var incoming := Trim(payload.notes.value);
      if payload.appendNotes && existing != "" {
        data := data.(notes := if incoming != "" then existing + "\n" + incoming else existing);
      } else {
        data := data.(notes := incoming);
      }
    }
    return Success(data);
  }

  /** A request with no fields returns the record unchanged. */
  lemma NoChangeIsIdentity(item: Item, appendNotes: bool)
    ensures Updated(item, NoChange(appendNotes)) == Success(item)
  {
  }

  /**
    Whether an update fails depends on the request alone, never on the record:
    so in a list either every targeted record can be updated or none can.
   */
  lemma UpdateFailureIgnoresItem(a: Item, b: Item, p: UpdateRequest)
    ensures Updated(a, p).Failure? == Updated(b, p).Failure?
    ensures Updated(a, p).Failure? ==> Updated(a, p).error == Updated(b, p).error
  {
  }

  /**
    Without append, or with empty existing notes, the notes become exactly
    the stripped incoming text and the old notes are forgotten.
   */
  lemma ReplaceNotesForgets(existing: string, incoming: string, append: bool)
    ensures NewNotes(existing, Some(incoming), false) == Trim(incoming)
    ensures NewNotes("", Some(incoming), append) == Trim(incoming)
  {
  }

  /**
    Appending to non-empty notes: a blank incoming text keeps the notes, a
    non-blank one is added after a newline, stripped.
   */
  lemma AppendNotesExtends(existing: string, incoming: string)
    requires existing != ""
    ensures NewNotes(existing, Some(incoming), true)
         == if Trim(incoming) == "" then existing else existing + "\n" + Trim(incoming)
    ensures var r := NewNotes(existing, Some(incoming), true);
            |existing| <= |r| && r[..|existing|] == existing
  {
  }

  /** Two appends in a row keep both texts, in order, each after a newline. */
  lemma AppendNotesTwice(existing: string, first: string, second: string)
    requires existing != "" && Trim(first) != "" && Trim(second) != ""
    ensures NewNotes(NewNotes(existing, Some(first), true), Some(second), true)
         == existing + "\n" + Trim(first) + "\n" + Trim(second)
  {
  }

  /**
    Without note appending, applying the same request twice gives what applying
    it once gave: every stored value is already stripped.
   */
  lemma UpdateIdempotent(item: Item, p: UpdateRequest)
    requires !p.appendNotes && Updated(item, p).Success?
    ensures Updated(Updated(item, p).value, p) == Updated(item, p)
  {
    if p.name.Some? { TrimIdempotent(p.name.value); }
    if p.status.Some? { TrimIdempotent(p.status.value); }
    if p.owner.Some? { TrimIdempotent(p.owner.value); }
    if p.notes.Some? { TrimIdempotent(p.notes.value); }
  }

  /** Some record of `items` has an id in `targets`. */
  predicate AnyTargeted(items: seq<Item>, targets: set<string>) {
    exists k :: 0 <= k < |items| && items[k].id in targets
  }

  /**
    The list the patch loops build: every record whose id is in `targets`
    goes through `apply_updates`, the others are kept; the first failure
    aborts. Defined on the last record so that it follows a loop's prefix.
   */
  function UpdatedWhere(items: seq<Item>, targets: set<string>, p: UpdateRequest): Result<seq<Item>>
    decreases |items|
  {
    if items == [] then Success([])
    else
      var last := items[|items| - 1];
      match UpdatedWhere(items[..|items| - 1], targets, p)
      case Failure(e) => Failure(e)
      case Success(prefix) =>
        if last.id in targets then
          match Updated(last, p)
          case Failure(e) => Failure(e)
          case Success(u) => Success(prefix + [u])
        else Success(prefix + [last])
  }

  /** The list rewrite fails exactly when a record is targeted and the status is rejected. */
  lemma {:induction false} UpdatedWhereFails(items: seq<Item>, targets: set<string>, p: UpdateRequest)
    ensures UpdatedWhere(items, targets, p).Failure? <==> AnyTargeted(items, targets) && StatusRejected(p)
    ensures UpdatedWhere(items, targets, p).Failure? ==> UpdatedWhere(items, targets, p).error == StatusError(p)
    decreases |items|
  {
    if items != [] {
      var init := items[..|items| - 1];
      var last := items[|items| - 1];
      UpdatedWhereFails(init, targets, p);
      assert AnyTargeted(items, targets) <==> AnyTargeted(init, targets) || last.id in targets by {
        if AnyTargeted(init, targets) {
          var k :| 0 <= k < |init| && init[k].id in targets;
          assert items[k] == init[k];
        }
        if AnyTargeted(items, targets) && last.id !in targets {
          var k :| 0 <= k < |items| && items[k].id in targets;
          assert init[k] == items[k];
        }
      }
    }
  }

  /**
    When it succeeds, the list rewrite keeps length and order, patches each
    targeted record and leaves every other record identical.
   */
  lemma {:induction false} UpdatedWhereSpec(items: seq<Item>, targets: set<string>, p: UpdateRequest)
    requires UpdatedWhere(items, targets, p).Success?
    ensures var next := UpdatedWhere(items, targets, p).value;
            && |next| == |items|
            && forall k :: 0 <= k < |items| ==>
                 next[k] == if items[k].id in targets then Patched(items[k], p) else items[k]
    decreases |items|
  {
    if items != [] {
      var init := items[..|items| - 1];
      var last := items[|items| - 1];
      assert UpdatedWhere(init, targets, p).Success?;
      UpdatedWhereSpec(init, targets, p);
      var prefix := UpdatedWhere(init, targets, p).value;
      var u := if last.id in targets then Patched(last, p) else last;
      assert UpdatedWhere(items, targets, p).value == prefix + [u];
    }
  }

  /** The list rewrite keeps the inventory invariant. */
  lemma UpdatedWherePreservesWellFormed(items: seq<Item>, targets: set<string>, p: UpdateRequest)
    requires WellFormed(items) && UpdatedWhere(items, targets, p).Success?
    ensures WellFormed(UpdatedWhere(items, targets, p).value)
  {
    UpdatedWhereFails(items, targets, p);
    UpdatedWhereSpec(items, targets, p);
    var next := UpdatedWhere(items, targets, p).value;
    assert forall k :: 0 <= k < |items| ==> next[k].id == items[k].id;
    forall k | 0 <= k < |next| ensures WellFormedItem(next[k]) {
      assert WellFormedItem(items[k]);
    }
  }

  /** Without note appending, repeating a batch of updates changes nothing more. */
  lemma UpdatedWhereIdempotent(items: seq<Item>, targets: set<string>, p: UpdateRequest)
    requires !p.appendNotes && UpdatedWhere(items, targets, p).Success?
    ensures UpdatedWhere(UpdatedWhere(items, targets, p).value, targets, p) == UpdatedWhere(items, targets, p)
  {
    var next := UpdatedWhere(items, targets, p).value;
    UpdatedWhereFails(items, targets, p);
    UpdatedWhereSpec(items, targets, p);
    UpdatedWhereFails(next, targets, p);
    UpdatedWhereSpec(next, targets, p);
    var again := UpdatedWhere(next, targets, p).value;
    forall k | 0 <= k < |items| ensures again[k] == next[k] {
      if items[k].id in targets {
        UpdateIdempotent(items[k], p);
      }
    }
    assert again == next;
  }

  const ItemNotFoundDetail: string := "Inventory item not found"

  /**
    What `update_inventory_item` saves or raises, given the stored list: the
    list rewrite for the one id, and a 404 when no record carries it.
   */
  function UpdateItemResult(items: seq<Item>, itemId: string, p: UpdateRequest): Result<seq<Item>> {
    match UpdatedWhere(items, {itemId}, p)
    case Failure(e) => Failure(e)
    case Success(next) =>
      if !AnyTargeted(items, {itemId}) then Failure(HttpError(404, ItemNotFoundDetail))
      else Success(next)
  }

  /**
    The outcome of a single-item patch: a 404 when the id is not stored
    (whatever the fields), a 400 when it is stored and the status is rejected;
    otherwise the list keeps its length and order, the record with the id is
    patched and every other record is identical.
   */
  lemma UpdateItemOutcome(items: seq<Item>, itemId: string, p: UpdateRequest)
    ensures var r := UpdateItemResult(items, itemId, p);
            && (itemId !in Ids(items) ==> r == Failure(HttpError(404, ItemNotFoundDetail)))
            && (itemId in Ids(items) && StatusRejected(p) ==> r == Failure(StatusError(p)))
            && (r.Success? <==> itemId in Ids(items) && !StatusRejected(p))
            && (r.Success? ==>
                  && |r.value| == |items|
                  && forall k :: 0 <= k < |items| ==>
                       r.value[k] == if items[k].id == itemId then Patched(items[k], p) else items[k])
  {
    UpdatedWhereFails(items, {itemId}, p);
    if UpdatedWhere(items, {itemId}, p).Success? {
      UpdatedWhereSpec(items, {itemId}, p);
    }
    assert AnyTargeted(items, {itemId}) <==> itemId in Ids(items) by {
      if itemId in Ids(items) {
        var k :| 0 <= k < |items| && Ids(items)[k] == itemId;
        assert items[k].id in {itemId};
      }
    }
  }

  /** `set(payload.item_ids)`. */
  function ToSet(ids: seq<string>): set<string> {
    set id | id in ids
  }

  /** What `batch_update_inventory` returns or raises, given the stored list. */
  function BatchUpdateResult(items: seq<Item>, itemIds: seq<string>, p: UpdateRequest): Result<seq<Item>> {
    var targets := ToSet(itemIds);
    if targets == {} then Failure(HttpError(400, "item_ids cannot be empty"))
    else
      match UpdatedWhere(items, targets, p)
      case Failure(e) => Failure(e)
      case Success(next) =>
        if !AnyTargeted(items, targets) then Failure(HttpError(404, "No matching items found"))
        else Success(next)
  }

  /**
    The outcome of a batch update: an empty id list is a 400; an id list none
    of whose ids is stored is a 404 whatever the fields; a targeted record with
    a rejected status is a 400; otherwise the list keeps its length and order,
    each record whose id was requested is patched, and the rest are unchanged.
   */
  lemma BatchUpdateOutcome(items: seq<Item>, itemIds: seq<string>, p: UpdateRequest)
    ensures var r := BatchUpdateResult(items, itemIds, p);
            && (itemIds == [] ==> r == Failure(HttpError(400, "item_ids cannot be empty")))
            && (itemIds != [] && !AnyTargeted(items, ToSet(itemIds)) ==>
                  r == Failure(HttpError(404, "No matching items found")))
            && (AnyTargeted(items, ToSet(itemIds)) && StatusRejected(p) ==> r == Failure(StatusError(p)))
            && (r.Success? <==> AnyTargeted(items, ToSet(itemIds)) && !StatusRejected(p))
            && (r.Success? ==>
                  && |r.value| == |items|
                  && forall k :: 0 <= k < |items| ==>
                       r.value[k] == if items[k].id in itemIds then Patched(items[k], p) else items[k])
  {
    UpdatedWhereFails(items, ToSet(itemIds), p);
    if UpdatedWhere(items, ToSet(itemIds), p).Success? {
      UpdatedWhereSpec(items, ToSet(itemIds), p);
    }
    if itemIds != [] {
      assert itemIds[0] in ToSet(itemIds);
    }
    if AnyTargeted(items, ToSet(itemIds)) {
      var k :| 0 <= k < |items| && items[k].id in ToSet(itemIds);
    }
  }

  /**
    There is no "no fields to update" check: a request without fields that
    names a stored id succeeds and returns the list unchanged.
   */
  lemma BatchUpdateWithoutFields(items: seq<Item>, itemIds: seq<string>, appendNotes: bool)
    requires AnyTargeted(items, ToSet(itemIds))
    ensures BatchUpdateResult(items, itemIds, NoChange(appendNotes)) == Success(items)
  {
    BatchUpdateOutcome(items, itemIds, NoChange(appendNotes));
    var r := BatchUpdateResult(items, itemIds, NoChange(appendNotes));
    assert r.Success?;
    forall k | 0 <= k < |items| ensures r.value[k] == items[k] {
      assert Patched(items[k], NoChange(appendNotes)) == items[k];
    }
    assert r.value == items;
  }
}
