/**
  The inventory endpoints over the stored list. The JSON file behind
  `load_inventory`/`save_inventory` is the field `items` of an
  `InventoryStore`: loading reads the field, saving assigns it. Each
  endpoint loads the list, runs the loop of the handler over it, and saves
  only when the handler reaches `save_inventory`; an error raised before that
  leaves the store as it was.
 */
module Service {
  import opened Text
  import opened Records
  import opened Updates
  import opened Insights
  import opened Intake
  import opened Classification

  class InventoryStore {
    /** The records in the inventory file, in file order. */
    var items: seq<Item>

    constructor(saved: seq<Item>)
      ensures items == saved
    {
      items := saved;
    }

    /**
      `upload_inventory`: each entry gets the next fresh id of `newIds` and
      the next time of `clock`; the first rejected entry raises and nothing is
      saved. With fresh ids the inventory invariant is kept.
     */
    method UploadInventory(entries: seq<UploadEntry>, newIds: seq<string>, clock: seq<real>,
                           isValidBase64: string -> bool) returns (r: Result<seq<Item>>)
      requires |newIds| == |entries| && |clock| == |entries|
      modifies this
      ensures r == UploadResult(old(items), entries, newIds, clock, isValidBase64)
      ensures items == if r.Success? then r.value else old(items)
      ensures r.Success? && WellFormed(old(items)) && FreshIds(newIds, old(items)) ==> WellFormed(items)
    {
      var loaded := items;
      ghost var attempts := Attempts(entries, newIds, clock, isValidBase64);
      var acc := loaded;
      var i := 0;
      while i < |entries|
        invariant 0 <= i <= |entries|
        invariant items == loaded
        invariant Collect(attempts, i).Success?
        invariant acc == loaded + Collect(attempts, i).value
      {
        var record := NewRecord(entries[i], newIds[i], clock[i], isValidBase64);
        AttemptAt(entries, newIds, clock, isValidBase64, i);
        if record.Failure? {
          CollectStopsAt(attempts, i, |entries|);
          return Failure(record.error);
        }
        CollectNext(attempts, i);
        acc := acc + [record.value];
        i := i + 1;
      }
      items := acc;
      r := Success(acc);
      UploadAppends(loaded, entries, newIds, clock, isValidBase64);
    }

    /**
      `classify_inventory`: every record goes through the classifier in
      order; a missing image is noted on the record, any other failure
      escapes as a 500 before anything is saved.
     */
    method ClassifyInventory(classifier: Item -> ClassifierOutcome) returns (r: Result<seq<Item>>)
      modifies this
      ensures r == ClassifiedAll(old(items), classifier, |old(items)|)
      ensures items == if r.Success? then r.value else old(items)
      ensures r.Success? && WellFormed(old(items)) ==> WellFormed(items)
    {
      var loaded := items;
      ghost var steps := Steps(loaded, classifier);
      var updated: seq<Item> := [];
      var i := 0;
      while i < |loaded|
        invariant 0 <= i <= |loaded|
        invariant items == loaded
        invariant Collect(steps, i) == Success(updated)
      {
        var updatedItem := ClassifyStep(loaded[i], classifier(loaded[i]));
        StepAt(loaded, classifier, i);
        if updatedItem.Failure? {
          CollectStopsAt(steps, i, |loaded|);
          return Failure(updatedItem.error);
        }
        CollectNext(steps, i);
        updated := updated + [updatedItem.value];
        i := i + 1;
      }
      items := updated;
      r := Success(updated);
      if WellFormed(loaded) {
        ClassifiedAllPreservesWellFormed(loaded, classifier);
      }
    }

    /**
      `update_inventory_item`: the record with `itemId` is patched and the
      patched record is returned; a rejected status or an unknown id raises
      and nothing is saved. Of several records with the id, the last one
      patched is returned.
     */
    method UpdateInventoryItem(itemId: string, payload: UpdateRequest) returns (r: Result<Item>)
      modifies this
      ensures r.Success? <==> UpdateItemResult(old(items), itemId, payload).Success?
      ensures r.Failure? ==> r.error == UpdateItemResult(old(items), itemId, payload).error
      ensures r.Failure? ==> items == old(items)
      ensures r.Success? ==> items == UpdateItemResult(old(items), itemId, payload).value
      ensures r.Success? ==>
                itemId in Index(old(items)) && r.value == Patched(Index(old(items))[itemId], payload)
      ensures r.Success? && WellFormed(old(items)) ==> WellFormed(items)
    {
      var loaded := items;
      var updatedItem: Option<Item> := None;
      var nextItems: seq<Item> := [];
      var i := 0;
      while i < |loaded|
        invariant 0 <= i <= |loaded|
        invariant items == loaded
        invariant UpdatedWhere(loaded[..i], {itemId}, payload) == Success(nextItems)
        invariant updatedItem.None? <==> itemId !in Ids(loaded[..i])
        invariant updatedItem.Some? ==>
                    itemId in Index(loaded[..i]) && updatedItem.value == Patched(Index(loaded[..i])[itemId], payload)
      {
        var item := loaded[i];
        assert loaded[..i + 1][..i] == loaded[..i];
        assert Ids(loaded[..i + 1]) == Ids(loaded[..i]) + [item.id];
        if item.id == itemId {
          var patched := ApplyUpdates(item, payload);
          if patched.Failure? {
            UpdatedWhereFails(loaded, {itemId}, payload);
            assert AnyTargeted(loaded, {itemId}) by {
              assert loaded[i].id in {itemId};
            }
            return Failure(patched.error);
          }
          updatedItem := Some(patched.value);
          nextItems := nextItems + [patched.value];
        } else {
          nextItems := nextItems + [item];
        }
        i := i + 1;
      }
      assert loaded[..i] == loaded;
      UpdateItemOutcome(loaded, itemId, payload);
      if updatedItem.None? {
        return Failure(HttpError(404, ItemNotFoundDetail));
      }
      items := nextItems;
      r := Success(updatedItem.value);
      if WellFormed(loaded) {
        UpdatedWherePreservesWellFormed(loaded, {itemId}, payload);
      }
    }

    /**
      `batch_update_inventory`: every record whose id was requested is
      patched with the same request; an empty id list, a list matching no
      record, or a rejected status raises and nothing is saved.
     */
    method BatchUpdateInventory(itemIds: seq<string>, payload: UpdateRequest) returns (r: Result<seq<Item>>)
      modifies this
      ensures r == BatchUpdateResult(old(items), itemIds, payload)
      ensures items == if r.Success? then r.value else old(items)
      ensures r.Success? && WellFormed(old(items)) ==> WellFormed(items)
    {
      var targets := ToSet(itemIds);
      if targets == {} {
        return Failure(HttpError(400, "item_ids cannot be empty"));
      }
      var loaded := items;
      var touched := false;
      var nextItems: seq<Item> := [];
      var i := 0;
      while i < |loaded|
        invariant 0 <= i <= |loaded|
        invariant items == loaded
        invariant UpdatedWhere(loaded[..i], targets, payload) == Success(nextItems)
        invariant touched <==> AnyTargeted(loaded[..i], targets)
      {
        var item := loaded[i];
        assert loaded[..i + 1][..i] == loaded[..i];
        assert AnyTargeted(loaded[..i + 1], targets) <==> AnyTargeted(loaded[..i], targets) || item.id in targets by {
          if AnyTargeted(loaded[..i + 1], targets) && item.id !in targets {
            var k :| 0 <= k < i + 1 && loaded[..i + 1][k].id in targets;
            assert loaded[..i][k] == loaded[k];
          }
          if AnyTargeted(loaded[..i], targets) {
            var k :| 0 <= k < i && loaded[..i][k].id in targets;
            assert loaded[..i + 1][k] == loaded[k];
          }
          if item.id in targets {
            assert loaded[..i + 1][i] == item;
          }
        }
        if item.id in targets {
          touched := true;
          var patched := ApplyUpdates(item, payload);
          if patched.Failure? {
            UpdatedWhereFails(loaded, targets, payload);
            assert AnyTargeted(loaded, targets) by {
              assert loaded[i].id in targets;
            }
            return Failure(patched.error);
          }
          nextItems := nextItems + [patched.value];
        } else {
          nextItems := nextItems + [item];
        }
        i := i + 1;
      }
      assert loaded[..i] == loaded;
      if !touched {
        return Failure(HttpError(404, "No matching items found"));
      }
      items := nextItems;
      r := Success(nextItems);
      if WellFormed(loaded) {
        UpdatedWherePreservesWellFormed(loaded, targets, payload);
      }
    }

    /**
      `ai_insights`: the requested ids are visited once each, in the
      unspecified order of a Python set; each one either yields the insight
      of the stored record the lookup table gives for it, or goes to
      `missing`. Nothing is saved.
     */
    method AiInsights(itemIds: seq<string>, round3: real -> real) returns (insights: seq<Insight>, missing: seq<string>)
      ensures InsightsPartition(ToSet(itemIds), Index(items), round3, insights, missing)
    {
      var targets := ToSet(itemIds);
      var loaded := items;
      var lookup := Index(loaded);
      insights := [];
      missing := [];
      var rest := targets;
      while rest != {}
        invariant rest <= targets
        invariant multiset(InsightIds(insights)) + multiset(missing) + multiset(rest) == multiset(targets)
        invariant forall k :: 0 <= k < |insights| ==>
                    insights[k].itemId in lookup && insights[k] == BuildAiInsight(lookup[insights[k].itemId], round3)
        invariant forall id :: id in missing ==> id !in lookup
        decreases |rest|
      {
        var itemId :| itemId in rest;
        MultisetTakeOne(rest, itemId);
        if itemId !in lookup {
          missing := missing + [itemId];
        } else {
          var insight := BuildAiInsight(lookup[itemId], round3);
          InsightIdsSnoc(insights, insight);
          insights := insights + [insight];
        }
        rest := rest - {itemId};
      }
    }
  }
}
