/**
  Classification of stored records: `classify_inventory_item` for one record
  and the loop of `classify_inventory` over the whole list. The image file
  and the network behind them are an oracle that, for each record, either
  yields a score and a label, or reports that the stored image is missing,
  or fails in some other way.
 */
module Classification {
  import opened Records

  /** What looking up and classifying a record's stored image gives. */
  datatype ClassifierOutcome =
    | Scored(score: real, classLabel: int)   // softmax probability of "defect" and the argmax class
    | ImageMissing(imageFile: string)        // the file under the images directory does not exist
    | Unreadable(detail: string)             // any other exception (for instance a corrupt image)

  /** What `classify_inventory_item` returns or raises. */
  datatype ItemClassification =
    | Classified(item: Item)
    | FileNotFound(message: string)
    | Crashed(detail: string)

  /** The status a label gives: `needs_attention` for label 1, `cleared` otherwise. */
  function StatusForLabel(classLabel: int): (r: string)
    ensures r in AllowedStatuses
    ensures r == NeedsAttention <==> classLabel == 1
    ensures classLabel != 1 ==> r == Cleared
  {
    if classLabel == 1 then NeedsAttention else Cleared
  }

  /** The message of the `FileNotFoundError` for record `id`. */
  function MissingImageMessage(id: string, imageFile: string): string {
    "Stored image missing for item " + id + ": " + imageFile
  }

  /** The notes a record gets when its image is missing. */
  function MissingImageNotes(id: string, imageFile: string): string {
    "Missing image: " + MissingImageMessage(id, imageFile)
  }

  /**
    `classify_inventory_item`: a missing image raises `FileNotFoundError`;
    otherwise the record gets the score, the label and the status for the label.
   */
  function ClassifyInventoryItem(item: Item, outcome: ClassifierOutcome): (r: ItemClassification)
    ensures r.Classified? <==> outcome.Scored?
    ensures r.FileNotFound? <==> outcome.ImageMissing?
    ensures r.Classified? ==>
              && r.item.id == item.id && r.item.notes == item.notes
              && r.item.score.Some? && r.item.classLabel.Some? && r.item.status in AllowedStatuses
    ensures r.Classified? ==>
              && r.item.score == Some(outcome.score) && r.item.classLabel == Some(outcome.classLabel)
              && r.item.status == StatusForLabel(outcome.classLabel)
              && r.item.name == item.name && r.item.owner == item.owner
              && r.item.createdAt == item.createdAt && r.item.imagePath == item.imagePath
    ensures r.FileNotFound? ==> r.message == MissingImageMessage(item.id, outcome.imageFile)
  {
    match outcome
    case ImageMissing(imageFile) =>
      FileNotFound(MissingImageMessage(item.id, imageFile))
    case Unreadable(detail) => Crashed(detail)
    case Scored(score, classLabel) =>
      Classified(item.(score := Some(score), classLabel := Some(classLabel),
                       status := StatusForLabel(classLabel)))
  }

  const InternalError: HttpError := HttpError(500, "Internal Server Error")

  /**
    One pass of the `classify_inventory` loop: a missing image keeps the record
    but overwrites its notes; any other failure escapes the handler as a 500.
   */
  function ClassifyStep(item: Item, outcome: ClassifierOutcome): (r: Result<Item>)
    ensures r.Failure? <==> outcome.Unreadable?
    ensures r.Success? ==>
              && r.value.id == item.id && r.value.name == item.name && r.value.owner == item.owner
              && r.value.createdAt == item.createdAt && r.value.imagePath == item.imagePath
    ensures outcome.Scored? ==>
              && r.Success? && r.value.notes == item.notes
              && r.value.score == Some(outcome.score) && r.value.classLabel == Some(outcome.classLabel)
              && (r.value.status == NeedsAttention <==> outcome.classLabel == 1)
              && r.value.status in {NeedsAttention, Cleared}
    ensures outcome.ImageMissing? ==>
              && r.Success? && r.value.score == item.score && r.value.classLabel == item.classLabel
              && r.value.status == item.status
              && r.value.notes == MissingImageNotes(item.id, outcome.imageFile)
  {
    match ClassifyInventoryItem(item, outcome)
    case Classified(updated) => Success(updated)
    case FileNotFound(message) => Success(item.(notes := "Missing image: " + message))
    case Crashed(_) => Failure(InternalError)
  }

  /** The outcome of each record's step taken alone. */
  function Steps(items: seq<Item>, classifier: Item -> ClassifierOutcome): (r: seq<Result<Item>>)
    ensures |r| == |items|
  {
    seq(|items|, k requires 0 <= k < |items| => ClassifyStep(items[k], classifier(items[k])))
  }

  /** Step k is the step of record k. */
  lemma StepAt(items: seq<Item>, classifier: Item -> ClassifierOutcome, k: nat)
    requires k < |items|
    ensures Steps(items, classifier)[k] == ClassifyStep(items[k], classifier(items[k]))
  {
  }

  /**
    The list `classify_inventory` saves after handling the first `n` records,
    or the failure that aborts it. Defined by the number of records handled so
    far, as the loop proceeds.
   */
  function ClassifiedAll(items: seq<Item>, classifier: Item -> ClassifierOutcome, n: nat): Result<seq<Item>>
    requires n <= |items|
  {
    Collect(Steps(items, classifier), n)
  }

  /** No record among the first `n` makes the classifier fail. */
  predicate AllReadable(items: seq<Item>, classifier: Item -> ClassifierOutcome, n: nat)
    requires n <= |items|
  {
    forall k :: 0 <= k < n ==> !classifier(items[k]).Unreadable?
  }

  /**
    The classification run fails exactly when some record's image cannot be
    read, and then with a 500; otherwise every record, in order, is the
    result of one step.
   */
  lemma ClassifiedAllSpec(items: seq<Item>, classifier: Item -> ClassifierOutcome, n: nat)
    requires n <= |items|
    ensures ClassifiedAll(items, classifier, n).Success? <==> AllReadable(items, classifier, n)
    ensures ClassifiedAll(items, classifier, n).Failure? ==> ClassifiedAll(items, classifier, n).error == InternalError
    ensures ClassifiedAll(items, classifier, n).Success? ==>
              var done := ClassifiedAll(items, classifier, n).value;
              && |done| == n
              && forall k :: 0 <= k < n ==>
                   ClassifyStep(items[k], classifier(items[k])).Success?
                   && done[k] == ClassifyStep(items[k], classifier(items[k])).value
  {
    var steps := Steps(items, classifier);
    forall k | 0 <= k < n ensures steps[k] == ClassifyStep(items[k], classifier(items[k])) {
      StepAt(items, classifier, k);
    }
    CollectSucceeds(steps, n);
    if Collect(steps, n).Success? {
      CollectValues(steps, n);
    } else {
      CollectFirstError(steps, n);
    }
  }

  /** One step keeps a record's id and its well-formedness. */
  lemma ClassifyStepKeepsWellFormed(item: Item, outcome: ClassifierOutcome)
    requires WellFormedItem(item) && ClassifyStep(item, outcome).Success?
    ensures ClassifyStep(item, outcome).value.id == item.id
    ensures WellFormedItem(ClassifyStep(item, outcome).value)
  {
  }

  /**
    A successful classification run keeps the inventory invariant: the ids are
    untouched, a classified record gets a score and a label together, and its
    status is one of the allowed ones.
   */
  lemma ClassifiedAllPreservesWellFormed(items: seq<Item>, classifier: Item -> ClassifierOutcome)
    requires WellFormed(items) && ClassifiedAll(items, classifier, |items|).Success?
    ensures WellFormed(ClassifiedAll(items, classifier, |items|).value)
  {
    ClassifiedAllSpec(items, classifier, |items|);
    var done := ClassifiedAll(items, classifier, |items|).value;
    forall k | 0 <= k < |done| ensures done[k].id == items[k].id && WellFormedItem(done[k]) {
      ClassifyStepKeepsWellFormed(items[k], classifier(items[k]));
    }
    forall i, j | 0 <= i < j < |done| ensures done[i].id != done[j].id {
      assert items[i].id != items[j].id;
    }
  }
}
