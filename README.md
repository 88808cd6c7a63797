# Inventory workflow model

A Dafny model of the inventory workflow of the quality-inspection backend
(`backend/main.py`). The backend keeps a list of `InventoryItem` records in
one JSON file. Every endpoint loads that list, rewrites it and either saves
it and returns it, or raises an HTTP error before anything is saved. The
model covers:

- status validation (`ensure_valid_status`) and the status allow-list;
- the partial update of one record (`apply_updates`): name, status, owner
  and the append-or-replace notes rule;
- the single-item patch and the batch update over the stored list;
- the insight heuristic (`build_ai_insight`) and the insights endpoint
  that splits the requested ids into insights and `missing`;
- intake (`upload_inventory`), which appends one record per uploaded entry
  or rejects the whole upload;
- the classification loop (`classify_inventory` with
  `classify_inventory_item`) over an abstract classifier.

Files, one module each:

| file | module | what it holds |
|---|---|---|
| `text.dfy` | `Text` | Python's `str.strip()` and its laws |
| `records.dfy` | `Records` | `Item`, `Option`, `Result`, `HttpError`, `ALLOWED_STATUSES`, `ensure_valid_status`, the inventory invariant, and `Collect`, the "stop at the first raise" shape of the endpoint loops |
| `updates.dfy` | `Updates` | `InventoryUpdateRequest`, `apply_updates`, and the list rewrite shared by the patch and batch endpoints |
| `insights.dfy` | `Insights` | `build_ai_insight`, the id lookup table, and the partition contract of the insights endpoint |
| `intake.dfy` | `Intake` | the record built for one upload entry, and the records of a whole upload |
| `classification.dfy` | `Classification` | `classify_inventory_item` and one step of the classify loop |
| `service.dfy` | `Service` | class `InventoryStore`: the stored list as a field, and the endpoints as methods with their loops |

The JSON file is the field `InventoryStore.items`. `load_inventory` reads
that field and `save_inventory` assigns it. Each endpoint method is proved
against a specification function of the old list (`UploadResult`,
`ClassifiedAll`, `UpdateItemResult`, `BatchUpdateResult`,
`InsightsPartition`). Its `ensures` also states that the store is unchanged
whenever the handler raises. The properties of those functions are proved
as lemmas beside them. Every endpoint also preserves the inventory invariant
`WellFormed`: ids are unique, every status is allowed, and score and label
are either both set or both absent.

Things the code cannot see become parameters:

- `uuid.uuid4()` and `time.time()` are sequences with one value per entry;
- base64 validity is a predicate on the text;
- the classifier is a function from a record to an outcome: a score and a
  label, a missing image file, or any other failure;
- `round(x, 3)` is an abstract function `round3`.

### Behaviour of the handlers worth knowing (the model follows the code)

- Batch update has no "no fields to update" check. A request without fields
  that names a stored id succeeds and changes nothing
  (`BatchUpdateWithoutFields`). The handler's own check raises 400 for an
  empty id list; in the program the request schema already rejects an empty
  list with 422 (backend/main.py:108), so that 400 is shadowed. Unknown ids are
  skipped only while at least one id matches; when none matches the handler
  raises 404.
- Classification only catches a missing image file. The record keeps its
  score, label and status, and its notes are overwritten with
  `"Missing image: ..."`. Any other classifier failure escapes the handler
  (a 500), and nothing is saved, not even the records classified before it.
- The label is the classifier's argmax (the more probable class). The model
  takes the label from the classifier and derives only the status from it:
  `needs_attention` for label 1, `cleared` otherwise.
- Upload takes the status from the entry and validates it: a missing or
  blank one becomes `awaiting_review`, and an invalid one rejects the whole
  upload with 400.
- The insights endpoint iterates `set(item_ids)`. Duplicate ids collapse,
  and the order of the results is unspecified.

## Model

| member | source | states |
|---|---|---|
| `Text.Trim` | backend/main.py:276-287 | `strip()` yields a slice with no whitespace at either end, no longer than the input, and empty exactly when the input is all whitespace |
| `Text.TrimIdempotent` | backend/main.py:276-287 | stripping twice is stripping once, which is why stored names, statuses, owners and notes are stable under a repeated update |
| `Text.TrimIsSlice` | backend/main.py:276-287 | the stripped text is a middle slice of the input, and only whitespace is removed around it |
| `Records.EnsureValidStatus` | backend/main.py:116-123 | the result is either an allowed status or a 400 error |
| `Records.EnsureValidStatusSpec` | backend/main.py:116-123 | a missing or blank value becomes `awaiting_review`; a non-blank value is accepted exactly when its stripped text is allowed, and is then returned stripped |
| `Records.EnsureValidStatusAcceptsAllowed` | backend/main.py:116-123 | every allowed status is accepted unchanged |
| `Records.EnsureValidStatusIdempotent` | backend/main.py:116-123 | re-validating an accepted status returns it again |
| `Records.CollectSucceeds` | backend/main.py:432-462 | a loop that raises on the first bad element succeeds exactly when every element succeeds |
| `Records.CollectValues` | backend/main.py:432-462 | when such a loop succeeds, it yields one value per element, in order, each the value of that element |
| `Records.CollectFirstError` | backend/main.py:432-462 | when such a loop fails, its error is that of the first failing element, and all earlier elements succeeded |
| `Updates.Patched` | backend/main.py:271-292 | the patched record keeps id, creation time, image path, score and label; a name or status is stored stripped unless absent or blank, in which case the old one stays; an owner is stored stripped, even when that leaves it empty; notes follow the append-or-replace rule; an allowed status stays allowed |
| `Updates.Updated` | backend/main.py:271-292 | `apply_updates` raises exactly when the status is non-blank after stripping and not allowed (a 400); otherwise it returns the patched record, so a valid requested status is stored, and it never touches id, creation time, image path, score or label |
| `Updates.ApplyUpdates` | backend/main.py:271-292 | the key-by-key update returns exactly what `Updated` specifies, including the 400 for a rejected status |
| `Updates.NoChangeIsIdentity` | backend/main.py:274-292 | a request whose fields are all absent returns the record unchanged |
| `Updates.UpdateFailureIgnoresItem` | backend/main.py:279-282 | whether an update fails, and with which error, depends on the request alone and not on the record |
| `Updates.ReplaceNotesForgets` | backend/main.py:285-291 | without append, whatever the existing notes, and with empty existing notes, whatever the append flag, the notes become exactly the stripped incoming text |
| `Updates.AppendNotesExtends` | backend/main.py:285-289 | appending to non-empty notes keeps them unchanged when the stripped incoming text is blank, and otherwise yields the notes, a newline and the stripped text; either way the existing notes stay a prefix |
| `Updates.AppendNotesTwice` | backend/main.py:285-289 | two appends keep both texts, in order, each after a newline |
| `Updates.UpdateIdempotent` | backend/main.py:275-291 | without note appending, applying the same request twice gives the same record as applying it once |
| `Updates.UpdatedWhereFails` | backend/main.py:513-518 | rewriting a list fails exactly when some record is targeted and the status is rejected, and then with that 400 |
| `Updates.UpdatedWhereSpec` | backend/main.py:513-518 | a successful rewrite keeps length and order, patches every targeted record and leaves every other record identical |
| `Updates.UpdatedWherePreservesWellFormed` | backend/main.py:513-518 | the rewrite keeps ids unique, statuses allowed, and score and label paired |
| `Updates.UpdatedWhereIdempotent` | backend/main.py:513-518 | without note appending, repeating a batch update changes nothing more |
| `Updates.UpdateItemOutcome` | backend/main.py:485-501 | a single-item patch raises 404 when no record has the id, and 400 when one does and the status is rejected; otherwise it keeps length and order, patches the record with the id and leaves the rest identical |
| `Updates.BatchUpdateOutcome` | backend/main.py:504-524 | batch update raises 400 for an empty id list, 404 when no requested id is stored, and 400 for a rejected status on a targeted record; otherwise it keeps length and order, patches exactly the records whose id was requested and leaves the rest identical |
| `Updates.BatchUpdateWithoutFields` | backend/main.py:504-524 | a batch request without fields that names a stored id succeeds and returns the list unchanged |
| `Insights.BuildAiInsight` | backend/main.py:295-341 | the insight echoes the record's id, name and status; its recommended status is always allowed; its confidence is absent exactly when the score is, and is otherwise the rounded score |
| `Insights.InsightBands` | backend/main.py:298-329 | no score gives `awaiting_review`/low; at least 0.85 gives `needs_attention`/critical/Reliability; at least 0.65 gives `needs_attention`/high/Maintenance; at least 0.45 gives `in_review`/elevated; anything lower gives `cleared`/low; the owner hint falls back to the record's owner as the code does |
| `Insights.InsightMonotone` | backend/main.py:307-329 | a higher score never yields a less urgent priority or a milder recommended status |
| `Insights.Index` | backend/main.py:531 | the lookup table has exactly the stored ids as keys, and each key maps to a record with that id |
| `Insights.IndexLastWins` | backend/main.py:531 | when ids repeat, the table holds the last record carrying the id |
| `Insights.IndexFindsUnique` | backend/main.py:531 | with unique ids, the table finds every stored record by its id |
| `Insights.PartitionPlacesEachId` | backend/main.py:527-541 | every requested id appears exactly once across insights and `missing`; it is in `missing` exactly when it is not in the table; no unrequested id appears |
| `Insights.MissingAgainstStore` | backend/main.py:531-539 | `missing` holds exactly the requested ids that no stored record carries |
| `Insights.InsightFromStoredRecord` | backend/main.py:531-539 | every insight's id is stored, and with unique ids the insight is built from the stored record with that id |
| `Intake.EntryName` | backend/main.py:434 | the name is never empty: an absent or empty name becomes `"Item"`, otherwise the given name is kept |
| `Intake.NewRecordSpec` | backend/main.py:433-461 | an entry is accepted exactly when its image data is non-blank, decodes and has an acceptable status; any rejection is a 400; its record has the fresh id and time, the image path for that id, the default name, the status `ensure_valid_status` returns for the entry (so an allowed one), the entry's owner and notes, and no score or label |
| `Intake.NewRecordsSucceeds` | backend/main.py:432-462 | the records of the first n entries are made exactly when each of those entries is accepted |
| `Intake.NewRecordsValues` | backend/main.py:432-462 | on success there is one record per entry, in entry order |
| `Intake.NewRecordsFirstError` | backend/main.py:432-462 | on failure the error is that of the first rejected entry |
| `Intake.UploadAppends` | backend/main.py:429-465 | a successful upload returns the stored list followed by one record per entry, in order, each with the fresh id, the default name, an allowed status and no score or label; with fresh ids the inventory invariant is kept |
| `Intake.BlankImageRejectsUpload` | backend/main.py:435-436 | one entry with blank image data makes the whole upload fail with 400 |
| `Classification.StatusForLabel` | backend/main.py:366 | the status is allowed; it is `needs_attention` exactly when the label is 1, and `cleared` for every other label |
| `Classification.ClassifyInventoryItem` | backend/main.py:345-367 | the record is classified exactly when the classifier scores it, and `FileNotFoundError` is raised exactly when the image is missing; a classified record gets the classifier's score and label and the status for that label, and keeps its id, name, owner, notes, creation time and image path; the error message names the record's id and the missing file |
| `Classification.ClassifyStep` | backend/main.py:474-480 | a scored record gets that score, that label and the status for that label; a missing image keeps score, label and status and overwrites the notes with `"Missing image: ..."`; any other failure is a 500; the step never changes id, name, owner, creation time or image path |
| `Classification.ClassifiedAllSpec` | backend/main.py:469-482 | the run fails, with a 500, exactly when some record's image cannot be read; otherwise it returns one stepped record per stored record, in order |
| `Classification.ClassifyStepKeepsWellFormed` | backend/main.py:474-480 | one step keeps the record's id and keeps its status allowed and its score and label paired |
| `Classification.ClassifiedAllPreservesWellFormed` | backend/main.py:469-482 | a successful run keeps the inventory invariant |
| `Service.InventoryStore.UploadInventory` | backend/main.py:429-465 | the upload loop returns `UploadResult` of the old list; the store is saved only on success and keeps the invariant with fresh ids |
| `Service.InventoryStore.ClassifyInventory` | backend/main.py:469-482 | the classify loop returns `ClassifiedAll` of the old list; the store is saved only on success and keeps the invariant |
| `Service.InventoryStore.UpdateInventoryItem` | backend/main.py:485-501 | the patch loop fails exactly when `UpdateItemResult` does, with its error, and then leaves the store unchanged; otherwise it saves `UpdateItemResult` and returns the patched record the lookup by id gives |
| `Service.InventoryStore.BatchUpdateInventory` | backend/main.py:504-524 | the batch loop returns `BatchUpdateResult` of the old list; the store is saved only on success and keeps the invariant |
| `Service.InventoryStore.AiInsights` | backend/main.py:527-541 | the insights loop returns a partition of the requested ids into insights built from the lookup table and `missing`, and it never changes the store |

## Left out

- Model loading, checkpoint inspection, preprocessing and the `/api/predict` endpoint (backend/main.py:132-252, 370-419) are not modelled. They are calls into an ML library over floats. The classifier is a parameter returning a score and label, a missing image, or a failure.
- Base64 decoding and image parsing are not modelled. Decode validity is a predicate parameter on the entry's text.
- Disk I/O is not modelled. The JSON file is the store's field. Image files written during an upload that later raises stay on disk in the program; the model does not track image files. The existence check on a stored image is part of the classifier outcome.
- `uuid.uuid4()` and `time.time()` are parameters. Fresh ids are a hypothesis only of the invariant-preservation clauses.
- Insights.BuildAiInsight: `round(score, 3)` is the abstract parameter `round3`, so the contract says nothing about the rounded value beyond it being `round3` of the score.
- Request-schema validation by the web framework is not modelled: the maximum lengths of name, status and owner (backend/main.py:98-101) and the minimum length of the batch-update and insights id lists (backend/main.py:108, 114), each answered with 422 before the handler runs. The model accepts any length; an empty batch-update id list reaches the handler's own 400, and an empty insights request returns two empty lists.
- Upload entries are untyped dictionaries in the program (backend/main.py:92), but the model gives each key a string value or no value. Entries the program treats differently cannot be expressed: a `null` image text fails on `.strip()` with a 500 (the model can only read it as an absent key, a 400); a `null` owner or notes fails record validation with a 500; a falsy non-string status such as `0` becomes `awaiting_review`.
- Scores are Python floats, modelled as reals. The thresholds 0.85, 0.65, 0.45 and 0.6 are compared as exact decimals, while the program compares against the nearest binary floats; a score lying between a decimal threshold and its float can land in a different band in the model.
- `classify_inventory_item` assigns the score, label and status on the loaded record object in place. The model updates a record value instead, because each loaded object belongs to one list slot and no aliasing is observable.
- The order in which Python iterates `set(item_ids)` is not modelled. The loop picks any remaining id, so the contract states the partition and not an order.
- The list endpoint, the health endpoint, routing, CORS, static file mounts, async execution and server start-up are not modelled. They are framework glue, and the list endpoint only reads the stored list.
- Concurrent requests racing on the JSON file are not modelled. Each endpoint is one sequential call.
- `backend/database.py` is not part of this model. Its functions wrap a SQL library whose behaviour is not visible.
