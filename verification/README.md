# Bulk CSV ingestion of the DataPlayground import scripts

This project models the ingestion core of two Node.js scripts of the
DataPlayground repository. Both read CSV files row by row, turn each row into
a JSON document, and send the documents to a search index in bulk requests
of `BULK_SIZE` = 500:

- `air-quality-madrid/import.js` enriches each air-quality reading from a
  table of 24 measuring stations. It skips readings whose station is not in
  the table.
- `dans-ma-rue/import.js` turns every incident report of Paris's
  "DansMaRue" service into a document. It renames the columns and parses
  the location from the `geo_point_2d` column.

The model has seven modules:

- `Wrappers`: the `Option` and `Result` types.
- `Json`: a parsed row, the JavaScript values stored in a document, and
  reading an absent column as `undefined`. `parseFloat`, `parseInt` and
  `toFixed` are kept as unevaluated terms over their argument.
- `Strings`: `indexOf`, `split` and `join` on a separator, with their
  round trips.
- `Batching`: the specification of the per-file buffer. `Chunks` cuts the
  accepted documents into batches of 500, and `CompleteChunks` keeps only
  the full batches.
- `Bulk`: the bulk body built by `insertToElastic`, and two classes.
  - `Sink` stands for the search-index client and the module-level
    counter `totalNumberOfDocuments`. It records every bulk body it
    receives and adds the item count the store reports for it.
  - `Batcher` is the per-file `documents` buffer of the 'data' and 'end'
    handlers.
- `AirQuality` and `DansMaRue`: each script's row transformer, its 'data'
  handler, one file from the first row to the 'end' handler, and a run
  over all the files.

Document fields are an enumeration per script. `Name` gives the key each
field is written under, and `NamesDistinct` shows that distinct fields have
distinct keys.

Two behaviours of the code matter for what is indexed, and the model
follows the code in both:

- **Coordinate order.** The search index reads a `geo_point` given as an
  array as `[longitude, latitude]`. The DansMaRue cell `geo_point_2d` holds
  latitude first (dans-ma-rue/import.js:86), and `split(", ")` keeps that
  order (dans-ma-rue/import.js:104), so the indexed points come out with
  the two coordinates swapped. `DansMaRue.SampleLocation` proves the order
  for the sample cell in the script: latitude stays first.
- **Rows without `geo_point_2d`.** `data["geo_point_2d"]` is then
  `undefined`, and `undefined.split` throws a `TypeError` inside the
  'data' handler. Nothing catches it, so the process ends. In the model:
  - the file stops at that row;
  - its buffer is not flushed;
  - no later file is read.

The bulk header names the script's own index: each script's `Run` creates
the client for its `INDEX_NAME` ("airquality-madrid" or "dansmarue") with
the counter at 0, and then imports every file.

## Model

| member | source | states |
|---|---|---|
| Json.Literals | air-quality-madrid/import.js:107 | a station's literal location becomes an array of the same length whose i-th number is the i-th literal |
| Strings.IndexOf | dans-ma-rue/import.js:104 | the first occurrence of the separator at or after `from`: it occurs there and at no earlier position; none means it does not occur |
| Strings.Split | dans-ma-rue/import.js:104 | `split` always yields at least one piece |
| Strings.JoinSplit | dans-ma-rue/import.js:104 | joining the pieces of `geo_point_2d.split(", ")` with the separator gives back the original cell |
| Strings.SplitPiecesAreFree | dans-ma-rue/import.js:104 | no piece of a split contains the separator |
| Strings.SplitJoin | dans-ma-rue/import.js:104 | splitting on ", " undoes joining with ", " when no piece contains ", ", so the pieces come back in order |
| Strings.NoSpaceIsFree | dans-ma-rue/import.js:86 | a text without spaces, such as each coordinate of the sample cell, cannot contain ", " |
| Batching.ChunksShape | air-quality-madrid/import.js:112-124 | the batches laid end to end are the accepted documents in order; every batch but the last is full and the last holds 1 to 500 |
| Batching.ChunkCount | air-quality-madrid/import.js:115-124 | the number of batches is ceil(n / size), written as (n + size - 1) / size |
| Batching.ChunksUnique | air-quality-madrid/import.js:115-124 | cutting is the only way to get such batches: batches that are well formed are the chunks of their concatenation |
| Batching.ChunksAfterFull | air-quality-madrid/import.js:120-124 | full batches followed by a remainder of at most `size` items are the chunks of everything; an empty remainder adds no batch |
| Batching.CompleteChunks | dans-ma-rue/import.js:106-110 | the batches sent before a stream stops: all full, a prefix of the documents, and fewer than `size` documents left over |
| Batching.CompleteChunksUnique | dans-ma-rue/import.js:106-110 | full batches followed by a short remainder are exactly the complete chunks of their concatenation |
| Bulk.BulkBody | air-quality-madrid/import.js:79-82 | the bulk body of n documents has 2n entries |
| Bulk.BulkBodyAt | air-quality-madrid/import.js:79-82 | position 2i holds the action header for the index with type `_doc`, and position 2i+1 holds `documents[i]` |
| Bulk.SourcesOfBulkBody | dans-ma-rue/import.js:48-51 | a bulk body is well formed, and taking its odd positions gives back the batch |
| Bulk.BulkBodyOfSources | dans-ma-rue/import.js:48-51 | the converse: every well-formed body is the bulk body of its odd positions |
| Bulk.AcknowledgedCountsDocuments | air-quality-madrid/import.js:85 | when the store reports one item per action, the counter's growth over a run of batches is their number of documents |
| Bulk.DeliveredBodies | air-quality-madrid/import.js:78-82 | the bodies of a run of batches carry exactly the batches' documents, each once, in order |
| Bulk.Sink.constructor | air-quality-madrid/import.js:43 | the client starts with no request sent and the counter at 0 |
| Bulk.Sink.InsertToElastic | air-quality-madrid/import.js:78-88 | sends one bulk body built from the batch and adds the store's `items.length` for it to the counter, so the counter never decreases |
| Bulk.Batcher.constructor | air-quality-madrid/import.js:95 | `let documents = []`: an empty buffer, nothing accepted or sent yet |
| Bulk.Batcher.Push | air-quality-madrid/import.js:112 | appends the document to the buffer and to the accepted documents and keeps the buffer invariant |
| Bulk.Batcher.SubmitIfFull | air-quality-madrid/import.js:115-118 | at 500 documents, sends the buffer as one batch and empties it; below that, changes nothing. The buffer stays below 500, every batch sent is full, and sent batches plus buffer are the accepted documents in row order |
| Bulk.Batcher.Flush | air-quality-madrid/import.js:120-124 | sends the remainder only if it is non-empty; afterwards the batches sent for the file are exactly the chunks of its accepted documents, and the client's bodies and counter record them |
| AirQuality.NamesDistinct | air-quality-madrid/import.js:104-110 | the keys "@timestamp", "station", "location" and "CO" are distinct |
| AirQuality.Transform | air-quality-madrid/import.js:101-110 | no document iff the station code is not in the table; otherwise `@timestamp` is the raw date, `station` is "name (code)", `location` is the table's location, and `CO` is present iff the reading is present and non-empty, as `parseFloat` of it |
| AirQuality.MissingStationSkipped | air-quality-madrid/import.js:101-103 | with the script's table, a row without a station column looks up "undefined" and is skipped |
| AirQuality.RawFieldsRoundTrip | air-quality-madrid/import.js:104-110 | the document keeps the row's raw date verbatim, and its CO reading is `parseFloat` applied to the row's CO text, present exactly when that text is non-empty |
| AirQuality.AcceptedLength | air-quality-madrid/import.js:100-113 | a file keeps at most one document per row, and one for every row iff every row's station is in the table |
| AirQuality.OnData | air-quality-madrid/import.js:100-119 | a row with a known station is pushed; one with an unknown station leaves the buffer, the accepted documents and the requests unchanged. Either way the buffer ends below 500 and keeps its invariant |
| AirQuality.FileDelivers | air-quality-madrid/import.js:100-124 | a file's requests carry its accepted documents, each once and in row order: ceil(n / 500) requests, none empty, none above 500 documents |
| AirQuality.CounterCountsAccepted | air-quality-madrid/import.js:85 | when the store reports one item per action, a file adds its number of accepted documents to the counter |
| AirQuality.ImportFile | air-quality-madrid/import.js:93-124 | one file from `let documents = []` to 'end': the client receives the bulk bodies of the chunks of the accepted documents, and the counter grows by what the store acknowledges for them |
| AirQuality.RunDelivers | air-quality-madrid/import.js:90-126 | a run's requests carry the accepted documents of every file, each once, file after file |
| AirQuality.ImportAll | air-quality-madrid/import.js:90-126 | over all files, the client receives each file's requests in turn and the counter sums their acknowledgements |
| AirQuality.Run | air-quality-madrid/import.js:8-126 | the whole script with its 24-entry station table: every request goes to index "airquality-madrid", the requests are those of every file in turn, and the counter, starting at 0, ends at the sum of their acknowledgements |
| DansMaRue.NamesDistinct | dans-ma-rue/import.js:89-105 | the 15 document keys are distinct |
| DansMaRue.Transform | dans-ma-rue/import.js:89-105 | fails with a `TypeError` iff the row has no `geo_point_2d`; otherwise every one of the 15 fields is set |
| DansMaRue.TransformCopied | dans-ma-rue/import.js:90-103 | the 11 copied fields hold their column's raw text verbatim, or undefined when the column is absent |
| DansMaRue.TransformNumbers | dans-ma-rue/import.js:93-101 | `number` and `district` are `parseFloat(...).toFixed()` of NUMERO and ARRONDISSEMENT; `objectId` is `parseInt(OBJECTID, 10)` |
| DansMaRue.TransformLocation | dans-ma-rue/import.js:104 | `location` has one entry per piece of `geo_point_2d` split on ", ", the i-th being `parseFloat` of the i-th piece |
| DansMaRue.GeoNotCopied | dans-ma-rue/import.js:89-104 | `geo_point_2d` is not one of the copied columns |
| DansMaRue.RestoreRoundTrip | dans-ma-rue/import.js:89-105 | the 11 copied columns come back verbatim from a document, and the texts `parseFloat` is applied to in `location` join with ", " back into the `geo_point_2d` cell |
| DansMaRue.SampleLocation | dans-ma-rue/import.js:86 | the sample cell "48.8901979962, 2.33397460323" gives `[parseFloat("48.8901979962"), parseFloat("2.33397460323")]`: latitude stays first |
| DansMaRue.FirstFailure | dans-ma-rue/import.js:104 | the index of the first row without `geo_point_2d`: every earlier row has it and the row at that index does not |
| DansMaRue.DocumentsInOrder | dans-ma-rue/import.js:89-106 | when every row has `geo_point_2d`, every row yields exactly one document, its transform, in row order |
| DansMaRue.FileDelivers | dans-ma-rue/import.js:106-116 | a file read to its end has its requests carry all its documents in order. After a throw, only full requests were sent: they carry a prefix of the earlier rows' documents, and fewer than 500 buffered documents are lost |
| DansMaRue.CounterCountsDelivered | dans-ma-rue/import.js:54 | when the store reports one item per action, a file adds to the counter exactly the number of documents its requests carry |
| DansMaRue.OnData | dans-ma-rue/import.js:69-111 | succeeds iff the row has `geo_point_2d`. On success the document is pushed and the buffer ends below 500; on a throw nothing changes |
| DansMaRue.ImportFile | dans-ma-rue/import.js:62-116 | reports whether the file was read to its end. The client receives the bodies of the chunks of all documents, or after a throw only those of the full batches sent before it; the counter grows by their acknowledgements |
| DansMaRue.AllBodiesSnoc | dans-ma-rue/import.js:62 | while no file has thrown, the next file's requests follow the earlier ones |
| DansMaRue.AllBodiesAfterFailure | dans-ma-rue/import.js:104 | once a file has thrown, no later file adds a request or an acknowledgement |
| DansMaRue.ImportAll | dans-ma-rue/import.js:59-118 | reports whether every file was read to its end; the client receives each file's requests in turn until the first file that throws, and the counter sums their acknowledgements |
| DansMaRue.Run | dans-ma-rue/import.js:8-118 | the whole script: every request goes to index "dansmarue", the requests are those of every file in turn up to the first file that throws, the counter starts at 0 and sums their acknowledgements, and the run succeeds iff no row lacks `geo_point_2d` |

## Left out

- Creating and deleting the index, and its mapping body, with their effects on the run. Deleting an index that does not exist is an error, and `if (err) throw err` (air-quality-madrid/import.js:48, dans-ma-rue/import.js:21) then ends the process, so a first run against an empty store stops there. Listing the data directory (:90 / :59) does not wait for the index to be created (:51 / :24), so bulk requests may reach the store first and create the index without its `geo_point` mapping, after which the creation fails and throws (:73 / :42). The model starts from a store whose index is ready and leaves all three effects out.
- The bulk transport and its errors (`if (err) throw err`). `Sink.itemsFor` stands for the store's `res.items.length` and is a parameter.
- Listing the data directory, reading the files and the `csv-parser` tokenisation: file I/O and a foreign library. Each file is given as a sequence of rows, each a map from column name to text.
- The script starts reading every file at once and bulk replies arrive asynchronously. The model reads the files one after the other and each reply arrives before the next request.
- Float and integer parsing, and `toFixed` rounding, are not evaluated: a number is the term `parseFloat(text)`, `parseInt(text, 10)` or `toFixed` of such a term.
- JSON serialisation of a document: a field whose value is `undefined` is kept in the model as the value `Undefined`, while `JSON.stringify` leaves it out.
- Progress logging (`single-line-log`) and console messages.
- AirQuality.Transform: a station value naming a property every JavaScript object inherits finds that inherited value in `STATIONS`. For "__proto__" the `station` label has an undefined name; for a function such as "toString" it is built from the function's `name` ("toString (toString)"), and in both cases `location` is undefined. The model looks up only the table's own keys and skips such a row.
- DansMaRue.ImportAll: an uncaught `TypeError` ends the whole process, including the reading of the other files. The model, which reads files one after the other, stops at the end of the file that threw.
- AirQuality.RawFieldsRoundTrip: shows that the CO reading is `parseFloat` of the CO text, not that a document determines that text. A real document holds a number, and `parseFloat("1")` equals `parseFloat("1.0")`, so the CO text cannot be recovered from it.
- DansMaRue.RestoreRoundTrip: shows that the texts `parseFloat` is applied to join back into the cell, not that a document determines the cell. A real document holds numbers, and `parseFloat("48.89")` equals `parseFloat("48.890")`, so the `geo_point_2d` text cannot be recovered from it.
