/**
 * The Madrid air-quality import: each CSV row is enriched from the
 * station table and becomes at most one document of the
 * "airquality-madrid" index.
 */
module AirQuality {
  import opened Wrappers
  import opened Json
  import opened Batching
  import opened Bulk

  const INDEX_NAME: string := "airquality-madrid"

  /** The fields of an air-quality document. */
  datatype Field = Timestamp | StationLabel | Location | CO

  /** The key a field is written under. */
  function Name(field: Field): (key: string) {
    match field
    case Timestamp => "@timestamp"
    case StationLabel => "station"
    case Location => "location"
    case CO => "CO"
  }

  /** Distinct fields are written under distinct keys, so a map on fields is the script's object. */
  lemma NamesDistinct(a: Field, b: Field)
    requires Name(a) == Name(b)
    ensures a == b
  {
  }

  type AirDocument = Document<Field>

  /** A reference station: display name and location as [longitude, latitude]. */
  datatype Station = Station(name: string, location: seq<real>)

  /** The script's station table. */
  const STATIONS: map<string, Station> := map[
    "28079004" := Station("Pza. de España", [-3.712247222222224, 40.423852777777775]),
    "28079008" := Station("Escuelas Aguirre", [-3.682319444444445, 40.42156388888888]),
    "28079011" := Station("Avda. Ramón y Cajal", [-3.6773555555555553, 40.451475]),
    "28079016" := Station("Arturo Soria", [-3.6392333333333333, 40.44004722222222]),
    "28079017" := Station("Villaverde", [-3.713322222222221, 40.347138888888885]),
    "28079018" := Station("Farolillo", [-3.7318527777777777, 40.39478055555556]),
    "28079024" := Station("Casa de Campo", [-3.7473472222222224, 40.41935555555556]),
    "28079027" := Station("Barajas Pueblo", [-3.580030555555555, 40.47692777777778]),
    "28079035" := Station("Pza. del Carmen", [-3.7031722222222223, 40.41920833333333]),
    "28079036" := Station("Moratalaz", [-3.6453055555555554, 40.40794722222222]),
    "28079038" := Station("Cuatro Caminos", [-3.7071277777777785, 40.44554444444445]),
    "28079039" := Station("Barrio del Pilar", [-3.7115416666666654, 40.47822777777778]),
    "28079040" := Station("Vallecas", [-3.6515222222222223, 40.38815277777777]),
    "28079047" := Station("Mendez Alvaro", [-3.686825, 40.398113888888886]),
    "28079048" := Station("Castellana", [-3.690366666666667, 40.43989722222222]),
    "28079049" := Station("Parque del Retiro", [-3.682583333333333, 40.414444444444435]),
    "28079050" := Station("Plaza Castilla", [-3.688769444444445, 40.46557222222223]),
    "28079054" := Station("Ensanche de Vallecas", [-3.612116666666666, 40.372933333333336]),
    "28079055" := Station("Urb. Embajada", [-3.5807472222222216, 40.46253055555556]),
    "28079056" := Station("Pza. Fernández Ladreda", [-3.7187277777777785, 40.38496388888889]),
    "28079057" := Station("Sanchinarro", [-3.6605027777777774, 40.49420833333333]),
    "28079058" := Station("El Pardo", [-3.774611111111111, 40.51805833333333]),
    "28079059" := Station("Juan Carlos I", [-3.6090722222222222, 40.46525000000001]),
    "28079060" := Station("Tres Olivos", [-3.6897611111111113, 40.50058888888889])
  ]

  /**
   * The key `STATIONS[data["station"]]` looks up: a missing column reads as
   * undefined, which JavaScript turns into the property name "undefined".
   */
  function StationKey(row: Row): (id: string) {
    if "station" in row then row["station"] else "undefined"
  }

  /** `co && co !== ""`: the CO reading is present and not empty. */
  predicate HasCO(row: Row) {
    "CO" in row && row["CO"] != ""
  }

  /**
   * The 'data' handler's document: none for a row whose station is not in
   * the table; otherwise the raw date, the station's label and location,
   * and the parsed CO reading when there is one.
   */
  function Transform(stations: map<string, Station>, row: Row): (r: Option<AirDocument>)
    ensures r.None? <==> StationKey(row) !in stations
    ensures r.Some? ==>
              var id := StationKey(row);
              r.value.Keys == {Timestamp, StationLabel, Location} + (if HasCO(row) then {CO} else {}) &&
              r.value[Timestamp] == Cell(row, "date") &&
              r.value[StationLabel] == Str(stations[id].name + " (" + id + ")") &&
              r.value[Location] == Array(Literals(stations[id].location))
    ensures r.Some? && HasCO(row) ==> r.value[CO] == Num(ParseFloat(Str(row["CO"])))
  {
    var id := StationKey(row);
    if id !in stations then None
    else
      var station := stations[id];
      var document := map[
        Timestamp := Cell(row, "date"),
        StationLabel := Str(station.name + " (" + id + ")"),
        Location := Array(Literals(station.location))
      ];
      if HasCO(row) then Some(document[CO := Num(ParseFloat(Str(row["CO"])))])
      else Some(document)
  }

  /**
   * A row without a station column is skipped: its lookup key "undefined"
   * is not a station code of the table.
   */
  lemma MissingStationSkipped(row: Row)
    requires "station" !in row
    ensures Transform(STATIONS, row) == None
  {
    assert forall id :: id in STATIONS ==> |id| == 8;
  }

  /**
   * The raw fields a document keeps: the date and, when the document has one,
   * the text the CO reading was parsed from.
   */
  function RawFields(document: AirDocument): (raw: Row) {
    var date: Row := if Timestamp in document && document[Timestamp].Str? then map["date" := document[Timestamp].s] else map[];
    if CO in document && document[CO].Num? && document[CO].n.ParseFloat? && document[CO].n.arg.Str?
    then date["CO" := document[CO].n.arg.s]
    else date
  }

  /**
   * A document keeps the row's raw date, and the CO reading is `parseFloat`
   * applied to the row's CO text exactly when that text is non-empty; an
   * empty CO reading leaves no trace in the document.
   */
  lemma RawFieldsRoundTrip(stations: map<string, Station>, row: Row)
    requires StationKey(row) in stations
    ensures RawFields(Transform(stations, row).value) == Restrict(row, {"date"} + (if HasCO(row) then {"CO"} else {}))
  {
    var document := Transform(stations, row).value;
    var columns := {"date"} + (if HasCO(row) then {"CO"} else {});
    forall c ensures c in RawFields(document) <==> c in Restrict(row, columns) {
    }
  }

  /** The accepted documents of a file, in row order. */
  function Accepted(stations: map<string, Station>, rows: seq<Row>): (documents: seq<AirDocument>) {
    if rows == [] then []
    else
      var init := Accepted(stations, rows[..|rows| - 1]);
      match Transform(stations, rows[|rows| - 1])
      case None => init
      case Some(document) => init + [document]
  }

  /** A file keeps one document per row whose station is in the table, and only those. */
  lemma {:induction false} AcceptedLength(stations: map<string, Station>, rows: seq<Row>)
    ensures |Accepted(stations, rows)| <= |rows|
    ensures |Accepted(stations, rows)| == |rows| <==> forall j :: 0 <= j < |rows| ==> StationKey(rows[j]) in stations
  {
    if rows != [] {
      var init := rows[..|rows| - 1];
      AcceptedLength(stations, init);
      if StationKey(rows[|rows| - 1]) in stations {
        assert forall j :: 0 <= j < |init| ==> init[j] == rows[j];
      }
    }
  }

  /** The 'data' handler for one row. */
  method OnData(batcher: Batcher<AirDocument>, stations: map<string, Station>, row: Row)
    requires batcher.Valid() && |batcher.documents| < BULK_SIZE
    modifies batcher, batcher.sink
    ensures batcher.Valid() && |batcher.documents| < BULK_SIZE
    ensures Transform(stations, row).Some? ==>
              batcher.accepted == old(batcher.accepted) + [Transform(stations, row).value]
    ensures Transform(stations, row).None? ==>
              batcher.accepted == old(batcher.accepted) && batcher.documents == old(batcher.documents) &&
              batcher.sent == old(batcher.sent) && batcher.sink.bodies == old(batcher.sink.bodies)
  {
    var document := Transform(stations, row);
    if document.Some? {
      batcher.Push(document.value);
    }
    batcher.SubmitIfFull();
  }

  /** The requests of one file: the bulk bodies of the chunks of its accepted documents. */
  function FileBodies(index: string, stations: map<string, Station>, rows: seq<Row>): (bodies: seq<seq<Entry<AirDocument>>>) {
    Bodies(index, Chunks(Accepted(stations, rows), BULK_SIZE))
  }

  /**
   * The requests of a file carry its accepted documents, each once and in
   * row order: one request per BULK_SIZE documents begun, none empty and
   * none with more than BULK_SIZE documents.
   */
  lemma FileDelivers(index: string, stations: map<string, Station>, rows: seq<Row>)
    ensures Delivered(FileBodies(index, stations, rows)) == Accepted(stations, rows)
    ensures |FileBodies(index, stations, rows)| == (|Accepted(stations, rows)| + BULK_SIZE - 1) / BULK_SIZE
    ensures forall i :: 0 <= i < |FileBodies(index, stations, rows)| ==>
              2 <= |FileBodies(index, stations, rows)[i]| <= 2 * BULK_SIZE
  {
    var accepted := Accepted(stations, rows);
    var batches := Chunks(accepted, BULK_SIZE);
    var bodies := FileBodies(index, stations, rows);
    ChunksShape(accepted, BULK_SIZE);
    ChunkCount(accepted, BULK_SIZE);
    DeliveredBodies(index, batches);
    forall i | 0 <= i < |bodies| ensures 2 <= |bodies[i]| <= 2 * BULK_SIZE {
      assert bodies[i] == BulkBody(index, batches[i]);
      assert 0 < |batches[i]| <= BULK_SIZE;
    }
  }

  /**
   * When the store reports one item per action, a file adds to the counter
   * exactly the number of its accepted documents.
   */
  lemma CounterCountsAccepted(itemsFor: seq<Entry<AirDocument>> -> nat, index: string, stations: map<string, Station>, rows: seq<Row>)
    requires forall body :: itemsFor(body) == |body| / 2
    ensures Acknowledged(itemsFor, FileBodies(index, stations, rows)) == |Accepted(stations, rows)|
  {
    var accepted := Accepted(stations, rows);
    ChunksShape(accepted, BULK_SIZE);
    AcknowledgedCountsDocuments(itemsFor, index, Chunks(accepted, BULK_SIZE));
  }

  /**
   * One file, from `let documents = []` to the 'end' handler: the requests
   * the sink receives are the bulk bodies of the chunks of the accepted
   * documents.
   */
  method ImportFile(sink: Sink<AirDocument>, stations: map<string, Station>, rows: seq<Row>)
    modifies sink
    ensures sink.bodies == old(sink.bodies) + FileBodies(sink.index, stations, rows)
    ensures sink.total == old(sink.total) + Acknowledged(sink.itemsFor, FileBodies(sink.index, stations, rows))
  {
    var batcher := new Batcher<AirDocument>(sink);
    for i := 0 to |rows|
      invariant batcher.sink == sink
      invariant batcher.bodiesBefore == old(sink.bodies) && batcher.totalBefore == old(sink.total)
      invariant batcher.Valid() && |batcher.documents| < BULK_SIZE
      invariant batcher.accepted == Accepted(stations, rows[..i])
    {
      OnData(batcher, stations, rows[i]);
      assert rows[..i + 1][..i] == rows[..i];
    }
    batcher.Flush();
    assert rows[..|rows|] == rows;
  }

  /** The requests of a run over `files`, file after file. */
  function AllBodies(index: string, stations: map<string, Station>, files: seq<seq<Row>>): (bodies: seq<seq<Entry<AirDocument>>>) {
    if files == [] then []
    else AllBodies(index, stations, files[..|files| - 1]) + FileBodies(index, stations, files[|files| - 1])
  }

  lemma AllBodiesSnoc(itemsFor: seq<Entry<AirDocument>> -> nat, index: string, stations: map<string, Station>, files: seq<seq<Row>>, f: nat)
    requires f < |files|
    ensures AllBodies(index, stations, files[..f + 1]) ==
            AllBodies(index, stations, files[..f]) + FileBodies(index, stations, files[f])
    ensures AllAcknowledged(itemsFor, index, stations, files[..f + 1]) ==
            AllAcknowledged(itemsFor, index, stations, files[..f]) + Acknowledged(itemsFor, FileBodies(index, stations, files[f]))
  {
    assert files[..f + 1][..f] == files[..f];
  }

  /** What the store acknowledges over a run on `files`, file after file. */
  function AllAcknowledged(itemsFor: seq<Entry<AirDocument>> -> nat, index: string, stations: map<string, Station>, files: seq<seq<Row>>): (total: nat) {
    if files == [] then 0
    else AllAcknowledged(itemsFor, index, stations, files[..|files| - 1]) +
         Acknowledged(itemsFor, FileBodies(index, stations, files[|files| - 1]))
  }

  /** The accepted documents of every file, file after file. */
  function AllAccepted(stations: map<string, Station>, files: seq<seq<Row>>): (documents: seq<AirDocument>) {
    if files == [] then []
    else AllAccepted(stations, files[..|files| - 1]) + Accepted(stations, files[|files| - 1])
  }

  /** A run's requests carry the accepted documents of every file, each once, file after file. */
  lemma {:induction false} RunDelivers(index: string, stations: map<string, Station>, files: seq<seq<Row>>)
    ensures Delivered(AllBodies(index, stations, files)) == AllAccepted(stations, files)
  {
    if files != [] {
      var init, last := files[..|files| - 1], files[|files| - 1];
      RunDelivers(index, stations, init);
      DeliveredAppend(AllBodies(index, stations, init), FileBodies(index, stations, last));
      FileDelivers(index, stations, last);
    }
  }

  /** `files.forEach(...)`, one file after the other. */
  method ImportAll(sink: Sink<AirDocument>, stations: map<string, Station>, files: seq<seq<Row>>)
    modifies sink
    ensures sink.bodies == old(sink.bodies) + AllBodies(sink.index, stations, files)
    ensures sink.total == old(sink.total) + AllAcknowledged(sink.itemsFor, sink.index, stations, files)
  {
    for f := 0 to |files|
      invariant sink.bodies == old(sink.bodies) + AllBodies(sink.index, stations, files[..f])
      invariant sink.total == old(sink.total) + AllAcknowledged(sink.itemsFor, sink.index, stations, files[..f])
    {
      ghost var done := AllBodies(sink.index, stations, files[..f]);
      ImportFile(sink, stations, files[f]);
      AllBodiesSnoc(sink.itemsFor, sink.index, stations, files, f);
      AppendAssoc(old(sink.bodies), done, FileBodies(sink.index, stations, files[f]));
    }
    assert files[..|files|] == files;
  }

  /**
   * The whole script: a client for `INDEX_NAME` whose counter starts at 0,
   * then every file, each looked up in `STATIONS`. The store's answer is the
   * parameter `itemsFor`.
   */
  method Run(itemsFor: seq<Entry<AirDocument>> -> nat, files: seq<seq<Row>>) returns (sink: Sink<AirDocument>)
    ensures sink.index == INDEX_NAME
    ensures sink.bodies == AllBodies(INDEX_NAME, STATIONS, files)
    ensures sink.total == AllAcknowledged(itemsFor, INDEX_NAME, STATIONS, files)
  {
    sink := new Sink(INDEX_NAME, itemsFor);
    ImportAll(sink, STATIONS, files);
  }
}
