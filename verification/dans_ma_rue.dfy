/**
 * The Paris "DansMaRue" incident import: every CSV row becomes one
 * document of the "dansmarue" index, with columns renamed and the
 * location parsed from the `geo_point_2d` column.
 */
module DansMaRue {
  import opened Wrappers
  import opened Json
  import opened Strings
  import opened Batching
  import opened Bulk

  const INDEX_NAME: string := "dansmarue"

  /** The CSV columns the script reads. */
  const DATEDECL: string := "DATEDECL"
  const ANNEE_DECLARATION: string := "ANNEE DECLARATION"
  const MOIS_DECLARATION: string := "MOIS DECLARATION"
  const NUMERO: string := "NUMERO"
  const TYPE: string := "TYPE"
  const SOUSTYPE: string := "SOUSTYPE"
  const ADRESSE: string := "ADRESSE"
  const CODE_POSTAL: string := "CODE_POSTAL"
  const ARRONDISSEMENT: string := "ARRONDISSEMENT"
  const VILLE: string := "VILLE"
  const PREFIXE: string := "PREFIXE"
  const OBJECTID: string := "OBJECTID"
  const INTERVENANT: string := "INTERVENANT"
  const CONSEIL_DE_QUARTIER: string := "CONSEIL DE QUARTIER"
  const GEO_COLUMN: string := "geo_point_2d"

  /** The fields of an incident document. */
  datatype Field =
    | Timestamp | Year | Month | Number | Type | Subtype | Address | ZipCode
    | District | City | Prefix | ObjectId | Provider | NeighborhoodCouncil | Location

  /** The key a field is written under. */
  function Name(field: Field): (key: string) {
    match field
    case Timestamp => "@timestamp"
    case Year => "year"
    case Month => "month"
    case Number => "number"
    case Type => "type"
    case Subtype => "subtype"
    case Address => "address"
    case ZipCode => "zipCode"
    case District => "district"
    case City => "city"
    case Prefix => "prefix"
    case ObjectId => "objectId"
    case Provider => "provider"
    case NeighborhoodCouncil => "neighborhoodCouncil"
    case Location => "location"
  }

  /** Distinct fields are written under distinct keys, so a map on fields is the script's object. */
  lemma NamesDistinct(a: Field, b: Field)
    requires Name(a) == Name(b)
    ensures a == b
  {
  }

  type IncidentDocument = Document<Field>

  /** The column a field is copied from verbatim; none for the fields computed from their column. */
  function Copied(field: Field): (column: Option<string>) {
    match field
    case Timestamp => Some(DATEDECL)
    case Year => Some(ANNEE_DECLARATION)
    case Month => Some(MOIS_DECLARATION)
    case Type => Some(TYPE)
    case Subtype => Some(SOUSTYPE)
    case Address => Some(ADRESSE)
    case ZipCode => Some(CODE_POSTAL)
    case City => Some(VILLE)
    case Prefix => Some(PREFIXE)
    case Provider => Some(INTERVENANT)
    case NeighborhoodCouncil => Some(CONSEIL_DE_QUARTIER)
    case Number | District | ObjectId | Location => None
  }

  /** The fields copied verbatim, in the order the document lists them. */
  const COPIED_FIELDS: seq<Field> :=
    [Timestamp, Year, Month, Type, Subtype, Address, ZipCode, City, Prefix, Provider, NeighborhoodCouncil]

  /** The columns copied verbatim. */
  function CopiedColumns(fields: seq<Field>): (columns: set<string>) {
    set f | f in fields && Copied(f).Some? :: Copied(f).value
  }

  /** What the 'data' handler can throw: `undefined.split` when the row has no `geo_point_2d`. */
  datatype Error = TypeError

  predicate HasGeo(row: Row) {
    GEO_COLUMN in row
  }

  /** `text.split(", ").map(s => parseFloat(s))`. */
  function Coordinates(text: string): (items: seq<Numeric>) {
    var pieces := Split(text, SEP);
    seq(|pieces|, i requires 0 <= i < |pieces| => ParseFloat(Str(pieces[i])))
  }

  /** The value the 'data' handler writes under `field` for a row that has `geo_point_2d`. */
  function FieldValue(row: Row, field: Field): (value: Value)
    requires HasGeo(row)
  {
    if Copied(field).Some? then Cell(row, Copied(field).value)
    else match field
      case Number => Fixed(ParseFloat(Cell(row, NUMERO)))
      case District => Fixed(ParseFloat(Cell(row, ARRONDISSEMENT)))
      case ObjectId => Num(ParseInt(Cell(row, OBJECTID), 10))
      case _ => Array(Coordinates(row[GEO_COLUMN]))   // the location, the one field left
  }

  /**
   * The 'data' handler's document. A row without `geo_point_2d` makes it
   * throw; any other missing column is read as undefined.
   */
  function Transform(row: Row): (r: Result<IncidentDocument, Error>)
    ensures r.Failure? <==> !HasGeo(row)
    ensures r.Success? ==> forall field :: field in r.value
  {
    if !HasGeo(row) then Failure(TypeError)
    else Success(map field: Field | true :: FieldValue(row, field))
  }

  /** The copied fields hold their column's raw text, or undefined when the row lacks the column. */
  lemma TransformCopied(row: Row)
    requires HasGeo(row)
    ensures forall f :: Copied(f).Some? ==> Transform(row).value[f] == Cell(row, Copied(f).value)
  {
  }

  /** `number` and `district` are `parseFloat(...).toFixed()` of their columns, `objectId` a decimal `parseInt`. */
  lemma TransformNumbers(row: Row)
    requires HasGeo(row)
    ensures Transform(row).value[Number] == Fixed(ParseFloat(Cell(row, NUMERO)))
    ensures Transform(row).value[District] == Fixed(ParseFloat(Cell(row, ARRONDISSEMENT)))
    ensures Transform(row).value[ObjectId] == Num(ParseInt(Cell(row, OBJECTID), 10))
  {
  }

  /** The location: one parsed number per piece of `geo_point_2d` split at ", ", in order. */
  lemma TransformLocation(row: Row)
    requires HasGeo(row)
    ensures var pieces := Split(row[GEO_COLUMN], SEP);
            var location := Transform(row).value[Location];
            location.Array? &&
            |location.items| == |pieces| &&
            forall i :: 0 <= i < |pieces| ==> location.items[i] == ParseFloat(Str(pieces[i]))
  {
  }

  /** The texts the coordinates were parsed from, when every item is a parsed string. */
  function Unparsed(items: seq<Numeric>): (texts: Option<seq<string>>) {
    if items == [] then Some([])
    else match Unparsed(items[1..])
      case None => None
      case Some(rest) =>
        if items[0].ParseFloat? && items[0].arg.Str? then Some([items[0].arg.s] + rest) else None
  }

  /** The copied columns a document gives back: each field that holds a string, under its column's name. */
  function RestoreCopied(document: IncidentDocument, fields: seq<Field>): (restored: Row) {
    if fields == [] then map[]
    else
      var rest := RestoreCopied(document, fields[1..]);
      var field := fields[0];
      if field in document && document[field].Str? && Copied(field).Some?
      then rest[Copied(field).value := document[field].s]
      else rest
  }

  /** The raw columns a document gives back: the copied ones and `geo_point_2d`. */
  function Restore(document: IncidentDocument): (restored: Row) {
    var copied := RestoreCopied(document, COPIED_FIELDS);
    if Location in document && document[Location].Array? && Unparsed(document[Location].items).Some?
    then copied[GEO_COLUMN := Join(Unparsed(document[Location].items).value, SEP)]
    else copied
  }

  lemma {:induction false} UnparsedPieces(pieces: seq<string>)
    ensures Unparsed(seq(|pieces|, i requires 0 <= i < |pieces| => ParseFloat(Str(pieces[i])))) == Some(pieces)
  {
    var items := seq(|pieces|, i requires 0 <= i < |pieces| => ParseFloat(Str(pieces[i])));
    if pieces != [] {
      UnparsedPieces(pieces[1..]);
      assert items[1..] == seq(|pieces[1..]|, i requires 0 <= i < |pieces[1..]| => ParseFloat(Str(pieces[1..][i])));
      assert pieces == [pieces[0]] + pieces[1..];
    }
  }

  /** The coordinates of a cell give back the cell's pieces. */
  lemma UnparsedCoordinates(text: string)
    ensures Unparsed(Coordinates(text)) == Some(Split(text, SEP))
  {
    UnparsedPieces(Split(text, SEP));
  }

  lemma {:induction false} RestoreCopiedColumns(row: Row, document: IncidentDocument, fields: seq<Field>)
    requires forall f :: f in fields ==> Copied(f).Some? && f in document && document[f] == Cell(row, Copied(f).value)
    ensures RestoreCopied(document, fields) == Restrict(row, CopiedColumns(fields))
  {
    if fields != [] {
      var field := fields[0];
      RestoreCopiedColumns(row, document, fields[1..]);
      assert CopiedColumns(fields) == CopiedColumns(fields[1..]) + {Copied(field).value} by {
        forall c ensures c in CopiedColumns(fields) <==> c in CopiedColumns(fields[1..]) + {Copied(field).value} {
          if c in CopiedColumns(fields) {
            var f :| f in fields && Copied(f).Some? && Copied(f).value == c;
            if f != field { assert f in fields[1..]; }
          }
        }
      }
    }
  }

  /** `geo_point_2d` is not one of the columns copied verbatim. */
  lemma GeoNotCopied()
    ensures GEO_COLUMN !in CopiedColumns(COPIED_FIELDS)
  {
    forall f | Copied(f).Some? ensures Copied(f).value != GEO_COLUMN {
      assert |Copied(f).value| != |GEO_COLUMN|;
    }
  }

  /**
   * The copied columns come back verbatim from a document, and the texts
   * `parseFloat` is applied to in the location join back into the original
   * `geo_point_2d` cell.
   */
  lemma RestoreRoundTrip(row: Row)
    requires HasGeo(row)
    ensures Restore(Transform(row).value) == Restrict(row, CopiedColumns(COPIED_FIELDS) + {GEO_COLUMN})
  {
    var document := Transform(row).value;
    var columns := CopiedColumns(COPIED_FIELDS);
    TransformCopied(row);
    RestoreCopiedColumns(row, document, COPIED_FIELDS);
    var copied := RestoreCopied(document, COPIED_FIELDS);
    assert copied == Restrict(row, columns);
    assert document[Location] == Array(Coordinates(row[GEO_COLUMN]));
    UnparsedCoordinates(row[GEO_COLUMN]);
    JoinSplit(row[GEO_COLUMN], SEP);
    assert Restore(document) == copied[GEO_COLUMN := row[GEO_COLUMN]];
    GeoNotCopied();
    RestrictInsert(row, columns, GEO_COLUMN);
  }

  /** The `geo_point_2d` cell of the sample row in the script. */
  const SAMPLE_LATITUDE: string := "48.8901979962"
  const SAMPLE_LONGITUDE: string := "2.33397460323"

  /**
   * The sample row in the script: the location keeps the cell's order,
   * latitude first and longitude second.
   */
  lemma SampleLocation(row: Row)
    requires row == map[GEO_COLUMN := SAMPLE_LATITUDE + SEP + SAMPLE_LONGITUDE]
    ensures Transform(row).value[Location] ==
            Array([ParseFloat(Str(SAMPLE_LATITUDE)), ParseFloat(Str(SAMPLE_LONGITUDE))])
  {
    NoSpaceIsFree(SAMPLE_LATITUDE);
    NoSpaceIsFree(SAMPLE_LONGITUDE);
    var pieces := [SAMPLE_LATITUDE, SAMPLE_LONGITUDE];
    SplitJoin(pieces);
    assert Join(pieces, SEP) == row[GEO_COLUMN];
    TransformLocation(row);
  }

  /** Index of the first row without `geo_point_2d`, or the number of rows when there is none. */
  function FirstFailure(rows: seq<Row>): (k: nat)
    ensures k <= |rows|
    ensures forall j :: 0 <= j < k ==> HasGeo(rows[j])
    ensures k < |rows| ==> !HasGeo(rows[k])
  {
    if rows == [] || !HasGeo(rows[0]) then 0
    else 1 + FirstFailure(rows[1..])
  }

  /** The documents of rows that all have `geo_point_2d`: one per row, in row order. */
  function Documents(rows: seq<Row>): (documents: seq<IncidentDocument>)
    requires forall j :: 0 <= j < |rows| ==> HasGeo(rows[j])
  {
    if rows == [] then []
    else Documents(rows[..|rows| - 1]) + [Transform(rows[|rows| - 1]).value]
  }

  /** One document per row, each the row's transform, in row order. */
  lemma {:induction false} DocumentsInOrder(rows: seq<Row>)
    requires forall j :: 0 <= j < |rows| ==> HasGeo(rows[j])
    ensures |Documents(rows)| == |rows|
    ensures forall j :: 0 <= j < |rows| ==> Transform(rows[j]) == Success(Documents(rows)[j])
  {
    if rows != [] {
      DocumentsInOrder(rows[..|rows| - 1]);
    }
  }

  /**
   * The requests of one file: the chunks of all its documents when every row
   * has `geo_point_2d`; otherwise only the full batches sent before the
   * first row without it, where the handler throws.
   */
  function FileBodies(index: string, rows: seq<Row>): (bodies: seq<seq<Entry<IncidentDocument>>>) {
    var k := FirstFailure(rows);
    if k == |rows| then Bodies(index, Chunks(Documents(rows), BULK_SIZE))
    else Bodies(index, CompleteChunks(Documents(rows[..k]), BULK_SIZE))
  }

  /**
   * The requests of a file read to its end carry all its documents, each
   * once and in row order. When a row throws, only full batches were sent:
   * they carry a prefix of the documents of the rows before it, and the
   * fewer than BULK_SIZE documents still buffered are never sent.
   */
  lemma FileDelivers(index: string, rows: seq<Row>)
    ensures Imported(rows) ==> Delivered(FileBodies(index, rows)) == Documents(rows)
    ensures !Imported(rows) ==>
              var before := Documents(rows[..FirstFailure(rows)]);
              var delivered := Delivered(FileBodies(index, rows));
              delivered <= before && |before| - |delivered| < BULK_SIZE &&
              forall i :: 0 <= i < |FileBodies(index, rows)| ==> |FileBodies(index, rows)[i]| == 2 * BULK_SIZE
  {
    var k := FirstFailure(rows);
    if k == |rows| {
      ChunksShape(Documents(rows), BULK_SIZE);
      DeliveredBodies(index, Chunks(Documents(rows), BULK_SIZE));
    } else {
      var batches := CompleteChunks(Documents(rows[..k]), BULK_SIZE);
      DeliveredBodies(index, batches);
      var bodies := FileBodies(index, rows);
      forall i | 0 <= i < |bodies| ensures |bodies[i]| == 2 * BULK_SIZE {
        assert bodies[i] == BulkBody(index, batches[i]);
      }
    }
  }

  /**
   * When the store reports one item per action, a file adds to the counter
   * exactly the number of documents its requests carry.
   */
  lemma CounterCountsDelivered(itemsFor: seq<Entry<IncidentDocument>> -> nat, index: string, rows: seq<Row>)
    requires forall body :: itemsFor(body) == |body| / 2
    ensures Acknowledged(itemsFor, FileBodies(index, rows)) == |Delivered(FileBodies(index, rows))|
  {
    var k := FirstFailure(rows);
    var batches := if k == |rows| then Chunks(Documents(rows), BULK_SIZE) else CompleteChunks(Documents(rows[..k]), BULK_SIZE);
    assert FileBodies(index, rows) == Bodies(index, batches);
    AcknowledgedCountsDocuments(itemsFor, index, batches);
    DeliveredBodies(index, batches);
  }

  /** The 'data' handler for one row; false when it throws. */
  method OnData(batcher: Batcher<IncidentDocument>, row: Row) returns (ok: bool)
    requires batcher.Valid() && |batcher.documents| < BULK_SIZE
    modifies batcher, batcher.sink
    ensures ok == HasGeo(row)
    ensures batcher.Valid() && |batcher.documents| < BULK_SIZE
    ensures ok ==> batcher.accepted == old(batcher.accepted) + [Transform(row).value]
    ensures !ok ==>
              batcher.accepted == old(batcher.accepted) && batcher.documents == old(batcher.documents) &&
              batcher.sent == old(batcher.sent) && batcher.sink.bodies == old(batcher.sink.bodies)
  {
    var document := Transform(row);
    if document.Failure? {
      return false;
    }
    batcher.Push(document.value);
    batcher.SubmitIfFull();
    ok := true;
  }

  /**
   * One file, from `let documents = []` to the 'end' handler, or to the
   * first row that throws: then no later row is read and the buffer is not
   * flushed.
   */
  method ImportFile(sink: Sink<IncidentDocument>, rows: seq<Row>) returns (ok: bool)
    modifies sink
    ensures ok == Imported(rows)
    ensures sink.bodies == old(sink.bodies) + FileBodies(sink.index, rows)
    ensures sink.total == old(sink.total) + Acknowledged(sink.itemsFor, FileBodies(sink.index, rows))
  {
    var batcher := new Batcher<IncidentDocument>(sink);
    for i := 0 to |rows|
      invariant batcher.sink == sink
      invariant batcher.bodiesBefore == old(sink.bodies) && batcher.totalBefore == old(sink.total)
      invariant batcher.Valid() && |batcher.documents| < BULK_SIZE
      invariant forall j :: 0 <= j < i ==> HasGeo(rows[j])
      invariant batcher.accepted == Documents(rows[..i])
    {
      ok := OnData(batcher, rows[i]);
      if !ok {
        assert FirstFailure(rows) == i;
        CompleteChunksUnique(batcher.sent, batcher.documents, BULK_SIZE);
        return;
      }
      assert rows[..i + 1][..i] == rows[..i];
    }
    batcher.Flush();
    assert rows[..|rows|] == rows;
    ok := true;
  }

  /** Every row of the file has `geo_point_2d`, so the file is read to its end. */
  predicate Imported(rows: seq<Row>) {
    FirstFailure(rows) == |rows|
  }

  /** Every one of the files is read to its end. */
  predicate AllImported(files: seq<seq<Row>>) {
    forall f :: 0 <= f < |files| ==> Imported(files[f])
  }

  lemma AllImportedSnoc(files: seq<seq<Row>>, f: nat)
    requires f < |files| && AllImported(files[..f]) && Imported(files[f])
    ensures AllImported(files[..f + 1])
  {
    var next := files[..f + 1];
    forall g | 0 <= g < |next| ensures Imported(next[g]) {
      if g < f { assert next[g] == files[..f][g]; }
    }
  }

  /** The requests of a run over `files`, which stops after the first file that throws. */
  function AllBodies(index: string, files: seq<seq<Row>>): (bodies: seq<seq<Entry<IncidentDocument>>>) {
    if files == [] then []
    else
      var init := files[..|files| - 1];
      if AllImported(init) then AllBodies(index, init) + FileBodies(index, files[|files| - 1])
      else AllBodies(index, init)
  }

  /** What the store acknowledges over that run. */
  function AllAcknowledged(itemsFor: seq<Entry<IncidentDocument>> -> nat, index: string, files: seq<seq<Row>>): (total: nat) {
    if files == [] then 0
    else
      var init := files[..|files| - 1];
      if AllImported(init) then AllAcknowledged(itemsFor, index, init) + Acknowledged(itemsFor, FileBodies(index, files[|files| - 1]))
      else AllAcknowledged(itemsFor, index, init)
  }

  lemma AllBodiesSnoc(itemsFor: seq<Entry<IncidentDocument>> -> nat, index: string, files: seq<seq<Row>>, f: nat)
    requires f < |files| && AllImported(files[..f])
    ensures AllBodies(index, files[..f + 1]) == AllBodies(index, files[..f]) + FileBodies(index, files[f])
    ensures AllAcknowledged(itemsFor, index, files[..f + 1]) ==
            AllAcknowledged(itemsFor, index, files[..f]) + Acknowledged(itemsFor, FileBodies(index, files[f]))
  {
    assert files[..f + 1][..f] == files[..f];
  }

  /** Once a file has thrown, no later file adds a request. */
  lemma {:induction false} AllBodiesAfterFailure(itemsFor: seq<Entry<IncidentDocument>> -> nat, index: string, files: seq<seq<Row>>, f: nat)
    requires f < |files| && AllImported(files[..f]) && !AllImported(files[..f + 1])
    ensures AllBodies(index, files) == AllBodies(index, files[..f + 1])
    ensures AllAcknowledged(itemsFor, index, files) == AllAcknowledged(itemsFor, index, files[..f + 1])
    decreases |files|
  {
    if |files| > f + 1 {
      var init := files[..|files| - 1];
      assert init[..f] == files[..f] && init[..f + 1] == files[..f + 1];
      AllBodiesAfterFailure(itemsFor, index, init, f);
      assert !AllImported(init) by {
        assert files[..f + 1][f] == init[f];
      }
    } else {
      assert files[..f + 1] == files;
    }
  }

  /** `files.forEach(...)`, one file after the other; a file that throws ends the run. */
  method ImportAll(sink: Sink<IncidentDocument>, files: seq<seq<Row>>) returns (ok: bool)
    modifies sink
    ensures ok == AllImported(files)
    ensures sink.bodies == old(sink.bodies) + AllBodies(sink.index, files)
    ensures sink.total == old(sink.total) + AllAcknowledged(sink.itemsFor, sink.index, files)
  {
    for f := 0 to |files|
      invariant AllImported(files[..f])
      invariant sink.bodies == old(sink.bodies) + AllBodies(sink.index, files[..f])
      invariant sink.total == old(sink.total) + AllAcknowledged(sink.itemsFor, sink.index, files[..f])
    {
      ghost var done := AllBodies(sink.index, files[..f]);
      ok := ImportFile(sink, files[f]);
      AllBodiesSnoc(sink.itemsFor, sink.index, files, f);
      AppendAssoc(old(sink.bodies), done, FileBodies(sink.index, files[f]));
      if !ok {
        AllBodiesAfterFailure(sink.itemsFor, sink.index, files, f);
        return;
      }
      AllImportedSnoc(files, f);
    }
    assert files[..|files|] == files;
    ok := true;
  }

  /**
   * The whole script: a client for `INDEX_NAME` whose counter starts at 0,
   * then every file. The store's answer is the parameter `itemsFor`.
   */
  method Run(itemsFor: seq<Entry<IncidentDocument>> -> nat, files: seq<seq<Row>>) returns (sink: Sink<IncidentDocument>, ok: bool)
    ensures sink.index == INDEX_NAME
    ensures sink.bodies == AllBodies(INDEX_NAME, files)
    ensures sink.total == AllAcknowledged(itemsFor, INDEX_NAME, files)
    ensures ok == AllImported(files)
  {
    sink := new Sink(INDEX_NAME, itemsFor);
    ok := ImportAll(sink, files);
  }
}
