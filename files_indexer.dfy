/** The files indexer: a CSV manifest in Cloud Storage lists one file per
    row; rows are grouped by their primary-key cell into one document per id
    whose `files` list holds, in row order, a record of the row's other
    columns. Downloading the manifest is a parameter; the bulk write of the
    documents is left to the caller, so the method returns them. */
module FilesIndexer {
  import opened Wrappers
  import opened Text
  import opened StoragePath

  /** One file record: column name to cell text. */
  type Record = map<string, string>

  /** The `docs` dictionary: id to its `files` list. */
  type Docs = map<string, seq<Record>>

  datatype ManifestError =
    | PathWithoutObject(path: string)
    | ManifestNotFound(bucket: string, obj: string)
    | RowWiderThanHeader(row: seq<string>)
    | MissingPrimaryKey(row: seq<string>)

  /** The line without the one `\r` that `csv.reader` reads as the end of
      the record, as at the end of a CRLF line. */
  function RecordText(line: string): (r: string)
    ensures |line| > 0 && line[|line| - 1] == '\r' ==> line == r + "\r"
    ensures (|line| == 0 || line[|line| - 1] != '\r') ==> r == line
  {
    if |line| > 0 && line[|line| - 1] == '\r' then line[..|line| - 1] else line
  }

  /** One line as `csv.reader` returns it: an empty record has no fields,
      any other record the texts between delimiters. */
  function CsvFields(line: string, delimiter: char): seq<string> {
    var record := RecordText(line);
    if record == "" then [] else Split(record, [delimiter])
  }

  /** A CRLF line gives the fields of the line without its `\r`; a line
      holding only `\r` is blank. */
  lemma CrlfLine(line: string, delimiter: char)
    requires |line| == 0 || line[|line| - 1] != '\r'
    ensures CsvFields(line + "\r", delimiter) == CsvFields(line, delimiter)
    ensures CsvFields("\r", delimiter) == []
  {
    assert (line + "\r")[..|line|] == line;
  }

  /** A CRLF line of two comma-separated fields gives both fields, the
      last one without the `\r`. */
  lemma CrlfTwoFields(a: string, b: string)
    requires ',' !in a && ',' !in b
    requires |b| == 0 || b[|b| - 1] != '\r'
    ensures CsvFields(a + "," + b + "\r", ',') == [a, b]
  {
    var record := a + [','] + b;
    assert a + "," + b + "\r" == record + "\r";
    assert |record| > 0 && record[|record| - 1] != '\r';
    CrlfLine(record, ',');
    SplitAtFirst(a, ',', b);
    SplitWithoutSep(b, ',');
    assert Split(record, [',']) == [a] + [b];
  }

  /** A CRLF manifest: the header keeps its primary-key column name and a
      data row is indexed under its id. */
  lemma CrlfManifestHeader()
    ensures CsvFields("name,id\r", ',') == ["name", "id"]
  {
    assert "name,id\r" == "name" + "," + "id" + "\r";
    CrlfTwoFields("name", "id");
  }

  lemma CrlfManifestRow()
    ensures ParseRow(["name", "id"], CsvFields("a,x\r", ','), "id") == Success(("x", map["name" := "a"]))
  {
    assert "a,x\r" == "a" + "," + "x" + "\r";
    CrlfTwoFields("a", "x");
    var header, row := ["name", "id"], ["a", "x"];
    assert "name"[0] != "id"[0];
    assert ScanColumns(header, row, "id", 1) == ("", map["name" := "a"]);
    assert ScanColumns(header, row, "id", 2) == ("x", map["name" := "a"]);
  }

  function DataRows(lines: seq<string>, delimiter: char): (rows: seq<seq<string>>)
    ensures |rows| == |lines|
    ensures forall i :: 0 <= i < |lines| ==> rows[i] == CsvFields(lines[i], delimiter)
  {
    seq(|lines|, i requires 0 <= i < |lines| => CsvFields(lines[i], delimiter))
  }

  /** The id and the record after the first `n` cells of a row: a cell under
      the primary-key column sets the id, any other cell is stored under its
      column's name. */
  function ScanColumns(header: seq<string>, row: seq<string>, primaryKey: string, n: nat): (string, Record)
    requires n <= |row| && n <= |header|
    decreases n
  {
    if n == 0 then ("", map[])
    else
      var p := ScanColumns(header, row, primaryKey, n - 1);
      if header[n - 1] == primaryKey then (row[n - 1], p.1)
      else (p.0, p.1[header[n - 1] := row[n - 1]])
  }

  /** One non-blank row: an IndexError when it has more cells than the header
      has names, a ValueError when it has no primary-key cell or an empty one. */
  function ParseRow(header: seq<string>, row: seq<string>, primaryKey: string): Result<(string, Record), ManifestError> {
    if |row| > |header| then Failure(RowWiderThanHeader(row))
    else
      var p := ScanColumns(header, row, primaryKey, |row|);
      if p.0 == "" then Failure(MissingPrimaryKey(row)) else Success(p)
  }

  /** The record holds exactly the columns of the row other than the primary
      key; each holds the cell of the last column of that name; the id is the
      cell of the last primary-key column, or empty when there is none. */
  lemma {:induction false} ScanColumnsContents(header: seq<string>, row: seq<string>, primaryKey: string, n: nat)
    requires n <= |row| && n <= |header|
    ensures var p := ScanColumns(header, row, primaryKey, n);
      && p.1.Keys == (set j | 0 <= j < n && header[j] != primaryKey :: header[j])
      && primaryKey !in p.1
      && (forall j :: (0 <= j < n && header[j] != primaryKey
                       && forall j' :: j < j' < n ==> header[j'] != header[j])
                      ==> p.1[header[j]] == row[j])
      && ((forall j :: 0 <= j < n ==> header[j] != primaryKey) ==> p.0 == "")
      && (forall j :: (0 <= j < n && header[j] == primaryKey
                       && forall j' :: j < j' < n ==> header[j'] != primaryKey)
                      ==> p.0 == row[j])
    decreases n
  {
    if n > 0 {
      ScanColumnsContents(header, row, primaryKey, n - 1);
      var q := ScanColumns(header, row, primaryKey, n - 1);
      var p := ScanColumns(header, row, primaryKey, n);
      var before := set j | 0 <= j < n - 1 && header[j] != primaryKey :: header[j];
      var after := set j | 0 <= j < n && header[j] != primaryKey :: header[j];
      if header[n - 1] == primaryKey {
        assert after == before;
      } else {
        assert after == before + {header[n - 1]};
      }
    }
  }

  /** docs[id]['files'].append(f), creating the entry when the id is new. */
  function AddRecord(docs: Docs, id: string, f: Record): Docs {
    docs[id := (if id in docs then docs[id] else []) + [f]]
  }

  /** The source's row loop, as a fold over the data rows in order: blank rows
      are skipped, the first bad row stops everything. */
  function GroupRows(docs: Docs, header: seq<string>, rows: seq<seq<string>>, primaryKey: string): Result<Docs, ManifestError>
    decreases |rows|
  {
    if |rows| == 0 then Success(docs)
    else if rows[0] == [] then GroupRows(docs, header, rows[1..], primaryKey)
    else match ParseRow(header, rows[0], primaryKey)
      case Failure(e) => Failure(e)
      case Success(p) => GroupRows(AddRecord(docs, p.0, p.1), header, rows[1..], primaryKey)
  }

  /** One turn of the row loop. */
  lemma GroupRowsAt(docs: Docs, header: seq<string>, rows: seq<seq<string>>, j: nat, primaryKey: string)
    requires j < |rows|
    ensures GroupRows(docs, header, rows[j..], primaryKey) ==
      if rows[j] == [] then GroupRows(docs, header, rows[j + 1..], primaryKey)
      else if ParseRow(header, rows[j], primaryKey).Failure? then Failure(ParseRow(header, rows[j], primaryKey).error)
      else GroupRows(AddRecord(docs, ParseRow(header, rows[j], primaryKey).value.0,
                               ParseRow(header, rows[j], primaryKey).value.1), header, rows[j + 1..], primaryKey)
  {
    assert rows[j..][0] == rows[j];
    assert rows[j..][1..] == rows[j + 1..];
  }

  /** What the manifest at `path` becomes, the header split on `delimiter`
      and the data rows on `rowDelimiter`. */
  function ManifestDocs(path: string, delimiter: char, rowDelimiter: char, primaryKey: string,
                        download: (string, string) -> Option<string>): Result<Docs, ManifestError>
  {
    match SplitPath(path)
    case None => Failure(PathWithoutObject(path))
    case Some(loc) =>
      match download(loc.0, loc.1)
      case None => Failure(ManifestNotFound(loc.0, loc.1))
      case Some(text) =>
        var lines := Split(text, "\n");
        GroupRows(map[], CsvFields(lines[0], delimiter), DataRows(lines[1..], rowDelimiter), primaryKey)
  }

  /** Data rows are split on `,` whatever the manifest's delimiter: a line
      without a comma is a single cell, even when the header's delimiter
      separates it into several. */
  lemma DataRowWithoutComma(line: string)
    requires RecordText(line) != "" && ',' !in line
    ensures CsvFields(line, ',') == [RecordText(line)]
  {
    var record := RecordText(line);
    assert forall k :: 0 <= k < |record| ==> record[k] == line[k];
    SplitWithoutSep(record, ',');
  }

  lemma TabSeparatedRow()
    ensures CsvFields("a\tb", '\t') == ["a", "b"]
    ensures CsvFields("a\tb", ',') == ["a\tb"]
  {
    SplitAtFirst("a", '\t', "b");
    SplitWithoutSep("b", '\t');
    assert "a\tb" == "a" + ['\t'] + "b";
    DataRowWithoutComma("a\tb");
  }

  /** The inner loop of the source over the cells of one row. */
  method ProjectRow(header: seq<string>, line: seq<string>, primaryKey: string)
    returns (r: Result<(string, Record), ManifestError>)
    ensures r == ParseRow(header, line, primaryKey)
  {
    var idx := 0;
    var id := "";
    var f: Record := map[];
    while idx < |line|
      invariant 0 <= idx <= |line| && idx <= |header|
      invariant (id, f) == ScanColumns(header, line, primaryKey, idx)
    {
      if idx >= |header| {
        return Failure(RowWiderThanHeader(line));
      }
      var colName := header[idx];
      if colName == primaryKey {
        id := line[idx];
      } else {
        f := f[colName := line[idx]];
      }
      idx := idx + 1;
    }
    if id == "" {
      return Failure(MissingPrimaryKey(line));
    }
    return Success((id, f));
  }

  /** `index_file_manifest`: the manifest's documents, its header split on the
      configured delimiter and its data rows on `,`, as the source does. */
  method IndexFileManifest(path: string, delimiter: char, primaryKey: string,
                           download: (string, string) -> Option<string>)
    returns (r: Result<Docs, ManifestError>)
    ensures r == ManifestDocs(path, delimiter, ',', primaryKey, download)
  {
    var loc := SplitPath(path);
    if loc.None? {
      return Failure(PathWithoutObject(path));
    }
    var bucketStr, objStr := loc.value.0, loc.value.1;
    var fileStr := download(bucketStr, objStr);
    if fileStr.None? {
      return Failure(ManifestNotFound(bucketStr, objStr));
    }
    var lines := Split(fileStr.value, "\n");
    var fields := CsvFields(lines[0], delimiter);
    var header: seq<string> := [];
    for k := 0 to |fields|
      invariant header == fields[..k]
    {
      header := header + [fields[k]];
    }
    assert header == fields;
    var rows := DataRows(lines[1..], ',');
    r := GroupManifestRows(header, rows, primaryKey);
  }

  /** The loop over the data rows: blank rows are skipped, every other row's
      record is appended to the list of its id, and the first malformed row
      ends the loop with its error. */
  method GroupManifestRows(header: seq<string>, rows: seq<seq<string>>, primaryKey: string)
    returns (r: Result<Docs, ManifestError>)
    ensures r == GroupRows(map[], header, rows, primaryKey)
  {
    var docs: Docs := map[];
    var j := 0;
    while j < |rows|
      invariant 0 <= j <= |rows|
      invariant GroupRows(docs, header, rows[j..], primaryKey) == GroupRows(map[], header, rows, primaryKey)
    {
      GroupRowsAt(docs, header, rows, j, primaryKey);
      var line := rows[j];
      if |line| == 0 {
        j := j + 1;
        continue;
      }
      var parsed := ProjectRow(header, line, primaryKey);
      if parsed.Failure? {
        return Failure(parsed.error);
      }
      var id, f := parsed.value.0, parsed.value.1;
      ghost var old_docs := docs;
      if id !in docs {
        docs := docs[id := []];
      }
      docs := docs[id := docs[id] + [f]];
      assert docs == AddRecord(old_docs, id, f);
      j := j + 1;
    }
    return Success(docs);
  }

  // ---------------------------------------------------------------------
  // What the grouping promises

  /** Every non-blank row parses. */
  predicate RowsParse(header: seq<string>, rows: seq<seq<string>>, primaryKey: string) {
    forall i :: 0 <= i < |rows| && rows[i] != [] ==> ParseRow(header, rows[i], primaryKey).Success?
  }

  /** The records of the non-blank, well-formed rows whose id is `id`, in row
      order. */
  function RecordsFor(header: seq<string>, rows: seq<seq<string>>, primaryKey: string, id: string): seq<Record>
    decreases |rows|
  {
    if |rows| == 0 then []
    else
      var here := if rows[0] != [] && ParseRow(header, rows[0], primaryKey).Success?
                     && ParseRow(header, rows[0], primaryKey).value.0 == id
                  then [ParseRow(header, rows[0], primaryKey).value.1] else [];
      here + RecordsFor(header, rows[1..], primaryKey, id)
  }

  /** Some non-blank row carries the id `id`. */
  predicate HasRowWithId(header: seq<string>, rows: seq<seq<string>>, primaryKey: string, id: string)
    requires RowsParse(header, rows, primaryKey)
  {
    exists i :: 0 <= i < |rows| && rows[i] != [] && ParseRow(header, rows[i], primaryKey).value.0 == id
  }

  function NonBlankCount(rows: seq<seq<string>>): nat
    decreases |rows|
  {
    if |rows| == 0 then 0 else (if rows[0] == [] then 0 else 1) + NonBlankCount(rows[1..])
  }

  function Get(docs: Docs, id: string): seq<Record> {
    if id in docs then docs[id] else []
  }

  lemma RowsParseTail(header: seq<string>, rows: seq<seq<string>>, primaryKey: string)
    requires |rows| > 0 && RowsParse(header, rows, primaryKey)
    ensures RowsParse(header, rows[1..], primaryKey)
  {
    forall i | 0 <= i < |rows| - 1 && rows[1..][i] != []
      ensures ParseRow(header, rows[1..][i], primaryKey).Success?
    {
      assert rows[1..][i] == rows[i + 1];
    }
  }

  /** The grouping succeeds exactly when every non-blank row parses. */
  lemma {:induction false} GroupRowsSucceeds(docs: Docs, header: seq<string>, rows: seq<seq<string>>, primaryKey: string)
    ensures GroupRows(docs, header, rows, primaryKey).Success? <==> RowsParse(header, rows, primaryKey)
    decreases |rows|
  {
    if |rows| > 0 {
      var tail := rows[1..];
      assert forall i :: 1 <= i < |rows| ==> rows[i] == tail[i - 1];
      if rows[0] == [] {
        GroupRowsSucceeds(docs, header, tail, primaryKey);
      } else {
        match ParseRow(header, rows[0], primaryKey)
        case Failure(e) =>
        case Success(p) =>
          GroupRowsSucceeds(AddRecord(docs, p.0, p.1), header, tail, primaryKey);
      }
    }
  }

  /** The position of the first non-blank row that does not parse. */
  predicate FirstBadRow(header: seq<string>, rows: seq<seq<string>>, primaryKey: string, i: nat) {
    && i < |rows| && rows[i] != [] && ParseRow(header, rows[i], primaryKey).Failure?
    && forall j :: 0 <= j < i && rows[j] != [] ==> ParseRow(header, rows[j], primaryKey).Success?
  }

  /** A failed grouping reports the error of the first bad non-blank row. */
  lemma {:induction false} GroupRowsFirstError(docs: Docs, header: seq<string>, rows: seq<seq<string>>, primaryKey: string)
    requires GroupRows(docs, header, rows, primaryKey).Failure?
    ensures exists i: nat ::
      FirstBadRow(header, rows, primaryKey, i)
      && GroupRows(docs, header, rows, primaryKey).error == ParseRow(header, rows[i], primaryKey).error
    decreases |rows|
  {
    var tail := rows[1..];
    if rows[0] == [] || ParseRow(header, rows[0], primaryKey).Success? {
      var d' := if rows[0] == [] then docs
                else AddRecord(docs, ParseRow(header, rows[0], primaryKey).value.0,
                               ParseRow(header, rows[0], primaryKey).value.1);
      assert GroupRows(docs, header, rows, primaryKey) == GroupRows(d', header, tail, primaryKey);
      GroupRowsFirstError(d', header, tail, primaryKey);
      var i: nat :| FirstBadRow(header, tail, primaryKey, i)
        && GroupRows(d', header, tail, primaryKey).error == ParseRow(header, tail[i], primaryKey).error;
      assert rows[i + 1] == tail[i];
      forall j | 0 <= j < i + 1 && rows[j] != []
        ensures ParseRow(header, rows[j], primaryKey).Success?
      {
        if j > 0 { assert rows[j] == tail[j - 1]; }
      }
      assert FirstBadRow(header, rows, primaryKey, i + 1);
    } else {
      assert FirstBadRow(header, rows, primaryKey, 0);
    }
  }

  lemma HasRowWithIdCons(header: seq<string>, rows: seq<seq<string>>, primaryKey: string, id: string)
    requires |rows| > 0 && RowsParse(header, rows, primaryKey)
    ensures RowsParse(header, rows[1..], primaryKey)
    ensures HasRowWithId(header, rows, primaryKey, id) <==>
      (rows[0] != [] && ParseRow(header, rows[0], primaryKey).value.0 == id)
      || HasRowWithId(header, rows[1..], primaryKey, id)
  {
    RowsParseTail(header, rows, primaryKey);
    var tail := rows[1..];
    if HasRowWithId(header, rows, primaryKey, id) {
      var i :| 0 <= i < |rows| && rows[i] != [] && ParseRow(header, rows[i], primaryKey).value.0 == id;
      if i > 0 { assert tail[i - 1] == rows[i]; }
    }
    if HasRowWithId(header, tail, primaryKey, id) {
      var i :| 0 <= i < |tail| && tail[i] != [] && ParseRow(header, tail[i], primaryKey).value.0 == id;
      assert rows[i + 1] == tail[i];
    }
  }

  /** The documents hold exactly the ids of the rows (besides those already
      present), and each id's `files` list is the records of its rows, in row
      order, after those already present. */
  lemma {:induction false} GroupRowsContents(docs: Docs, header: seq<string>, rows: seq<seq<string>>, primaryKey: string)
    requires RowsParse(header, rows, primaryKey)
    ensures GroupRows(docs, header, rows, primaryKey).Success?
    ensures var d := GroupRows(docs, header, rows, primaryKey).value;
      && (forall id :: id in d <==> id in docs || HasRowWithId(header, rows, primaryKey, id))
      && (forall id :: id in d ==> d[id] == Get(docs, id) + RecordsFor(header, rows, primaryKey, id))
    decreases |rows|
  {
    GroupRowsSucceeds(docs, header, rows, primaryKey);
    if |rows| > 0 {
      RowsParseTail(header, rows, primaryKey);
      var d' := if rows[0] == [] then docs
                else AddRecord(docs, ParseRow(header, rows[0], primaryKey).value.0,
                               ParseRow(header, rows[0], primaryKey).value.1);
      GroupRowsContents(d', header, rows[1..], primaryKey);
      GroupRowsContentsStep(docs, d', header, rows, primaryKey);
    }
  }

  /** One row of the induction in GroupRowsContents. */
  lemma GroupRowsContentsStep(docs: Docs, d': Docs, header: seq<string>, rows: seq<seq<string>>, primaryKey: string)
    requires |rows| > 0 && RowsParse(header, rows, primaryKey)
    requires RowsParse(header, rows[1..], primaryKey)
    requires d' == if rows[0] == [] then docs
                   else AddRecord(docs, ParseRow(header, rows[0], primaryKey).value.0,
                                  ParseRow(header, rows[0], primaryKey).value.1)
    requires GroupRows(d', header, rows[1..], primaryKey).Success?
    requires var d := GroupRows(d', header, rows[1..], primaryKey).value;
      && (forall id :: id in d <==> id in d' || HasRowWithId(header, rows[1..], primaryKey, id))
      && (forall id :: id in d ==> d[id] == Get(d', id) + RecordsFor(header, rows[1..], primaryKey, id))
    ensures GroupRows(docs, header, rows, primaryKey) == GroupRows(d', header, rows[1..], primaryKey)
    ensures var d := GroupRows(docs, header, rows, primaryKey).value;
      && (forall id :: id in d <==> id in docs || HasRowWithId(header, rows, primaryKey, id))
      && (forall id :: id in d ==> d[id] == Get(docs, id) + RecordsFor(header, rows, primaryKey, id))
  {
    GroupRowsCons(docs, d', header, rows, primaryKey);
    var tail := rows[1..];
    var d := GroupRows(d', header, tail, primaryKey).value;
    forall id
      ensures id in d <==> id in docs || HasRowWithId(header, rows, primaryKey, id)
    {
      HasRowWithIdCons(header, rows, primaryKey, id);
    }
    forall id | id in d
      ensures d[id] == Get(docs, id) + RecordsFor(header, rows, primaryKey, id)
    {
      RecordsForCons(docs, d', header, rows, primaryKey, id);
    }
  }

  lemma GroupRowsCons(docs: Docs, d': Docs, header: seq<string>, rows: seq<seq<string>>, primaryKey: string)
    requires |rows| > 0 && (rows[0] == [] || ParseRow(header, rows[0], primaryKey).Success?)
    requires d' == if rows[0] == [] then docs
                   else AddRecord(docs, ParseRow(header, rows[0], primaryKey).value.0,
                                  ParseRow(header, rows[0], primaryKey).value.1)
    ensures GroupRows(docs, header, rows, primaryKey) == GroupRows(d', header, rows[1..], primaryKey)
  {
  }

  lemma RecordsForCons(docs: Docs, d': Docs, header: seq<string>, rows: seq<seq<string>>, primaryKey: string, id: string)
    requires |rows| > 0 && (rows[0] == [] || ParseRow(header, rows[0], primaryKey).Success?)
    requires d' == if rows[0] == [] then docs
                   else AddRecord(docs, ParseRow(header, rows[0], primaryKey).value.0,
                                  ParseRow(header, rows[0], primaryKey).value.1)
    ensures Get(d', id) + RecordsFor(header, rows[1..], primaryKey, id)
         == Get(docs, id) + RecordsFor(header, rows, primaryKey, id)
  {
    var rest := RecordsFor(header, rows[1..], primaryKey, id);
    if rows[0] == [] {
      assert RecordsFor(header, rows, primaryKey, id) == [] + rest;
    } else {
      var p := ParseRow(header, rows[0], primaryKey).value;
      var here := if p.0 == id then [p.1] else [];
      assert Get(d', id) == Get(docs, id) + here;
      assert RecordsFor(header, rows, primaryKey, id) == here + rest;
      assert (Get(docs, id) + here) + rest == Get(docs, id) + (here + rest);
    }
  }

  /** No file record ever holds the primary-key column. */
  lemma {:induction false} GroupRowsOmitsPrimaryKey(docs: Docs, header: seq<string>, rows: seq<seq<string>>, primaryKey: string)
    requires forall id, k :: id in docs && 0 <= k < |docs[id]| ==> primaryKey !in docs[id][k]
    requires GroupRows(docs, header, rows, primaryKey).Success?
    ensures var d := GroupRows(docs, header, rows, primaryKey).value;
      forall id, k :: id in d && 0 <= k < |d[id]| ==> primaryKey !in d[id][k]
    decreases |rows|
  {
    if |rows| > 0 {
      if rows[0] == [] {
        GroupRowsOmitsPrimaryKey(docs, header, rows[1..], primaryKey);
      } else {
        var p := ParseRow(header, rows[0], primaryKey).value;
        ScanColumnsContents(header, rows[0], primaryKey, |rows[0]|);
        var d' := AddRecord(docs, p.0, p.1);
        forall id, k | id in d' && 0 <= k < |d'[id]| ensures primaryKey !in d'[id][k] {
          if id == p.0 && k == |d'[id]| - 1 {
          } else {
            assert d'[id][k] == docs[id][k];
          }
        }
        GroupRowsOmitsPrimaryKey(d', header, rows[1..], primaryKey);
      }
    }
  }

  /** The number of file records under the ids in `keys`. */
  ghost function RecordsUnder(docs: Docs, keys: set<string>): nat
    requires keys <= docs.Keys
    decreases keys
  {
    if keys == {} then 0
    else
      var id :| id in keys;
      |docs[id]| + RecordsUnder(docs, keys - {id})
  }

  /** The total number of file records in the documents. */
  ghost function TotalRecords(docs: Docs): nat {
    RecordsUnder(docs, docs.Keys)
  }

  lemma {:induction false} RecordsUnderRemove(docs: Docs, keys: set<string>, id: string)
    requires keys <= docs.Keys && id in keys
    ensures RecordsUnder(docs, keys) == |docs[id]| + RecordsUnder(docs, keys - {id})
    decreases keys
  {
    var other :| other in keys && RecordsUnder(docs, keys) == |docs[other]| + RecordsUnder(docs, keys - {other});
    if other != id {
      RecordsUnderRemove(docs, keys - {other}, id);
      RecordsUnderRemove(docs, keys - {id}, other);
      assert keys - {other} - {id} == keys - {id} - {other};
    }
  }

  lemma {:induction false} RecordsUnderSame(d1: Docs, d2: Docs, keys: set<string>)
    requires keys <= d1.Keys && keys <= d2.Keys
    requires forall id :: id in keys ==> |d1[id]| == |d2[id]|
    ensures RecordsUnder(d1, keys) == RecordsUnder(d2, keys)
    decreases keys
  {
    if keys != {} {
      var id :| id in keys && RecordsUnder(d1, keys) == |d1[id]| + RecordsUnder(d1, keys - {id});
      RecordsUnderRemove(d2, keys, id);
      RecordsUnderSame(d1, d2, keys - {id});
    }
  }

  lemma TotalRecordsAdd(docs: Docs, id: string, f: Record)
    ensures TotalRecords(AddRecord(docs, id, f)) == TotalRecords(docs) + 1
  {
    var d' := AddRecord(docs, id, f);
    RecordsUnderRemove(d', d'.Keys, id);
    RecordsUnderSame(d', docs, docs.Keys - {id});
    if id in docs {
      RecordsUnderRemove(docs, docs.Keys, id);
      assert d'.Keys - {id} == docs.Keys - {id};
    } else {
      assert d'.Keys - {id} == docs.Keys;
      assert docs.Keys - {id} == docs.Keys;
    }
  }

  /** Each non-blank row adds exactly one file record. */
  lemma {:induction false} GroupRowsCount(docs: Docs, header: seq<string>, rows: seq<seq<string>>, primaryKey: string)
    requires GroupRows(docs, header, rows, primaryKey).Success?
    ensures TotalRecords(GroupRows(docs, header, rows, primaryKey).value) == TotalRecords(docs) + NonBlankCount(rows)
    decreases |rows|
  {
    if |rows| > 0 {
      if rows[0] == [] {
        GroupRowsCount(docs, header, rows[1..], primaryKey);
      } else {
        var p := ParseRow(header, rows[0], primaryKey).value;
        TotalRecordsAdd(docs, p.0, p.1);
        GroupRowsCount(AddRecord(docs, p.0, p.1), header, rows[1..], primaryKey);
      }
    }
  }

  /** A blank line anywhere among the data rows changes nothing. */
  lemma {:induction false} BlankRowIgnored(docs: Docs, header: seq<string>, before: seq<seq<string>>, after: seq<seq<string>>, primaryKey: string)
    ensures GroupRows(docs, header, before + [[]] + after, primaryKey) == GroupRows(docs, header, before + after, primaryKey)
    decreases |before|
  {
    if |before| == 0 {
      assert (before + [[]] + after)[1..] == after;
      assert before + after == after;
    } else {
      assert (before + [[]] + after)[0] == before[0];
      assert (before + [[]] + after)[1..] == before[1..] + [[]] + after;
      assert (before + after)[0] == before[0];
      assert (before + after)[1..] == before[1..] + after;
      match ParseRow(header, before[0], primaryKey)
      case Failure(e) =>
        if before[0] == [] {
          BlankRowIgnored(docs, header, before[1..], after, primaryKey);
        }
      case Success(p) =>
        if before[0] == [] {
          BlankRowIgnored(docs, header, before[1..], after, primaryKey);
        } else {
          BlankRowIgnored(AddRecord(docs, p.0, p.1), header, before[1..], after, primaryKey);
        }
    }
  }
}
