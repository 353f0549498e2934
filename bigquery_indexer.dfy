/** The BigQuery indexer: every row of a warehouse table becomes one bulk
    "update with doc_as_upsert" action keyed by the row's primary-key value.
    Reading the table (`pd.read_gbq`) and sending the actions (`bulk`) are
    outside the model: the table arrives as a value and the actions are
    returned. */
module BigQueryIndexer {
  import opened Wrappers

  /** A cell of a pandas row: a value, or a null (None/NaN) that `dropna`
      removes. */
  datatype Cell<V> = Null | Present(value: V)

  type Row<V> = map<string, Cell<V>>

  /** A data frame: its column names and its rows, each holding one cell per
      column. */
  datatype Table<V> = Table(columns: seq<string>, rows: seq<Row<V>>)

  predicate WellFormed<V>(t: Table<V>) {
    forall i :: 0 <= i < |t.rows| ==> t.rows[i].Keys == set c | c in t.columns
  }

  /** One bulk action: `_op_type`, `_index`, `_type`, `_id`, `doc` and
      `doc_as_upsert`. */
  datatype Action<V> = Action(
    opType: string, index: string, docType: string, id: Cell<V>,
    doc: map<string, V>, docAsUpsert: bool)

  datatype TableError = PrimaryKeyNotFound(primaryKey: string)

  /** `row.dropna().to_dict()`. */
  function NonNull<V>(row: Row<V>): (doc: map<string, V>)
    ensures forall c :: c in doc <==> c in row && row[c].Present?
    ensures forall c :: c in doc ==> doc[c] == row[c].value
  {
    map c | c in row && row[c].Present? :: row[c].value
  }

  /** The action for one row. */
  function UpsertAction<V>(indexName: string, primaryKey: string, row: Row<V>): (a: Action<V>)
    requires primaryKey in row
    ensures a.opType == "update" && a.index == indexName && a.docAsUpsert
    ensures a.id == row[primaryKey]
    ensures forall c :: c in a.doc <==> c in row && row[c].Present?
    ensures forall c :: c in a.doc ==> a.doc[c] == row[c].value
    ensures row[primaryKey].Present? ==> primaryKey in a.doc
  {
    Action("update", indexName, "type", row[primaryKey], NonNull(row), true)
  }

  /** The actions for rows, one per row and in row order. */
  function Actions<V>(indexName: string, primaryKey: string, rows: seq<Row<V>>): (acts: seq<Action<V>>)
    requires forall i :: 0 <= i < |rows| ==> primaryKey in rows[i]
    ensures |acts| == |rows|
    ensures forall i :: 0 <= i < |rows| ==>
      && acts[i].opType == "update" && acts[i].index == indexName && acts[i].docAsUpsert
      && acts[i].id == rows[i][primaryKey]
      && (forall c :: c in acts[i].doc <==> c in rows[i] && rows[i][c].Present?)
      && (forall c :: c in acts[i].doc ==> acts[i].doc[c] == rows[i][c].value)
    decreases |rows|
  {
    if |rows| == 0 then []
    else [UpsertAction(indexName, primaryKey, rows[0])] + Actions(indexName, primaryKey, rows[1..])
  }

  /** `index_table`: a missing primary-key column fails before any action
      exists; otherwise the table's actions. */
  function IndexTable<V>(indexName: string, primaryKey: string, t: Table<V>): (r: Result<seq<Action<V>>, TableError>)
    requires WellFormed(t)
    ensures r.Failure? <==> primaryKey !in t.columns
    ensures r.Failure? ==> r.error == PrimaryKeyNotFound(primaryKey)
    ensures r.Success? ==> |r.value| == |t.rows|
    ensures r.Success? ==> forall i :: 0 <= i < |t.rows| ==>
      && r.value[i].opType == "update" && r.value[i].index == indexName && r.value[i].docAsUpsert
      && r.value[i].id == t.rows[i][primaryKey]
      && (forall c :: c in r.value[i].doc <==> c in t.rows[i] && t.rows[i][c].Present?)
      && (forall c :: c in r.value[i].doc ==> r.value[i].doc[c] == t.rows[i][c].value)
  {
    if primaryKey !in t.columns then Failure(PrimaryKeyNotFound(primaryKey))
    else
      assert forall i :: 0 <= i < |t.rows| ==> primaryKey in t.rows[i];
      Success(Actions(indexName, primaryKey, t.rows))
  }

  /** What Elasticsearch does with an update carrying `doc_as_upsert`: a
      missing document is created from `doc`; an existing one keeps its
      fields and takes every field of `doc`. */
  function ApplyUpsert<V>(existing: Option<map<string, V>>, doc: map<string, V>): map<string, V> {
    match existing
    case None => doc
    case Some(d) => d + doc
  }

  /** A null cell never erases what an earlier table wrote for that column,
      and every non-null cell lands in the document with its value. */
  lemma UpsertKeepsNullColumns<V>(indexName: string, primaryKey: string, row: Row<V>, existing: map<string, V>)
    requires primaryKey in row
    ensures var d := ApplyUpsert(Some(existing), UpsertAction(indexName, primaryKey, row).doc);
      && (forall c :: c in existing && (c !in row || row[c].Null?) ==> c in d && d[c] == existing[c])
      && (forall c :: c in row && row[c].Present? ==> c in d && d[c] == row[c].value)
      && d.Keys == existing.Keys + (set c | c in row && row[c].Present?)
  {
  }

  /** Applying the same action twice leaves the document as applying it
      once. */
  lemma UpsertIdempotent<V>(existing: Option<map<string, V>>, doc: map<string, V>)
    ensures ApplyUpsert(Some(ApplyUpsert(existing, doc)), doc) == ApplyUpsert(existing, doc)
  {
  }

  /** An argparse option: a default taken from the environment, or
      "required". */
  datatype ArgSpec = DefaultValue(value: string) | Required

  /** `environ_or_required`: a set, non-empty environment variable becomes
      the default; otherwise the option is required. */
  function EnvironOrRequired(env: map<string, string>, key: string): (r: ArgSpec)
    ensures r.DefaultValue? <==> key in env && env[key] != ""
    ensures r.DefaultValue? ==> r.value == env[key]
    ensures r.Required? <==> key !in env || env[key] == ""
  {
    if key in env && env[key] != "" then DefaultValue(env[key]) else Required
  }
}
