/**
 * `sqlalchemy_select_to_pydantic`: a pydantic model built from the columns
 * a `select` produces.
 */
module QueryTranslator {
  import opened Wrappers
  import opened Dicts
  import opened Fields
  import opened Schemas

  /**
   * A `select` construct as seen through `getattr`: its `selected_columns`
   * (SQLAlchemy 1.4 and later) and its legacy `columns`, each `None` when the
   * attribute does not exist.
   */
  datatype Select = Select(selectedColumns: Option<seq<Descriptor>>, columns: Option<seq<Descriptor>>)

  /** `getattr(sql, "selected_columns", getattr(sql, "columns", []))` */
  function SelectColumns(sql: Select): seq<Descriptor>
  {
    match sql.selectedColumns
    case Some(cs) => cs
    case None =>
      match sql.columns
      case Some(cs) => cs
      case None => []
  }

  /** The loop keeps `c`: it is a `Column` or a `Label` (a bare SQL function has no name and is skipped). */
  predicate Selectable(c: Descriptor)
  {
    c.Column? || c.Label?
  }

  /** The assignments the loop performs over `columns`, in order: each kept column under its key. */
  function QueryEntries(columns: seq<Descriptor>): seq<Entry>
  {
    if columns == [] then []
    else
      var c := columns[|columns| - 1];
      var p := QueryEntries(columns[..|columns| - 1]);
      if Selectable(c) then p + [Entry(c.key, c)] else p
  }

  /** The loop assigns each kept column under its key, and nothing else. */
  lemma {:induction false} QueryEntriesMembers(columns: seq<Descriptor>)
    ensures forall e :: e in QueryEntries(columns) <==> exists c :: c in columns && Selectable(c) && e == Entry(c.key, c)
  {
    if columns != [] {
      var n := |columns|;
      QueryEntriesMembers(columns[..n - 1]);
      assert columns == columns[..n - 1] + [columns[n - 1]];
    }
  }

  /** Filtering the columns one run after another is filtering them all at once. */
  lemma {:induction false} QueryEntriesAppend(xs: seq<Descriptor>, ys: seq<Descriptor>)
    ensures QueryEntries(xs + ys) == QueryEntries(xs) + QueryEntries(ys)
  {
    if ys != [] {
      var n := |ys|;
      QueryEntriesAppend(xs, ys[..n - 1]);
      assert (xs + ys)[..|xs + ys| - 1] == xs + ys[..n - 1];
    } else {
      assert xs + ys == xs;
    }
  }

  /** One more column adds at most its own assignment. */
  lemma QueryEntriesStep(columns: seq<Descriptor>, i: nat)
    requires i < |columns|
    ensures Selectable(columns[i]) ==>
      QueryEntries(columns[..i + 1]) == QueryEntries(columns[..i]) + [Entry(columns[i].key, columns[i])]
    ensures !Selectable(columns[i]) ==> QueryEntries(columns[..i + 1]) == QueryEntries(columns[..i])
  {
    assert columns[..i + 1][..i] == columns[..i];
  }

  /** Once the assignments for `columns[..i]` fail, the whole translation fails the same way. */
  lemma QueryEntriesFailureIsFinal(columns: seq<Descriptor>, i: nat)
    requires i <= |columns| && BuildFields(QueryEntries(columns[..i])).Failure?
    ensures BuildFields(QueryEntries(columns)) == BuildFields(QueryEntries(columns[..i]))
  {
    var done := QueryEntries(columns[..i]);
    QueryEntriesAppend(columns[..i], columns[i..]);
    assert columns[..i] + columns[i..] == columns;
    assert QueryEntries(columns)[..|done|] == done;
    BuildFieldsFailureIsFinal(QueryEntries(columns), |done|);
  }

  /** What the translation of the column list `columns` hands to `create_model`, or its failed assertion. */
  function ColumnsSchema(moduleName: string, columns: seq<Descriptor>, config: Config): Result<Schema, TranslationError>
  {
    match BuildFields(QueryEntries(columns))
    case Success(fields) => Success(Schema(moduleName, config, fields))
    case Failure(e) => Failure(e)
  }

  /** What `sqlalchemy_select_to_pydantic(module_name, sql, config=config)` hands to `create_model`, or its failed assertion. */
  function SelectSchema(moduleName: string, sql: Select, config: Config := OrmConfig): Result<Schema, TranslationError>
  {
    ColumnsSchema(moduleName, SelectColumns(sql), config)
  }

  /** The loop over the query's columns, skipping what is neither a `Column` nor a `Label`; it stops at the first column without a type. */
  method SqlalchemySelectToPydantic(moduleName: string, sql: Select, config: Config := OrmConfig)
    returns (r: Result<Schema, TranslationError>)
    ensures r == SelectSchema(moduleName, sql, config)
  {
    var fields := Empty();
    var columns := SelectColumns(sql);
    for i := 0 to |columns|
      invariant BuildFields(QueryEntries(columns[..i])) == Success(fields)
    {
      QueryEntriesStep(columns, i);
      var column := columns[i];
      if !(column.Column? || column.Label?) {
        continue;
      }
      var name := column.key;
      BuildFieldsSnoc(QueryEntries(columns[..i]), Entry(name, column));
      var field := ColumnToField(column);
      if field.Failure? {
        QueryEntriesFailureIsFinal(columns, i + 1);
        return Failure(field.error);
      }
      assert Assign(Success(fields), Entry(name, column)) == Success(Put(fields, name, field.value));
      fields := Put(fields, name, field.value);
    }
    assert columns[..|columns|] == columns;
    r := Success(Schema(moduleName, config, fields));
  }

  /**
   * `selected_columns` is used whenever it exists, `columns` only in its
   * absence, and a query with neither yields a model without fields rather
   * than an error.
   */
  lemma SelectColumnSource(moduleName: string, sql: Select, config: Config)
    ensures sql.selectedColumns.Some? ==>
      SelectSchema(moduleName, sql, config) == ColumnsSchema(moduleName, sql.selectedColumns.value, config)
    ensures sql.selectedColumns.None? && sql.columns.Some? ==>
      SelectSchema(moduleName, sql, config) == ColumnsSchema(moduleName, sql.columns.value, config)
    ensures sql.selectedColumns.None? && sql.columns.None? ==>
      SelectSchema(moduleName, sql, config) == Success(Schema(moduleName, config, Empty()))
  {
  }

  /** A kept column `columns[i]` that no later kept column shares a key with. */
  ghost predicate LastWithKey(columns: seq<Descriptor>, i: int)
  {
    && 0 <= i < |columns|
    && Selectable(columns[i])
    && forall j :: i < j < |columns| && Selectable(columns[j]) ==> columns[j].key != columns[i].key
  }

  /**
   * The model is named `module_name` and carries the config unchanged; its
   * fields are exactly the keys of the kept columns.
   */
  lemma ColumnsSchemaFields(moduleName: string, columns: seq<Descriptor>, config: Config)
    requires ColumnsSchema(moduleName, columns, config).Success?
    ensures var s := ColumnsSchema(moduleName, columns, config).value;
      && s.name == moduleName && s.config == config
      && (forall k :: k in s.fields.values <==> exists c :: c in columns && Selectable(c) && c.key == k)
  {
    var es := QueryEntries(columns);
    var s := ColumnsSchema(moduleName, columns, config).value;
    QueryEntriesMembers(columns);
    BuildFieldsKeys(es);
    forall k | k in s.fields.values
      ensures exists c :: c in columns && Selectable(c) && c.key == k
    {
      var i :| 0 <= i < |es| && Names(es)[i] == k;
      assert es[i] in es;
    }
    forall k | exists c :: c in columns && Selectable(c) && c.key == k
      ensures k in s.fields.values
    {
      var c :| c in columns && Selectable(c) && c.key == k;
      assert Entry(c.key, c) in es;
      var i :| 0 <= i < |es| && es[i] == Entry(c.key, c);
      assert Names(es)[i] == k;
    }
  }

  /** The last kept column with its key stays the last one when a later column is dropped. */
  lemma LastWithKeyPrefix(columns: seq<Descriptor>, i: int)
    requires LastWithKey(columns, i) && i < |columns| - 1
    ensures LastWithKey(columns[..|columns| - 1], i)
  {
    var p := columns[..|columns| - 1];
    forall j | i < j < |p| && Selectable(p[j])
      ensures p[j].key != p[i].key
    {
      assert p[j] == columns[j];
    }
  }

  /** The last column adds its own assignment after those of the columns before it, when it is kept. */
  lemma QueryEntriesLast(columns: seq<Descriptor>)
    requires columns != []
    ensures var c := columns[|columns| - 1];
      QueryEntries(columns) ==
        QueryEntries(columns[..|columns| - 1]) + (if Selectable(c) then [Entry(c.key, c)] else [])
  {
  }

  /** A later kept column with the same key overwrites an earlier one: the field holds the last one's translation. */
  lemma {:induction false} LastColumnWins(columns: seq<Descriptor>, fields: Dict<Field>, i: int)
    requires BuildFields(QueryEntries(columns)) == Success(fields)
    requires LastWithKey(columns, i)
    ensures columns[i].key in fields.values && ColumnToField(columns[i]) == Success(fields.values[columns[i].key])
    decreases |columns|, 1
  {
    var n := |columns|;
    var c := columns[n - 1];
    if i == n - 1 {
      QueryEntriesLast(columns);
      BuildFieldsSnocSuccess(QueryEntries(columns[..n - 1]), Entry(c.key, c), fields);
    } else if Selectable(c) {
      LastColumnWinsBeforeKept(columns, fields, i);
    } else {
      LastColumnWinsBeforeSkipped(columns, fields, i);
    }
  }

  /** `LastColumnWins` when a kept column with another key comes last. */
  lemma {:induction false} LastColumnWinsBeforeKept(columns: seq<Descriptor>, fields: Dict<Field>, i: int)
    requires BuildFields(QueryEntries(columns)) == Success(fields)
    requires LastWithKey(columns, i) && i < |columns| - 1 && Selectable(columns[|columns| - 1])
    ensures columns[i].key in fields.values && ColumnToField(columns[i]) == Success(fields.values[columns[i].key])
    decreases |columns|, 0
  {
    var n := |columns|;
    var p := columns[..n - 1];
    var c := columns[n - 1];
    QueryEntriesLast(columns);
    BuildFieldsSnocSuccess(QueryEntries(p), Entry(c.key, c), fields);
    LastWithKeyPrefix(columns, i);
    LastColumnWins(p, BuildFields(QueryEntries(p)).value, i);
    assert p[i] == columns[i];
  }

  /** `LastColumnWins` when a skipped column comes last. */
  lemma {:induction false} LastColumnWinsBeforeSkipped(columns: seq<Descriptor>, fields: Dict<Field>, i: int)
    requires BuildFields(QueryEntries(columns)) == Success(fields)
    requires LastWithKey(columns, i) && i < |columns| - 1 && !Selectable(columns[|columns| - 1])
    ensures columns[i].key in fields.values && ColumnToField(columns[i]) == Success(fields.values[columns[i].key])
    decreases |columns|, 0
  {
    var n := |columns|;
    var p := columns[..n - 1];
    QueryEntriesLast(columns);
    assert QueryEntries(columns) == QueryEntries(p) + [];
    LastWithKeyPrefix(columns, i);
    LastColumnWins(p, fields, i);
    assert p[i] == columns[i];
  }

  /**
   * The model cannot be built exactly when some kept column has no inferable
   * type; the error names such a column.
   */
  lemma ColumnsSchemaFailure(moduleName: string, columns: seq<Descriptor>, config: Config)
    ensures ColumnsSchema(moduleName, columns, config).Failure? <==>
      exists c :: c in columns && Selectable(c) && InferPythonType(c.sqlType).None?
    ensures ColumnsSchema(moduleName, columns, config).Failure? ==>
      exists c :: c in columns && Selectable(c)
               && ColumnsSchema(moduleName, columns, config).error == TypeNotInferred(c)
  {
    var es := QueryEntries(columns);
    QueryEntriesMembers(columns);
    BuildFieldsSucceeds(es);
    if ColumnsSchema(moduleName, columns, config).Failure? {
      var i :| 0 <= i < |es| && ColumnToField(es[i].column).Failure?;
      var i0 := FirstFailing(es, i);
      BuildFieldsFirstFailure(es, i0);
      assert es[i0] in es;
    } else {
      forall c | c in columns && Selectable(c)
        ensures InferPythonType(c.sqlType).Some?
      {
        assert Entry(c.key, c) in es;
      }
    }
  }
}
