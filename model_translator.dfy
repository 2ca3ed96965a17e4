/**
 * `sqlalchemy_to_pydantic`: a pydantic model built from the column
 * attributes of a mapped class.
 */
module ModelTranslator {
  import opened Wrappers
  import opened Dicts
  import opened Fields
  import opened Schemas

  /**
   * An entry of `mapper.attrs`: a `ColumnProperty` with the columns behind
   * it, or any other mapped property (a relationship, a synonym, a composite).
   */
  datatype MapperProperty =
    | ColumnProperty(key: string, columns: seq<Descriptor>)
    | OtherProperty(key: string)

  /** A mapped class as `inspect` shows it: its `__name__` and its mapper's attributes, in order. */
  datatype MappedClass = MappedClass(name: string, attrs: seq<MapperProperty>)

  /** The loop reaches the assignment for `a`: a column property with columns, under a key not excluded. */
  predicate Translated(a: MapperProperty, exclude: set<string>)
  {
    a.ColumnProperty? && |a.columns| > 0 && a.key !in exclude
  }

  /** The assignments the loop performs over `attrs`, in order: each translated attribute's first column under its key. */
  function ModelEntries(attrs: seq<MapperProperty>, exclude: set<string>): seq<Entry>
  {
    if attrs == [] then []
    else
      var a := attrs[|attrs| - 1];
      var p := ModelEntries(attrs[..|attrs| - 1], exclude);
      if Translated(a, exclude) then p + [Entry(a.key, a.columns[0])] else p
  }

  /** The loop assigns each translated attribute's first column under its key, and nothing else. */
  lemma {:induction false} ModelEntriesMembers(attrs: seq<MapperProperty>, exclude: set<string>)
    ensures forall e :: e in ModelEntries(attrs, exclude) <==>
      exists a :: a in attrs && Translated(a, exclude) && e == Entry(a.key, a.columns[0])
  {
    if attrs != [] {
      var n := |attrs|;
      ModelEntriesMembers(attrs[..n - 1], exclude);
      assert attrs == attrs[..n - 1] + [attrs[n - 1]];
    }
  }

  /** Filtering the attributes one run after another is filtering them all at once. */
  lemma {:induction false} ModelEntriesAppend(xs: seq<MapperProperty>, ys: seq<MapperProperty>, exclude: set<string>)
    ensures ModelEntries(xs + ys, exclude) == ModelEntries(xs, exclude) + ModelEntries(ys, exclude)
  {
    if ys != [] {
      var n := |ys|;
      ModelEntriesAppend(xs, ys[..n - 1], exclude);
      assert (xs + ys)[..|xs + ys| - 1] == xs + ys[..n - 1];
    } else {
      assert xs + ys == xs;
    }
  }

  /** One more attribute adds at most its own assignment. */
  lemma ModelEntriesStep(attrs: seq<MapperProperty>, i: nat, exclude: set<string>)
    requires i < |attrs|
    ensures Translated(attrs[i], exclude) ==>
      ModelEntries(attrs[..i + 1], exclude) == ModelEntries(attrs[..i], exclude) + [Entry(attrs[i].key, attrs[i].columns[0])]
    ensures !Translated(attrs[i], exclude) ==>
      ModelEntries(attrs[..i + 1], exclude) == ModelEntries(attrs[..i], exclude)
  {
    assert attrs[..i + 1][..i] == attrs[..i];
  }

  /** Once the assignments for `attrs[..i]` fail, the whole translation fails the same way. */
  lemma ModelEntriesFailureIsFinal(attrs: seq<MapperProperty>, i: nat, exclude: set<string>)
    requires i <= |attrs| && BuildFields(ModelEntries(attrs[..i], exclude)).Failure?
    ensures BuildFields(ModelEntries(attrs, exclude)) == BuildFields(ModelEntries(attrs[..i], exclude))
  {
    var done := ModelEntries(attrs[..i], exclude);
    ModelEntriesAppend(attrs[..i], attrs[i..], exclude);
    assert attrs[..i] + attrs[i..] == attrs;
    assert ModelEntries(attrs, exclude)[..|done|] == done;
    BuildFieldsFailureIsFinal(ModelEntries(attrs, exclude), |done|);
  }

  /** What `sqlalchemy_to_pydantic(db_model, config=config, exclude=exclude)` hands to `create_model`, or its failed assertion. */
  function ModelSchema(dbModel: MappedClass, config: Config := OrmConfig, exclude: set<string> := {}): Result<Schema, TranslationError>
  {
    match BuildFields(ModelEntries(dbModel.attrs, exclude))
    case Success(fields) => Success(Schema(dbModel.name, config, fields))
    case Failure(e) => Failure(e)
  }

  /** The loop over the mapper's attributes, filling the fields dict; it stops at the first column without a type. */
  method SqlalchemyToPydantic(dbModel: MappedClass, config: Config := OrmConfig, exclude: set<string> := {})
    returns (r: Result<Schema, TranslationError>)
    ensures r == ModelSchema(dbModel, config, exclude)
  {
    var attrs := dbModel.attrs;
    var fields := Empty();
    for i := 0 to |attrs|
      invariant BuildFields(ModelEntries(attrs[..i], exclude)) == Success(fields)
    {
      ModelEntriesStep(attrs, i, exclude);
      var attr := attrs[i];
      if attr.ColumnProperty? {
        if |attr.columns| > 0 {
          var name := attr.key;
          if name in exclude {
            continue;
          }
          var column := attr.columns[0];
          BuildFieldsSnoc(ModelEntries(attrs[..i], exclude), Entry(name, column));
          var field := ColumnToField(column);
          if field.Failure? {
            ModelEntriesFailureIsFinal(attrs, i + 1, exclude);
            return Failure(field.error);
          }
          assert Assign(Success(fields), Entry(name, column)) == Success(Put(fields, name, field.value));
          fields := Put(fields, name, field.value);
        }
      }
    }
    assert attrs[..|attrs|] == attrs;
    r := Success(Schema(dbModel.name, config, fields));
  }

  /**
   * The model is named after the class and carries the config unchanged; its
   * fields are exactly the translated attributes' keys (so no excluded key),
   * each holding the translation of the first column of an attribute with that key.
   * A mapper never lists two attributes under one key, so that attribute is unique.
   */
  lemma ModelSchemaFields(dbModel: MappedClass, config: Config, exclude: set<string>)
    requires ModelSchema(dbModel, config, exclude).Success?
    ensures var s := ModelSchema(dbModel, config, exclude).value;
      && s.name == dbModel.name && s.config == config
      && (forall k :: k in s.fields.values <==> exists a :: a in dbModel.attrs && Translated(a, exclude) && a.key == k)
      && (forall k :: k in exclude ==> k !in s.fields.values)
      && (forall k :: k in s.fields.values ==>
            exists a :: a in dbModel.attrs && Translated(a, exclude) && a.key == k
                     && ColumnToField(a.columns[0]) == Success(s.fields.values[k]))
  {
    var es := ModelEntries(dbModel.attrs, exclude);
    var s := ModelSchema(dbModel, config, exclude).value;
    ModelEntriesMembers(dbModel.attrs, exclude);
    BuildFieldsKeys(es);
    BuildFieldsValues(es);
    forall k | k in s.fields.values
      ensures exists a :: a in dbModel.attrs && Translated(a, exclude) && a.key == k
    {
      var e :| e in es && e.name == k && ColumnToField(e.column) == Success(s.fields.values[k]);
    }
    forall k | exists a :: a in dbModel.attrs && Translated(a, exclude) && a.key == k
      ensures k in s.fields.values
    {
      var a :| a in dbModel.attrs && Translated(a, exclude) && a.key == k;
      assert Entry(a.key, a.columns[0]) in es;
      var i :| 0 <= i < |es| && es[i] == Entry(a.key, a.columns[0]);
      assert Names(es)[i] == k;
    }
  }

  /**
   * The model cannot be built exactly when some translated attribute's first
   * column has no inferable type; the error names such a column.
   */
  lemma ModelSchemaFailure(dbModel: MappedClass, config: Config, exclude: set<string>)
    ensures ModelSchema(dbModel, config, exclude).Failure? <==>
      exists a :: a in dbModel.attrs && Translated(a, exclude) && InferPythonType(a.columns[0].sqlType).None?
    ensures ModelSchema(dbModel, config, exclude).Failure? ==>
      exists a :: a in dbModel.attrs && Translated(a, exclude)
               && ModelSchema(dbModel, config, exclude).error == TypeNotInferred(a.columns[0])
  {
    var es := ModelEntries(dbModel.attrs, exclude);
    ModelEntriesMembers(dbModel.attrs, exclude);
    BuildFieldsSucceeds(es);
    if ModelSchema(dbModel, config, exclude).Failure? {
      var i :| 0 <= i < |es| && ColumnToField(es[i].column).Failure?;
      var i0 := FirstFailing(es, i);
      BuildFieldsFirstFailure(es, i0);
      assert es[i0] in es;
    } else {
      forall a | a in dbModel.attrs && Translated(a, exclude)
        ensures InferPythonType(a.columns[0].sqlType).Some?
      {
        assert Entry(a.key, a.columns[0]) in es;
      }
    }
  }
}
