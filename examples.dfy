/** Worked cases of the translation rules, on a concrete table and a concrete query. */
module Examples {
  import opened Wrappers
  import opened Dicts
  import opened Fields
  import opened Schemas
  import opened ModelTranslator
  import opened QueryTranslator

  const Integer := SqlType(None, Some(PyType("int")))
  const Text := SqlType(None, Some(PyType("str")))

  /** `id` is not nullable and has no default, `name` is nullable, `age` is not nullable but has a default. */
  const IdColumn := Column("id", Integer, false, false, None)
  const NameColumn := Column("name", Text, true, false, Some("full name"))
  const AgeColumn := Column("age", Integer, false, true, Some(""))
  const UserAttrs := [ColumnProperty("id", [IdColumn]), ColumnProperty("name", [NameColumn]),
                      ColumnProperty("age", [AgeColumn]), OtherProperty("addresses")]

  const IdField := Field(PyType("int"), FieldInfo(None, Required))
  const NameField := Field(PyType("str"), FieldInfo(Some("full name"), NoneDefault))
  const AgeField := Field(PyType("int"), FieldInfo(None, NoneDefault))

  lemma UserEntries(exclude: set<string>)
    requires exclude == {} || exclude == {"id"}
    ensures exclude == {} ==>
      ModelEntries(UserAttrs, exclude) == [Entry("id", IdColumn), Entry("name", NameColumn), Entry("age", AgeColumn)]
    ensures exclude == {"id"} ==>
      ModelEntries(UserAttrs, exclude) == [Entry("name", NameColumn), Entry("age", AgeColumn)]
  {
    assert UserAttrs[..0] == [] && UserAttrs[..4] == UserAttrs;
    ModelEntriesStep(UserAttrs, 0, exclude);
    ModelEntriesStep(UserAttrs, 1, exclude);
    ModelEntriesStep(UserAttrs, 2, exclude);
    ModelEntriesStep(UserAttrs, 3, exclude);
  }

  const UserId := Entry("id", IdColumn)
  const UserName := Entry("name", NameColumn)
  const UserAge := Entry("age", AgeColumn)

  /** Scaffolding for `UserFields`: the dict after each prefix of the assignments. */
  lemma UserFieldsThroughId()
    ensures BuildFields([UserId]) == Success(Put(Empty(), "id", IdField))
  {
    BuildFieldsSnoc([], UserId);
    assert [] + [UserId] == [UserId];
  }

  lemma UserFieldsThroughName()
    ensures BuildFields([UserId, UserName]) == Success(Put(Put(Empty(), "id", IdField), "name", NameField))
  {
    UserFieldsThroughId();
    BuildFieldsSnoc([UserId], UserName);
    assert [UserId] + [UserName] == [UserId, UserName];
  }

  lemma UserFields()
    ensures BuildFields(ModelEntries(UserAttrs, {}))
      == Success(Put(Put(Put(Empty(), "id", IdField), "name", NameField), "age", AgeField))
  {
    UserEntries({});
    UserFieldsThroughName();
    BuildFieldsSnoc([UserId, UserName], UserAge);
    assert [UserId, UserName] + [UserAge] == [UserId, UserName, UserAge];
  }

  /** Scaffolding for `UserTableKeys`: the key order of the three assignments, apart from the translation. */
  lemma UserFieldKeys()
    ensures Put(Put(Put(Empty(), "id", IdField), "name", NameField), "age", AgeField).keys == ["id", "name", "age"]
  {
  }

  /**
   * With the default config and no exclusions, the fields follow the attribute
   * order; the relationship `addresses` is skipped.
   */
  lemma UserTableKeys()
    ensures var r := ModelSchema(MappedClass("User", UserAttrs));
      r.Success? && r.value.name == "User" && r.value.config == OrmConfig && r.value.fields.keys == ["id", "name", "age"]
  {
    UserFields();
    UserFieldKeys();
  }

  /**
   * Only `id` is required; `name` carries its comment as description while
   * the empty comment of `age` gives none.
   */
  lemma UserTableFields()
    ensures var r := ModelSchema(MappedClass("User", UserAttrs));
      && r.Success?
      && r.value.fields.values == map["id" := IdField, "name" := NameField, "age" := AgeField]
  {
    UserFields();
  }

  /** Excluding `id` removes it although it would be required. */
  lemma UserTableWithoutId()
    ensures var r := ModelSchema(MappedClass("User", UserAttrs), OrmConfig, {"id"});
      r.Success? && r.value.fields.keys == ["name", "age"]
  {
    var e2, e3 := Entry("name", NameColumn), Entry("age", AgeColumn);
    UserEntries({"id"});
    BuildFieldsSnoc([], e2);
    assert [] + [e2] == [e2];
    BuildFieldsSnoc([e2], e3);
    assert [e2] + [e3] == [e2, e3];
    assert [] + ["name"] + ["age"] == ["name", "age"];
  }

  const TotalLabel := Label("total", Integer, None)
  const TotalsColumns := [IdColumn, TotalLabel, Expression(Integer, None)]

  lemma TotalsEntries()
    ensures QueryEntries(TotalsColumns) == [Entry("id", IdColumn), Entry("total", TotalLabel)]
  {
    assert TotalsColumns[..0] == [] && TotalsColumns[..3] == TotalsColumns;
    QueryEntriesStep(TotalsColumns, 0);
    QueryEntriesStep(TotalsColumns, 1);
    QueryEntriesStep(TotalsColumns, 2);
  }

  /** Selecting a column, a labelled expression and a bare function call gives exactly two fields, the label required. */
  lemma SelectDropsFunctionCall()
    ensures var r := SelectSchema("Totals", Select(Some(TotalsColumns), None));
      && r.Success? && r.value.name == "Totals" && r.value.fields.keys == ["id", "total"]
      && r.value.fields.values["total"].info.default == Required
  {
    var e1, e2 := Entry("id", IdColumn), Entry("total", TotalLabel);
    TotalsEntries();
    BuildFieldsSnoc([], e1);
    assert [] + [e1] == [e1];
    BuildFieldsSnoc([e1], e2);
    assert [e1] + [e2] == [e1, e2];
    assert [] + ["id"] + ["total"] == ["id", "total"];
  }
}
