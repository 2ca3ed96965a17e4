/**
 * The column translator: from one column-like descriptor to the Python type
 * and field information of one pydantic field (`__column_to_field`).
 */
module Fields {
  import opened Wrappers

  /** A Python type object such as `int` or `str`, kept opaque. */
  datatype PyType = PyType(name: string)

  /**
   * A SQLAlchemy type engine: a type decorator carries the type it wraps in
   * `impl`; `pythonType` is the value of its `python_type` attribute, `None`
   * when the attribute is missing or holds `None`.
   */
  datatype SqlType = SqlType(impl: Option<SqlType>, pythonType: Option<PyType>)

  /**
   * What the translator is handed: a table `Column`, a `Label`led expression,
   * or any other column expression (a function call, a binary expression).
   * `comment` is what `getattr(column, "comment", None)` yields.
   */
  datatype Descriptor =
    | Column(key: string, sqlType: SqlType, nullable: bool, hasDefault: bool, comment: Option<string>)
    | Label(key: string, sqlType: SqlType, comment: Option<string>)
    | Expression(sqlType: SqlType, comment: Option<string>)

  /** The `default` passed to pydantic's `Field`: the `...` sentinel, or `None`. */
  datatype DefaultPolicy = Required | NoneDefault

  /** The arguments given to pydantic's `Field(description=..., default=...)`. */
  datatype FieldInfo = FieldInfo(description: Option<string>, default: DefaultPolicy)

  /** The pair `(python_type, Field(...))` handed to `create_model`. */
  datatype Field = Field(pyType: PyType, info: FieldInfo)

  /** The failed `assert python_type`, naming the column it was about. */
  datatype TranslationError = TypeNotInferred(column: Descriptor)

  /**
   * Type inference: a type decorator's `impl` decides alone; only a type
   * without `impl` is asked for its own `python_type`.
   */
  function InferPythonType(t: SqlType): (r: Option<PyType>)
  {
    match t.impl
    case Some(impl) => impl.pythonType
    case None => t.pythonType
  }

  /** `__column_to_field`, with the failing assertion as a `Failure`. */
  function ColumnToField(c: Descriptor): (r: Result<Field, TranslationError>)
    // the assertion fails exactly when no type is inferred, and names the column
    ensures r.Failure? <==> InferPythonType(c.sqlType).None?
    ensures r.Failure? ==> r.error == TypeNotInferred(c)
  {
    var pythonType := InferPythonType(c.sqlType);
    if pythonType.None? then Failure(TypeNotInferred(c))
    else
      var default := if c.Column? && !c.hasDefault && !c.nullable then Required else NoneDefault;
      var default := if c.Label? && default == NoneDefault then Required else default;
      var description := if c.comment.Some? && c.comment.value != "" then Some(c.comment.value) else None;
      Success(Field(pythonType.value, FieldInfo(description, default)))
  }

  /**
   * A truthy `impl` is the only source of the type: the type's own
   * `python_type` is never consulted as a fallback, so an `impl` without one
   * fails. Only a type without `impl` is asked for its own `python_type`.
   */
  lemma TypeFromImplOnly(c: Descriptor)
    ensures c.sqlType.impl.Some? ==>
      (ColumnToField(c).Success? <==> c.sqlType.impl.value.pythonType.Some?) &&
      (ColumnToField(c).Success? ==> Some(ColumnToField(c).value.pyType) == c.sqlType.impl.value.pythonType)
    ensures c.sqlType.impl.None? ==>
      (ColumnToField(c).Success? <==> c.sqlType.pythonType.Some?) &&
      (ColumnToField(c).Success? ==> Some(ColumnToField(c).value.pyType) == c.sqlType.pythonType)
  {
  }

  /**
   * The field is required (`...`) exactly for a non-nullable column without a
   * default and for every label; any other column gets `default=None`.
   */
  lemma RequiredPolicy(c: Descriptor)
    requires ColumnToField(c).Success?
    ensures ColumnToField(c).value.info.default == Required <==>
      c.Label? || (c.Column? && !c.hasDefault && !c.nullable)
  {
  }

  /** The description is the comment when it is a non-empty string, and absent otherwise. */
  lemma DescriptionFromComment(c: Descriptor)
    requires ColumnToField(c).Success?
    ensures ColumnToField(c).value.info.description ==
      if c.comment.Some? && c.comment.value != "" then c.comment else None
  {
  }
}
