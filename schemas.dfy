/**
 * What both translators share: the fields dict they fill, one assignment
 * `fields[name] = __column_to_field(column)` at a time, and the arguments
 * they finally hand to pydantic's `create_model`.
 */
module Schemas {
  import opened Wrappers
  import opened Dicts
  import opened Fields

  /** The class passed as `__config__`, kept opaque; `OrmConfig` (orm_mode on) is the default. */
  datatype Config = OrmConfig | UserConfig(name: string)

  /** The call `create_model(name, __config__=config, **fields)`. */
  datatype Schema = Schema(name: string, config: Config, fields: Dict<Field>)

  /** One assignment `fields[name] = __column_to_field(column)` performed by a translator's loop. */
  datatype Entry = Entry(name: string, column: Descriptor)

  /** The names assigned to, in order. */
  function Names(es: seq<Entry>): (r: seq<string>)
    ensures |r| == |es| && forall i :: 0 <= i < |es| ==> r[i] == es[i].name
  {
    if es == [] then [] else Names(es[..|es| - 1]) + [es[|es| - 1].name]
  }

  /** One assignment `fields[e.name] = __column_to_field(e.column)` on the dict built so far. */
  function Assign(acc: Result<Dict<Field>, TranslationError>, e: Entry): (r: Result<Dict<Field>, TranslationError>)
    requires acc.Success? ==> Valid(acc.value)
    ensures acc.Failure? ==> r == acc
    ensures acc.Success? ==> (r.Success? <==> ColumnToField(e.column).Success?)
    ensures acc.Success? && r.Failure? ==> r.error == TypeNotInferred(e.column)
    ensures r.Success? ==> Valid(r.value) && r.value.values == acc.value.values[e.name := ColumnToField(e.column).value]
  {
    match acc
    case Failure(_) => acc
    case Success(d) =>
      match ColumnToField(e.column)
      case Failure(err) => Failure(err)
      case Success(f) => Success(Put(d, e.name, f))
  }

  /**
   * The dict left by performing the assignments `es` in order on `{}`, or
   * the error of the first column whose type cannot be inferred.
   */
  function BuildFields(es: seq<Entry>): (r: Result<Dict<Field>, TranslationError>)
    ensures r.Success? ==> Valid(r.value)
  {
    if es == [] then Success(Empty())
    else Assign(BuildFields(es[..|es| - 1]), es[|es| - 1])
  }

  /**
   * The fields are exactly the assigned names, listed in order of first
   * assignment, each once: the field order of the generated model.
   */
  lemma {:induction false} BuildFieldsKeys(es: seq<Entry>)
    requires BuildFields(es).Success?
    ensures BuildFields(es).value.keys == FirstOccurrences(Names(es))
    ensures forall k :: k in BuildFields(es).value.values <==> k in Names(es)
  {
    if es != [] {
      var n := |es|;
      var p := es[..n - 1];
      var e := es[n - 1];
      assert BuildFields(es) == Assign(BuildFields(p), e);
      assert BuildFields(p).Success?;
      BuildFieldsKeys(p);
      var d := BuildFields(p).value;
      assert BuildFields(es).value == Put(d, e.name, ColumnToField(e.column).value);
      assert Names(es) == Names(p) + [e.name];
    }
  }

  /** Performing one more assignment. */
  lemma BuildFieldsSnoc(es: seq<Entry>, e: Entry)
    ensures BuildFields(es + [e]) == Assign(BuildFields(es), e)
  {
    assert (es + [e])[..|es|] == es;
  }

  /** A successful last assignment stored the translation of its column in the dict built before it. */
  lemma BuildFieldsSnocSuccess(es: seq<Entry>, e: Entry, fields: Dict<Field>)
    requires BuildFields(es + [e]) == Success(fields)
    ensures BuildFields(es).Success? && ColumnToField(e.column).Success?
    ensures fields == Put(BuildFields(es).value, e.name, ColumnToField(e.column).value)
  {
    BuildFieldsSnoc(es, e);
  }

  /** `es[i]` is the first assignment whose column has no inferable type. */
  ghost predicate FirstFailureAt(es: seq<Entry>, i: int)
  {
    && 0 <= i < |es|
    && ColumnToField(es[i].column).Failure?
    && forall j :: 0 <= j < i ==> ColumnToField(es[j].column).Success?
  }

  /** Translation succeeds exactly when every assigned column has an inferable type. */
  lemma {:induction false} BuildFieldsSucceeds(es: seq<Entry>)
    ensures BuildFields(es).Success? <==> forall i :: 0 <= i < |es| ==> ColumnToField(es[i].column).Success?
  {
    if es != [] {
      var n := |es|;
      var p := es[..n - 1];
      BuildFieldsSucceeds(p);
      assert BuildFields(es) == Assign(BuildFields(p), es[n - 1]);
      if BuildFields(es).Success? {
        forall i | 0 <= i < n
          ensures ColumnToField(es[i].column).Success?
        {
          if i < n - 1 {
            assert es[i] == p[i];
          }
        }
      } else if BuildFields(p).Failure? {
        var i :| 0 <= i < n - 1 && ColumnToField(p[i].column).Failure?;
        assert es[i] == p[i];
      }
    }
  }

  /** Translation stops at the first column without a type, and reports that column. */
  lemma BuildFieldsFirstFailure(es: seq<Entry>, i: int)
    requires FirstFailureAt(es, i)
    ensures BuildFields(es) == Failure(TypeNotInferred(es[i].column))
  {
    var q := es[..i];
    forall j | 0 <= j < i
      ensures ColumnToField(q[j].column).Success?
    {
      assert q[j] == es[j];
    }
    BuildFieldsSucceeds(q);
    assert es[..i + 1][..i] == q;
    assert BuildFields(es[..i + 1]) == Assign(BuildFields(q), es[i]);
    BuildFieldsFailureIsFinal(es, i + 1);
  }

  /** Some assignment at or before `i` is the first whose column has no inferable type. */
  lemma {:induction false} FirstFailing(es: seq<Entry>, i: int) returns (i0: int)
    requires 0 <= i < |es| && ColumnToField(es[i].column).Failure?
    ensures i0 <= i && FirstFailureAt(es, i0)
    decreases i
  {
    if forall j :: 0 <= j < i ==> ColumnToField(es[j].column).Success? {
      i0 := i;
    } else {
      var j :| 0 <= j < i && ColumnToField(es[j].column).Failure?;
      i0 := FirstFailing(es, j);
    }
  }

  /** Every field holds the translation of a column assigned under its name. */
  lemma {:induction false} BuildFieldsValues(es: seq<Entry>)
    requires BuildFields(es).Success?
    ensures forall k :: k in BuildFields(es).value.values ==>
      exists e :: e in es && e.name == k && ColumnToField(e.column) == Success(BuildFields(es).value.values[k])
  {
    if es != [] {
      var n := |es|;
      var p := es[..n - 1];
      BuildFieldsValues(p);
      assert forall e :: e in p ==> e in es;
    }
  }

  /** A failure in a prefix of the assignments is the failure of the whole. */
  lemma {:induction false} BuildFieldsFailureIsFinal(es: seq<Entry>, k: nat)
    requires k <= |es| && BuildFields(es[..k]).Failure?
    ensures BuildFields(es) == BuildFields(es[..k])
    decreases |es| - k
  {
    if k < |es| {
      var n := |es|;
      assert es[..k + 1][..k] == es[..k];
      assert BuildFields(es[..k + 1]) == BuildFields(es[..k]);
      BuildFieldsFailureIsFinal(es, k + 1);
    } else {
      assert es[..k] == es;
    }
  }
}
