# pydantic-sqlalchemy, modelled in Dafny

pydantic-sqlalchemy generates pydantic models from SQLAlchemy metadata. It does this in two ways:

- `sqlalchemy_to_pydantic` builds a model from the mapped class of an ORM table.
- `sqlalchemy_select_to_pydantic` builds one from the columns of a `select`.

The two functions choose what to translate in different ways:

- `sqlalchemy_to_pydantic` walks the mapper's attributes in order. It translates only a `ColumnProperty` that has columns and whose key is not in `exclude`. For such an attribute it translates the first column and stores the result under the attribute's key (`attr.key`). That key may differ from the column's own name.
- `sqlalchemy_select_to_pydantic` walks the query's columns in order. It skips every item that is neither a `Column` nor a `Label`, such as a bare SQL function call. It stores each translated item under that item's key.

Both translate a column with `__column_to_field`, which does three things:

- It infers the Python type from the column's SQLAlchemy type. When the type has an `impl`, the `impl` alone decides: its `python_type` is the type, and an `impl` without one fails. The type's own `python_type` is consulted only when there is no `impl`. If no type can be inferred, the assertion fails.
- It makes the field required (`...`) for a non-nullable column without a default, and for every label.
- It uses the column comment as the field description.

Each result is assigned into a `fields` dict. At the end, the dict is handed to `create_model` together with the model name and the config class. The config defaults to `OrmConfig`, and `exclude` defaults to nothing; the model declares the same defaults.

The model follows the same layers:

- `Dicts`: the Python `dict` that the translators fill. Keys are kept in insertion order, and assigning an existing key keeps its position.
- `Fields`: SQLAlchemy types and column-like descriptors, plus `__column_to_field` as `ColumnToField`. The failed assertion becomes a `Failure(TypeNotInferred(column))` result.
- `Schemas`: what both translators share:
  - `Assign` is one dict assignment.
  - `BuildFields` performs a list of assignments, in order, on `{}`.
  - `Schema` holds the arguments given to `create_model`.
- `ModelTranslator`: `sqlalchemy_to_pydantic`. The method `SqlalchemyToPydantic` keeps the source's `for` loop, with its `continue` and its early failure. It is proved equal to the specification function `ModelSchema`.
- `QueryTranslator`: `sqlalchemy_select_to_pydantic`. The method `SqlalchemySelectToPydantic` is proved equal to `SelectSchema`.
- `Examples`: a three-column `User` table with a relationship, and a query mixing a column, a label and a bare function call.

When neither `selected_columns` nor `columns` exists on the query, the code follows the default `[]` of `getattr` and produces a model without fields; it raises no lookup error. The model follows the code (`QueryTranslator.SelectColumnSource`).

In `__column_to_field` the test `default is None` on line 31 always holds. It comes right after the column rule, which can only set `default` for a `Column`. So every label is required, and the model states that directly (`Fields.RequiredPolicy`).

## Model

| member | source | states |
|---|---|---|
| Dicts.Empty | pydantic_sqlalchemy/main.py:46 | the fresh dict is well formed (keys distinct, listed keys equal to stored keys) and holds nothing |
| Dicts.Put | pydantic_sqlalchemy/main.py:54 | assignment keeps the dict well formed and stores the value under the key; a new key is appended to the iteration order, an existing key keeps its position |
| Dicts.FirstOccurrences | pydantic_sqlalchemy/main.py:46-54 | the iteration order of a dict filled from a sequence of keys holds exactly the keys of the sequence, each once |
| Fields.ColumnToField | pydantic_sqlalchemy/main.py:16-39 | the assertion on line 26 fails exactly when no Python type is inferred, and the failure names the column |
| Fields.TypeFromImplOnly | pydantic_sqlalchemy/main.py:20-26 | with an `impl`, only its `python_type` counts: translation succeeds iff it exists, and the field gets that type; without `impl`, the same holds for the type's own `python_type` |
| Fields.RequiredPolicy | pydantic_sqlalchemy/main.py:17-32 | a translated field is required iff the descriptor is a label or a non-nullable column without a default |
| Fields.DescriptionFromComment | pydantic_sqlalchemy/main.py:34-38 | the description is the comment when it is a non-empty string, and absent otherwise |
| Schemas.Names | pydantic_sqlalchemy/main.py:54 | the names assigned, position by position |
| Schemas.Assign | pydantic_sqlalchemy/main.py:54 | one assignment: an earlier failure passes through; otherwise it succeeds iff the column translates, a failure names that column, and success stores the translation under the name |
| Schemas.BuildFields | pydantic_sqlalchemy/main.py:46-54 | every dict built by a sequence of assignments is well formed |
| Schemas.BuildFieldsKeys | pydantic_sqlalchemy/main.py:46-54 | the fields are exactly the assigned names, in order of first assignment, each once |
| Schemas.BuildFieldsSnoc | pydantic_sqlalchemy/main.py:54 | one more assignment extends the built dict by one `Assign` |
| Schemas.BuildFieldsSnocSuccess | pydantic_sqlalchemy/main.py:54 | a successful last assignment stored its column's translation in the dict built before it |
| Schemas.BuildFieldsSucceeds | pydantic_sqlalchemy/main.py:26 | the dict is built iff every assigned column has an inferable type |
| Schemas.BuildFieldsFirstFailure | pydantic_sqlalchemy/main.py:26 | translation fails with the error of the first column that has no type |
| Schemas.FirstFailing | pydantic_sqlalchemy/main.py:26 | if some column has no type, then there is a first such column, at or before it |
| Schemas.BuildFieldsValues | pydantic_sqlalchemy/main.py:54 | every field holds the translation of a column assigned under its name |
| Schemas.BuildFieldsFailureIsFinal | pydantic_sqlalchemy/main.py:26 | once a prefix of the assignments fails, the whole fails with the same error |
| ModelTranslator.ModelEntriesMembers | pydantic_sqlalchemy/main.py:47-54 | the loop assigns exactly the first column of each column property that has columns and a key not excluded, under that key |
| ModelTranslator.ModelEntriesAppend | pydantic_sqlalchemy/main.py:47-53 | filtering two runs of attributes one after the other is filtering their concatenation |
| ModelTranslator.ModelEntriesStep | pydantic_sqlalchemy/main.py:48-54 | one more attribute adds its own assignment when it passes the three tests, and nothing otherwise |
| ModelTranslator.ModelEntriesFailureIsFinal | pydantic_sqlalchemy/main.py:47-54 | a failure in the attributes seen so far is the failure of the whole translation |
| ModelTranslator.SqlalchemyToPydantic | pydantic_sqlalchemy/main.py:42-58 | the loop, with its `continue` and early failure, computes exactly `ModelSchema` |
| ModelTranslator.ModelSchemaFields | pydantic_sqlalchemy/main.py:45-57 | the model carries the class name and config; its fields are exactly the keys of the translated attributes, no excluded key among them; each field is the translation of the first column of an attribute with that key |
| ModelTranslator.ModelSchemaFailure | pydantic_sqlalchemy/main.py:26 | the model cannot be built iff some translated attribute's first column has no inferable type; the error names such a column |
| QueryTranslator.QueryEntriesMembers | pydantic_sqlalchemy/main.py:68-74 | the loop assigns exactly the `Column` and `Label` items, each under its key |
| QueryTranslator.QueryEntriesAppend | pydantic_sqlalchemy/main.py:68-71 | filtering two runs of columns one after the other is filtering their concatenation |
| QueryTranslator.QueryEntriesStep | pydantic_sqlalchemy/main.py:70-74 | one more column adds its own assignment when it is a `Column` or a `Label`, and nothing otherwise |
| QueryTranslator.QueryEntriesFailureIsFinal | pydantic_sqlalchemy/main.py:68-74 | a failure in the columns seen so far is the failure of the whole translation |
| QueryTranslator.QueryEntriesLast | pydantic_sqlalchemy/main.py:68-74 | the last column adds its own assignment after those of the columns before it exactly when it is a `Column` or a `Label` |
| QueryTranslator.SqlalchemySelectToPydantic | pydantic_sqlalchemy/main.py:61-76 | the loop, with its `continue` and early failure, computes exactly `SelectSchema` |
| QueryTranslator.SelectColumnSource | pydantic_sqlalchemy/main.py:66 | `selected_columns` wins whenever it exists; `columns` is used only in its absence; with neither, the model has no fields and no error is raised |
| QueryTranslator.ColumnsSchemaFields | pydantic_sqlalchemy/main.py:68-75 | the model is named `module_name` and carries the config; its fields are exactly the keys of the `Column` and `Label` items |
| QueryTranslator.LastWithKeyPrefix | pydantic_sqlalchemy/main.py:68-74 | the last kept column with a given key stays the last one when a later column is dropped |
| QueryTranslator.LastColumnWins | pydantic_sqlalchemy/main.py:73-74 | when two kept columns share a key, the field holds the translation of the later one |
| QueryTranslator.LastColumnWinsBeforeKept | pydantic_sqlalchemy/main.py:73-74 | a later assignment under another key leaves the field of the last column with a given key unchanged |
| QueryTranslator.LastColumnWinsBeforeSkipped | pydantic_sqlalchemy/main.py:70-71 | a skipped later column leaves the field of the last column with a given key unchanged |
| QueryTranslator.ColumnsSchemaFailure | pydantic_sqlalchemy/main.py:26 | the query model cannot be built iff some `Column` or `Label` has no inferable type; the error names such a column |
| Examples.UserTableKeys | pydantic_sqlalchemy/main.py:42-58 | with the default config and no exclusions, the `User` table gives a model named `User`, configured with `OrmConfig`, with fields `id`, `name`, `age` in that order, and the relationship is skipped |
| Examples.UserTableFields | pydantic_sqlalchemy/main.py:16-39 | in the `User` table only `id` is required, `name` carries its comment, and the empty comment of `age` gives no description |
| Examples.UserTableWithoutId | pydantic_sqlalchemy/main.py:51-52 | excluding `id` leaves the fields `name` and `age` |
| Examples.SelectDropsFunctionCall | pydantic_sqlalchemy/main.py:68-74 | a query of a column, a label and a bare function call gives the fields `id` and `total`, and the label is required |

## Left out

- pydantic's `create_model`, `Field` and `BaseConfig` are not modelled. The result is the `Schema` value holding the arguments `create_model` receives. The config class is an opaque token: `OrmConfig` is only its name, and its `orm_mode = True` setting is not modelled.
- `inspect(db_model)` is not modelled. A mapped class is given as its name and its mapper's attributes, in order.
- Python truthiness is modelled only where it matters:
  - a falsy `impl` counts as no `impl`;
  - a falsy `python_type` counts as none;
  - a falsy comment gives no description, and a comment is taken to be a string.
- `str(comment)` is not modelled for non-string comments.
- Exceptions raised by property access are not modelled. This includes the eager evaluation of the inner `getattr(sql, "columns", [])` on line 66.
- `str(column.key)` is not modelled for non-string keys; keys are taken to be strings.
- Python type objects are opaque names.
- The failure contracts (`Fields.ColumnToField`, `ModelTranslator.ModelSchemaFailure`, `QueryTranslator.ColumnsSchemaFailure`) describe runs with assertions enabled. Under `python -O` the `assert` on line 26 is removed: no error is raised, and `None` reaches `create_model` as the field type. The model does not cover that mode.
- `exclude` is modelled as a set of strings, tested by equality. The source accepts any `Container[str]` and uses that container's own `in`. For a `str` this is a substring test, so `exclude="identity"` would also drop a field `id`. The model does not cover such containers.
- Pydantic's own validation of the generated model is not modelled.
- `Column.default` is modelled as a flag (`hasDefault`). `server_default` is not consulted, as in the source.
- ModelTranslator.ModelSchemaFailure: says the error names some failing translated column, not the first one. Which column comes first is stated on the assignment list, by `Schemas.BuildFieldsFirstFailure`.
- ModelTranslator.ModelSchemaFields: if two attributes shared a key, it would not say which of them supplies the field. A SQLAlchemy mapper never lists two attributes under one key, so this case does not arise.
- QueryTranslator.ColumnsSchemaFailure: says the error names some failing kept column, for the same reason.
