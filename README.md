# CrossColumnMappingTransformer, modelled in Dafny

This project models `CrossColumnMappingTransformer` from the tubular feature-engineering
library. The transformer rewrites one *adjust column* of a table. It takes an ordered
sequence of mapping entries `(source_column, value_map)` and applies them in
insertion order. For each entry, every row whose `source_column` value is a key of
`value_map` gets that key's image written into the adjust column. A later entry
overwrites an earlier one, so the last write wins. Rows that no entry matches keep
their value, and every other column comes back unchanged. Construction checks that
`adjust_column` is a string. It also checks that a mapping with more than one entry
is passed as an ordered dict. `transform` fails with a value error when a column it
needs is missing from the table.

The repository's implementation module is not part of this model. Its behaviour is
taken from its unit tests (`tests/mapping/test_CrossColumnMappingTransformer.py`),
which pin down the messages, the expected outputs and the ordering semantics.

Layout:

- `table.dfy` (module `Table`): cell values (`Int` or `Str`) and a table made of a
  row count and named columns. `Valid()` says every column has that many rows.
- `errors.dfy` (module `Errors`): the `Result` type and the four error conditions.
  Each condition has its Python exception kind and its message text.
- `ordered_mappings.dfy` (module `OrderedMappings`): mapping entries. It also models
  the ordered dict that the ordered-dict test fills one key at a time: the class
  `OrderedDict` with method `Set`, checked against the function `Assigned`.
- `cross_column.dfy` (module `CrossColumnMapping`): construction (`New`), `Fit`, and
  the specification of `transform`. That specification is built from `Substitute`
  (one pass of a value map), `ApplyEntry`, `ApplyEntries` and `TransformSpec`. The
  reference definition `LastMatch` says directly which entry wins each row, and the
  theorem `LastWriteWins` links the two. `Transform` is the imperative version: it
  checks the columns, copies the adjust column into an array, and rewrites it in
  place with an outer loop over the entries and an inner loop over the rows.
- `scenarios.dfy` (module `Scenarios`): the unit tests' expected outputs, replayed as
  lemmas. It also has one client method that fills an `OrderedDict`, constructs the
  transformer and calls `Transform`.

Design decisions the tests leave open:

- Construction checks `adjust_column` first and the ordering requirement second.
- `transform` checks the source columns first, in entry order, and reports the
  first missing one. It checks the adjust column after that.
- Each entry is one simultaneous row-wise substitution, judged on the table as it
  stands when the entry begins. An entry whose source column is the adjust column
  therefore sees the writes of earlier entries. The in-place method reads that
  source from the array it is rewriting, and this gives the same result, because
  each row is read before it is written.
- Rows are positional. The row index of a dataframe plays no part.

## Model

| member | source | states |
|---|---|---|
| `CrossColumnMapping.New` | tests/mapping/test_CrossColumnMappingTransformer.py:26-43 | Construction succeeds exactly when `adjust_column` is a string and the mapping has at most one entry or is ordered. A non-string `adjust_column` fails with AdjustColumnNotString, and an unordered mapping of two or more entries fails with MappingsNotOrdered. Both failures are TypeErrors. On success the entries and the adjust column are stored as given. |
| `CrossColumnMapping.Substitute` | tests/mapping/test_CrossColumnMappingTransformer.py:119-131 | One pass of a value map. A row whose source value is a key takes the key's image. Every other row keeps its target value. The length is unchanged. |
| `CrossColumnMapping.ApplyEntry` | tests/mapping/test_CrossColumnMappingTransformer.py:73-81 | Applying one entry keeps the table valid, with the same row count and column names. Every column other than the adjust column is unchanged. |
| `CrossColumnMapping.ApplyEntries` | tests/mapping/test_CrossColumnMappingTransformer.py:76-78 | Applying the entries in order keeps the table valid, with the same row count and column names. Every column other than the adjust column, including every source column, is unchanged. |
| `CrossColumnMapping.ApplyEntriesSnoc` | tests/mapping/test_CrossColumnMappingTransformer.py:139-146 | Appending an entry to the mapping adds exactly one more pass after the earlier ones, so insertion order is application order. |
| `CrossColumnMapping.LastWriteWins` | tests/mapping/test_CrossColumnMappingTransformer.py:73-81 | For every row, the final adjust value is the value of the last entry that matches that row. When no entry matches, the row keeps its original value. This is stated against the reference definition `LastMatch`. |
| `CrossColumnMapping.UnmatchedHasNoMatch` | tests/mapping/test_CrossColumnMappingTransformer.py:67-71 | No entry matches a row exactly when `LastMatch` finds nothing for that row. |
| `CrossColumnMapping.UnmatchedRowKept` | tests/mapping/test_CrossColumnMappingTransformer.py:119-131 | A row that no entry matches keeps its adjust value, for any mappings, including entries whose source column is the adjust column. |
| `CrossColumnMapping.LaterEntryOverrides` | tests/mapping/test_CrossColumnMappingTransformer.py:137-152 | With two entries, the second of which does not read the adjust column, a row that the second entry matches takes the second entry's value. A row that only the first entry matches takes the first entry's value. |
| `CrossColumnMapping.SingleEntry` | tests/mapping/test_CrossColumnMappingTransformer.py:101-131 | With one entry, a matched row takes the image of its source value and an unmatched row keeps its value. This holds even when the source column is the adjust column. |
| `CrossColumnMapping.FirstMissing` | tests/mapping/test_CrossColumnMappingTransformer.py:83-95 | Finds nothing exactly when every source column is in the table. Otherwise it gives the position of a missing source column, and every source column before that position is present. |
| `CrossColumnMapping.FirstMissingIsFirst` | tests/mapping/test_CrossColumnMappingTransformer.py:83-95 | A missing source column with no missing column before it is the one `FirstMissing` reports. |
| `CrossColumnMapping.TransformSpec` | tests/mapping/test_CrossColumnMappingTransformer.py:83-113 | Transform succeeds exactly when every source column and the adjust column are in the table. A missing source column fails with ColumnNotInX, naming a source column the table lacks. A missing adjust column fails with AdjustColumnNotInX(adjust_column). All these failures are ValueErrors, and no table is returned. On success the result is valid, has the same rows and column names, and leaves every column except the adjust column unchanged. |
| `CrossColumnMapping.Fit` | tests/mapping/test_CrossColumnMappingTransformer.py:46-51 | `fit` learns nothing and returns the transformer unchanged, whatever the table. |
| `CrossColumnMapping.FitKeepsTransform` | tests/mapping/test_CrossColumnMappingTransformer.py:46-51 | Fitting does not change what transform returns on any table. |
| `CrossColumnMapping.ApplyEntryOnColumn` | tests/mapping/test_CrossColumnMappingTransformer.py:73-81 | Applying an entry to a table whose adjust column is `c` gives the same table with `c` replaced by one pass of the entry over `c`. |
| `CrossColumnMapping.CheckSources` | tests/mapping/test_CrossColumnMappingTransformer.py:83-95 | A loop over the entries that returns exactly `FirstMissing`. |
| `CrossColumnMapping.ApplyEntryInPlace` | tests/mapping/test_CrossColumnMappingTransformer.py:73-81 | After the row loop, the array holds one pass of the entry over its old contents. When the source column is the adjust column, the source is the array's own old contents. |
| `CrossColumnMapping.RewriteAdjust` | tests/mapping/test_CrossColumnMappingTransformer.py:137-152 | The entry loop over a copy of the adjust column. Putting the result back into the table gives exactly `ApplyEntries`. |
| `CrossColumnMapping.Transform` | tests/mapping/test_CrossColumnMappingTransformer.py:83-113 | The imperative transform returns exactly `TransformSpec`, the error cases included. |
| `Errors.MessagePrefixed` | tests/mapping/test_CrossColumnMappingTransformer.py:28-31 | Every error message starts with "CrossColumnMappingTransformer: ". |
| `OrderedMappings.Columns` | tests/mapping/test_CrossColumnMappingTransformer.py:139-142 | Lists the source columns of the entries, position by position. |
| `OrderedMappings.Lookup` | tests/mapping/test_CrossColumnMappingTransformer.py:139-142 | Finds a value map exactly when the column is one of the keys, and the map it finds is the one stored with the first entry under that key. |
| `OrderedMappings.AssignedNewKeyAppends` | tests/mapping/test_CrossColumnMappingTransformer.py:139-142 | Assigning a new key appends the entry at the end. |
| `OrderedMappings.AssignedExistingKeyReplaces` | tests/mapping/test_CrossColumnMappingTransformer.py:139-142 | Assigning an existing key replaces its value in place, and no other entry moves. |
| `OrderedMappings.AssignedLookup` | tests/mapping/test_CrossColumnMappingTransformer.py:139-142 | After `d[k] = v`, the key `k` maps to `v` and every other key maps to what it did before. |
| `OrderedMappings.AssignedColumns` | tests/mapping/test_CrossColumnMappingTransformer.py:139-142 | The key order after an assignment is the old key order, with the key added last if it is new. |
| `OrderedMappings.AssignedDistinct` | tests/mapping/test_CrossColumnMappingTransformer.py:139-142 | Assignment keeps the keys distinct, so an `OrderedDict` never holds a key twice. |
| `OrderedMappings.OrderedDict.constructor` | tests/mapping/test_CrossColumnMappingTransformer.py:139 | A new ordered dict is empty and valid (its keys are distinct). |
| `OrderedMappings.OrderedDict.Set` | tests/mapping/test_CrossColumnMappingTransformer.py:141-142 | The new entries are exactly `Assigned(old entries, column, values)`, and the keys stay distinct. |
| `Scenarios.OneEntryTransform` | tests/mapping/test_CrossColumnMappingTransformer.py:101-131 | For the first fixture table, a one-entry mapping on `a` is accepted, and transform rewrites only `b`, by one pass over `a`. |
| `Scenarios.ExpectedOutput` | tests/mapping/test_CrossColumnMappingTransformer.py:101-113 | With the mapping `1..6 -> "aa".."ff"`, `b` ends as `aa, bb, cc, dd, ee, ff` and `a` is unchanged (`expected_df_1`), whatever `b` was. |
| `Scenarios.NonSpecifiedValuesUnchanged` | tests/mapping/test_CrossColumnMappingTransformer.py:115-131 | With the mapping `1..3 -> "aa".."cc"`, `b` ends as `aa, bb, cc, d, e, f` (`expected_df_2`). |
| `Scenarios.AdjustColumnNotInTable` | tests/mapping/test_CrossColumnMappingTransformer.py:83-95 | With adjust column `c` absent, transform fails with a ValueError whose message is "CrossColumnMappingTransformer: variable c is not in X". |
| `Scenarios.AdjustColumnNonString` | tests/mapping/test_CrossColumnMappingTransformer.py:26-32 | `adjust_column=1` fails with a TypeError whose message is "CrossColumnMappingTransformer: adjust_column should be a string". |
| `Scenarios.MappingsNotOrderedDict` | tests/mapping/test_CrossColumnMappingTransformer.py:34-43 | Two entries in a plain dict fail with a TypeError that carries the "mappings should be an ordered dict ..." message. |
| `Scenarios.OrderedDictBuilt` | tests/mapping/test_CrossColumnMappingTransformer.py:139-142 | Filling the ordered dict with `a` and then `b` gives the entries in that order. |
| `Scenarios.PassOnA` | tests/mapping/test_CrossColumnMappingTransformer.py:141 | The pass on `a` over the seventh fixture table rewrites rows 1 to 3 to "bb", "bb", "aa" and leaves rows 0 and 4 as they were. |
| `Scenarios.PassOnB` | tests/mapping/test_CrossColumnMappingTransformer.py:142 | The pass on `b` rewrites every row except row 2 (b = "y") to "cc" or "dd". |
| `Scenarios.MultipleMappingsInOrder` | tests/mapping/test_CrossColumnMappingTransformer.py:73-81 | The two entries applied in order give `expected_df_3` exactly: row 1 ends "dd" rather than "bb", row 2 ends "bb", and `a` and `b` are unchanged. |
| `Scenarios.ReversedOrderDiffers` | tests/mapping/test_CrossColumnMappingTransformer.py:137-152 | With the two entries swapped, row 1 ends "bb" and the result is not `expected_df_3`, so the order matters. |
| `Scenarios.MultipleMappingsOrderedDict` | tests/mapping/test_CrossColumnMappingTransformer.py:137-152 | Step by step as in the test: fill an `OrderedDict`, construct the transformer, call `Transform`. The result is `Success(expected_df_3)`. |

## Left out

- The implementation module of the transformer is not part of this model. The model follows its unit tests; where the tests say nothing, it makes the choices listed under Design decisions.
- Whatever argument checks the base class `BaseMappingTransformer` makes are not modelled, because its source is not part of this model; their conditions and messages are not known. `MappingsArg` therefore holds well-typed entries only, and it does not enforce that a dict's keys are distinct.
- Missing source columns: the base class's exact message is not known. The model reports `ColumnNotInX(column)` with the same "variable … is not in X" wording that the adjust-column error uses.
- The order of the checks is not pinned by the tests. The model assumes that the source-column checks run first and the adjust-column check after them; a different order changes only which error is reported when both kinds of column are missing.
- The key order inside one value map is not modelled. Each entry is a simultaneous substitution, judged on the table as it stands when the entry begins. An implementation that walks the keys one by one could chain substitutions inside a single entry whose source column is the adjust column.
- LastWriteWins: stated only for mappings in which no entry's source column is the adjust column. Otherwise an entry's matches depend on earlier writes; only `SingleEntry` (one entry) and the definition of `ApplyEntries` describe that case.
- LaterEntryOverrides: stated only when the second entry's source column is not the adjust column, because such an entry would read the value the first entry wrote; the first entry may read the adjust column.
- `test_mappings_unchanged` (lines 154-168): the transformer is an immutable value passed to `Transform` by value, so its stored mappings cannot change and no contract is needed. Aliasing between the caller's dict and the transformer is not modelled.
- Whether `transform` mutates the caller's dataframe in place is not modelled. The model returns a new table, and it rewrites a private array copy of the adjust column.
- The inherited test classes (`BaseMappingTransformerInitTests`, `GenericFitTests`, `BaseMappingTransformerTransformTests`, `OtherBaseBehaviourTests`) are not modelled: their source is not part of this model. `fit` is modelled only as returning the transformer unchanged.
- The fixture builders `create_df_1` and `create_df_7` are not part of this model. The scenario lemmas fix the input columns that the expected outputs fix, and they take every other input column as an arbitrary parameter.
- The index variations that the tests run over are not modelled. Rows are positional.
- pandas dtypes, NaN, and mixed-type equality are not modelled. For example, pandas treats `1 == 1.0` as true. Cell values here are integers or strings, compared structurally.
- The exception class hierarchy is reduced to the kinds TypeError and ValueError.
- `docs/conf.py` is documentation configuration with no behaviour, so it is not modelled.
