# squint's SQL builder, in Dafny

squint turns an ordered list of *bits* into one SQL string with `?`
placeholders and a list of binds in the same order. A bit can be literal SQL
text, a `Bind` string, a scalar, a pointer, a slice or array, a map, a
struct, a conditional group built by `If`, or an inline option. The text
emitted so far sets the *context* (INSERT, SET, IN or BASE). The context
decides how a slice, map or struct is rendered:
- a column list with a `VALUES` row (or several rows for a slice of structs);
- a `SET` assignment list;
- an `AND`-joined predicate, where slices become `IN` lists;
- a parenthesised placeholder list.

Maps and structs are first *sifted* into columns and values. Sifting reads
struct tags and drops, keeps or nulls empty values according to the
configured empty mode.

The project has these modules:

- `Values` (values.dfy): the closed set of values that stands in for Go
  reflection. It also holds `KindOf` (reflect's `Kind`), `IsZero` and the
  configuration record.
- `Compat` (compat.dfy): the deprecated `EmptyValues`/`NilValues` options and
  the empty-value handler they build.
- `SqlText` (sqlbuf.dfy): the whitespace-aware text buffer and the bind list,
  each a class with one mutating `Add`.
- `SqlContext` (context.dfy): the context detector. Its three regular
  expressions are stated as predicates over the trailing
  white-space-separated tokens of the text. `SqlContext.ContextOf` is
  `query.Context` (query.go:74-86): INSERT is tested first, then SET, then
  IN, and anything else is BASE. `Queries.Query.Context` returns it for the
  query's text. Its behaviour is stated by the `SqlContext` lemmas below.
- `Sorting` (sorting.dfy): `sort.Strings`, an in-place insertion sort over an
  array of strings.
- `Sifter` (sift.dfy): `checkValue`, `mapField` and the sifting of structs
  and maps, as specification functions.
- `QuerySpec` (queryspec.dfy): the state of a query (SQL text, binds,
  options, `keepAll`, and whether Go would have panicked). Each operation is
  a function from state to state.
- `Queries` (query.dfy): the `query` type as a class whose `sqlBuf` and
  `sqlBinds` are updated in place. Every method is proved to produce the
  state its `QuerySpec` function describes.
- `MultiRows` (multirow.dfy): the multi-row insert of a slice of structs,
  row by row: its text, its binds and why the rows line up.
- `QueryProps`, `QueryGrowth` (queryprops.dfy, querygrowth.dfy): properties
  of whole builds. They cover conditions, concatenation, `IN` lists,
  placeholder/bind balance, monotone growth and worked examples.
- `Conditions`, `Squint` (squint.dfy): `If` and the `Builder`, with `Build`,
  `Option` and `HasValues`.
- `Driver` (driver.dfy): the `database/sql` driver's packing of arguments
  around `Build`.

Where the files disagree, the model follows query.go.
- squint.go:40 shares the builder's options with the query through a
  pointer. query.go:66 declares a value field, so here a build works on a
  copy: an inline option affects the rest of that build only.
- query.go reads `opt.tag` and `opt.empty`, which options.go's `Options`
  does not declare. The configuration is therefore a record of those two
  fields plus the compatibility flags that compat.go writes.

## Model

| member | source | states |
|---|---|---|
| SqlText.SqlBuf.Add | query.go:16-35 | the buffer becomes `Join(old, add)` |
| SqlText.JoinShape | query.go:16-35 | adding "" leaves the text alone; into an empty buffer the text is the added text; otherwise old text, then a separator chosen from the last and first characters, then the added text, so the old text stays a prefix and the added text is the suffix |
| SqlText.SeparatorCases | query.go:21-31 | the separator is ", " exactly when a `?` meets a `?`, nothing exactly when the text starts with a comma or a space is already at the junction, and one space in every other case |
| SqlText.JoinSpaced | query.go:27-28 | when no special case applies the two pieces are joined with one space |
| SqlText.JoinThen | query.go:16-35 | the separator depends only on the first character added, so adding `a + b` is adding `a` and then the bare text `b` |
| SqlText.JoinCount | query.go:16-35 | the separator never adds or removes a `?`: the placeholder count of the result is the sum of both counts |
| SqlText.CountAppend | query.go:16-35 | placeholder count is additive over concatenation |
| SqlText.SqlBinds.Add | query.go:43-45 | the bind list becomes the old list followed by the new binds |
| SqlContext.TrimRight | query.go:59-61 | the trimmed text is a prefix of the text, ends in a non-space, and everything cut off is white space |
| SqlContext.TokenStart | query.go:59-61 | the last token starts after white space and contains none |
| SqlContext.TrailingSpaceIgnored | query.go:59-61 | trailing white space never changes the context (`\s*$`) |
| SqlContext.TrimRightSpaces | query.go:59-61 | trimming text with white space appended gives the trimmed text |
| SqlContext.ContextIgnoresCase | query.go:59-61 | the context of upper-cased text is the context of the text (`(?i)`) |
| SqlContext.TrimRightUpper | query.go:59-61 | trimming commutes with upper-casing |
| SqlContext.TokenStartUpper | query.go:59-61 | upper-casing does not move token boundaries |
| SqlContext.KeywordUpper | query.go:59-61 | a keyword with its word boundary is found in upper-cased text exactly when it is found in the text |
| SqlContext.WordTokenUpper | query.go:59 | `\w+` tokens are the same before and after upper-casing |
| SqlContext.CiEqualUpper | query.go:59-61 | case-insensitive keyword equality is unchanged by upper-casing |
| SqlContext.InsertHeadUpper | query.go:59 | the head (INSERT or REPLACE, then word tokens) matches upper-cased text exactly when it matches the text |
| SqlContext.InsertTailUpper | query.go:59 | the whole INSERT ... INTO target pattern matches upper-cased text exactly when it matches the text |
| SqlContext.UpperAllSlice | query.go:59-61 | upper-casing commutes with taking a prefix or a suffix |
| SqlContext.WordCharUpper | query.go:59-61 | a character is a `\w` character exactly when its upper case is |
| SqlContext.TokenStartAfterSpace | query.go:59-61 | after a space, the last token of the text is everything that follows, when that holds no white space |
| SqlContext.LastTwoTokens | query.go:59-60 | in `a w b` with space-free tokens `w` and `b`, the trimmed text is the text and the last two tokens are `w` and `b` |
| SqlContext.InsertTailTokens | query.go:59 | `a w b` ends an INSERT statement exactly when `w` is INTO and `a` ends in the INSERT head |
| SqlContext.InsertHeadWords | query.go:59 | INSERT or REPLACE followed by any number of word tokens is an INSERT head |
| SqlContext.InsertIntoTarget | query.go:74-76 | INSERT or REPLACE, any word tokens, INTO and a target name is INSERT context |
| SqlContext.NoIntoNoInsert | query.go:59 | when the next to last token is not INTO the text does not end an INSERT statement |
| SqlContext.SetLast | query.go:74-79 | text ending in SET is SET context unless it ends an INSERT statement |
| SqlContext.InLast | query.go:74-82 | text ending in IN is IN context unless it ends an INSERT statement |
| SqlContext.SetAfterWord | query.go:74-79 | SET after a space-free word is SET context |
| SqlContext.InAfterWord | query.go:74-82 | IN after a space-free word is IN context |
| SqlContext.InsertIgnoreIsInsert | query.go:74-76 | "INSERT IGNORE INTO junk" is INSERT context |
| SqlContext.InsertSetIsSet | query.go:74-86 | "INSERT INTO junk SET" is in SET context: the INSERT pattern needs its target `junk` to be the last token, and SET follows it |
| SqlContext.UpdateSetIsSet | query.go:74-79 | "UPDATE table SET" is SET context |
| SqlContext.WhereInIsIn | query.go:74-82 | "WHERE id IN" is IN context |
| SqlContext.JoinIsNotIn | query.go:61 | "JOIN" is in BASE context: the word boundary before IN fails |
| Sifter.CheckValue | query.go:294-314 | a non-zero value is kept as it is; a zero value is dropped exactly when the effective mode (the given mode, or the configured one for the default mode) is omit and `keepAll` is off; null mode keeps nil; otherwise the value is kept |
| Queries.Query.CheckValue | query.go:294-314 | the method returns the decision of the specification function for the query's options and `keepAll` |
| Sifter.FieldMapping | query.go:317-350 | an unexported field or the tag `-` gives no name; without a tag key the Go field name is used; otherwise the mode is the last mode token and the name the last other token, falling back to the field name |
| Queries.Query.MapField | query.go:317-350 | the method returns the specification's name and mode for the configured tag key |
| Sifter.LastNameIsLast | query.go:330-341 | the name is the last token that is not a mode keyword |
| Sifter.LastNameNone | query.go:330-347 | when every token is a mode keyword no name is taken from the tag |
| Sifter.LastModeIsLast | query.go:330-341 | the mode is set by the last mode keyword |
| Sifter.TrailingCommaDropsName | query.go:330-347 | a tag `name,` ends in an empty token, which is then the last name token, so the Go field name is used |
| Sifter.Split | query.go:330 | `strings.Split` yields at least one part, none containing the separator, all made of the input's characters |
| Sifter.SplitJoin | query.go:330 | joining the parts of a split with the separator gives back the tag |
| Sifter.JoinSplit | query.go:330 | splitting separator-free parts joined by the separator gives back the parts |
| Sifter.SplitNoSep | query.go:330 | text without a comma splits into itself |
| Sifter.SplitAtSep | query.go:330 | a split at the first separator is the head followed by the split of the rest |
| Sifter.SiftStruct | query.go:264-289 | every column has a name, and every value is nil or a part of the struct |
| Sifter.SiftFields | query.go:268-286 | the same for the columns of any run of fields |
| Sifter.FieldColumns | query.go:272-285 | the same for one field: an embedded struct's columns, or the field's own column |
| Sifter.KeepAllSameColumns | query.go:163-180 | with `keepAll`, two structs of the same shape give the same column names, so the rows of a multi-row insert line up |
| Sifter.KeepAllSameFieldColumns | query.go:163-180 | the same for the first n fields of two structs of the same shape |
| Sifter.FieldColumnsSameShape | query.go:163-180 | the same for two fields of the same shape |
| MultiRows.RowColumnsFacts | query.go:171-177 | one row binds its values in order, keeps the options, and after the first row adds `, ` and the placeholder row |
| MultiRows.MultiRowIsFold | query.go:168-178 | the multi-row loop is a fold over the rows' column lists |
| MultiRows.FoldBinds | query.go:177 | the fold binds every row's values, row after row |
| MultiRows.FoldNoPanic | query.go:176 | rows that all have columns do not panic |
| MultiRows.RowsValsLength | query.go:177 | rows of n columns bind n values each |
| MultiRows.NextRowText | query.go:174-176 | a later row adds `, ` and then its placeholder row |
| MultiRows.FoldLaterText | query.go:173-176 | the rows after the first add `, ( ?, …, ? )` each, with n placeholders |
| MultiRows.FoldText | query.go:171-176 | the text is the column list, the first row, then one placeholder row per further row |
| MultiRows.SameShapeWidth | query.go:163-180 | with `keepAll`, rows of one shape have the column names and number of the first row |
| MultiRows.MultiRowShape | query.go:166-180 | rows of one shape add the first row's column list, then `len(cols)` placeholders and binds per row, each row's values in order, and no panic |
| MultiRows.SliceInsertRows | query.go:149-186 | a well-formed non-empty slice of structs after an INSERT target is rendered so, and `keepAll` is off afterwards |
| Queries.Query.SiftStruct | query.go:264-289 | the method returns the names and values of the specification's columns |
| Queries.Query.SiftField | query.go:272-285 | the loop step returns the columns of one field |
| Sifter.SiftMap | query.go:238-261 | the columns are strictly sorted, they are exactly the keys whose values are kept, and each value is the checked value of its key |
| Queries.Query.SiftMap | query.go:238-261 | whatever order the keys are visited in, the result is the specification's sorted columns and values |
| Queries.Query.CollectKept | query.go:244-250 | after visiting every key, the keys collected are those kept and the value map holds their checked values |
| Queries.SortKeys | query.go:252 | the keys come back sorted and as a permutation of the input |
| Sorting.SortStrings | query.go:252 | the array is sorted in place and is a permutation of its old contents |
| Sorting.StrictlySortedUnique | query.go:252 | two strictly sorted sequences with the same elements are equal, so the sorted keys do not depend on visiting order |
| Sorting.LexLeTotal | query.go:252 | string order is total |
| Sorting.LexLeAntisymmetric | query.go:252 | string order is antisymmetric |
| Sorting.LexLeTransitive | query.go:252 | string order is transitive |
| Queries.LookUp | query.go:255-258 | the binds are the value map's entries in column order |
| Queries.SortedKeysAreNames | query.go:238-261 | the sorted collected keys are the specification's column names, and looking them up gives its values |
| Queries.DistinctPermutation | query.go:244-252 | a permutation of distinct keys is distinct |
| Queries.PermutationElems | query.go:252 | a permutation has the same elements |
| Queries.SortedDistinct | query.go:252 | sorted distinct keys are strictly sorted |
| Sifter.Sift | query.go:226-235 | anything other than a struct or map gives no columns; every value is nil or a part of the input |
| Queries.Query.Sift | query.go:226-235 | the method returns the specification's columns and values |
| Sifter.EmptyMapNoColumns | query.go:238-261 | an empty map gives no columns under every configuration |
| Sifter.AllEmptyMapColumns | query.go:238-261 | a map whose values are all empty gives columns exactly when the configured mode is not omit or `keepAll` is on |
| Sifter.SiftMapBelow | query.go:238-261 | every value of a sifted map is nil or part of the map |
| Queries.Query.constructor | squint.go:40 | a new query holds empty text, no binds and the given options |
| Queries.Query.Add | query.go:89-116 | adding a bit changes the query as the specification's `Add` describes |
| Queries.Query.AddString | query.go:121-128 | a `Bind` string adds one `?` and binds the string; a plain string adds its text |
| Queries.Query.AddPointer | query.go:131-142 | a nil pointer binds nil, a pointer to a string binds the string, any other pointer adds its target |
| Queries.Query.AddSlice | query.go:149-186 | the context picks an IN list, a multi-row insert (with `keepAll` on while it runs, off afterwards) or one bit per element |
| Queries.Query.AddInList | query.go:153-162 | the IN list as the specification describes it |
| Queries.Query.AddRows | query.go:166-180 | the rows of a multi-row insert, first the column list and then one placeholder row per element |
| Queries.Query.AddRow | query.go:169-177 | one row of a multi-row insert; a row with no columns is the panic of `strings.Repeat` |
| Queries.Query.AddElements | query.go:182-184 | each element is added as a bit, in order |
| Queries.Query.AddComplex | query.go:189-223 | a struct or map is sifted and rendered for the current context |
| Queries.Query.AddInsertColumns | query.go:193-198 | with columns, the column list and one placeholder row; without, nothing |
| Queries.Query.AddSetColumns | query.go:199-206 | the comma-separated assignments, each binding its value |
| Queries.Query.AddAssignment | query.go:201-205 | one `name = ?` assignment, after a comma when it is not the first |
| Queries.Query.AddBaseColumns | query.go:207-221 | the AND-joined conditions |
| Queries.Query.AddCondition | query.go:209-220 | one condition, after `AND` when it is not the first |
| Queries.Query.AddColumnCondition | query.go:213-220 | a slice or array value becomes `name IN` and a list; any other value becomes `name = ?` with one bind |
| Queries.SetColumnsStep | query.go:200-206 | one loop step of the SET list advances the specification by one column |
| Queries.BaseColumnsStep | query.go:208-221 | one loop step of the conditions advances the specification by one column |
| Queries.MultiRowUnfold | query.go:168-178 | one loop step of the multi-row insert advances the specification by one row |
| QueryProps.BuildNothing | squint.go:39-47 | building no bits gives empty text and no binds |
| QueryProps.AddAllAppend | squint.go:42-44 | adding `a + b` is adding `a` and then `b` to the resulting state |
| QueryGrowth.BuildExtends | squint.go:39-47 | the text and binds of a build are prefixes of those of any longer build |
| QueryGrowth.AddGrows | query.go:89-116 | adding a bit only appends to the text and the binds, never turns `keepAll` on from outside a multi-row insert, and never clears a panic |
| QueryGrowth.AddAllGrows | query.go:93-95 | the same for a run of bits |
| QueryGrowth.AddStringGrows | query.go:121-128 | the same for a string |
| QueryGrowth.AddPointerGrows | query.go:131-142 | the same for a pointer |
| QueryGrowth.AddSliceGrows | query.go:149-186 | the same for a slice, since `keepAll` is reset at the end of a multi-row insert |
| QueryGrowth.InListGrows | query.go:153-162 | the same for an IN list |
| QueryGrowth.PlaceholdersGrows | query.go:155-158 | the same for its placeholders |
| QueryGrowth.MultiRowGrows | query.go:168-178 | the same for the rows of a multi-row insert |
| QueryGrowth.RowColumnsGrows | query.go:171-177 | the same for one row |
| QueryGrowth.AddComplexGrows | query.go:189-223 | the same for a struct or map |
| QueryGrowth.InsertColumnsGrows | query.go:193-198 | the same for an INSERT record |
| QueryGrowth.SetColumnsGrows | query.go:199-206 | the same for a SET list |
| QueryGrowth.BaseColumnsGrows | query.go:207-221 | the same for a predicate |
| QueryGrowth.BaseColumnGrows | query.go:213-220 | the same for one condition |
| QueryGrowth.GrowsTrans | query.go:89-116 | growth composes |
| QueryProps.FalseConditionVanishes | query.go:91-96 | a false condition anywhere in a build leaves the result as if it were absent |
| QueryProps.TrueConditionSplices | query.go:91-96 | a true condition gives the result of splicing its bits in place |
| QueryProps.SliceAfterIn | query.go:153-162 | in IN context a slice adds `( ?, ?, … )`, or `( NULL )` when empty, and binds its elements in order |
| QueryProps.InListShape | query.go:153-162 | the text added by an IN list and its binds, for any number of elements |
| QueryProps.EmptyInListShape | query.go:159-162 | an empty list is `( NULL )` with no binds |
| QueryProps.NonEmptyInListShape | query.go:154-162 | a non-empty list is `( ?` followed by `, ?` for each further element and ` )` |
| QueryProps.PlaceholdersText | query.go:155-158 | after a `?`, each further element adds `, ?` and binds the element |
| QueryProps.OpenedPlaceholders | query.go:154-158 | after `(`, the placeholders are ` ?` and then `, ?` per further element, with the elements bound in order |
| QueryProps.LaterPlaceholders | query.go:155-158 | the placeholders after the first one, with their binds |
| QueryProps.FirstPlaceholder | query.go:154-157 | the first placeholder after `(` is spaced from it |
| QueryProps.NextPlaceholder | query.go:25-26 | a placeholder after a placeholder is separated by a comma |
| QueryProps.RepeatEndsInPlaceholder | query.go:176 | a repeated `, ?` ends in a placeholder |
| QueryProps.EndsInPlaceholder | query.go:176 | text ending in `?` still ends in `?` after repeated `, ?` |
| QueryProps.RowTextSplit | query.go:176 | a placeholder row is `(` followed by its placeholders and ` )` |
| QueryProps.SetColumnsBinds | query.go:199-206 | a SET list binds the column values in column order |
| QueryProps.RecordBinds | query.go:193-206 | in INSERT or SET context a record binds exactly its sifted values, in column order |
| QueryProps.BuildBalanced | query.go:89-223 | a build's text holds exactly as many `?` as it has binds, when no `?` reaches the text from a bit other than as a placeholder: literal strings, map keys, column names under every tag key and slice elements are free of `?`, while `Bind` strings, string-pointer targets and record values may hold any character |
| QueryProps.BalanceAdd | query.go:89-116 | every bit satisfying `QFree` adds as many placeholders as binds; `QFree` bans `?` in literal text, map keys, column names under every tag key and every slice element, whatever the context |
| QueryProps.BalanceAddAll | query.go:93-95 | the same for a run of bits |
| QueryProps.BalanceAddPointer | query.go:131-142 | the same for a pointer satisfying `QFree`; a string pointer's target is bound and may hold `?` |
| QueryProps.BalanceAddSlice | query.go:149-186 | the same for a slice: with no condition as an IN list, with `?`-free column names in a multi-row insert, and with `?`-free elements when they are added one by one |
| QueryProps.BalanceInList | query.go:153-162 | the same for an IN list |
| QueryProps.BalancePlaceholders | query.go:155-158 | the same for its placeholders |
| QueryProps.BalanceMultiRow | query.go:168-178 | the rows of a multi-row insert leave the excess of `?` over binds unchanged, when the rows' column names hold no `?` |
| QueryProps.MultiRowStep | query.go:168-178 | one row leaves the excess unchanged, when its column names hold no `?`; its values may hold anything |
| QueryProps.BalanceInsertRow | query.go:169-177 | the same for one row, when its column names hold no `?` |
| QueryProps.BalanceRowColumns | query.go:171-177 | the same for one row's columns |
| QueryProps.RowHeadBalance | query.go:171-175 | the column list or the comma between rows adds no placeholder |
| QueryProps.BalanceAddComplex | query.go:189-223 | the same for a struct or map whose column names hold no `?` and, in a predicate, whose slice values satisfy `QFree`; other values may hold `?` |
| QueryProps.BalanceInsertColumns | query.go:193-198 | an INSERT record binds its column values in order, and leaves the excess of `?` over binds unchanged |
| QueryProps.InsertBalance | query.go:195-197 | a row head with one `?`, the rest of the row and its values keep the balance |
| QueryProps.BalanceSetColumns | query.go:199-206 | a SET list leaves the excess of `?` over binds unchanged (its binds are those of `SetColumnsBinds`) |
| QueryProps.BalanceBaseColumns | query.go:207-221 | a predicate leaves the excess unchanged, when its column names and the elements of its slice values hold no `?`; other values may hold anything |
| QueryProps.BalanceBaseColumn | query.go:213-220 | the same for one condition whose name holds no `?` and whose value, if a slice, satisfies `QFree` |
| QueryProps.BalanceBaseSlice | query.go:214-216 | a slice-valued condition, `name IN` and the slice, leaves the excess unchanged when the name holds no `?` and the slice satisfies `QFree` |
| QueryProps.BalanceAssign | query.go:217-219 | `name = ?` with its one bind leaves the excess unchanged |
| QueryProps.QFreeSlice | query.go:149-186 | a slice with `?`-free elements meets the condition of every path a slice can take |
| QueryProps.BindBalance | query.go:43-45 | each bind lowers the excess of placeholders over binds by one |
| QueryProps.EmitBalance | query.go:16-35 | emitting text raises it by the text's placeholders |
| QueryProps.EmitRowRest | query.go:176 | the rest of a placeholder row has one `?` per further column |
| QueryProps.ColumnListBalance | query.go:172 | a column list adds no placeholder |
| QueryProps.ColumnListCount | query.go:172 | a column list of names without `?` holds no `?` |
| QueryProps.RowTextCount | query.go:176 | a placeholder row of n columns holds n `?` |
| QueryProps.RepeatCount | query.go:176 | `strings.Repeat(", ?", n)` holds n `?` |
| QueryProps.JoinNamesNoQ | query.go:172 | joining names without `?` adds none |
| QueryProps.SiftStructNoQ | query.go:264-289 | such a struct sifts to column names without `?` |
| QueryProps.SiftFieldsNoQ | query.go:268-286 | the same for its fields |
| QueryProps.FieldColumnsNoQ | query.go:272-285 | the same for one field |
| QueryProps.SiftNoQ | query.go:226-235 | the same for any value |
| QueryProps.SiftMapNoQ | query.go:238-261 | the same for a map whose keys hold no `?` |
| QueryProps.AddTwo | squint.go:42-44 | building two bits adds the first and then the second |
| QueryProps.BuildWords | query.go:27-30 | "hello", "world" build "hello world", and a trailing space is not doubled |
| QueryProps.BuildAdjacentScalars | query.go:25-28 | two scalars in a row build `( ?, ? )` and bind both in order |
| QueryProps.BoundQuestionMarks | query.go:121-142 | `UPDATE t SET` with a map bound to "why?" and a pointer to "a?" still builds one bind per placeholder |
| Queries.DistinctCount | query.go:244-250 | a distinct key occurs at most once |
| Queries.RepeatedCount | query.go:252 | a repeated key occurs at least twice |
| Queries.KeptAmongStep | query.go:244-250 | visiting one more key adds it to the kept keys exactly when its value is kept |
| Queries.CollectStep | query.go:244-250 | one step of the key loop keeps its invariant |
| Compat.CompatEmpty | compat.go:27-40 | a string is kept as it is exactly when empty values are kept; a pointer, map, slice or nil becomes nil and is kept exactly when nil values are kept; anything else is kept as it is |
| Compat.ApplyOption | compat.go:11-24 | `EmptyValues`/`NilValues` set their own flag, keep the other, and rebuild the handler from both; `SetTag` (options.go:20-24's `Tag`) and `SetEmpty` (the `KeepEmpty`, `OmitEmpty` and `NullEmpty` options of squint_test.go:210-313) change only their field |
| Compat.CompatSettersCommute | compat.go:11-24 | setting both compatibility flags in either order gives the same configuration and a handler seeing both |
| Conditions.If | squint.go:66-71 | adding the condition adds its bits when it holds and nothing otherwise |
| Squint.Builder.If | squint.go:61-63 | the builder's `If` is the package-level `If` |
| Squint.DefaultOptions | squint.go:28-30 | a new builder reads the `db` tag and sets no empty-value mode or compatibility flag |
| Squint.Builder.constructor | squint.go:28-30 | a new builder has the default configuration |
| Squint.Builder.Option | options.go:14-18 | applying options one after another gives their application in order |
| Squint.ApplyOptionsAppend | options.go:14-18 | applying `a + b` is applying `a` and then `b` |
| Squint.Inline | query.go:97-98 | options given as bits, one bit per option and in order |
| Squint.InlineOptionsAtHead | query.go:97-98 | options at the head of a build have the effect of configuring the builder with them |
| Squint.Builder.Build | squint.go:39-47 | the text and binds of a fresh query after adding every bit in order |
| Squint.Builder.HasValues | squint.go:78-89 | anything but a struct or map has values; a struct or map has values exactly when sifting it keeps a column |
| Driver.Bits | driver/builder.go:19-23 | the bits are the query text followed by the values in order |
| Driver.ValuesOf | driver/builder.go:36-40 | only the values of the named arguments are used, in order |
| Driver.DriverBuilder.BuildValues | driver/builder.go:18-33 | the SQL of the build of the query and the values, and its binds one for one as the driver values |
| Driver.DriverBuilder.BuildContext | driver/builder.go:35-53 | the context unchanged, the SQL of the build, and one argument per bind, unnamed and numbered from 1 in order |

## Left out

- Go reflection is replaced by the closed `Value` datatype. Types beyond those
  kinds (channels, funcs other than options, interfaces, floats as numbers)
  are opaque scalars with a zero flag.
- The three regular expressions are predicates over tokens. Case folding is
  ASCII only. RE2's `(?i)` also folds `ſ` to `s` and the Kelvin sign to `k`,
  so a query ending in `ſET` counts as SET in Go but not here.
- Go map iteration order is not modelled. The model chooses keys in any order
  and proves that the sorted result does not depend on that order.
- A panic is modelled as a flag in the query state, and the query goes on
  after it. `Squint.Builder.Build`, `Driver.DriverBuilder.BuildValues` and
  `Driver.DriverBuilder.BuildContext` require a build that does not panic.
  Such a panic comes from a multi-row insert of structs with no columns,
  where `strings.Repeat` receives -1.
- Inline options are applied to a copy, as query.go's value field says, not
  to the builder through squint.go:40's pointer.
- `Compat.CompatEmpty` is never called when a value is sifted, because
  query.go's `checkValue` (lines 294-314) consults neither the handler nor
  `driver.Valuer`. Handlers set with `WithEmptyFn` are not part of this model.
- An embedded struct is always flattened, even when tagged `-`, because
  query.go:272 tests for embedding before it reads the tag.
- Logging, and the option setters that only touch logging (`Log`,
  `LogQuery`, `LogBinds`), are not part of this model. options.go's `Tag` is
  `SetTag`, and its `KeepNil`/`KeepEmpty` fields are not read by query.go.
- The sqlx bridge, db.go and the rest of the driver (connections,
  statements, rows, transactions) are database I/O and are not part of this
  model.
- The file that defines `KeepEmpty`, `OmitEmpty` and `NullEmpty` is not part
  of this model. squint_test.go:210-313 uses them as builder options that set
  the empty mode, and `SetEmpty` stands for them.
- `IsZero` on a condition treats an empty bit list like Go's nil slice.
- QueryProps.BuildBalanced: the balance is proved when no `?` reaches the
  text from a bit. The condition does not depend on the context or the
  options, so it asks more than Go needs in two places. The elements of a
  slice must be free of `?` even where the slice becomes a bound IN list.
  A field's column name must be free of `?` under every tag key, not only
  the configured one.
- BalanceAddAll: the same condition as `QueryProps.BuildBalanced`, for each
  bit of the run.
- BalanceAdd: the same condition for one bit. A slice added after `IN` with
  an element such as `"a?"` is bound and balanced (`BalanceAddSlice` covers
  it), but `BalanceAdd` does not, because `QFree` bans the element.
- BalanceAddPointer: a pointer to a slice or record carries the same
  condition as its target under `BalanceAdd`.
- BalanceAddComplex: in a predicate, a slice among the record's values must
  have `?`-free elements, although it normally becomes a bound IN list.
- BalanceBaseColumn: the same slice-element condition as
  `BalanceBaseColumns`, for one condition.
- BalanceBaseSlice: the slice must satisfy `QFree`. After `name IN` it is
  normally a bound IN list, which needs no condition; the condition matters
  only where `name IN` reads as an INSERT target.
- BalanceBaseColumns: a slice among a predicate's values must have `?`-free
  elements, although it normally becomes a bound IN list. In the rare text
  where `name IN` reads as an INSERT target (a column name ending in
  `INSERT INTO`), its elements are added one by one and do reach the text.
- `Value` admits shapes Go's types rule out: a nil slice or map with
  entries, and a slice of structs whose elements differ in shape.
  `Sifter.WellFormed` names the shapes Go can produce. Only
  `MultiRows.SliceInsertRows` requires it, because only the multi-row text
  depends on it; every other lemma holds for all values.
