# Schema-to-Spanner conversion core, modelled in Dafny

This project models two parts of the Spanner migration tool.

- **The schema-to-DDL converters.** They turn source-database schema records
  (keys, foreign keys, indexes, check constraints, sequences) into Spanner DDL
  records. This covers identifier quoting, the check-constraint name sanitizer,
  the used-name registry, and the expression-verification pass. That pass keeps
  only the check constraints whose expressions the target dialect accepts.
- **The schema fixture generators** of the Spanner accessor utilities. These
  are counted loops that build column ids, column definitions, tables, and
  random strings.

Modules:

- `Ddl` (ddl.dfy): the target records (`CreateTable`, `ColumnDef`, `IndexKey`,
  `ForeignKey`, `CreateIndex`, `CheckConstraint`, `Sequence`) and `Schema`.
- `SourceSchema` (schema.dfy): the source records the converters read.
- `Decimal` (decimal.dfy): the `%d` rendering of a natural number, with its
  parser. Parsing a rendering gives the number back, so rendered ids are
  distinct.
- `SpannerUtils` (utils.dfy): the generators as methods with loops. The three
  schema generators are each proved equal to a recursive specification
  function, and lemmas about those functions give the shape of the result:
  exact key sets, sizes, element values, distinct ids, and declared primary
  keys. `GenerateRandomString` is specified directly: the i-th character is
  the charset character at the i-th random draw.
- `ToDdl` (toddl.dfy): the pure converters as functions. Each is related by
  lemmas to a partner or a property: a round trip (quoting, keys, indexes),
  a distribution law (foreign keys, the reference-table selection),
  idempotence (sequences, the sanitizer), completeness of the selection (the
  reference-table pass), or freshness of the registered names (the
  registry). The concrete cases the tests pin down are lemmas too.
- `Conversion` (conversion.dfy): the conversion context as a class `Conv`. It
  holds the target schema, the sequence map and the used names, and its
  methods update them in place.

The converters' implementation file, `sources/common/toddl.go`, is not part
of this model. Their behaviour is taken from what
`sources/common/toddl_test.go` asserts. Where the tests leave a case open,
the model makes a choice of its own, and each such choice is listed under
"## Left out". One example is the flag `VerifyExpressions` returns: it is
true exactly when some expression failed. This agrees with the expected
responses the test lists (toddl_test.go:496,511), although the test does not
assert the flag.

## Model

| member | source | states |
|---|---|---|
| `Decimal.Format` | accessors/spanner/utils/utils.go:24-25 | The `%d` rendering of a natural number is a non-empty string of decimal digits with no leading zero unless the number is 0 |
| `Decimal.ParseFormat` | accessors/spanner/utils/utils.go:33 | The `%d` rendering of an index parses back to that index, so it loses no information |
| `Decimal.PrefixedInjective` | accessors/spanner/utils/utils.go:24-25 | Two ids with the same prefix (`c`, `col`, `t`, `table`) are equal only when their indices are equal |
| `SpannerUtils.FixtureTable` | accessors/spanner/utils/utils.go:43-48 | The i-th generated table is named `table<i>`, has id `t<i>` and the single INT64 column `col1` under `c1`, and its primary key is `c1`, a declared column |
| `SpannerUtils.ColIdInjective` | accessors/spanner/utils/utils.go:33 | Different indices give different column ids |
| `SpannerUtils.TableIdInjective` | accessors/spanner/utils/utils.go:44 | Different indices give different table ids |
| `SpannerUtils.NumberedRangeSize` | accessors/spanner/utils/utils.go:23-27 | The ids `<prefix>1..<prefix><count>` are exactly `count` distinct strings, or none when `count <= 0` |
| `SpannerUtils.ColIdsShape` | accessors/spanner/utils/utils.go:30-37 | The generated id list has `count` entries (none for `count <= 0`), the i-th being `c<i>`, and its elements are exactly the id range `c1..c<count>` |
| `SpannerUtils.ColIdsDistinct` | accessors/spanner/utils/utils.go:30-37 | The generated column ids are pairwise distinct |
| `SpannerUtils.ColumnDefsShape` | accessors/spanner/utils/utils.go:21-29 | The column map has exactly the keys `c1..c<count>`, `c<i>` holds `col<i>` of type INT64, and each column's id equals its key |
| `SpannerUtils.ColumnDefsMatchColIds` | accessors/spanner/utils/utils.go:21-37 | The column map's keys are exactly the elements of the id list for the same count, and both have the same size |
| `SpannerUtils.TablesShape` | accessors/spanner/utils/utils.go:39-51 | The schema has exactly the keys `t1..t<count>`, `count` of them, and `t<i>` holds the i-th fixture table |
| `SpannerUtils.TablesWellKeyed` | accessors/spanner/utils/utils.go:39-51 | Every generated table is stored under its own id, and each of its primary-key columns is declared in the table |
| `SpannerUtils.GenerateColIds` | accessors/spanner/utils/utils.go:30-37 | The loop returns `c1..c<count>` in order: `count` ids, the i-th being `c<i>` |
| `SpannerUtils.GenerateColumnDefsForTable` | accessors/spanner/utils/utils.go:21-29 | The loop builds the column map over exactly the keys `c1..c<count>`, each key holding an INT64 column with that id |
| `SpannerUtils.GenerateTables` | accessors/spanner/utils/utils.go:39-51 | The loop builds the schema over exactly the keys `t1..t<count>`, each table stored under its own id with a declared primary key |
| `SpannerUtils.GenerateRandomString` | accessors/spanner/utils/utils.go:11-20 | The result has `length` characters, the i-th being the charset character at the i-th random draw, so every character is from the charset |
| `ToDdl.QuoteIfNeeded` | sources/common/toddl_test.go:32-60 | A name made only of letters, digits and `_` is unchanged; any other name is wrapped in one pair of double quotes with its content unchanged |
| `ToDdl.QuoteRoundTrip` | sources/common/toddl_test.go:32-60 | Stripping the quotes from a quoted name gives the original name back |
| `ToDdl.QuoteTableWithSpace` | sources/common/toddl_test.go:43-48 | `table Name` is quoted as `"table Name"` |
| `ToDdl.CvtPrimaryKeys` | sources/common/toddl_test.go:62-101 | There is one target key per source key, in order, with the column id, descending flag and order carried over |
| `ToDdl.PrimaryKeysRoundTrip` | sources/common/toddl_test.go:62-101 | Reading the converted keys back gives the source keys, so the key conversion is lossless |
| `ToDdl.PrimaryKeyExample` | sources/common/toddl_test.go:62-101 | The test key `c1`, descending, order 1, converts to the same target key |
| `ToDdl.CvtForeignKey` | sources/common/toddl_test.go:131-155 | A converted key keeps its name, id, columns, referenced table and referenced columns, and both of its actions are NO ACTION |
| `ToDdl.CvtForeignKeys` | sources/common/toddl_test.go:104-192 | The result is no longer than the input. Every result key comes from a source key, references a table present in the source schema, and carries NO ACTION for both actions. When every referenced table exists, it is the key-by-key conversion of the whole input |
| `ToDdl.CvtForeignKeysAppend` | sources/common/toddl_test.go:104-192 | The conversion distributes over concatenation, so source order is kept |
| `ToDdl.ForeignKeyExample` | sources/common/toddl_test.go:131-155 | The test key `fk1` with RESTRICT / CASCADE converts to the same key with NO ACTION / NO ACTION |
| `ToDdl.ReferringTo` | sources/common/toddl_test.go:290-399 | A source key is selected exactly when it references the given table: every selected key references it and comes from the input, and every input key referencing it is selected |
| `ToDdl.ReferringToAppend` | sources/common/toddl_test.go:290-399 | Selection distributes over concatenation, so selected keys keep their source order |
| `ToDdl.CvtForeignKeysKeeps` | sources/common/toddl_test.go:104-192 | Every source key whose referenced table exists appears converted in the result |
| `ToDdl.CvtForeignKeysAll` | sources/common/toddl_test.go:104-192 | When every referenced table exists, the result is each source key converted, in order |
| `ToDdl.ReferringToAll` | sources/common/toddl_test.go:290-399 | When every key references the table, none is filtered out |
| `ToDdl.ReferringKeysConverted` | sources/common/toddl_test.go:290-399 | When the referenced table exists, every source key referencing it is among the converted selected keys |
| `ToDdl.CvtForeignKeysForAReferenceTable` | sources/common/toddl_test.go:290-399 | The existing target keys are kept unchanged as a prefix. Every key appended after them references the given table and carries NO ACTION. When that table exists, every source key referencing it appears converted after the prefix |
| `ToDdl.ReferenceTableAppendsAll` | sources/common/toddl_test.go:342-393 | For any existing target keys, when every source key references the table and that table exists, the result is the existing keys followed by every source key converted, in order |
| `ToDdl.SelfReferenceDuplicates` | sources/common/toddl_test.go:342-397 | For a table whose keys all reference itself, the table pass followed by the reference-table pass yields every key twice |
| `ToDdl.ReferenceTableExample` | sources/common/toddl_test.go:342-397 | The test's self-referencing `fk1` appears twice in the result |
| `ToDdl.CvtIndexes` | sources/common/toddl_test.go:194-288 | There is one target index per source index, in order, with name, uniqueness, id and stored columns copied, the target table id stamped on, and keys that read back to the source keys |
| `ToDdl.IndexExample` | sources/common/toddl_test.go:194-288 | The test index `indexName` over `c1..c3` converts to the expected target index |
| `ToDdl.CvtSequence` | sources/common/toddl_test.go:401-434 | AUTO_INCREMENT becomes BIT REVERSED POSITIVE and any other kind is kept. Name, id, skip range and start counter are copied unchanged |
| `ToDdl.CvtSequenceIdempotent` | sources/common/toddl_test.go:401-434 | A converted sequence is never AUTO_INCREMENT, so converting it again changes nothing |
| `ToDdl.Sanitize` | sources/common/toddl_test.go:436-475 | The result has the input's length and, for a non-empty input, is a legal identifier (the empty name stays empty; see "## Left out"): a letter, then letters, digits or `_`. Characters already legal in their position are kept |
| `ToDdl.SanitizeIdempotent` | sources/common/toddl_test.go:436-475 | Legal identifiers are unchanged, so sanitizing twice is the same as sanitizing once |
| `ToDdl.SanitizeExamples` | sources/common/toddl_test.go:453-470 | `check_1` and `check_2` are kept, and `@invalid_name` becomes `Ainvalid_name` |
| `ToDdl.Register` | sources/common/toddl_test.go:436-475 | The registered name is not yet in use, and an unused candidate is kept as it is |
| `ToDdl.CheckConstraintsShape` | sources/common/toddl_test.go:436-475 | Each converted constraint keeps its id and expression and gets a name not in use before. The names are pairwise distinct, and exactly these names are added to the used names |
| `ToDdl.CheckNamesKeptWithoutCollision` | sources/common/toddl_test.go:436-475 | Sanitized names that collide neither with used names nor with each other are kept |
| `ToDdl.CheckConstraintExample` | sources/common/toddl_test.go:436-475 | With no names in use, the test's three constraints convert to `check_1`, `check_2`, `Ainvalid_name`, with their ids and expressions kept |
| `Conversion.Keep` | sources/common/toddl_test.go:477-575 | The retained constraints are a sub-multiset of the input, no longer than it |
| `Conversion.KeepAppend` | sources/common/toddl_test.go:477-575 | Filtering distributes over concatenation, so retained constraints stay in their original order |
| `Conversion.KeepOnlyPassing` | sources/common/toddl_test.go:477-575 | Every retained constraint had a successful verdict |
| `Conversion.KeepRetainsPassing` | sources/common/toddl_test.go:477-575 | Every constraint with a successful verdict is retained |
| `Conversion.KeepCount` | sources/common/toddl_test.go:477-575 | As many constraints are retained as there are successful verdicts |
| `Conversion.KeepAllPassing` | sources/common/toddl_test.go:477-575 | When no expression failed, every constraint is retained |
| `Conversion.KeepExamples` | sources/common/toddl_test.go:477-540 | In the test cases, a single valid expression is kept, and of a valid and a failing one, only the valid one is kept |
| `Conversion.FailedAmongAdd` | sources/common/toddl_test.go:477-575 | Inspecting one more table adds exactly that table's failures to the needs-attention signal |
| `Conversion.Verified` | sources/common/toddl_test.go:555-571 | Filtering a table's check constraints leaves every other field of the table unchanged |
| `Conversion.FilterByVerdicts` | sources/common/toddl_test.go:477-575 | The loop returns exactly the constraints with a successful verdict, in order, and reports a failure exactly when some verdict failed |
| `Conversion.Conv.constructor` | sources/common/toddl_test.go:436-438 | A fresh context has an empty schema, an empty sequence map and no used names |
| `Conversion.Conv.SchemaToSpannerSequenceHelper` | sources/common/toddl_test.go:401-434 | The converted sequence is stored under its id, replacing any earlier entry, and nothing else changes |
| `Conversion.SequenceHelperExample` | sources/common/toddl_test.go:401-434 | In a fresh context, the AUTO_INCREMENT sequence `s1` is stored as BIT REVERSED POSITIVE with its other fields unchanged, and the rest of the context stays empty |
| `Conversion.Conv.CvtCheckConstraint` | sources/common/toddl_test.go:436-475 | The loop returns the constraint conversion against the used names, and the used names grow by exactly the returned names. Every returned name was unused before the call and is registered after it |
| `Conversion.Conv.VerifyExpressions` | sources/common/toddl_test.go:477-575 | Each table keeps exactly the constraints whose expressions verified, in order, and every other field and table is unchanged. The result is true exactly when some expression of some table failed |

## Left out

- The converters' implementation file (`sources/common/toddl.go`) is not part of this model. Every converter is modelled from its test, so behaviour the test does not pin down is a choice of this model. The choices are listed below.
- `ToDdl.CvtForeignKeys`: the source table id, target table name and restore-mode arguments (toddl_test.go:186) are dropped. The test only uses `isRestore` false (toddl_test.go:178). The model follows that non-restore path, and what restore mode changes is not known here. Skipping a key whose referenced table is missing from the source schema is a choice of this model; the test's referenced table exists. Missing referenced columns are not checked, and no diagnostic is recorded.
- `ToDdl.CvtForeignKeysForAReferenceTable`: the table-id argument (toddl_test.go:393) is dropped. Selecting the source keys that reference the given table is a choice of this model. The test's key already references that table, so the test does not show whether other keys are filtered.
- `ToDdl.Sanitize`: a leading non-letter becomes `A`, as the test shows (toddl_test.go:452,469). Any later illegal character becomes `_`, a choice the test does not pin down. Only ASCII letters and digits count as legal. The empty name maps to the empty name, which is not a legal identifier. The test has no empty name, so what the source does with one is not known here. `ToDdl.CvtCheckConstraints` therefore registers an empty name unchanged if a source constraint has one.
- `ToDdl.Register`: the scheme for disambiguating a taken name is a parameter. The only constraint on it is that it returns an unused name. Case-insensitive comparison of names is not modelled.
- `ToDdl.QuoteIfNeeded`: no escaping of embedded quotes. Non-ASCII letters count as needing quotes.
- `ToDdl.CvtIndexes`: the target column ids and column definitions (toddl_test.go:282) are not consulted. Whether the source checks them against the index keys is not shown by the test, whose keys all exist.
- `ToDdl.CvtSequence`: only AUTO_INCREMENT is mapped. Every other source kind is carried through unchanged.
- `Conversion.Conv.VerifyExpressions`: the external verification accessor is replaced by its answer. This is one verdict per constraint, per table, in order. Building the request batch, the error categories (syntax, name, type), the per-table diagnostics, and a transport failure of the whole batch are not modelled.
- `SpannerUtils.GenerateRandomString`: the time-seeded random generator is replaced by its sequence of draws, each an index into the charset. A negative length, which panics in Go, is excluded by a precondition. The model proves that every character is from the charset. It does not prove that the charset holds exactly the 62 ASCII letters and digits.
- Nil versus empty slices and maps are not distinguished. The context's diagnostics (`SchemaIssues`) and other fields not used by these operations are left out.
- The user-interface files (`ui/`) are outside the conversion core.
