# sequelize-repository, modelled in Dafny

sequelize-repository is a small JavaScript library. It gives Sequelize models
an abstract repository, `SQRepository`. The repository supplies:

- the usual persistence calls (`save`, `findAll`, `findOne`, `findById`, `sum`);
- paginated queries (`findAllByCriteriaAndPaginated`, `findAndCountAll`);
- *named queries*: a subclass method called `findByXAndY` or `findAllByX` is
  replaced when the repository is built. The replacement derives its
  where-clause from the method's name.

It also has `Criteria`, a field-to-condition mapping, and `CriteriaBuilder`,
which collects `{field, value, condition}` triples and builds Criteria from them.

This project models the logic of that core that does not depend on the store:

| file | module | what it holds |
|---|---|---|
| `wrappers.dfy` | `Wrappers` | `Option` and `Result` |
| `values.dfy` | `JsValues` | JavaScript values, records, truthiness and missing properties |
| `strings.dfy` | `Strings` | `String.prototype.split` (non-empty separator) and `Array.prototype.join` over `seq<char>`, with their round trips |
| `criteria.dfy` | `QueryCriteria` | the Criteria fold (`NewCriteria`, proved against `Compose`) and `CriteriaBuilder`, a class whose `conditions` field is a `seq` |
| `pagination.dfy` | `Pagination` | `getPagination` and `getPagingData` |
| `store.dfy` | `Store` | the request records a repository hands to its Sequelize model |
| `named_queries.dfy` | `NamedQueries` | the literal split/join name parser, and the where-clause loop of the derived function (`DerivedQuery`) |
| `repository.dfy` | `Repository` | the `SQRepository` class: construction, derivation of named queries, `save` and the request-building methods |

Interaction with the store is modelled as data:

- Each repository method returns the `Request` it would send (a store model plus an operation with its options record).
- What the store would answer is a parameter: the row and counts for paging, and the `[row, inserted]` pair for `upsert`.
- The generated UUID, the current time and the transaction are parameters of `Save`.
- The reflection over the class prototype is replaced by `ClassRef`, which carries the class's own method names.

Behaviour of the code that the model keeps:

- The parser preserves capitalisation: `findByNameAndCity` gives the properties `["Name", "City"]`.
- Both `findBy…` and `findAllBy…` names dispatch to the store's `findAll`.
- The where-clause loop runs over the arguments. An argument past the last property is stored under the key `"undefined"`, because JavaScript stringifies the undefined property name.
- Building a Criteria twice with only `add` calls in between gives a second mapping whose keys include the first one's keys. Values can differ, because a later triple for the same field wins. The mapping is not a sub-map in general.
- The base class's own `findById` and `findAllByCriteriaAndPaginated` start with `findBy`/`findAllBy` (`Repository.BaseMethodsDerived`). A subclass that redefines either one gets a derived query in its place.

`src/repository/SQRepository.js` uses names it never defines. As written, each of them throws a `ReferenceError` when reached; the model follows the evident intent instead:

- `BaseRepository` (line 57) is evaluated by every construction, so as written every `new` of the base class or of a subclass throws. The model reads it as the class itself, `SQRepository`: only the base class fails, with the abstract-class error.
- `connectors` (line 27) is evaluated by every call of a derived function, so as written every named query throws before it reaches the store. The model leaves the loop out (its result is never used) and sends the query.
- `model` inside the derived function (line 40) is read as the repository's own model.
- `uuidv4` (line 76) is supplied by the caller; as written, `save` throws whenever the entity has no key.

## Model

| member | source | states |
|---|---|---|
| JsValues.FalsyValues | src/repository/SQRepository.js:76 | a value is falsy exactly when it is undefined, null, false, 0 or the empty string |
| QueryCriteria.IsEmpty | src/query/Criteria.js:30-35 | a value is empty exactly when it is undefined, `''` or a zero-length array; null, numbers, booleans and objects are never empty |
| QueryCriteria.NewCriteria | src/query/Criteria.js:11-19 | the constructor's loop over the triples yields exactly the mapping `Compose` of those triples, in order |
| QueryCriteria.ComposeKeys | src/query/Criteria.js:12-18 | the keys are exactly the fields of the triples whose value is not empty |
| QueryCriteria.ComposeLastWins | src/query/Criteria.js:13-16 | a field maps to the condition of its last non-empty triple |
| QueryCriteria.ComposeIgnoresEmpty | src/query/Criteria.js:13-17 | removing a triple with an empty value, anywhere in the list, does not change the mapping |
| QueryCriteria.ComposeKeysGrow | src/query/Criteria.js:60-70 | appending triples only adds keys |
| QueryCriteria.DocExample | src/query/Criteria.js:6-7 | the documented `client_id`/1234/eq triple, passed as one argument the way `build` spreads its list, yields `{client_id: {eq: 1234}}` |
| QueryCriteria.Criteria.GetCriteria | src/query/Criteria.js:21-23 | `getCriteria` returns the stored mapping as the constructor left it |
| QueryCriteria.CriteriaBuilder.constructor | src/query/Criteria.js:50-52 | a new builder holds no triples |
| QueryCriteria.CriteriaBuilder.Add | src/query/Criteria.js:60-63 | appends exactly one triple at the end, keeps the earlier ones, and returns the same builder |
| QueryCriteria.CriteriaBuilder.Build | src/query/Criteria.js:68-70 | leaves the list unchanged and returns the Criteria of the current list in insertion order |
| QueryCriteria.CriteriaBuilder.Clean | src/query/Criteria.js:72-74 | empties the list |
| QueryCriteria.ExampleChainKeys | src/query/Criteria.js:41-47 | the documented chain yields exactly `client_id`, `created_date`, `status` and `request_id` (null is kept) with their conditions; an empty-string value is dropped |
| QueryCriteria.BuilderExample | src/query/Criteria.js:41-47 | running the documented chain on a builder gives exactly those four fields |
| QueryCriteria.SnapshotsExample | src/query/Criteria.js:60-74 | a first build holds its triple; a later build after more `add`s keeps its keys; after `clean`, a build is empty while the earlier Criteria are unaffected |
| Pagination.CeilDiv | src/repository/SQRepository.js:11 | integer `Math.ceil(n / d)`: the least r with n <= r*d for d > 0, and the mirrored bounds for d < 0 |
| Pagination.GetPagination | src/repository/SQRepository.js:2-7 | limit is the size when given and non-zero, else 10; offset is page times limit when the page is given and non-zero, else 0; the limit is never 0 |
| Pagination.GetPagingData | src/repository/SQRepository.js:8-16 | count and rows pass through, currentPage is the page or 0, and `(totalPages-1)*limit < count <= totalPages*limit` for a positive limit |
| Pagination.ZeroIsAbsent | src/repository/SQRepository.js:3-4 | a page or size of 0 behaves as if it were absent |
| Pagination.OffsetIsPageTimesLimit | src/repository/SQRepository.js:4 | every page number, 0 included, starts at page times limit |
| Pagination.NextPageFollows | src/repository/SQRepository.js:2-7 | page p+1 starts exactly where page p ends |
| Pagination.RowOnPage | src/repository/SQRepository.js:2-7 | with a positive limit, row r lies on page r / limit |
| Pagination.LastPageHoldsLastRow | src/repository/SQRepository.js:2-16 | the last page the envelope reports starts before the last row and reaches it |
| Pagination.PaginationExamples | src/repository/SQRepository.js:2-7 | `(2, 5)` gives `{5, 10}` and `(none, none)` gives `{10, 0}` |
| Pagination.PagingDataExample | src/repository/SQRepository.js:8-16 | 23 rows at 5 per page, page 2, give 5 pages and current page 2 |
| Strings.Split | src/repository/SQRepository.js:23-25 | splitting always yields at least one piece |
| Strings.JoinSplit | src/repository/SQRepository.js:23-25 | joining the pieces of a split with the same separator gives back the string |
| Strings.SplitPiecesAvoidSep | src/repository/SQRepository.js:23-25 | no piece of a split contains the separator |
| Strings.SplitJoin | src/repository/SQRepository.js:23-25 | splitting a join of separator-free pieces gives back the pieces, for a separator that cannot overlap itself |
| NamedQueries.LeadingPiece | src/repository/SQRepository.js:23 | the text before the first `By` is `find` for a `findBy` name and `findAll` for a `findAllBy` name |
| NamedQueries.ParseProperties | src/repository/SQRepository.js:23-25 | the literal three-round split/join of a named-query name yields at least one property |
| NamedQueries.ParseBody | src/repository/SQRepository.js:23-25 | for a body with no `By` and no `find`, both prefixes parse to the body split on `And` |
| NamedQueries.ParseOrdinary | src/repository/SQRepository.js:23-25 | `findAllBy`/`findBy` + X1 `And` … `And` Xk, with no `By`, `And` or `find` inside any Xi, is a named query and parses to exactly `[X1, …, Xk]` |
| NamedQueries.ParseTwo | src/repository/SQRepository.js:23-25 | either prefix + A + `And` + B, for plain A and B, is a named query and parses to `[A, B]`, in order |
| NamedQueries.ParseOne | src/repository/SQRepository.js:23-25 | either prefix + A, for a plain A, parses to `[A]` |
| NamedQueries.ParseExamples | src/repository/SQRepository.js:23-25 | `findAllByNameAndLastName` and `findByNameAndLastName` parse to `["Name", "LastName"]`, capitalisation kept |
| NamedQueries.ParseSingleExample | src/repository/SQRepository.js:23-25 | `findAllByName` parses to `["Name"]` |
| NamedQueries.WhereKeys | src/repository/SQRepository.js:33-39 | the where-clause has one key per argument position and no other (properties past the argument count get no entry) |
| NamedQueries.WhereLastWins | src/repository/SQRepository.js:33-39 | the key of argument i maps to that argument, or to `{in: argument}` for an array, unless a later argument reuses the key |
| NamedQueries.WhereDistinct | src/repository/SQRepository.js:33-39 | with distinct properties and no surplus arguments, property i maps to the clause of argument i, and properties past the arguments are absent |
| NamedQueries.WhereExamples | src/repository/SQRepository.js:33-39 | plain arguments are stored as they are, an array becomes an `in` clause, and a surplus argument lands under `"undefined"` |
| NamedQueries.DerivedQuery | src/repository/SQRepository.js:22-41 | the derived function's loop sends `findAll` with the where-clause `WhereOf` of the parsed properties and the arguments, including all associations |
| Repository.DerivedNames | src/repository/SQRepository.js:20-21 | a name is derived exactly when it is one of the class's names and starts with `findBy` or `findAllBy` |
| Repository.RemoveDashes | src/repository/SQRepository.js:76 | the key has no dash, contains exactly the non-dash characters of the UUID, and is shorter by the number of dashes |
| Repository.RemoveDashesAppend | src/repository/SQRepository.js:76 | removing dashes from a concatenation gives the concatenation of the results, so order is kept |
| Repository.RemoveDashesChar | src/repository/SQRepository.js:76 | a single dash becomes empty and any other single character is kept; with `RemoveDashesAppend` this fixes the result as the non-dash characters in order, each as often as it occurs |
| Repository.NoDashUnchanged | src/repository/SQRepository.js:76 | a string without dashes is returned unchanged |
| Repository.UuidGroups | src/repository/SQRepository.js:76 | a UUID of five dash-free groups joined by dashes becomes the five groups concatenated in order |
| Repository.UuidKeyLength | src/repository/SQRepository.js:76 | a canonical 36-character UUID with four dashes yields a 32-character key |
| Repository.WithKey | src/repository/SQRepository.js:76 | the key is assigned only when the primary-key field is falsy; every other field is kept |
| Repository.WithKeyIdempotent | src/repository/SQRepository.js:76 | after a save with a non-empty key the primary key is truthy, so a second save keeps it |
| Repository.SQRepository.Init | src/repository/SQRepository.js:58-61 | the fields are set from the arguments, and the derived names are exactly the class's own method names that start with `findBy` or `findAllBy` |
| Repository.SQRepository.Call | src/repository/SQRepository.js:22-41 | a derived function sends the same request as `DerivedQuery` to the repository's own model |
| Repository.SQRepository.Save | src/repository/SQRepository.js:71-79 | the entity gets the dashless key only when its primary key is falsy; the upsert carries the fields with `updated_date` and the transaction; the row is returned iff the inserted flag is set, otherwise null |
| Repository.SQRepository.FindAll | src/repository/SQRepository.js:85-87 | every row, including all associations |
| Repository.SQRepository.FindAllWhere | src/repository/SQRepository.js:94-96 | the caller's where-clause, unchanged, including all associations |
| Repository.SQRepository.FindAllByCriteriaAndPaginated | src/repository/SQRepository.js:107-125 | where is the criteria's mapping, limit and offset come from `getPagination`, order is `[[orderAttr, 'DESC']]` iff orderAttr is truthy, and the envelope is `getPagingData` of the answer with that limit |
| Repository.SQRepository.FindAndCountAll | src/repository/SQRepository.js:127-135 | the caller's condition, order and include, limit and offset from `getPagination`, and the envelope from `getPagingData` |
| Repository.SQRepository.FindOne | src/repository/SQRepository.js:142-144 | the caller's where-clause, including all associations |
| Repository.SQRepository.FindById | src/repository/SQRepository.js:151-155 | a single-row lookup whose where-clause is exactly `{[primaryKey]: id}` |
| Repository.SQRepository.Sum | src/repository/SQRepository.js:163-168 | sums the field; the criteria's mapping is the options record when a criteria is given, and there are no options otherwise |
| Repository.InitNamedQueries | src/repository/SQRepository.js:19-44 | the loop adds exactly the class's names that start with `findBy` or `findAllBy`, and no other |
| Repository.New | src/repository/SQRepository.js:56-62 | instantiating the base class fails with the abstract-class error; otherwise the primary key is the one supplied or `'id'`, and the named queries are derived |
| Repository.TestedClassNames | test/SQRepository.test.js:21-34 | of the tested class's methods, `findAllByName` and `findByNameAndLastName` are derived and `thisMethodShouldNotGenerateANamedQuery` is not |
| Repository.ConstructionExamples | test/SQRepository.test.js:10-52 | the construction tests: instantiating the base class fails, a subclass gets `'id'` by default and `'unique_key'` when it passes that key |
| Repository.BaseMethodsDerived | src/repository/SQRepository.js:20-21 | of the base class's own names, exactly `findAllByCriteriaAndPaginated` and `findById` match the named-query convention |

## Left out

- src/transaction/TransactionRunner.js: a one-line wrapper around Sequelize's transaction API. Nothing in it is logic of the core.
- index.js and src/index.js only re-export the classes.
- The calls into Sequelize (`findAll`, `findOne`, `findAndCountAll`, `upsert`, `sum`) and the async/Promise plumbing are not modelled. Each method returns the request it would send, and the store's answer is a parameter.
- `uuidv4()` and `new Date()` are foreign and nondeterministic. `Save` takes the generated UUID and the timestamp as parameters.
- The unwrapping of `model.dataValues` in `save` (lines 73-75) is not modelled. The entity is a plain record, so the copy-versus-alias distinction it introduces is not captured.
- Reflection over `clazz.prototype` is not modelled. `ClassRef` carries the class's own method names as a list.
- The `connectors` loop inside the derived function (lines 26-31) is not modelled. It reads a name that is never defined, so as written every derived call throws a `ReferenceError` there; its result is never used, and the model follows the evident intent of sending the query.
- Sequelize's `Op.*` operator symbols are not modelled. Conditions are opaque values, and the `in` operator is the plain key `"in"`.
- JavaScript number coercion (`+size`, `+page`) and floating-point `Math.ceil` are not modelled. Page and size are integers, and `CeilDiv` is exact integer division.
- The test helper `Function.prototype.getBody` is not modelled. The test's check for a derived function is `Repository.TestedClassNames`.
- `Strings.Split` requires a non-empty separator. The parser never splits on an empty string, because the text before the first `By` is `find` or `findAll`.
- Repository.SQRepository.Call: the derived function is represented by membership of its name in `derived`. The closure object itself is not modelled.
- Repository.New: a missing `clazz` argument, for which `initNamedQueries` would fail on `undefined.prototype`, is not modelled. The base-class case fails before that point.
- QueryCriteria.ComposeKeysGrow: it promises only that keys grow between two builds, not that the first mapping is a sub-map of the second. A later `add` for the same field can replace its condition.
- QueryCriteria.DocExample: proves the documented triple passed as a spread argument, as `build` passes its list. The call as written in the doc comment, `new Criteria([ … ])`, passes one array argument; its `value` is `undefined`, so it is dropped and the result is `{}`. Arguments are modelled as `seq<Triple>`, which cannot express a non-triple argument, so that call is not modelled.
