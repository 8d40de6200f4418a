# gopkg-pg-orm, modelled in Dafny

A model of the core of `gopkg-pg-orm`, a Go toolkit over the go-pg PostgreSQL
driver, together with proofs about it. The model covers:

- the filter-condition algebra. Every condition renders to a SQL fragment with
  `?` placeholders and an ordered list of parameters; `Or`, `And` and `Not`
  compose their children.
- the sort expressions and the filter and order appliers.
- the query-option builder `opt`. Option functions assemble paging, sorting,
  filters and custom transforms, which are then applied to a query.
- the pager, its options and the page walker `Walk`.
- the package's error type, its four kinds, tags, and the conversion of
  driver errors into kinds.
- the client handle (`dbWrapper`). It routes statements to a transaction or
  the pool, wraps a query processor, and checks that exactly one row was
  affected.
- `PerformTransaction` and the DAO operations: `WithTX`, the finders,
  `Update`, `UpdateWhere`, `SoftDelete`, `Upsert` and `GetUniqueModels`.
- the advisory-lock `Mutex`.
- the migrator's construction.

Everything is pure. Things outside the model become parameters:

- the database is a function from the statement to its outcome;
- a callback is a function value;
- the lock table is a map.

A Go panic is a failure result (`Step.Panic`, `Result.Err`, `Outcome.Panicked`), not a precondition.

Files and modules:

| file | modules | covers |
|---|---|---|
| results.dfy | Results | `Option`, `Result` |
| text.dfy | Text | placeholders, `Join`, `Repeat`, `HasPrefix`, `TrimPrefix`, `TrimSpace`, `ToUpper` |
| values.dfy | Values, Queries | dynamically typed values, parameters, the query being built, custom transforms |
| conditions.dfy | Conditions, ConditionFacts | repository/filter/condition.go |
| filters.dfy | Filters | repository/filter/filter.go |
| orders.dfy | Orders, RepoPager | repository/order, repository/pager |
| errors.dfy | Errors, Converter | errors/ |
| pagers.dfy | Pagers | pager/pager.go, facade.go, options.go |
| walk.dfy | Walker | pager/walk.go |
| opts.dfy | Opts, OptFacts | repository/opt/opt.go |
| wrapper.dfy | Wrapper | wrapper.go |
| db.dfy | Transactions | db.go `PerformTransaction` |
| dao.dfy | Dao | repository/dao/dao.go |
| mutex.dfy | Mutexes | mutex.go |
| migrate.dfy | Migrate | migrate/migrate.go, migrate/option.go |

## Model

| member | source | states |
|---|---|---|
| Conditions.PlaceholdersMatchParams | repository/filter/condition.go:120-590 | A well-formed condition of any nesting renders without panicking. Its fragment has exactly as many `?` placeholders as it has parameters. This is the property `query.Where(cond.Condition(), cond.Params()...)` relies on. |
| Conditions.WellFormedRenders | repository/filter/condition.go:392-400 | A well-formed condition never panics in `Condition()` or `Params()`: MatchMany has at least one column, and JsonEq's value has a kind `Params()` accepts. |
| Conditions.LeafAligned | repository/filter/condition.go:120-524 | Every non-composite condition built with its one map entry has as many placeholders in its fragment as it has parameters. |
| Conditions.CompareAligned | repository/filter/condition.go:120-245 | Eq, Ne, Lt, Le, Gt and Ge: two placeholders, bound to the identifier and the value. |
| Conditions.EqLowerAligned | repository/filter/condition.go:136-149 | EqLower: `LOWER(?) = ?`, bound to the identifier and the lower-cased value. |
| Conditions.BetweenAligned | repository/filter/condition.go:152-165 | Between with two bounds: three placeholders, bound to the identifier and the two bounds. |
| Conditions.InAligned | repository/filter/condition.go:248-293 | In, InInt64 and InStr: `? IN (?)`, bound to the identifier and the value list. |
| Conditions.NotInAligned | repository/filter/condition.go:296-325 | NotIn and NotInStr: `? NOT IN (?)`, aligned the same way. |
| Conditions.PatternAligned | repository/filter/condition.go:328-373 | Starts, Contains and Ends: two placeholders, bound to the identifier and the ILIKE pattern. |
| Conditions.MatchAligned | repository/filter/condition.go:376-389 | Match: the text-search fragment has two placeholders, bound to the column and the search value. |
| Conditions.MatchManyAligned | repository/filter/condition.go:392-412 | MatchMany over n >= 1 columns: 1 + n placeholders. The search value comes first, then one identifier per column. |
| Conditions.MatchManyFragmentHoles | repository/filter/condition.go:392-400 | The MatchMany fragment for `cnt` columns has `1 + cnt` placeholders. |
| Conditions.IsNullAligned | repository/filter/condition.go:415-424 | IsNull: one placeholder, bound to the column. |
| Conditions.NotNullAligned | repository/filter/condition.go:427-436 | NotNull: one placeholder, bound to the column. |
| Conditions.JsonContainsAligned | repository/filter/condition.go:439-454 | JsonContains: `? @> ?`, bound to the column and the marshalled object. |
| Conditions.JsonEqAligned | repository/filter/condition.go:457-500 | JsonEq, for every kind it accepts: three placeholders, bound to the column, the path literal and the value or value list. This holds for each cast variant of the fragment. |
| Conditions.JsonEqFragmentHoles | repository/filter/condition.go:457-471 | Every one of JsonEq's five fragments has three placeholders. |
| Conditions.JsonContainsValueAligned | repository/filter/condition.go:503-514 | JsonContainsValue: three placeholders, bound to the column, the path literal and the `%v%` pattern. |
| Conditions.GroupAligned | repository/filter/condition.go:527-590 | If every child is aligned, a group is aligned: the joined fragment has as many placeholders as the concatenated parameter lists have elements. |
| Conditions.FlattenMatchesParts | repository/filter/condition.go:540-546 | Placeholders summed over the parts equal the length of the concatenated parameter lists. |
| ConditionFacts.EmptyGroups | repository/filter/condition.go:527-590 | An empty Or or And renders `()` and an empty Not renders `NOT ()`. None of them has parameters. |
| ConditionFacts.NotIsNegatedAnd | repository/filter/condition.go:549-581 | Not renders as `NOT ` followed by the And of the same children. |
| ConditionFacts.SingletonFragment | repository/filter/condition.go:527-559 | A one-child Or or And wraps the child's fragment in two pairs of parentheses. |
| ConditionFacts.SingletonParams | repository/filter/condition.go:540-590 | A one-child Or, And or Not binds exactly the child's parameters. |
| ConditionFacts.GroupParamsAppend | repository/filter/condition.go:540-590 | The parameters of a group over `cs1 + cs2` are those over `cs1` followed by those over `cs2`, for Or, And and Not. |
| ConditionFacts.ParamListsAppend | repository/filter/condition.go:540-546 | The children's parameter lists of a concatenation are the concatenation of the lists. |
| ConditionFacts.FlattenAppend | repository/filter/condition.go:540-546 | Appending the children's parameters distributes over concatenation. |
| ConditionFacts.OrOfTwoEqualities | repository/filter/condition.go:120-133 | `Or{Eq{a: x}, Eq{b: y}}` renders `((? = ?) OR (? = ?))` with parameters `a, x, b, y` in that order. |
| ConditionFacts.OrPairFragment | repository/filter/condition.go:527-537 | A two-child Or's fragment is each child in parentheses, joined by ` OR `, inside parentheses. |
| ConditionFacts.OrPairParams | repository/filter/condition.go:540-546 | A two-child Or's parameters are the first child's followed by the second's. |
| ConditionFacts.EntryParams | repository/filter/condition.go:120-412 | A single-entry map condition binds its key as an identifier first, and an empty map binds nothing. MatchMany binds its search value first and then the columns. |
| ConditionFacts.PatternShape | repository/filter/condition.go:328-373 | Starts appends `%`, Ends prepends it, and Contains surrounds the value with it. |
| ConditionFacts.CheckObjectKeys | repository/filter/condition.go:444-454 | The object JsonContains marshals has exactly one key per path given. |
| ConditionFacts.CheckObjectLastWins | repository/filter/condition.go:444-454 | For a path that occurs again later, the later item's value overwrites the earlier one's. |
| Filters.Apply | repository/filter/filter.go:9-14 | Applying a filter adds one WHERE clause per condition, in order, and touches nothing else. It succeeds exactly when every condition renders. |
| Filters.ApplyAppend | repository/filter/filter.go:9-14 | Applying `f1 + f2` is applying `f1` and then `f2`. |
| Filters.WellFormedFilter | repository/filter/filter.go:9-14 | A filter of well-formed conditions applies without panicking. Every clause it adds is aligned. |
| Orders.Expr | repository/order/order.go:27-44 | A non-nil expression keeps the field, and its direction is the one named. |
| Orders.ExprRoundTrip | repository/order/order.go:6-13 | Every direction constant maps back to its own direction. |
| Orders.ExprNil | repository/order/order.go:27-44 | `Expr` is nil exactly for a string that is none of the six directions. |
| Orders.OrderBys | repository/order/order.go:19-24 | The ORDER BY clauses exist exactly when no expression is nil, and then there is one per expression, in order. |
| Orders.Apply | repository/order/order.go:19-24 | Applying an order appends one ORDER BY per expression, in order, and leaves WHERE, paging and trace alone. A nil expression panics. |
| Orders.ExprAligned | repository/order/expression.go:30-99 | Every sort expression is `? <DIR>` with one placeholder, bound to the column identifier. |
| RepoPager.New | repository/pager/pager.go:15-22 | The transform sets the query's offset and limit to the given values and changes nothing else. |
| Queries.RunAllTrace | repository/opt/opt.go:89-103 | Running custom transforms records each of them, in order, and leaves WHERE and ORDER BY alone. |
| Errors.NewError | errors/errors.go:67-81 | A new error has the given kind and cause, with no code, status, message or tags. |
| Errors.WithParams | errors/errors.go:38-42 | Sets the code and status and keeps everything else. |
| Errors.WithMessage | errors/errors.go:44-47 | `Error()` becomes the message, and everything else is kept. |
| Errors.WithTag | errors/errors.go:49-56 | Appends the tag after the ones already attached. |
| Errors.HasTag | errors/errors.go:58-65 | The linear search finds a tag exactly when it is attached. |
| Errors.WithTagHasTag | errors/errors.go:49-65 | A tag attached by WithTag is then found, and attaching one tag does not make another appear. |
| Errors.ClassifiersPartition | errors/errors.go:83-113 | Exactly one of IsInternal, IsNotFound, IsBadRequest and IsConflict holds of any error, nil included. |
| Errors.WrappingHidesKind | errors/errors.go:83-113 | Because the classifiers use a type assertion, an error of this package wrapped by another error counts as internal. |
| Errors.NewTag | errors/tag.go:5-7 | Each allocation yields a tag distinct from every later one. |
| Errors.IsTaggedByIdentity | errors/tag.go:9-16 | With identity, an error is tagged with `u` exactly when `u` was attached to it. |
| Errors.IsTaggedAgreesOnSoleTag | errors/tag.go:9-16 | On an error carrying only the tag asked about, the check as written and the corrected one agree. |
| Converter.ConvertClassifies | errors/converter.go:19-37 | Convert looks through any number of wrappers. Sentinels, PostgreSQL errors and unwrappable errors are classified by the table. The result carries the classified error as its cause and has no tags. |
| Converter.ConvertPg | errors/converter.go:39-50 | A PostgreSQL error is a conflict when its message reports a duplicate key and internal otherwise. Code, severity and message are copied over. |
| Converter.ConvertedClassifiers | errors/converter.go:19-37 | A converted error is NotFound exactly for pg.ErrNoRows, BadRequest exactly for pg.ErrMultiRows, and Conflict exactly for a duplicate-key PostgreSQL error. |
| Converter.ReconvertIsInternal | errors/converter.go:27-35 | Converting an already converted error gives an internal error. |
| Pagers.NewOptions | pager/options.go:17-22 | The default page size is 100 and the default maximum is 1000. |
| Pagers.WithPageSize | pager/options.go:25-28 | Sets the page size and keeps the maximum. |
| Pagers.WithMaxPageSize | pager/options.go:31-34 | Sets the maximum and keeps the page size. |
| Pagers.NewPager | pager/facade.go:19-36 | The page is at least 1. A size below 1 falls back to the default. A size above the maximum becomes exactly the maximum, and one within it is kept. No total is set. |
| Pagers.NewPagerWithPageSize | pager/facade.go:39-41 | With default options, the size is the one requested, or 100 when it is below 1, or 1000 when it is above 1000. |
| Pagers.NewRequestPager | pager/facade.go:49-51 | Builds the same pager as NewPagerWithPageSize from the request's page and page size. |
| Pagers.GetTotalItems | pager/pager.go:52-57 | The total that was set, else 0. |
| Pagers.SetTotalItems | pager/pager.go:60-62 | The total read back is the one set, and page and size are unchanged. |
| Pagers.GetTotalPages | pager/pager.go:43-49 | 0 when no positive total is set. Otherwise the ceiling of total / size: at least 1 for a positive size, at most 0 for a negative one. A zero size gives the platform's int32 conversion of +Inf. |
| Pagers.PagesTile | pager/pager.go:23-30 | Consecutive pages' windows tile: the next offset is this offset plus the limit, and page 1 starts at 0. |
| Pagers.NextPage | pager/pager.go:65-76 | Corrected, with the product page * size exact: fails when no total is set, and at the last page with the tagged last-page error. Below the last page it always succeeds and advances the page by one. |
| Pagers.NextPageAdvancesBeforeLast | pager/pager.go:43-76 | NextPage succeeds exactly before the last page (`page < GetTotalPages`), and then the page is one more. |
| Pagers.NextPageFailsOnlyOnLastPage | pager/pager.go:60-76 | After SetTotalItems, every NextPage error carries LastPageTag. |
| Walker.Walk | pager/walk.go:4-24 | The loop's result and the pages it visits equal the reference walk. |
| Walker.WalkLoop | pager/walk.go:9-23 | The loop started from any page (with a positive page size) yields the reference walk from that page. |
| Walker.VisitPage | pager/walk.go:10-22 | One iteration: either the walk stops on this page with its error, or it moves to the next page and the rest of the walk continues from there. |
| Walker.WalkFrom | pager/walk.go:4-24 | The reference walk visits at least the page it starts from. |
| Walker.WalkPagesConsecutive | pager/walk.go:4-24 | The walk visits consecutive pages, starting at the first. |
| Walker.NextAfterTotal | pager/walk.go:15-16 | After the callback reports `total`, the walk advances exactly when `page * size < total`. |
| Walker.WalkConstantFrom | pager/walk_test.go:9-45 | With a constant total `t`, the walk visits pages 1 .. ceil(t / size), with at least one page, and returns nil. |
| Walker.WalkOnePage | pager/walk_test.go:9-45 | A total of 7 with page size 10 visits only the first page. |
| Walker.WalkSixPages | pager/walk_test.go:9-45 | Totals of 55 and 60 with page size 10 visit pages 1 to 6. |
| Walker.WalkBoundedFrom | pager/walk.go:9-23 | When no reported total exceeds `m`, the walk from a page calls back at most up to page max(1, ceil(m / size)). |
| Walker.WalkBounded | pager/walk.go:4-24 | When no reported total exceeds `m`, Walk makes at most max(1, ceil(m / size)) calls. |
| Walker.WalkAsWrittenFrom | pager/walk.go:9-23 | The walk as written, with NextPage's wrapping product, within a budget of calls. When it returns, it called back at least once and at most the budget's number of times, starting at the first page. |
| Walker.WalkAsWrittenNeverEnds | pager/walk.go:9-23 | As written, with an even page size and a callback reporting 2147483647, the walk has not returned after any number of calls. |
| Walker.WalkWrapCounterexample | pager/walk.go:4-24 | For Walk(1000, ...) and a callback reporting 2147483647, the corrected walk returns nil, and the walk as written never returns. |
| Walker.WalkAgreesBelowWrap | pager/walk.go:9-23 | While every reported total stays one page below the int32 limit, the walk as written is the corrected walk. |
| Opts.ParseOrder | repository/opt/opt.go:196-221 | An accepted order spec has a column without spaces and a direction that `Expr` accepts. |
| OptFacts.ParseOrderRoundTrip | repository/opt/opt.go:196-221 | `Order("col DIR")` gives back exactly that column and direction, and a bare column sorts ascending. |
| OptFacts.ParseOrderRejects | repository/opt/opt.go:196-221 | Order panics exactly when there is a space and the rest, trimmed and upper-cased, is not a direction. |
| OptFacts.DirNameCanonical | repository/opt/opt.go:196-221 | Every direction name is already trimmed and upper case, so Order accepts it unchanged. |
| Opts.In | repository/opt/opt.go:292-306 | The elements of a slice value become the list, and any other value is the only element. |
| Opts.MayIn | repository/opt/opt.go:283-289 | A nil option exactly for an empty slice, and `In` otherwise. |
| OptFacts.NewFromAppend | repository/opt/opt.go:29-38 | Applying `f1 + f2` is applying `f1` and then `f2`, and a panic in `f1` stops everything. |
| OptFacts.NewOfTwo | repository/opt/opt.go:29-38 | New over two option functions applies them in order. |
| OptFacts.FilterGrows | repository/opt/opt.go:29-38 | Options only ever append to the filter, so earlier conditions stay in place. |
| OptFacts.ConditionsInOrder | repository/opt/opt.go:224-359 | Condition builders never panic and append their conditions in order, changing nothing else. |
| OptFacts.LaterSettingWins | repository/opt/opt.go:153-193 | Between two paging or sort settings, the later one wins. |
| OptFacts.GroupKeepsOnlyConditions | repository/opt/opt.go:362-397 | Or, And and Not build their members on a fresh Opt and keep only its filter, as one group condition. Paging, sort and transforms of the members are dropped. |
| OptFacts.ApplyOptSound | repository/opt/opt.go:146-397 | Each builder keeps the options sound: every condition is well formed, and a sort, when set, names a direction. |
| OptFacts.NewFromSound | repository/opt/opt.go:29-38 | New over sound builders yields sound options. |
| OptFacts.BuiltOptionsNeverPanic | repository/opt/opt.go:116-118 | Applying options assembled from sound builders never panics. |
| OptFacts.ApplyStages | repository/opt/opt.go:41-52 | Apply adds the filter's WHERE clauses, then the custom transforms, then paging and the sort expression. It panics exactly when a condition does not render or the sort direction is unknown. |
| OptFacts.FilterFnStage | repository/opt/opt.go:55-67 | The filter stage adds the WHERE clauses when there is a filter. The transform stage records the custom transforms. |
| OptFacts.PagingStage | repository/opt/opt.go:70-86 | The paging stage sets offset and limit from the pager when paging is set, then appends the ORDER BY when sorting is set. An unknown direction panics. |
| OptFacts.NilOptIsIdentity | repository/opt/opt.go:41-103 | A nil Opt leaves the query unchanged at every stage. |
| Wrapper.NewDbClient | wrapper.go:19-21 | A new client has no transaction and no processor. |
| Wrapper.Route | wrapper.go:85-196 | Statements go to the transaction when there is one, otherwise to the pool. |
| Wrapper.WithContext | wrapper.go:69-72 | Records the context and does not change where statements go. |
| Wrapper.WrapWithContext | wrapper.go:34-39 | Gives a client on the pool bound to the new context, keeping the processor. The transaction is not carried over. |
| Wrapper.StartTransaction | wrapper.go:42-53 | Fails exactly when Begin fails, with Begin's error. Otherwise statements go to the new transaction, and the pool and processor are kept. |
| Wrapper.Exec | wrapper.go:117-159 | Corrected: without a processor, the outcome is the database's. With one, the processor decides from the pool's context, the query text and the unwrapped outcome. |
| Wrapper.AssertOneRow | wrapper.go:198-206 | Zero rows is pg.ErrNoRows, more than one is pg.ErrMultiRows, and one or a negative count passes. |
| Wrapper.ExecOne | wrapper.go:133-172 | A statement error is passed through unchanged. Otherwise the result is accepted exactly when the row check passes. |
| Wrapper.OneRowErrorsClassify | wrapper.go:198-206 | Once converted, the one-row errors classify as NotFound and BadRequest. |
| Wrapper.TransactionRouting | wrapper.go:34-53 | After StartTransaction, statements reach the transaction. Wrapping that client with a context sends them back to the pool. |
| Wrapper.QueryString | wrapper.go:208-218 | Corrected: a string as it is, "" for other values, and an appender rendered with the formatter of the target the statement goes to. A failed rendering gives "". |
| Wrapper.QueryStringAgreesBesideAppenders | wrapper.go:208-218 | For strings and other non-appender values, queryString as written returns the corrected text. |
| Wrapper.TransactionFormatsQueries | wrapper.go:42-53 | After StartTransaction, appenders are rendered with the transaction's formatter. After WrapWithContext, they are rendered with the pool's. |
| Wrapper.ProcessorSeesTargetRendering | wrapper.go:117-130 | With a processor, the text it sees and the outcome it gets come from the same target. |
| Wrapper.QueryStringOfAppenderNeverReturns | wrapper.go:208-213 | As written, queryString of an appender never returns. |
| Wrapper.ExecOfAppenderNeverReturns | wrapper.go:117-130 | As written, Exec with a processor and an appender never returns. |
| Wrapper.ExecAgreesBesideAppenders | wrapper.go:117-130 | Without a processor, or for a non-appender query, Exec as written returns the corrected Exec's outcome. |
| Transactions.PerformTransaction | db.go:60-75 | The loop's error and events equal the reference outcome: begin, the calls in order, then roll back at the first failure or commit when none fails. |
| Transactions.TransactionEnds | db.go:60-75 | Once begun, a transaction ends in exactly one commit or rollback, and commits exactly when every function succeeded. The calls before the end are 0, 1, 2, ... in order. |
| Transactions.FirstFailure | db.go:64-70 | The index of the first failing function, or the count when none fails. |
| Transactions.NoFunctions | db.go:60-75 | With no functions, the transaction begins and commits. |
| Dao.WithTX | repository/dao/dao.go:38-66 | Inside a transaction, the function runs directly. Otherwise Begin and Commit errors are converted, the function's error is returned as it is after one rollback, and success commits. |
| Dao.NestedFailureRollsBackOnce | repository/dao/dao.go:38-66 | A failure inside a nested WithTX reaches the outer one unchanged: one Begin, one Rollback, no Commit. |
| Dao.WithTXClassifiesDatabaseErrors | repository/dao/dao.go:44-64 | WithTX's Begin and Commit errors carry the kind Convert gives them. |
| Dao.FindListSkipsCustomTransforms | repository/dao/dao.go:79-88 | FindList applies the filter and paging but no custom transforms. Without transforms, it builds the same query as FindOne. |
| Dao.FindListWithTotal | repository/dao/dao.go:91-104 | Succeeds exactly when the filtered count and the page select both succeed, and then returns the count. A count error is converted and returned, otherwise a select error is. Any error gives a total of 0. |
| Dao.FindListWithTotalCombines | repository/dao/dao.go:79-115 | FindListWithTotal is GetTotal then FindList: a failed count is GetTotal's outcome, and after a count the outcome is FindList's, with GetTotal's total on success. |
| Dao.GetTotal | repository/dao/dao.go:107-115 | Succeeds exactly when the filtered count does, returning the count. A count error is converted and gives 0. |
| Dao.Update | repository/dao/dao.go:118-131 | Fails exactly when the database reports an error for the plan, and the error comes back with the kind the converter assigns to it. |
| Dao.UpdateColumns | repository/dao/dao.go:118-131 | The plan Update sends is the given columns in order followed by `updated`, with the primary-key condition exactly when a single record is updated. |
| Dao.SoftDeleteErrorsAreInternal | repository/dao/dao.go:177-185 | A failing SoftDelete always reports an internal error, because it converts an already converted error. |
| Dao.SetClauses | repository/dao/dao.go:140-146 | There is one `column = ?` clause per pair, in order, exactly when every field is a string. |
| Dao.AppendUpdated | repository/dao/dao.go:138-146 | Appending `updated` and the current time adds exactly one final clause. |
| Dao.UpdateWhereChecks | repository/dao/dao.go:134-153 | An odd number of pairs, or a non-string field, gives an internal error. Otherwise the update runs with the filter and the SET clauses plus `updated`. |
| Dao.GetUniqueModels | repository/dao/dao.go:276-301 | The result has exactly one model per distinct key, and each model is stored under its own key. |
| Dao.UniqueLastWins | repository/dao/dao.go:287-295 | The last record with a given key is the one kept. |
| Dao.UniqueKeepsLast | repository/dao/dao_test.go:419-434 | Two records with the same key collapse to the later one. |
| Dao.GoNames | repository/dao/dao.go:213-218 | Each key maps to its Go field name, in order, when the table knows every key. |
| Dao.ExcludedSets | repository/dao/dao.go:243-245 | One `col = EXCLUDED.col` per column, in order. |
| Dao.Upsert | repository/dao/dao.go:208-272 | Corrected: an empty slice is a bad request, and every other input behaves as written. |
| Dao.UpsertStatement | repository/dao/dao.go:208-249 | For a non-empty slice with known keys, the insert gets the deduplicated models, the conflict clause on the keys and the EXCLUDED sets. |
| Dao.UpsertRejects | repository/dao/dao.go:208-272 | Empty keys are a bad request. So is a struct passed by value, when its keys are known. Any other kind that is neither a slice nor a pointer has no record type, and the table lookup panics. |
| Mutexes.NewMutex | mutex.go:18-24 | A pool of more than one connection is refused. |
| Mutexes.TryAcquire | mutex.go:39-45 | pg_try_advisory_lock takes a free key, re-takes a key the session holds, and refuses another session's key. |
| Mutexes.Release | mutex.go:49-55 | pg_advisory_unlock releases one hold of the session's key and leaves other keys alone. |
| Mutexes.TryLock | mutex.go:27-46 | Corrected: an error from the check is returned, a held key reports success without acquiring, and an acquire error is returned. |
| Mutexes.Unlock | mutex.go:49-55 | Releases one hold and reports only the statement's error. |
| Mutexes.TryLockExclusive | mutex.go:27-46 | TryLock succeeds exactly when no other session holds the key, and then the session holds it. Other keys are untouched. |
| Mutexes.RepeatedTryLockDoesNotStack | mutex.go:31-55 | TryLock twice, then Unlock once, leaves a free key free. |
| Mutexes.SecondSessionRefused | mutex_test.go:65-82 | A key held by one session is refused to another until it is released. |
| Mutexes.AgreesOnPlainKeys | mutex.go:27-46 | For IDs in -2^31 .. 2^32 - 1 with no clashing low half, the check as written and the corrected one agree. |
| Mutexes.LargeKeyNeverLocks | mutex.go:27-37 | As written, an ID of 2^32 or more, or below -2^31, makes every TryLock fail with "OID out of range" and leave the locks unchanged, however often it is repeated. |
| Migrate.ApplyOption | migrate/option.go:9-20 | WithClean replaces the schemes and WithLogger replaces the logger. Each keeps everything else. |
| Migrate.OptionsFold | migrate/migrate.go:31-33 | Options keep the URL and DSN. The last WithClean and the last WithLogger decide their fields, and without one the defaults stay. |
| Migrate.WithCleanReplaces | migrate/option.go:9-13 | A second WithClean replaces the first's list. With no options, there are no schemes and the no-op logger. |
| Migrate.SourceUrlAsWritten | migrate/migrate.go:26 | The URL as written designates the path without a leading `./`, or without a lone leading `.` or `/`, or else the path itself. |
| Migrate.NewMigratorAsWritten | migrate/migrate.go:24-35 | The URL as written, the DSN as given. With no options, there are no schemes to clean and the logger is the no-op one. |
| Migrate.NewMigrator | migrate/migrate.go:24-35 | Corrected: the same migrator as written, except that its URL is the corrected one. |
| Migrate.OptionsKeepUrl | migrate/option.go:9-20 | The options never read the URL, so a different starting URL changes only the URL of the result. |
| Migrate.SourceUrl | migrate/migrate.go:24-29 | Corrected: a `file://` URL naming the same directory as the path. The path can be read back from it. |
| Migrate.AgreesOnRelativePaths | migrate/migrate.go:26 | On a path starting with neither `.` nor `/`, with or without `./`, the URL as written and the corrected one coincide. |

## Left out

- I/O, the network, contexts, logging and the clock are not modelled. The database, callbacks, Begin/Commit outcomes and `time.Now()` are parameters.
- Concurrency: the `sync.Mutex` inside `Mutex` is not modelled, and neither is the pool's concurrency.
- Go map iteration order. The map-keyed conditions are modelled with their one entry (the builders always make one). `GetUniqueModels` returns a map, not the slice in map order.
- `json.Marshal`, `strings.ToLower` and `%v` of floats and structs are kept symbolic as parameters or carried text.
- Pagers.GetTotalPages: the source divides in floating point. For a non-zero int32 page size, the model's exact integer ceiling gives the same value. For a zero size, the platform's conversion of +Inf is a parameter.
- Walker.Walk: the callback is a pure function of the page. Its int64 total is truncated to int32 with `Wrap32`. Walk uses the corrected NextPage, which compares `page * size` exactly. The walk as written is `Walker.WalkAsWrittenFrom` (see Findings, pager/pager.go:70).
- Walker.WalkLoop: like Walk, stops on the exact product, not on the wrapped int32 product of pager.go:70.
- Walker.VisitPage: calls the corrected NextPage, not the wrapping one of pager.go:70.
- Walker.WalkFrom: the corrected reference walk compares `page * size` exactly. It agrees with the walk as written while no total comes within one page of the int32 limit (`Walker.WalkAgreesBelowWrap`).
- Walker.NextAfterTotal: states the exact `page * size < total` of the corrected NextPage. As written, the test uses the product wrapped to int32.
- Walker.WalkConstantFrom: it is about the corrected walk. As written, it holds only while ceil(t / size) * size fits in int32.
- Wrapper.Exec: the processor's `model` argument (nil from Exec at wrapper.go:129, the query's model from Query at wrapper.go:158) is not passed; the modelled processor sees the context, the query text and the outcome only.
- Wrapper.Exec: it uses the corrected queryString. As written, Exec and Query with a processor and an appender never return (`Wrapper.ExecOfAppenderNeverReturns`).
- Opts.ParseOrder: white space and upper-casing are ASCII only. Go's `strings.TrimSpace` and `strings.ToUpper` are Unicode-aware: they also trim U+00A0 and map `ſ` to `S`, so a few non-ASCII specs Go accepts are rejected here.
- OptFacts.ParseOrderRejects: it holds over the ASCII trimming and case mapping of `Opts.ParseOrder`, not over Unicode's.
- Nil interfaces, `reflect` on unsupported kinds other than those listed, and `Ping`, `Close`, `Model`, `Db`, `Tx`, `SetWrappedQueryProcessor` (a field assignment) are not modelled.
- `Insert`, `HardDelete`, `HardDeleteWhere` and `UpdateWithReturning` are plain pass-throughs that convert the driver's error. `Update` stands for all of them.
- `Migrator.Run` and `cleanDatabase` (they run migrations against a live database) are not modelled.
- Error message texts other than the constants are not modelled.
- `PerformTransaction` ignores Rollback's own error, and the model does the same.
- Upsert's insert error is returned unconverted, as written.
- Dao.UpsertAsWritten: the kinds getType does not handle yield a nil type. The model takes it that orm.GetTable panics on a nil type, because it asks the type for its kind. orm.GetTable is not part of this model.
- `NewContext`, `FromContext`, `Connect` and `GetTableName` in db.go are context plumbing and are not modelled.
- Mutexes.TryLock: in the held-check as written, the lock ID is taken to reach the server as a decimal literal, typed int4 or int8 by PostgreSQL's rules for numeric constants. The int4 to oid cast reinterprets the bits, and the int8 to oid cast fails outside 0 .. 2^32 - 1; both are assumptions about the server, not modelled from its code.

## Findings

| source | as written | input that shows it | evidently intended | confidence | as-written member | corrected member |
|---|---|---|---|---|---|---|
| pager/pager.go:70 | `p.Page*p.PageSize >= *p.TotalItems` multiplies two int32 values, and the product wraps | total 2147483647, page size 1000, page 2147484: the product wraps negative, so NextPage advances past the last page and Walk never ends | compare without overflow | not executed | Pagers.NextPageAsWritten, Pagers.NextPageWrapCounterexample, Pagers.NextPageAsWrittenNeverEnds, Walker.WalkAsWrittenFrom, Walker.WalkAsWrittenNeverEnds, Walker.WalkWrapCounterexample | Pagers.NextPage, Pagers.NextPageAdvancesBeforeLast, Walker.Walk, Walker.WalkFrom, Walker.WalkAgreesBelowWrap |
| errors/tag.go:3-16 | `Tag` is an empty struct, and `IsTagged` looks up `&t` of a copy. All tags share one address, so any attached tag matches | an error tagged with one NewTag() is reported as tagged with another | a tag is found only when it was attached | not executed | Errors.IsTaggedAsWritten, Errors.TagsIndistinguishable | Errors.IsTagged, Errors.IsTaggedByIdentity |
| wrapper.go:269-271 | `Formatter()` returns `w.Formatter()`, calling itself | any query appender passed to Exec with a processor set: queryString calls Formatter, which never returns | the formatter of the target pool or transaction | not executed | Wrapper.FormatterAsWritten, Wrapper.FormatterNeverReturns, Wrapper.QueryStringOfAppenderNeverReturns, Wrapper.ExecAsWritten, Wrapper.ExecOfAppenderNeverReturns | Wrapper.QueryString, Wrapper.Exec, Wrapper.ProcessorSeesTargetRendering, Wrapper.ExecAgreesBesideAppenders |
| repository/dao/dao.go:251-260 | `getType` indexes element 0 of the slice before the emptiness check at 236-238 | Upsert with an empty slice and one key panics, so "models cannot be empty" is never reached for a slice | an empty slice is a bad request | not executed | Dao.UpsertAsWritten, Dao.UpsertEmptySlicePanics, Dao.EmptinessCheckUnreachable | Dao.Upsert, Dao.UpsertRejects |
| mutex.go:31 | the held-check compares `objid` (the low 32 bits of a bigint advisory key) with the lock ID read as an oid | a session holding 2^32 + 111 is told it holds 111, and a second session then takes 111 too; a lock ID of 2^32 or more fails the check with "OID out of range", so TryLock never locks | check the key that TryLock acquires | not executed | Mutexes.TryLockAsWritten, Mutexes.HeldCheckConflatesKeys, Mutexes.LargeKeyNeverLocks | Mutexes.TryLock, Mutexes.TryLockExclusive, Mutexes.RepeatedTryLockDoesNotStack |
| migrate/migrate.go:26 | one leading `.` and then one leading `/` are trimmed | `../migrations` becomes `file://./migrations`, and `/srv/migrations` becomes `file://srv/migrations` | drop only a leading `./` | not executed | Migrate.SourceUrlAsWritten, Migrate.NewMigratorAsWritten, Migrate.ParentPathMisread, Migrate.AbsolutePathMisread | Migrate.SourceUrl, Migrate.NewMigrator, Migrate.AgreesOnRelativePaths |
