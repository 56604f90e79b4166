# API key persistence: a verified model

This project models the persistence layer of the API key entity (`apps/api/ent/apikey*.go`) in Dafny and
proves what it promises: how rows are read into nodes, what a create builder writes, how bulk creation
runs its chain of hooks and closures, what a query builder selects through its two compilers, and how
the two update builders relate. `dafny verify dfyconfig.toml` checks everything.

## Layout

| file | holds |
|---|---|
| `Schema.dfy` | the fields, their Go types, the column list |
| `Declaration.dfy` | the fields as the schema declares them, and that the generated code follows |
| `RowCodec.dfy` | `scanValues`, `assignValues` and what a read of a row means |
| `Create.dfy` | setters, `defaults`, `check`, `createSpec`, and the write/read round trip |
| `Builder.dfy` | the create builder and its mutation as objects |
| `BulkModel.dfy` | the bulk-create chain as a machine over explicit state, with hooks as programs |
| `BulkAnyHooks.dfy` | what holds of that chain whatever the hooks do |
| `BulkRelay.dfy` | all-or-nothing, trace and IDs when every hook relays |
| `BulkSketch.dfy` | what a bulk save will do, worked out on values alone; exact conditions for valid inserts, nil nodes and real success, whatever the hooks do |
| `BulkSave.dfy` | the chain on objects and shared arrays, proved to simulate the machine |
| `QueryModel.dfy` | the query builder's state, both compilers, selectors and their meaning |
| `QueryTheorems.dfy` | when the two compilers agree, exactly |
| `QueryResults.dfy` | terminal operations against the unbounded result, projection |
| `QueryBuilder.dfy` | the query builder as an object over Go slices, clone isolation |
| `Update.dfy` | both update builders |
| `UpdateTable.dfy` | what the two forms do to a table, and exactly when they do the same |

## What a hook is

A hook wraps a mutator. Here it is a finite program: it may edit the mutation it received in any way,
branch on what that mutation holds, call the wrapped mutator any number of times (with the mutation it
received, with another API key mutation, or with a mutation of another type), branch on whether each
call succeeded, and reply with the last answer, with a value of its own, or with an error.
`BulkAnyHooks` speaks of all such programs; `BulkRelay` of those that may read and edit, call next once
with what they received, and pass the answer on. `BulkSketch` speaks of all of them again: it
runs any chain on the values of the mutations alone, without nodes, specs or a log, and the chain is proved
to follow that sketch.

## Assumptions about code outside the model

- JSON: an encoding is never empty, is accepted, and decodes to the encoded list whatever list it is
  decoded into (`Codec.Lawful`). Nothing more is assumed of other bytes: decoding them may keep part of
  the list that is there, and may change it before an error is reported. Where a row is read through a
  column list that may repeat columns, its JSON must be accepted and decoding it twice must be the same as
  decoding it once (`Decodes`), which holds of every encoding.
- Storage: a column holds the value written to it, an unset column is NULL, and `database/sql` scans a
  stored value into a cell of the matching type.
- `BatchCreate` fails (with or without a constraint violation) or writes one integer ID into each spec. Its
  answer may depend on the batch and on how many batches came before.
- Clock readings are parameters. Two readings in one `defaults` call may differ.
- A predicate adds one filter on rows, an order option one sort key. ORDER BY yields some permutation of
  its input, the same one for the same keys and rows. DISTINCT keeps the first row of each class of rows
  that agree on the selected columns. A negative limit or offset is an error.
- `QueryNodes` returns the rows that its spec describes; in a spec a zero limit or offset means that there
  is none, and an offset without a limit is not bounded. If the library does bound it as `sqlQuery` does, the
  proviso `WindowFits` falls away.
- Scanning into a slice of integers takes rows of exactly one column.
- The ID and the prefix (unique index, `apps/api/ent/schema/apikey.go:53`) each determine a row. A
  traversal may reach one row several times.
- An update statement never changes a row's ID, gives a row the prefix that its actions set, and leaves the
  prefix alone when they set none. The store takes a statement whole, or refuses it whole when two rows would
  end with the same prefix; other refusals of updates are not considered in `UpdateTable`.
- The builders of a bulk are distinct objects; where a result needs it, so are their mutations.

## How the source is rendered

- A column name is a known field or any other string. The struct members other than `ID` and the selected
  values are one map from field to value, with `None` for a nil pointer; a `[]string` may be nil or a list.
- The setters of the create builder differ only in the field they write: they are one method `Call` over a
  description of the call.
- `mutation.id` points to the `ID` member of a node; here it points to that node.
- The repeated blocks of `createSpec` and of the two `sqlSave` methods, one per field in column order,
  become a loop over the columns. The blocks of each `sqlSave` have their own table of steps, so that
  their agreement is a theorem.

## What turned out not to hold

- The two compilers do not agree for every builder. `CompilersAgreeExactly` gives the exact condition.
  They differ for `Limit(0)`, for `Unique(true)` over fields without a key, and for a traversal on which
  `Unique` was never called; a limit of one from offset zero agrees even then.
- The comment on `Unique` (`apps/api/ent/apikey_query.go:48-49`) says that it is true by default. The code
  removes duplicates by default only after a traversal and only in one of the compilers. The model follows
  the code.
- `IDs`, `FirstID`, `OnlyID` and `Exist` append the ID to the builder's selected fields, so after any of them
  each of them fails on that builder (`IDsOnlyOnce`); `Exist` then reports an error. `IDsSucceedIff` says
  exactly when `IDs` succeeds.
- The bulk closure checks the builder's mutation and then builds the one it received, so a hook that hands
  on another mutation makes it insert values that were never checked. `InsertsAreValidIff` gives the exact
  condition for all hooks: the inserted specs are valid if and only if the values of every foretold insert
  would pass the check. `SubstitutionEscapesCheck` spells it out for substitutions at any builder and in any
  position.
- Bulk `Save` can report success with nil nodes: when a hook answers with a value and never calls next
  (`SilentVetoLeavesHoles`), and when a hook turns the error of its call into an answer
  (`RecoveredFaultLeavesHoles`). `HolesIff` gives the exact condition for all hooks, and it needs no store:
  success with a nil node if and only if the sketch succeeds without an insert.
- Bulk `Save` can also report success although the store refused, or although some builder never completed,
  when a hook hides it. `SuccessIsRealIff` gives the exact condition for all hooks, given what the store
  answers: the store took the last insert and every builder completed after it, if and only if the sketch
  says so. `ReportedSuccessIsReal` gives a condition on each hook by itself that is enough.
- The two update forms do not always do the same to a table: each `Save` reads its own clock for an unset update
  time; a batch that sets the prefix of several rows is refused whole, while the single form has changed one
  row before it is refused; and with no matching ID there is no single save to report an invalid mutation.
  `BatchEqualsPointwise` gives the exact condition.

## Model

| member | source | states |
|---|---|---|
| `Schema.FieldIsListed` | apps/api/ent/apikey/apikey.go:85-119 | every field of the entity has a place in the column list |
| `Schema.ListedOnce` | apps/api/ent/apikey/apikey.go:85-119 | no field is listed twice |
| `Schema.ValidColumnIsKnown` | apps/api/ent/apikey/apikey.go:122-129 | a name is a valid column if and only if it names a field |
| `Declaration.ColumnsFollowSchema` | apps/api/ent/schema/apikey.go:13-49 | the column list is the ID and then the mixins' fields and the own fields in the order of declaration |
| `Declaration.TypesFollowSchema` | apps/api/ent/schema/apikey.go:17-49 | struct members, cells and spec entries have the declared type, and members are pointers exactly where that is declared |
| `Declaration.DefaultsFollowSchema` | apps/api/ent/schema/mixin.go:15-20 | defaults on create are the declared ones, literally, and each time field has its own clock reading |
| `Declaration.CheckFollowsSchema` | apps/api/ent/schema/apikey.go:19-47 | the check asks for exactly the fields that are not optional and validates exactly those declared not empty |
| `Declaration.UpdatesFollowSchema` | apps/api/ent/schema/apikey.go:17-49 | an update offers every field that is not immutable and clears exactly the optional ones |
| `Declaration.UpdateDefaultsFollowSchema` | apps/api/ent/schema/mixin.go:18 | an update sets, of the unset fields, exactly those with a declared update default |
| `RowCodec.APIKey.ScanValues` | apps/api/ent/apikey.go:89-106 | one fresh cell per column, repeats and unknown names included, of the type the column is read with |
| `RowCodec.APIKey.AssignValues` | apps/api/ent/apikey.go:110-344 | the receiver and the error after the loop are those of `Assigned`, whose meaning the lemmas below give |
| `RowCodec.AssignOutcome` | apps/api/ent/apikey.go:114-343 | assignment succeeds if and only if every cell fits its column; otherwise the error is that of the first misfit and the node holds what the columns before it assigned, changed only by the failed decoding when the misfit is bad JSON |
| `RowCodec.MisfitMeans` | apps/api/ent/apikey.go:115-341 | for any cell, made by `scanValues` or not: it is refused exactly when its column is a field and it has another type than `scanValues` gives, or holds bytes of one of the four JSON lists that are not accepted |
| `RowCodec.LengthIsChecked` | apps/api/ent/apikey.go:111-113 | too few cells are an error before anything is assigned, with both counts; more than enough are not |
| `RowCodec.SpoiledOnlyThere` | apps/api/ent/apikey.go:318-324 | a refused cell changes nothing, except that bad JSON may have changed its own list |
| `RowCodec.LastOccurrenceWins` | apps/api/ent/apikey.go:122-338 | for any column list, every member but the ID ends as its last non-null occurrence or keeps its prior value; a JSON member is its last occurrence decoded into what stood there before, which is the list itself when the bytes encode one |
| `RowCodec.LastIDWins` | apps/api/ent/apikey.go:116-121 | the ID takes its last occurrence, even a NULL one |
| `RowCodec.UnknownColumnsAreSelected` | apps/api/ent/apikey.go:339-341 | the selected values gain exactly the names outside the table |
| `RowCodec.ScannedCellsAreAccepted` | apps/api/ent/apikey.go:89-344 | for every column list and row, cells made by `scanValues` cause no length or type error in `assignValues`; only stored bytes that are not JSON can fail |
| `RowCodec.ReadFailsIff` | apps/api/ent/apikey.go:89-344 | for every column list and row, the read succeeds if and only if every listed JSON column that holds bytes holds accepted ones; otherwise the error names the first listed one that does not |
| `RowCodec.FreshNode` | apps/api/ent/apikey.go:15-86 | a fresh node: ID zero, nil pointers, zero values, nothing selected |
| `RowCodec.ReadIsPicture` | apps/api/ent/apikey.go:89-344 | for every column list, scanning and assigning a row computes the declarative picture of it: ID, every member, and every dynamically selected value |
| `RowCodec.ProjectionRefinesFullRead` | apps/api/ent/apikey.go:110-344 | a read through fewer columns agrees with the wider read on those columns and leaves every other member as in a fresh struct |
| `Builder.APIKeyCreate.Call` | apps/api/ent/apikey_create.go:24-405 | a setter writes its field, a nillable setter given nil writes nothing, and neither touches the id or done |
| `Builder.CallAll` | apps/api/ent/apikey_create.go:24-405 | any sequence of setter calls leaves in the mutation what `RunCalls` says |
| `Create.SetterEffects` | apps/api/ent/apikey_create.go:24-405 | what one call does to each field, literally: a set stores its value, a nillable set stores what it is given or does nothing for nil, and no other field changes |
| `Create.CallsKeepLastWrite` | apps/api/ent/apikey_create.go:24-405 | after any sequence of calls each field holds what its last writing call wrote, or is unset if none wrote |
| `Builder.APIKeyCreate.Defaults` | apps/api/ent/apikey_create.go:441-470 | the mutation's values become their defaulted form; id and done stay |
| `Create.DefaultsFillGaps` | apps/api/ent/apikey_create.go:441-470 | defaults fill exactly the unset fields that have one and never overwrite |
| `Create.DefaultsAreIdempotent` | apps/api/ent/apikey_create.go:441-470 | a second round of defaults changes nothing even when the clock has moved on |
| `Create.CheckNamesFirstFault` | apps/api/ent/apikey_create.go:473-518 | the check passes if and only if every field is acceptable; otherwise it names the first unacceptable field in column order and says rightly whether it is missing or invalid |
| `Create.DefaultsLeaveFourFaults` | apps/api/ent/apikey_create.go:441-518 | after defaults the check passes if and only if user, hash, nonempty name and nonempty prefix were set; nothing else can be at fault |
| `Builder.APIKeyCreate.MakeSpec` | apps/api/ent/apikey_create.go:538-672 | a fresh node and a fresh spec without an ID, filled together from the mutation |
| `Create.SpecHoldsMutation` | apps/api/ent/apikey_create.go:538-672 | the spec holds for each column exactly what the mutation holds |
| `Create.EntriesAreTheSetFields` | apps/api/ent/apikey_create.go:538-672 | the spec has an entry exactly for each set field but the ID, of the field's type and with the value set |
| `Create.EntriesAreInOrder` | apps/api/ent/apikey_create.go:538-672 | the entries come in the order of the columns, no field twice |
| `Create.NodeHoldsMutation` | apps/api/ent/apikey_create.go:538-672 | the node shows each set value and a fresh member elsewhere, with ID zero and nothing selected |
| `Create.SettersDecideColumns` | apps/api/ent/apikey_create.go:24-672 | after any setter calls, `defaults` and `createSpec`, each column holds the last non-nil value set, else its default, else is absent, and the node shows the same |
| `Create.PartialRoundTrip` | apps/api/ent/apikey.go:89-344 | reading a stored row through any column list gives the created node on the listed columns and fresh members elsewhere |
| `Create.RoundTrip` | apps/api/ent/apikey_create.go:538-672 | for a mutation that passes defaults and check, reading the stored row back under any permutation of the columns gives exactly the node `createSpec` built, with the stored ID |
| `Create.RoundTripAnyCover` | apps/api/ent/apikey_create.go:538-672 | the same for every well typed mutation, checked or not, and every list that covers the columns, repeats included |
| `BulkAnyHooks.EveryInsertIsFull` | apps/api/ent/apikey_create.go:689-729 | whatever the hooks do, each time the batch insert is reached every slot is filled, slot k with what builder k built last |
| `BulkAnyHooks.InsertCountIsBounded` | apps/api/ent/apikey_create.go:689-729 | the insert runs at most as often as the hooks' repeated calls multiply out to |
| `BulkAnyHooks.SingleCallsInsertOnce` | apps/api/ent/apikey_create.go:726-729 | if no hook calls next twice on any path, that bound is one |
| `BulkAnyHooks.OnlyValidSpecsAreInserted` | apps/api/ent/apikey_create.go:698-703 | if hooks forward the mutation object they received, every spec of every batch has all required fields and passes both validators, although the check runs before the mutation is reassigned |
| `BulkAnyHooks.ValidIffChecked` | apps/api/ent/apikey_create.go:473-518 | the spec built from a mutation is valid if and only if the mutation passes the check |
| `BulkAnyHooks.ReportedSuccessIsReal` | apps/api/ent/apikey_create.go:694-725 | if hooks report success only when their last call succeeded, retries included, a success means that the last batch inserted is what the slots hold by position, the store took it, and from that builder on every mutation is done and every node carries its ID from that batch |
| `BulkAnyHooks.FilledIffInserted` | apps/api/ent/apikey_create.go:701-714 | whatever the hooks do, every slot is filled if and only if an insert has run |
| `BulkAnyHooks.ClosureAnswersItsNode` | apps/api/ent/apikey_create.go:694-725 | whatever the hooks do, a closure that succeeds answers with the node in its own slot, not with what the inner call answered |
| `BulkAnyHooks.SaveWithAnyHooks` | apps/api/ent/apikey_create.go:682-738 | the results above together, from the start of `Save` |
| `BulkRelay.ChainSettles` | apps/api/ent/apikey_create.go:689-731 | from any builder and any hook on, the chain of relaying hooks does what the verdict says (first fault, refusal, or completion of every builder left), leaves other mutations alone and logs exactly the trace |
| `BulkRelay.RelayedAnswerIsOwnNode` | apps/api/ent/apikey_create.go:694-731 | with relaying hooks, a call of builder i's mutator at any hook succeeds exactly when the verdict accepts, and then answers with builder i's node |
| `BulkRelay.SuccessTraceIsNested` | apps/api/ent/apikey_create.go:689-731 | a success trace is the way in (hooks in list order, check, spec, builder after builder), one insert, and the same way back in reverse |
| `BulkRelay.TraceInserts` | apps/api/ent/apikey_create.go:704-714 | a trace holds one insert if no builder has a fault and none otherwise |
| `BulkRelay.BulkSaveIsAllOrNothing` | apps/api/ent/apikey_create.go:682-738 | with relaying hooks: a failed check gives the error of the smallest failing index, no insert and nothing done; a refused insert gives its error after one insert and nothing done; otherwise one insert, the nested log, all mutations done, and position k holds builder k's node with the ID written into spec k, aliased by mutation k |
| `BulkRelay.EmptyBulkSavesNothing` | apps/api/ent/apikey_create.go:732-737 | a bulk without builders succeeds with no nodes and touches nothing |
| `BulkSketch.ChainFollows` | apps/api/ent/apikey_create.go:689-731 | for any hooks, from any builder and hook on and any reachable state, the chain follows the sketch: answer, mutations' values, each builder's mutation, which slots are filled and from what, every batch, and what completed since |
| `BulkSketch.SaveIsForetold` | apps/api/ent/apikey_create.go:682-738 | for any hooks, the result of `Save`, all batches in order, and exactly the nodes that are there are those of the sketch |
| `BulkSketch.StoreHasNoPart` | apps/api/ent/apikey_create.go:704-714 | a sketch without an insert is the same on every store, so whether there will be one can be told without the store |
| `BulkSketch.InsertsAreValidIff` | apps/api/ent/apikey_create.go:698-703 | for any hooks, the specs that `Save` inserts are valid if and only if the values of each foretold insert would pass the check |
| `BulkSketch.HolesIff` | apps/api/ent/apikey_create.go:732-737 | for any hooks and without the store, some node is nil if and only if no insert is foretold, and then the result is the foretold one; `Save` succeeds with a nil node if and only if the sketch succeeds without an insert |
| `BulkSketch.SuccessIsRealIff` | apps/api/ent/apikey_create.go:703-737 | for any hooks, given the store's answers, the store took the last insert and every builder completed after it if and only if the sketch says so; then the slots hold that batch, the nodes carry its IDs and every mutation is done |
| `BulkSketch.SubstitutionEscapesCheck` | apps/api/ent/apikey_create.go:698-703 | from the start of `Save`, with hooks that call next once with any target, at any builder and position: one insert, its k-th spec built from the mutation that arrives at closure k, and valid if and only if all those values would pass |
| `BulkSketch.LastSubstitutionEscapesCheck` | apps/api/ent/apikey_create.go:698-703 | the smallest case from any state: the last hook of the last builder hands on another mutation |
| `BulkSketch.SilentVetoLeavesHoles` | apps/api/ent/apikey_create.go:732-737 | a first hook that answers without calling next makes `Save` succeed with no insert and every node nil, for any number of builders and whatever the other hooks |
| `BulkSketch.RecoveredFaultLeavesHoles` | apps/api/ent/apikey_create.go:698-700 | so does a hook that turns the error of its call into an answer, when the first builder fails its check |
| `BulkSketch.VetoIsReported` | apps/api/ent/apikey_create.go:732-736 | a first hook that vetoes makes `Save` report its error, and nothing is inserted |
| `BulkSketch.WrongTypeIsReported` | apps/api/ent/apikey_create.go:695-697 | a hook that hands on a mutation of another type makes `Save` report that, and nothing is inserted |
| `BulkSave.Chain.Mutate` | apps/api/ent/apikey_create.go:694-730 | running mutator i on the heap, from any hook on, leaves heap and answer as the machine says |
| `BulkSave.Chain.Closure` | apps/api/ent/apikey_create.go:694-725 | the closure on the heap, wrong mutation type and failed check included, simulates the machine's closure; if it succeeds it answers with the very node at position i |
| `BulkSave.Chain.Fill` | apps/api/ent/apikey_create.go:701-703 | the builder takes over the mutation and slot i of both arrays holds a fresh node and spec built from it |
| `BulkSave.Chain.InsertBatch` | apps/api/ent/apikey_create.go:706-714 | the batch given to the store is the specs array by position; a refusal is wrapped if it is a constraint violation; otherwise each spec has its ID |
| `BulkSave.Chain.FinishBuilder` | apps/api/ent/apikey_create.go:718-724 | the mutation's id points to node i, the node gets the ID of spec i, the mutation is done, and the answer is that node |
| `BulkSave.Chain.Prepare` | apps/api/ent/apikey_create.go:689-692 | the preparing loop leaves the heap as the machine says after applying defaults to each builder's mutation in turn |
| `BulkSave.APIKeyCreateBulk.Save` | apps/api/ent/apikey_create.go:682-738 | a builder error is returned with nothing changed; otherwise the heap, the error and the nodes array are those of the machine's `Save` |
| `BulkSave.ResultAliasesMutations` | apps/api/ent/apikey_create.go:703-724 | on the objects, after a successful `Save` with relaying hooks: node k has the ID the store wrote for spec k, mutation k's id is that very node, mutation k is done, and no other position holds that node |
| `QueryTheorems.KeyedDedup` | apps/api/ent/apikey_query.go:370-383 | on keyed rows, DISTINCT keeps the same rows over any two column lists that each include a key |
| `QueryTheorems.CompilersAgree` | apps/api/ent/apikey_query.go:367-437 | for a builder of agreeing shape over keyed rows, `querySpec` and `sqlQuery` select the same rows in the same order if and only if at most MaxInt32 rows follow an unlimited offset |
| `QueryTheorems.ZeroLimitDisagrees` | apps/api/ent/apikey_query.go:391-393 | every builder with limit zero and no negative offset has a store on which the compilers differ |
| `QueryTheorems.KeylessDistinctDisagrees` | apps/api/ent/apikey_query.go:375-383 | so has every builder with `Unique(true)` over fields without a key that wants more than the first row |
| `QueryTheorems.TraversalDisagrees` | apps/api/ent/apikey_query.go:370-374 | so has every traversal without `Unique` that wants more than the first row |
| `QueryTheorems.CompilersAgreeExactly` | apps/api/ent/apikey_query.go:367-437 | the compilers agree on every store of keyed rows whose windows fit if and only if the builder has the agreeing shape, a condition on limit, offset, unique, fields and traversal alone |
| `QueryResults.LimitCuts` | apps/api/ent/apikey_query.go:391-393 | a positive limit cuts the unbounded list and does nothing else |
| `QueryResults.FirstRefinesUnbounded` | apps/api/ent/apikey_query.go:63-72 | `First` gives the first match whatever limit was set before, not-found if and only if nothing matches |
| `QueryResults.OnlyRefinesUnbounded` | apps/api/ent/apikey_query.go:109-122 | `Only` gives the row if and only if there is exactly one match, not-found if and only if none, not-singular if and only if two or more |
| `QueryResults.IDsEstablishesAgreement` | apps/api/ent/apikey_query.go:181-190 | whatever the builder, what `IDs` does to it before scanning makes DISTINCT mean the same to both compilers |
| `QueryResults.IDsSeeTheRowsOfAll` | apps/api/ent/apikey_query.go:181-190 | that change does not change the rows behind `All` |
| `QueryResults.IDsMatchAll` | apps/api/ent/apikey_query.go:181-190 | without a prior selection `IDs` returns the IDs of the rows that `All` reads, in the same order |
| `QueryResults.IDsSucceedIff` | apps/api/ent/apikey_query.go:181-190 | `IDs` succeeds if and only if no field was selected, fields and traversal are in order, and neither bound of the window is negative |
| `QueryResults.IDsOnlyOnce` | apps/api/ent/apikey_query.go:83-230 | `IDs`, `FirstID`, `OnlyID` and `Exist` each fail on a builder with selected fields, and after any of them each of them fails on that builder |
| `QueryResults.IDOperationsRefineUnbounded` | apps/api/ent/apikey_query.go:83-230 | `FirstID`, `OnlyID` and `Exist` against the unbounded list, for any previously set limit |
| `QueryResults.ExistFindsMatch` | apps/api/ent/apikey_query.go:220-230 | without an offset `Exist` is true if and only if some row of the source passes every filter |
| `QueryResults.PreparedMeans` | apps/api/ent/apikey_query.go:318-330 | preparing reports the first unknown field, else the error of the traversal; else it leaves the builder as it was, with the traversal's rows as its source if there is one |
| `QueryResults.FailuresAreReported` | apps/api/ent/apikey_query.go:307-331 | an error of preparing reaches every terminal operation, wrapped by `Exist`, whatever the store holds |
| `QueryResults.UnknownFieldIsReported` | apps/api/ent/apikey_query.go:318-322 | the first selected field that is no column is reported by every terminal operation, before any traversal is taken |
| `QueryResults.FailingTraversalIsReported` | apps/api/ent/apikey_query.go:323-327 | with valid fields, so is the error of a traversal that fails |
| `QueryResults.NegativeOffsetIsReported` | apps/api/ent/apikey_query.go:394-396 | a negative offset is an error of every terminal operation |
| `QueryResults.TraversalDecidesAnswer` | apps/api/ent/apikey_query.go:323-329 | after a traversal every terminal operation answers from the rows that it leads to, as a builder without it, with `Unique` set unless it was, answers from a table of these rows; the table itself does not matter |
| `QueryResults.ExistFindsRow` | apps/api/ent/apikey_query.go:220-230 | without an offset `Exist` is true if and only if every filter holds of some row of the traversal, or of the table when there is none |
| `QueryResults.TerminalsLeave` | apps/api/ent/apikey_query.go:63-190 | what each terminal operation leaves of the builder: its limit, the ID among the fields, `Unique` after a traversal, the rows taken, and everything else as it was |
| `QueryResults.AllReadsRows` | apps/api/ent/apikey_query.go:333-405 | `All` reads the rows of the traversal or the table, filtered, sorted, without duplicates where asked for, from the offset on, up to a limit that is not zero |
| `QueryResults.ReadAllOutcome` | apps/api/ent/apikey_query.go:341-351 | reading succeeds if and only if each row reads, and then the nodes are theirs by position |
| `QueryResults.ReadAllNamesFirstFault` | apps/api/ent/apikey_query.go:341-351 | otherwise the error is that of the first row that does not read |
| `QueryResults.IDsAreNodeIDs` | apps/api/ent/apikey_query.go:181-190 | `IDs` returns the IDs of the nodes that `All` returns, by position |
| `QueryResults.ZeroLimitSplitsIDsFromAll` | apps/api/ent/apikey_query.go:391-435 | with a limit of zero `IDs` returns nothing while `All` reads as if there were no limit |
| `QueryResults.DropIDKeepsOrder` | apps/api/ent/apikey_query.go:378-382 | the loop keeps every selected field but the ID, in increasing order of position |
| `QueryResults.ProjectedColumns` | apps/api/ent/apikey_query.go:375-383 | the columns start with the ID, hold it exactly once, and are otherwise the selected fields |
| `QueryResults.ProjectedReadRefinesFullRead` | apps/api/ent/apikey_query.go:333-383 | reading through them agrees with the full read on the ID and the selected fields and leaves every other member fresh |
| `QueryBuilder.Append` | apps/api/ent/apikey_query.go:31-34 | Go's append: the result may share the old array or own a new one, and the old slice keeps its contents |
| `QueryBuilder.APIKeyQuery.Where` | apps/api/ent/apikey_query.go:31-34 | predicates are appended and nothing else changes |
| `QueryBuilder.APIKeyQuery.Order` | apps/api/ent/apikey_query.go:56-59 | order options are appended and nothing else changes |
| `QueryBuilder.APIKeyQuery.Select` | apps/api/ent/apikey_query.go:294-300 | fields are appended and nothing else changes |
| `QueryBuilder.APIKeyQuery.Limit` | apps/api/ent/apikey_query.go:37-40 | the limit is replaced and nothing else changes |
| `QueryBuilder.APIKeyQuery.Offset` | apps/api/ent/apikey_query.go:43-46 | the offset is replaced and nothing else changes |
| `QueryBuilder.APIKeyQuery.Unique` | apps/api/ent/apikey_query.go:50-53 | the unique flag is replaced and nothing else changes |
| `QueryBuilder.APIKeyQuery.Clone` | apps/api/ent/apikey_query.go:243-257 | an equal builder that shares no memory with the original; nil for nil |
| `QueryBuilder.APIKeyQuery.PrepareQuery` | apps/api/ent/apikey_query.go:307-331 | the first invalid field is reported before the traversal is taken; a taken traversal becomes the source |
| `QueryBuilder.APIKeyQuery.MakeQuerySpec` | apps/api/ent/apikey_query.go:367-405 | the spec is the one the agreement theorems speak of |
| `QueryBuilder.APIKeyQuery.SqlQuery` | apps/api/ent/apikey_query.go:407-437 | the selector is the one the agreement theorems speak of |
| `QueryBuilder.APIKeyQuery.RunAll` | apps/api/ent/apikey_query.go:162-169 | result and builder state are those of `All`, new memory is fresh |
| `QueryBuilder.APIKeyQuery.RunFirst` | apps/api/ent/apikey_query.go:63-72 | the same for `First` |
| `QueryBuilder.APIKeyQuery.RunOnly` | apps/api/ent/apikey_query.go:109-122 | the same for `Only` |
| `QueryBuilder.APIKeyQuery.RunIDs` | apps/api/ent/apikey_query.go:181-190 | the same for `IDs` |
| `QueryBuilder.APIKeyQuery.RunFirstID` | apps/api/ent/apikey_query.go:85-95 | the same for `FirstID` |
| `QueryBuilder.APIKeyQuery.RunOnlyID` | apps/api/ent/apikey_query.go:136-150 | the same for `OnlyID` |
| `QueryBuilder.APIKeyQuery.RunExist` | apps/api/ent/apikey_query.go:220-230 | the same for `Exist` |
| `QueryBuilder.PerformAll` | apps/api/ent/apikey_query.go:31-300 | builder and terminal operations on two builders with separate memory, in any interleaving: each ends as if only its own had been performed |
| `QueryBuilder.CloneThenDiverge` | apps/api/ent/apikey_query.go:241-257 | after `Clone`, operations on original and clone in any interleaving: each ends as if the other had never been touched |
| `Update.StepsFollowSchema` | apps/api/ent/schema/apikey.go:17-49 | the steps an update has for a field are exactly those its schema offers: set if mutable, add if an integer, append if a JSON list, clear if optional |
| `Update.StepsCoincide` | apps/api/ent/apikey_update.go:1618-1817 | the two forms have the same steps in the same order for every field |
| `Update.ActionsAreDemanded` | apps/api/ent/apikey_update.go:700-899 | the update spec holds an action if and only if the mutation asks for it and the schema offers it |
| `Update.ActionsAreInOrder` | apps/api/ent/apikey_update.go:700-899 | the actions come in column order, and for one column in the order set, add, append, clear |
| `Update.FormsBuildSameActions` | apps/api/ent/apikey_update.go:1618-1817 | for every mutation the two forms build the same actions in the same order |
| `Update.APIKeyUpdate.Defaults` | apps/api/ent/apikey_update.go:666-671 | an unset update time is set to the clock reading, and nothing else changes |
| `Update.CheckUpdateNames` | apps/api/ent/apikey_update.go:674-686 | an update passes if and only if the name and the prefix that it sets, if it does, are strings other than the empty one; the name is looked at first |
| `Update.BatchSpecMeans` | apps/api/ent/apikey_update.go:688-899 | the batch spec exists if and only if the validators pass, names no single row, carries the builder's filters and holds exactly the demanded actions |
| `Update.SingleSpecMeans` | apps/api/ent/apikey_update.go:1593-1817 | the single spec names the row of the mutation's ID, carries the builder's filters, reads the ID and the selection back, and holds exactly the demanded actions |
| `Update.SingleSpecFails` | apps/api/ent/apikey_update.go:1590-1605 | its errors in order: a validator's, the missing ID, the first unknown field |
| `Update.TranslatedMeans` | apps/api/ent/apikey_update.go:900-907 | not-found, constraint violations and other errors of the graph library stay told apart |
| `Update.APIKeyUpdate.MakeSpec` | apps/api/ent/apikey_update.go:688-899 | a validator's error, or a spec for all matching rows with exactly the batch actions |
| `Update.APIKeyUpdate.SqlSave` | apps/api/ent/apikey_update.go:688-910 | the affected count of the graph library, or the spec's error, or the library's error translated; the mutation is done only on success |
| `Update.APIKeyUpdateOne.Defaults` | apps/api/ent/apikey_update.go:1567-1572 | an unset update time is set to the clock reading, and nothing else changes |
| `Update.APIKeyUpdateOne.Select` | apps/api/ent/apikey_update.go:1533-1536 | the selection is replaced, not extended |
| `Update.APIKeyUpdateOne.SelectColumns` | apps/api/ent/apikey_update.go:1599-1610 | the single loop accepts the selections that the query's two passes accept, reports the same first invalid field and builds the same columns |
| `Update.APIKeyUpdateOne.MakeSpec` | apps/api/ent/apikey_update.go:1589-1817 | the errors in the order validator, missing ID, invalid field; otherwise the spec for that row |
| `Update.APIKeyUpdateOne.SqlSave` | apps/api/ent/apikey_update.go:1589-1831 | a fresh node read through the columns of the spec, or the spec's error, or the library's error translated; the mutation is done only on success |
| `Update.ReadBackMatchesQuery` | apps/api/ent/apikey_update.go:1599-1610 | `UpdateOne` and a query with the same selection fail on the same first field and read the same columns |
| `UpdateTable.EachUpdatesItsRow` | apps/api/ent/apikey_update.go:1589-1831 | the single form applied to each of a list of distinct matching IDs, each time with its own actions, changes exactly the named rows, once each, up to the first that the unique prefix refuses |
| `UpdateTable.MissingRowIsNotFound` | apps/api/ent/apikey_update.go:1821-1823 | an ID without a row that passes the filters is not found, and nothing changes |
| `UpdateTable.SavesReach` | apps/api/ent/apikey_update.go:1525-1831 | how far the single form gets and whether the batch is taken, by the prefix that the mutation sets: all and taken if it sets none; otherwise none if another row has it and else exactly one, and the batch only if it matches that one row |
| `UpdateTable.BatchEqualsPointwise` | apps/api/ent/apikey_update.go:638-910 | through the defaults, clock reading and spec of each `Save`, on a store that refuses repeated prefixes: the batch form gives the table and the error that the single form gives when saved for each initially matching ID in any order up to the first error, if and only if a validator fails and there is an ID, or nothing matches, or the selection is valid and either another row has the new prefix, or the prefix is not set or one row matches and the update times agree |

## Left out

- QueryBuilder.APIKeyQuery.PrepareQuery: leaves out the loop over interceptors and traversers, which are
  functions the repository does not fix and may change the builder arbitrarily.
- QueryBuilder.APIKeyQuery.SqlQuery: when there is a traversal the source adds clauses to the traversal's
  own selector object; the model builds a new value, so it does not show that object being shared.
- The hooks of the update builders (`withHooks`), and what the graph library does between a spec and its answer.
- Single create (`APIKeyCreate.Save` and `sqlSave`): the chain of one builder without the batch.
- How a mutation combines Set, Add and Clear on one field, and the setters of the update builders.
- `Count`, `GroupBy` and `Aggregate`: mostly the behaviour of the external selector.
- Delete builders, `String`, `Value`, `Unwrap`, and the wrappers that panic on error.
- Contexts, transactions, dialects, drivers, and SQL text.
- Integer width: IDs and limits are unbounded integers, so the conversion from a 64-bit column to the
  platform's int is the identity.
- Sharing between list values: a JSON list is a value, so two nodes never share its backing array.
- A nil hook, a hook that panics or does not return, and a hook with memory of its own between calls.
- The other entities of the repository, which follow the same template with fewer fields, and the scheduling,
  billing and quota logic that uses them.
