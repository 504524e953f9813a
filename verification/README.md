# godynamo: a model of its protocols and proofs about it

godynamo is a client library over a conditional key-value store. It stamps entities with
audit fields and a version, writes them under optimistic locks, reads and writes them in
transactions and in batches with bounded retries, and reads collections page by page or with
one goroutine per segment. This project models those parts and proves what they guarantee.

The store is the environment and is stated once, in `Store`: a table from (PK, SK) to
attributes, an evaluator for conditions, an evaluator for update actions, and an atomic
multi-item commit. What a service may do beyond that is data that every theorem quantifies
over:

- a call can be lost before it takes effect, or its reply afterwards (`Crud.Fault`);
- a batch call processes any part of its request, in any order, and hands back the rest; a
  failing call may have processed entries all the same (`Retry.BatchReply`);
- a batch get reads each key at a moment of its own; what is there then is arbitrary
  (`Batch.Ask`);
- a page is the next run of positions after the start key, without gaps, in a strict total
  order; the table may change arbitrarily between two pages (`Paging.Moment`, `LegalPage`);
- segments of a parallel scan partition the keys (`Scan.Partitions`).

A reply that does not keep its promise is turned into a failed call. So the theorems about runs
that succeed are about legal replies, although none of them says so among its hypotheses.

## Layout

| file | models |
|---|---|
| `Text.dfy`, `Sequences.dfy` | strings: join, split, trim, decimal text, order; repetitions in sequences |
| `Store.dfy` | the table, conditions, updates, atomic commits |
| `Tags.dfy` | `tags.go`: struct descriptors, the clause grammar, attribute names |
| `Keys.dfy` | `model.go`, `keys.go` and the default-key part of `crud.go` |
| `Injectivity.dfy` | when a key determines the values it is made of |
| `Compress.dfy` | `compress.go`: marshalling with compressed fields |
| `Crud.dfy` | `crud.go`: stamping, Put, Get, Delete, the update builder |
| `OwnKeys.dfy` | when a stored record reads back as an entity whose own key is the one it sits at |
| `History.dfy` | the log of committed writes, and what the versioning protocol makes of it |
| `Protocol.dfy` | any number of clients: read, edit in memory, stamp, send, deliver |
| `Runs.dfy` | theorems over every run of that machine |
| `Steps.dfy` | steps of the machine for runs that are written out |
| `MovedPuts.dfy` | runs in which an edited key field makes a put overwrite a record nobody read |
| `Counterexamples.dfy` | runs of small types: a re-sent put, a re-created key, a key that lists a time, a moved key |
| `Transact.dfy` | `transact.go` |
| `Serializable.dfy` | clients that read, decide and commit one guarded transaction |
| `StaleReads.dfy` | the run in which a deleted and re-created record passes a guard |
| `Retry.dfy`, `Batch.dfy` | `batch.go` |
| `Paging.dfy`, `Query.dfy`, `Cursor.dfy` | `query.go` |
| `Scan.dfy` | `scan.go`, including `allParallel` as a machine with a mutex and a wait group |

`dafny verify dfyconfig.toml` checks everything.

## What is proved

1. **Versioning.** A live record's Version is the number of writes since it came into
   existence. Put and Update report the lock error exactly when the key or the version they
   expect is not there, and write nothing then. A version-guarded write that relied on a read replaces exactly what was read if
   and only if it goes to the key that was read, expects the version read, and the key was not
   deleted since. For a put this means that the pointer was not sent before since it was read,
   because stamping is not undone when a send fails, and that no edit moved its key, because PK
   and SK are computed from the edited fields while the guard compares a version only. Each of
   the three conditions has its run without it: in `ResentRun` a refused put, sent again,
   overwrites another client's put; in `MovedPutRun` the first send of a moved copy overwrites a
   record that nobody read; in `RecreatedRun` a copy of a deleted record overwrites its successor.
   Counters changed by blind adds are conserved under guarded puts that carry them. UpdatedAt
   never goes back under a monotone clock. CreatedAt and CreatedBy never change in an incarnation
   whose writes leave them alone: a record is born by a put, every later put goes back to the key
   and the incarnation it was read from, and no update names them. `MovedPutRun` is again the run
   without that: CreatedAt of a live record becomes another record's. Deliveries happen any
   number of times and at any later moment, so an error that hides a success is covered.
2. **Transactions.** A transaction reports the lock error exactly when some guard does not hold,
   and success exactly when it has written everything. If every committed transaction lists each item it read as a put or a
   condition check at the version it read, and none of these items was deleted meanwhile, the
   commit order is a serial execution in which every transaction reads what it had acted on.
   Single updates by other clients are among the writes. A transaction that lists its reads acts
   on the latest commit of each item if and only if none was deleted (`LatestExactly`), and
   without that condition serial reads fail: `StaleReadCommits` is such a run.
3. **Batches.** Success means that every request was processed as often as it was queued. A batch
   that reports success equals applying the queue one by one, for every
   behaviour of the service, exactly when for each key all requests in the last chunk that
   mentions it are equal. The "only if" half is about a service that accepts two entries for one
   key in a call; BatchWriteItem itself refuses such a call. What a failing chunk leaves behind,
   after its retries or after a failed call, and what a run costs is exact.
4. **Reads.** Whatever was set on a builder, a query returns exactly what was asked for. Pages
   under interference, pages on a still table, page-by-page iteration with
   cursors against reading everything, and the parallel scan, under interference and against the
   plain scan on a still table, down to the reads and writes of the shared variables under the
   mutex. A batch get under interference fetches once each record that was there when it was read.
5. **Keys, tags, cursors, compression.** What any tag text says about a field or the keys of a
   type. Keys are injective exactly when at most one listed
   field may hold `#`; prefix selection; round trips. A stored record reads back as an entity
   whose own key is the one it sits at, whatever is put and however times print, exactly when no
   key lists CreatedAt, UpdatedAt or a field tagged out of storage. `crud.go:104-106` allows the
   audit fields in key clauses, but a clock reading prints with parts that storage does not keep
   (`client.go:76`, `keys.go:88`): in `TimeKeyRun` the put of a copy that was read and not changed
   is refused for such a type.

Where the code and its comments disagree the model follows the code. The comment at
`crud.go:188-190` says that a re-put need not touch the index attribute. A put replaces the
whole item and the attribute is written on create only (`crud.go:159-161`), so a re-put record
leaves the type index. `TypeIndexInRuns` and `TypeQuerySees` state exactly which records a type
query sees.

## Model

| member | source | states |
|---|---|---|
| Tags.SplitFields | tags.go:141-151 | splitting a clause value yields the trimmed, non-empty names in order |
| Tags.ParseClause | tags.go:98-113 | one clause replaces the list of its key; a clause that is empty, has no colon or another key changes nothing |
| Tags.ParseModelClauses | tags.go:92-115 | the loop over the clauses computes the specification `ModelClauses`, of which `ParseOfRender` is proved |
| Tags.ParseOfRender | tags.go:92-115 | parsing any rendering, with any white space, empty slots, malformed clauses and clause order, gives the slot names of the last pk and the last sk clause |
| Tags.EveryTagIsRendered | tags.go:92-115 | every tag text is such a rendering, so `ParseOfRender` says what every tag parses to |
| Tags.ParseCompressFields | tags.go:120-137 | the names of the fields tagged for compression, in declaration order |
| Tags.ResolveAttrName | tags.go:178-192 | the attribute a Go field name resolves to; an unknown field resolves to itself |
| Tags.AvTagMeans | tags.go:178-192 | the attribute name of a field is the part of its dynamodbav tag before the first comma; an empty part leaves the Go name, `-` keeps the field out of storage |
| Tags.CompressTagMeans | tags.go:120-137 | a field is compressed if and only if its dynamo tag is the word `compress`, with any white space around it |
| Tags.AttrNameOfField | tags.go:178-192 | a field named in an expression resolves to the attribute it is stored under |
| Keys.KeysOfTag | keys.go:19-52 | for any text of the tag, PK is the struct name and the printed values of the fields of the last pk clause in order, SK those of the last sk clause with the ID last; without such a clause the struct name and the ID |
| Keys.KeysWithoutTag | keys.go:19-52 | without a tag both keys are the struct name and the ID |
| Keys.BuildKey | keys.go:80-91 | the loop joins the struct name and the listed field values with `#` |
| Keys.SortKeyDeterminesId | keys.go:41-52 | two values with equal sort keys have equal IDs, for any types and clauses and whatever `#` their other fields hold |
| Keys.KeysSeparateTypes | keys.go:80-91 | keys of differently named structs are never equal |
| Injectivity.KeyDeterminesFields | keys.go:80-91 | when at most one listed field may hold `#`, the keys of two values of a type are equal if and only if the values of all listed fields are (of a time: its printed text) |
| Injectivity.SprintDetermines | keys.go:88 | within one kind the printed text determines the value: strings, decimal numbers, byte lists |
| Injectivity.SeparatorsCollide | keys.go:80-91 | for any two text fields of the list there are two values of the type with equal keys and different fields: a `#` moves through the `#`-free fields in between |
| Injectivity.InjectiveIff | keys.go:80-91 | over all values of a type whose `#` are confined to given fields, keys determine the listed values if and only if there is at most one such field |
| Keys.PrefixSelects | keys.go:80-91 | a prefix ending in `#` is a prefix of a record's key if and only if the record has those leading values |
| Keys.ZeroKeysAgree | crud.go:33-43 | the key computed from a zero value with the ID set is every entity's own key if and only if no other field takes part in a key |
| Keys.AddressingById | crud.go:38-66 | for every type that requiresDefaultKey accepts, PK and SK of an entity are the key that Get, Delete, Update and BatchGet compute from its ID |
| Compress.MarshalItem | compress.go:54-79 | the overwriting loop computes `Marshalled` |
| Compress.MarshalledField | compress.go:63-77 | a compressed field is stored packed under its resolved name, another field natively |
| Compress.MarshalledOther | compress.go:54-79 | every other attribute is untouched by the compression loop |
| Compress.PackSucceeds | compress.go:63-77 | marshalling succeeds if and only if every compressed field packs |
| Compress.ExtractCompressedFields | compress.go:157-183 | copying and deleting in a loop computes `Extract`; the caller's map is a value and cannot change |
| Compress.ExtractAt | compress.go:157-183 | exactly the Binary attributes of compressed fields are set aside, each with its field; everything else stays |
| Compress.ApplyPendingCompressedFields | compress.go:189-206 | setting the pending fields in place computes `Applied`, stopping at the first value that does not unpack or does not fit its field's kind |
| Compress.UnmarshalItemInto | compress.go:112-135 | unmarshalling in place computes `Unmarshalled` of the destination as it was |
| Compress.UnmarshalledFieldwise | compress.go:112-135 | reading succeeds if and only if every attribute is readable, and then sets each field from its packed value, from its native value (a legacy record), or leaves it alone when the attribute is missing |
| Compress.PackedRead | compress.go:189-206 | a packed value is read only by decoding it: if that fails, or gives another kind, the whole read fails |
| Compress.RoundTrip | compress.go:54-206 | reading a written entity, with any added attributes, gives it back, for any codec that decodes into a field's type what was encoded from it; times print as storage prints them, fields tagged out of storage read as zero |
| Crud.StampAndMarshal | crud.go:119-164 | stamps the pointer in place, whatever becomes of the write, and returns item and condition of `PutOf` |
| Crud.RecordHolds | crud.go:152-161 | a put carries the stamped audit fields and its own key, and the index attribute exactly on create |
| Crud.PutCarries | crud.go:126-150 | which audit fields, ID, type and version every put and every create carries, from the clock, the actor and what the pointer held; the pointer holds the same |
| Crud.ReadBackPut | crud.go:119-164 | a stored put reads back as the stamped entity, its times as storage prints them |
| Crud.Put | crud.go:200-225 | success if and only if a create finds its key free or a re-put finds the version of the copy, and then the stamped record is at its key; else the lock error and an unchanged table; the pointer stays stamped on refusal, loss and marshal failure |
| Crud.PutAcceptedIff | crud.go:130-150 | a create is accepted if and only if its key is free, a re-put if and only if the record has the version of the caller's copy |
| Crud.RetryAfterRefusal | crud.go:145-149 | a refused pointer sent again is accepted if and only if the record is one version ahead of the copy (at version 1 after a create) |
| Crud.Get | crud.go:236-259 | the record at the key of the ID, or not found, or the default-key error |
| Crud.GetAfterPut | crud.go:200-259 | after an accepted put of an ID-keyed type, Get by the ID finds the entity as it was stamped |
| Crud.Delete | crud.go:269-284 | removes the key unconditionally; a missing key is a success |
| Crud.UpdateBuilder.Set | crud.go:319-323 | queues a SET of the resolved attribute |
| Crud.UpdateBuilder.Add | crud.go:329-333 | queues an ADD to the resolved attribute |
| Crud.UpdateBuilder.IfVersion | crud.go:338-341 | the version the update will expect |
| Crud.UpdateBuilder.Changes | crud.go:368-377 | the loop that assembles the update expression |
| Crud.UpdateBuilder.Run | crud.go:358-406 | the lock error if and only if an expected version is set and the record is missing or at another version; only otherwise, and if the additions meet numbers, is the record at the ID's key written, and the returned item is its new state |
| Crud.GuardedUpdate | crud.go:380-398 | the same of the request, for every table and every well-formed queue of changes; without an expected version no version refuses it |
| Crud.UpdateWellFormedIff | crud.go:368-386 | the update is rejected as malformed exactly when the caller names an attribute twice, a key attribute, or one that Run writes itself |
| Crud.UpdateOutcome | crud.go:368-381 | an accepted update adds one to Version (1 on a record it creates), sets UpdatedAt and leaves unnamed attributes alone |
| Crud.UpdateApplies | crud.go:368-377 | an accepted update leaves every queued Set's value, adds every queued Add to the old number, and records the actor |
| Crud.UpsertThenPutForks | crud.go:377-396 | a record created by a blind update that names neither ID nor CreatedAt reads as new, and putting the copy leaves that record alone and creates another one under a fresh ID |
| Crud.OneEntryIsSend | crud.go:214-223 | a single write is a one-entry commit, which ties Put, Delete and Update to the machine |
| OwnKeys.KeyTextStored | keys.go:80-91 | the text a key takes from a field, times aside, is that of the attribute the same put stores for it |
| OwnKeys.OwnKeyIff | crud.go:101-106 | whatever value of the type is put, and however times print when stamped and when read back, it reads back as an entity at its own key if and only if no key lists CreatedAt, UpdatedAt or a field tagged out of storage |
| History.VersionCounts | crud.go:130-150 | in every legal log the version of a live record is the number of writes since it came into existence |
| History.SameWrite | crud.go:143-150 | key and version determine the commit, hence the contents, within an incarnation |
| History.NoLostUpdate | crud.go:143-150 | a committed guarded write replaces exactly what it read if and only if it goes to the key read, expects the version read, and the key was not deleted since |
| History.CarriedConstant | crud.go:143-150 | an attribute that every write of an incarnation carries never changes in it |
| History.CounterConserved | crud.go:329-333 | the stored counter is its value at any earlier commit plus all deltas committed since |
| History.UpdatedAtMonotone | crud.go:143-150 | UpdatedAt does not decrease along soundly guarded writes |
| History.TypeIndexExactly | crud.go:159-161 | the index attribute is present, with the creator's name, exactly when the last full put was the create |
| History.RecordAllOk | transact.go:300-305 | recording an accepted multi-item request keeps log and table in step |
| Protocol.PrepareOk | crud.go:119-164 | building a request, stamping as it goes, keeps copies and entries in order |
| Protocol.NextOk | crud.go:119-164 | every action of every client keeps the invariant |
| Protocol.RunOk | crud.go:200-225 | every reachable state satisfies the invariant |
| Runs.VersionCountsCommits | crud.go:130-150 | version counting in every reachable state, blind updates included |
| Runs.InterveningCommitInvalidates | crud.go:143-150 | a write expecting the version of a read is accepted only if nothing was committed to the key since, unless it was deleted |
| Runs.NoLostUpdateInRuns | crud.go:200-225 | no lost update, over every interleaving, with its exact condition |
| Runs.FirstSendDecides | crud.go:145-149 | for a put the condition is that the pointer was not sent before since it was read, that no edit moved its key, and that the key was not deleted |
| MovedPuts.MovedPut | crud.go:149-158 | from any reachable state in which an edited copy's key has moved onto a record of the same version, its first send overwrites that record |
| MovedPuts.MovedPutRun | crud.go:149-158 | such a run from the start: two creates, a read, an edit of a key field, a put; CreatedAt of the overwritten record becomes the other record's |
| Counterexamples.SiteRun | crud.go:149-158 | an instance without further hypotheses on values: two sites with one ID in two zones |
| Counterexamples.ResentRun | crud.go:145-149 | two clients read a record, one puts it, the other's put is refused and, sent again, overwrites the first one's put |
| Counterexamples.RecreatedRun | crud.go:145-149 | a copy's first send is accepted at the key and version it read, though its record was deleted and another one created there |
| Counterexamples.TimeKeyRun | crud.go:126-158 | for a type with sort key CreatedAt, an unchanged copy is put back if and only if the time prints after reading as it did when stamped; otherwise nothing is written, and the copy's own key holds no record for a delete to remove |
| Runs.CounterConservedInRuns | crud.go:368-381 | counter conservation over every run |
| Runs.TypeIndexInRuns | crud.go:186-190 | the type index over every run |
| Runs.CreationConstant | crud.go:143-150 | CreatedAt and CreatedBy are constant for a whole incarnation when clients leave them alone and put records back at the key and incarnation they were read from |
| Runs.UpdatedAtNeverGoesBack | crud.go:126-150 | with a globally monotone clock UpdatedAt never goes back, although stamping precedes commit |
| Runs.StoredAtOwnId | crud.go:156-158 | every stored record of an ID-keyed type sits at the key of its own stored ID |
| Runs.StoredAtOwnKey | crud.go:156-158 | in every run, every stored record of a type with key clauses that list no time and no unstored field reads back as an entity whose PK and SK are the key it sits at |
| Stamping.StampQueue | transact.go:273-298 | the loop over the queue stamps the pointers in place and in order, and stops where one cannot be marshalled |
| Stamping.StampOnce | transact.go:273-298 | when no pointer is queued twice every put is the one its pointer's own value gives, and other pointers are untouched |
| Transact.CancellationReasonCodes | transact.go:331-341 | one code per reason, `None` where it is missing |
| Transact.TranslateTransactWriteErr | transact.go:315-326 | the lock error exactly when some reason is a failed condition |
| Transact.LockErrorIff | transact.go:244-326 | the caller is told the lock error if and only if some guard does not hold on the table, and success if and only if all hold and all additions meet numbers; only with success is anything written, and then everything |
| Transact.TransactWriteBuilder.Put | transact.go:177-183 | queues the pointer, unless an error is latched |
| Transact.TransactWriteBuilder.Delete | transact.go:190-202 | queues a delete of the item's own key |
| Transact.TransactWriteBuilder.ConditionCheck | transact.go:210-231 | queues a check of the version, or latches the build error |
| Transact.SendTransaction | transact.go:300-326 | the same about the call and the error it returns; a malformed or lost call is another error |
| Transact.TransactWriteBuilder.Run | transact.go:255-306 | stamps the queue and makes one atomic call, with that result; nothing happens for a latched error, an empty queue or more than 100 entries |
| Transact.FillDistinct | transact.go:109-120 | distinct destinations hold their own records, those without a record are untouched, and the run succeeds exactly when all read |
| Transact.FillDestinations | transact.go:109-120 | the loop over the responses, in place |
| Transact.TransactGetBuilder.Run | transact.go:79-122 | one snapshot read of at most 100 destinations: each is filled from the record at the key it had, over the value it had, or left alone if there is none; success if and only if all of them read |
| Serializable.GuardedSerializable | transact.go:204-231 | guarded transactions are serializable in commit order, each reading the values it acted on |
| Serializable.HeldRead | transact.go:210-231 | an accepted request finds an item it holds as it was read if and only if the item was not deleted since |
| Serializable.LatestExactly | transact.go:204-231 | a committed transaction that lists its reads acted on the latest commit of each item if and only if none of them was deleted in between |
| Serializable.BuilderRequest | transact.go:255-306 | what the builder sends for distinct pointers is the request of the machine |
| StaleReads.StaleReadCommits | transact.go:210-231 | a run in which every committed transaction lists its reads and the last one acted on a deleted record, where a serial execution would have shown another |
| Retry.DrainKeeps | batch.go:295-318 | one chunk: success processed the whole chunk, exhaustion exactly the complement of the last unprocessed entries |
| Retry.DrainCost | batch.go:33-35 | one chunk: at most six calls and the sum of the backoffs, exactly that much on exhaustion |
| Retry.DrainSleeps | batch.go:33-35 | the n-th retry of a chunk waits n times 10 ms: one to six calls take 0, 10, 30, 60, 100 or 150 ms of sleep, however the chunk ends |
| Retry.RunComplete | batch.go:281-292 | a run that succeeds processed every entry exactly as often as it was queued |
| Retry.FailureShape | batch.go:281-318 | when a chunk is exhausted or a call fails the earlier chunks are complete, of the chunk exactly the complement of its last unprocessed entries was processed (some entries if a call failed), and no later entry was sent |
| Retry.RunCost | batch.go:281-318 | every call is within the limit, with at most six calls and 150 ms of sleep per chunk |
| Retry.ChunksIsCeiling | batch.go:281-282 | the number of chunks is the rounded-up quotient |
| Retry.ChunkStep | batch.go:281-289 | one pass of the loop over the chunks |
| Retry.Wire.SendAll | batch.go:295-318 | the retry loop computes `Drain` |
| Batch.BatchIsSequentialIff | batch.go:254-293 | success equals one-by-one application, for every service behaviour, if and only if the queue is settled |
| Batch.DistinctIsSettled | batch.go:281-289 | a queue with distinct keys in each chunk is settled |
| Batch.SettledRun | batch.go:281-318 | key by key, a settled queue ends the same in every complete run |
| Batch.UnsettledRun | batch.go:281-318 | for any other queue some complete run ends differently |
| Batch.BatchFailure | batch.go:281-318 | on the table: the settled queue prefix applied one by one, and on top exactly the processed entries of the failing chunk |
| Batch.BatchWriteCost | batch.go:14-35 | calls of at most 25 entries, at most 6 and 150 ms per started 25 entries |
| Batch.BatchPutIgnoresVersion | batch.go:270-278 | a batch put replaces a record that Put would refuse to, and leaves the caller's version plus one |
| Batch.StripsApplied | batch.go:264-279 | the requests are the stamped writes without their conditions |
| Batch.BatchWriteBuilder.Put | batch.go:203-211 | queues the pointers in order, unless an error is latched |
| Batch.BatchWriteBuilder.Delete | batch.go:227-242 | queues deletes by ID in order; a type with key clauses latches an error |
| Batch.BatchWriteBuilder.RunChunk | batch.go:295-318 | one chunk with its effect on the table |
| Batch.BatchWriteBuilder.RunChunks | batch.go:281-292 | the loop over the chunks, up to the first that fails |
| Batch.BatchWriteBuilder.Run | batch.go:254-293 | stamps the queue, drops the conditions and sends the chunks; success means every request was processed as often as queued, and for a settled queue the table of its unguarded writes applied one by one; unprocessed entries, a failed call or a put that cannot be marshalled is an error |
| Batch.BatchGetExactly | batch.go:86-154 | over distinct ids, with the table changing in any way meanwhile, a successful run has fetched exactly once each queued key that held a record when it was read, with that record, and nothing else |
| Batch.BatchGetCost | batch.go:14-35 | calls of at most 100 keys, at most 6 and 150 ms per started 100 keys |
| Batch.BatchGetStill | batch.go:86-154 | on a table that does not change these are the stored queued records |
| Batch.BatchGetBuilder.RunChunk | batch.go:118-154 | one chunk with its unmarshalled records |
| Batch.BatchGetBuilder.RunChunks | batch.go:101-114 | the loop over the chunks of 100 keys |
| Batch.BatchGetBuilder.Run | batch.go:86-114 | the default-key check, the keys and the chunks; success returns the values of the records found for all queued keys, any error nil items |
| Paging.ListingIncreasing | query.go:359-376 | under any interference rows come back in strictly increasing order and each was there when it was read |
| Paging.ExactlyOnce | query.go:359-376 | a record that is there and matches throughout is listed exactly once |
| Paging.StillListing | query.go:359-376 | on a still collection the listing is the plain filter |
| Paging.PageSizeIrrelevant | query.go:283-292 | neither the page size nor the page splits matter |
| Paging.CallsBound | query.go:359-376 | on a still collection a listing takes at most one call more than there are positions |
| Paging.RangeListing | query.go:297-376 | the same for the part of the table in a key range |
| Paging.PageWire.ListAll | query.go:358-377 | the paging loop computes `ListFrom` |
| Query.FilterExpression | query.go:104-110 | the loop builds the conjunction |
| Query.ConjunctionHolds | query.go:104-110 | the filter expression holds exactly when every queued filter does |
| Query.QueryBuilder.WherePK | query.go:154-157 | base-table mode with this partition key |
| Query.QueryBuilder.WhereSK | query.go:162-183 | the sort-key condition; the last call wins |
| Query.QueryBuilder.AddFilter | query.go:269-273 | queues a filter on the resolved attribute |
| Query.QueryBuilder.BuildInput | query.go:297-347 | base-table or type-index mode, the sort-key condition, the filters, the limit, or a build error |
| Query.BuiltMeans | query.go:297-347 | for all settings of a builder: the built conditions hold exactly of the records in the partition, or of the type in the index, whose sort key meets the condition set last and that pass every filter; the index is the chosen or the default one; the limit is carried; the build fails exactly for an empty attribute name |
| Query.FilterMeaning | query.go:61-102 | what each filter operator asks of the attribute |
| Query.QueryBuilder.All | query.go:352-378 | the values of the rows of every page, in order, for the builder's settings |
| Query.PageWithinLimit | query.go:384-419 | a page holds at most as many records as the limit that was set |
| Query.QueryBuilder.Page | query.go:384-419 | one page from a cursor, and the next cursor |
| Query.QueryUnderInterference | query.go:352-378 | All of any settings under arbitrary writes between its pages: increasing keys, only records that were asked for, everything that stays exactly once |
| Query.QueryStill | query.go:352-378 | on a still table All of any settings returns exactly the records that were asked for, in order |
| Query.CursorBack | query.go:390-396 | a cursor leads back to the position it was made from, and is never empty |
| Query.PagesAreAll | query.go:380-419 | iterating Page from the empty cursor until it is empty again reads exactly what All reads |
| Query.PagesOnStillTable | query.go:380-419 | on a still table that holds for different page sizes too, and the iteration ends |
| Query.TypeQuerySees | query.go:301-311 | a type query sees a record of a reachable table exactly when the last full put of its key was the create, by that type |
| Cursor.CursorRoundTrip | query.go:424-453 | decoding an encoded key gives the key back, and no key has the empty cursor |
| Cursor.CursorUrlSafe | query.go:433 | a cursor holds only letters, digits, `-` and `_` |
| Cursor.ObjectBack | query.go:429-432 | a written JSON object of strings parses back, with every escape the encoder uses |
| Cursor.Utf8Back | query.go:433 | the UTF-8 encoding of any text decodes to it |
| Cursor.Base64Back | query.go:433-443 | unpadded base64url decodes to the bytes it was made from |
| Scan.ScanBuilder.BuildInput | scan.go:162-189 | filters, limit, and the segment if there are several; too many segments are an error |
| Scan.ScanBuilt | scan.go:162-189 | the build fails exactly for an empty attribute name or more than 2147483647 segments; the limit is carried, and segment and number of segments if there are several |
| Scan.ScanStill | scan.go:228-254 | a scan of a still table returns exactly the records that pass every filter, in order |
| Scan.ScanBuilder.ScanSegment | scan.go:228-254 | one segment read to exhaustion |
| Scan.RunOk | scan.go:263-294 | every interleaving keeps the invariant of the goroutines, the mutex, the shared variables and the wait group |
| Scan.MutualExclusion | scan.go:277-285 | two goroutines never hold the mutex |
| Scan.ParallelOutcome | scan.go:263-294 | once allParallel returns all goroutines have finished; it returns nil and the error of a segment that failed if one did, and all rows of all segments otherwise |
| Scan.NoDeadlock | scan.go:263-294 | until it returns some goroutine can take a step |
| Scan.RunsEnd | scan.go:263-294 | every run of steps that do something is bounded by six steps per goroutine and one per reply |
| Scan.JobRunsSegments | scan.go:271-275 | every goroutine runs scanSegment of its own segment |
| Scan.ParallelIsPlain | scan.go:191-220 | over a still table an error-free parallel scan returns a permutation of the plain scan, for every number of segments, page split and interleaving |
| Scan.ParallelUnderInterference | scan.go:191-294 | under arbitrary writes between the pages of any segment, an error-free parallel scan returns no key twice, only rows that were there and passed every filter when they were read, and exactly once every record that is there and passes throughout |
| Scan.TooManySegments | scan.go:177-180 | more segments than 32 bits hold fail the whole scan |

## Left out

- A time is an instant, stored as a number with 0 for the zero time, and the text it prints as. What a stored time prints as is an arbitrary function of the instant; the RFC 3339 text and the zone offset in storage are not modelled. The clock, the actor hook and the ID generator are parameters of each operation.
- Version is unbounded: wrap-around of Go's int is not modelled.
- Field values are strings, numbers and bytes. Other attribute kinds, the element-wise rules of the attributevalue library (omitempty, case-insensitive names, partly filled destinations after an error) and the text of error messages are not modelled.
- gzip with JSON is an abstract pair of functions; the round trips assume that what was encoded from a field's type decodes into that type as the same value.
- Struct types have distinct field and attribute names that do not shadow Model's, and the configured index attribute is not one of them.
- Reflection, the tag cache and panics on misuse: a type is a descriptor, a key clause names existing fields.
- Dotted attribute paths in filters and updates; Add with a value that is not a number.
- Contexts, request options, client construction, error wrapping, and statement.go, whose paging loop is the one of Query with an opaque token.
- The service's rejection of two batch entries for one key: the model lets them pass, in any order, so the batch theorems cover more behaviour than the service has.
- Retry.Wire.SendAll: one generic loop stands for the two runChunk loops; what a call processes takes effect when the chunk ends, and a record that cannot be unmarshalled fails its call.
- Runs.CreationConstant: puts that go to another key than the one they were read from carry that record's creation data; `MovedPutRun` shows them.
- Query.QueryBuilder.All: an index with another name is taken to be keyed like the default one, and to hold all attributes; a record that cannot be unmarshalled fails its page.
- Cursor.CursorRoundTrip: keys with string attributes only, which is what the library's own tables have; decoding a JSON value of another shape is an error here, where the code would return attributes of other kinds.
- Paging.PageWire.ListAll: one loop stands for QueryBuilder.All and scanSegment.
- Scan.ParallelOutcome: the goroutines are a machine over their steps; memory effects weaker than the mutex guarantees are not modelled.
- Serializable.GuardedSerializable: one direction, for a transaction can be serializable by luck although an item it read was deleted. `LatestExactly` gives both directions for acting on the latest commits.
