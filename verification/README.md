# Hammersbald, verified

A Dafny model of Hammersbald, the blockchain key/value store in `bc/chain/btc/hammersbald`. A store keeps data in an
append-only data file and finds it by key through a linear-hashing index: buckets of (hash, reference) slots, kept in
memory, written to a link file and referenced from the cells of a table file. A batch makes changes durable. While it
overwrites table pages, an undo log of their old contents allows recovery to the last batch.

The model follows the layers of the program, one file each.

| file | models |
|---|---|
| `Types.dfy`, `Codec.dfy` | references, pages, byte formats |
| `PagedFile.dfy`, `DataFile.dfy` | byte-stream appender, files of envelopes |
| `AsyncFile.dfy`, `CachedFile.dfy`, `RolledFile.dfy`, `FlatFile.dfy` | background writer, page cache, chunked file, and the flat file they refine |
| `TableFile.dfy`, `Dirty.dfy` | cells of the hash table, bitmap of modified buckets |
| `Growth.dfy`, `Index.dfy` | growth arithmetic, the index as a value |
| `Recovery.dfy`, `Ledger.dfy` | undo log, crashes, recovery; how buckets, cells and log relate |
| `MemTable.dfy` | the memory table: put, forget, get, flush, batch, recover, load |
| `Reopen.dfy`, `Store.dfy`, `Witness.dfy` | reopening, the public interface over whole runs and sessions, runs that break what does not hold |

Check it with `dafny verify dfyconfig.toml`.

## Main results

- `Store.Run`: for every hash function and fill target, every sequence of operations on a new store is answered like a
  plain map (`Store.ModelKeepsLastPut` says what that map holds). The chain is: growth arithmetic (`Growth`), one growth
  step and one put or forget on the index as a value (`Index.GrowKeeps`, `StoreKeeps`, `RemoveKeeps`), the loops of the
  memory table over lazily read buckets (`MemTables.MemTable`), the public interface (`Store.Hammersbald`).
- `Store.FirstSession`, `Store.CrashInSession`, `Store.NextSession`, `Store.LifetimeAnswers`: the life of a store over any
  number of sessions and crashes. A crash is a stop between or inside any two steps, where a step writes one table page, or
  appends to or writes one of the other files, or syncs a file, and it leaves any part of what was not synced. The `trace` of
  a batch, of recovery and of opening lists the state after each step; `Leads` says none is left out. Every state before the
  log is renewed recovers the last batch, every later one the new batch (`Store.Hammersbald.Batch`), and the same holds for a
  crash inside recovery (`Store.Open`). What a session leaves is what the next one requires; it begins with exactly the
  operations that survived.
- `Store.ReopenedAnswers`: when a reopened store answers as before, exactly.
- `AsyncFiles.RunIsSafe`, `AsyncFiles.RunIsSeen`, `CachedFiles.RunCached`, `RolledFiles.RunRolled`: each layer below, over
  all its runs, is a flat sequence of pages.

Six properties one would expect do not hold of the code. Each is kept as it is, with the condition under which it holds.

- `load` recomputes `log_mod` from the bucket count. The result is one too large when `step + log_mod - 8 >= 2^(log_mod+1)`
  (`Growth.ReloadExact`, `Growth.ReloadWitness`); then `Reopening.ShiftedAnswersExactly` says which keys are lost.
- A bucket emptied by a rehash is skipped by `flush`, so its old cell survives. After reopening, a key forgotten before can
  be found again: `Reopening.ReopenAnswersExactly`. `Witnesses.ForgottenKeyReturns` is such a run, with fill target 3: put a
  key with hash 512, batch, forget it, put a key with hash 1, put a key with hash 768, batch, reopen.
- Such a cell does harm later even if all is well after reopening. Its old slots are loaded into a bucket in which nobody
  looks for them (strays), until that bucket is rehashed again. `Store.NextSession` holds up to there, and
  `Store.SteadyInSameRound` says that it takes a whole round of growth. `Witnesses.StrayComesHome` is a run on which the key
  forgotten comes back: with fill target 3, put a key with hash 256, batch, put a key with hash 768, batch, reopen, forget
  the first key, put the second one 514 times.
- `flush` always rewrites the header of the first page, but that page is logged only if a bucket on it is modified. If it is
  not and bucket count or step changed, a crash can leave files that recover neither to the last batch nor to the new one:
  `Recovery.UnloggedHeader`, `Store.Hammersbald.Batch`. `Witnesses.TornBatch` is such a run: with fill target 1 and a key
  whose hash is 700, 713 puts, a batch, one more put, a batch.
- Truncation forgets what is not in the file yet: the queue of the background writer (`AsyncFiles.TruncateNeedsEmptyQueue`)
  and the partial page of the appender (`PagedFile.PagedFileAppender.Truncate`). Recovery truncates with both empty.
- A chunked file is not one file for every run: open for appending, it writes an updated page at its end; open for writing,
  it appends at the cursor, which a read moves. `RolledFiles.RunRolled` has the exact condition, `UpdateWhileAppending` and
  `AppendAfterReading` are the two runs. The store only appends to the former and only updates the latter.

## Modelling decisions

- Debug-build behaviour: key and data limits of `put_keyed` are checked, and a reference reaching 2^48 - 1, an oversized
  length field or a slice out of range is the error `Panic`, after which the store is not used any more.
- The hash function is an arbitrary function of the two key words and the key; its words are parameters.
- `hash & (!0 >> (32 - n))` is written as a remainder modulo 2^n, as the comments beside it do.
- Eviction from the page cache is an arbitrary set of pages at each call.
- The background thread holds both locks while it drains its queue, so draining is one step; a read takes two.
- Data, link and log file consist of synced pages, written pages and a queue. A crash keeps the synced pages and any number
  of the others, in order; a flush empties the queue, a sync makes sure of what is written.
- The table file has no queue. Pages written to it since it was last synced may be lost or reach the disk in any order: a
  crash leaves any mixture of the tables since then (`Recovery.MixtureProtected`).
- `strays` and `rehashed` of a store are bookkeeping of the proof: the buckets that were loaded from a stale cell, and those
  rehashed since then.

## Model

| member | source | states |
|---|---|---|
| `Store.Run` | bc/chain/btc/hammersbald/src/api.rs:193-243 | For every hash function, fill target and sequence of put_keyed, get_keyed, may_have_key, forget, put, get and batch on a new store, each answer is the one of a plain map, may_have_key telling exactly whether some key has the hash; a put is refused exactly for keys over 255 bytes or data of 2^23 bytes and more; a run stops early only where a debug build panics, given in numbers, at a batch only if a file may be full by an account of puts and batches so far. Of a get with a reference that was never handed out nothing is said; nothing else reports corruption |
| `Store.ModelKeepsLastPut` | bc/chain/btc/hammersbald/src/api.rs:59-65 | In that plain map a key has exactly the reference and the data of its last accepted put that no forget of it followed, and is absent otherwise |
| `Store.ReferencesAreStable` | bc/chain/btc/hammersbald/src/api.rs:67-81 | What a reference handed out by put or put_keyed stands for never changes in the rest of any run |
| `Store.NextInNumbers` | bc/chain/btc/hammersbald/src/api.rs:202-221 | Where data goes, in numbers: eight bytes more than key and data for put_keyed, seven more than the data for put, up to a page boundary for a batch |
| `Store.RoomForAll` | bc/chain/btc/hammersbald/src/memtable.rs:194-217 | A batch succeeds as long as link and data file have room for so many bytes for each bucket and each slot and for the padding |
| `Store.Accounted` | bc/chain/btc/hammersbald/src/memtable.rs:262-290 | Buckets, slots and the end of the link file never exceed an account kept of the operations alone: each accepted put adds one bucket and one slot, each batch a linear amount |
| `Store.StopsInNumbers` | bc/chain/btc/hammersbald/src/memtable.rs:194-217 | Where a run on a new store may stop, in numbers: a batch only after more than 1677721 puts, or when (batches + 1) * (14 puts + 6151) or the end of the data file comes near 2^48 |
| `Store.Apply` | bc/chain/btc/hammersbald/src/api.rs:202-243 | One operation of any kind from any valid state, unless it rehashes a bucket with strays: the answer, the next model, the growth settings, and what a crash at any of its steps leaves; a batch is safe if the header is and torn otherwise; it panics only where it may |
| `Store.HeaderSafeSeen` | bc/chain/btc/hammersbald/src/memtable.rs:183-193 | Whether the header is safe can be read off the log, the committed first page and the growth settings |
| `Store.UngrownIsSafe` | bc/chain/btc/hammersbald/src/memtable.rs:183-193 | As long as the table has not grown since the last batch, the header is safe |
| `Store.Hammersbald.PutKeyed` | bc/chain/btc/hammersbald/src/api.rs:202-212 | KeyTooLong exactly for keys over 255 bytes or data of 2^23 bytes and more, with nothing changed; otherwise the data goes to the end of the data file and the key to that reference, and the store is valid unless this rehashes a bucket with strays, which then move; panics exactly when the data would end at 2^48 - 1 or beyond; grows by one bucket exactly when no forget is outstanding, the hash is a multiple of the fill target and step is below 2^31 |
| `Store.Hammersbald.GetKeyed` | bc/chain/btc/hammersbald/src/api.rs:214-216 | Answers what the map says, for every key, and changes nothing that can be observed |
| `Store.Hammersbald.MayHaveKey` | bc/chain/btc/hammersbald/src/api.rs:232-234 | True if and only if some key of the map has the hash of this one, strays or not; so a negative answer is certain |
| `Store.Hammersbald.Forget` | bc/chain/btc/hammersbald/src/api.rs:236-238 | Removes the key from the map and leaves all data readable by reference |
| `Store.Hammersbald.Put` | bc/chain/btc/hammersbald/src/api.rs:218-221 | Returns a fresh reference at which exactly this data is stored; panics exactly when a length needs more than three bytes or the data would end at 2^48 - 1 or beyond |
| `Store.Hammersbald.Get` | bc/chain/btc/hammersbald/src/api.rs:223-230 | Returns key and data stored at a reference, with an empty key for data stored without one; at any other reference, what the bytes there parse as, and an error if they do not |
| `Store.Hammersbald.Batch` | bc/chain/btc/hammersbald/src/memtable.rs:83-107 | A batch is not observable by readers. It is safe against crashes if and only if the header of the first page is safe: then, whichever step a crash interrupts and whatever it leaves of the files, opening gets back to the last batch or to this one; otherwise there is a step at which what is left recovers neither |
| `Store.BatchIsTorn` | bc/chain/btc/hammersbald/src/memtable.rs:183-193 | An unlogged header that changed comes with new data, so what a crash behind its write leaves is neither the last batch nor the new one |
| `Store.Create` | bc/chain/btc/hammersbald/src/api.rs:147-156 | A store over empty files is the empty map with 512 buckets and a fill target between 1 and 128; a crash at any step of its creation leaves no files or the empty store |
| `Store.Open` | bc/chain/btc/hammersbald/src/api.rs:147-156 | Recovery, loading and the opening batch over any files a crash may leave yield the committed files and the reloaded buckets; if log_mod is restored and no stale cell is haunted it is the store of the last batch again, with strays in the buckets reloaded from stale cells at most |
| `Store.CrashIsRecoverable` | bc/chain/btc/hammersbald/src/memtable.rs:117-144 | Every image of files with a queue behind them, in any state of a batch or between batches, is restored to the committed files |
| `Store.CrashWithinOperation` | bc/chain/btc/hammersbald/src/memtable.rs:250-299 | A crash while an operation other than a batch lets the files grow, or right after it, recovers the last batch |
| `Store.CrashDuringBatch` | bc/chain/btc/hammersbald/src/memtable.rs:84-107 | Before the log is renewed an interrupted batch recovers to the last one, afterwards to the new one, at that step to one of the two |
| `Store.CrashDuringOpening` | bc/chain/btc/hammersbald/src/memtable.rs:117-144 | A crash at any step of recovery or of the opening batch recovers to the same committed files |
| `Store.Serve` | bc/chain/btc/hammersbald/src/memtable.rs:84-144 | For a store in any valid state, every sequence of operations that rehashes no bucket with strays is answered like a plain map that starts with its contents; a crash at any step of any operation leaves files that recover to the last batch or to the one being made, except within a batch whose header is not safe, which is torn. It ends early only at an operation that may panic, at a batch only if it has no room |
| `Store.CrashInSession` | bc/chain/btc/hammersbald/src/memtable.rs:84-144 | What is left after a crash anywhere in a session, except within a batch whose header is not safe, is all that the next session needs: exactly the keys and data of the operations up to the last batch, or up to the interrupted one, under the same hash function |
| `Store.ExposedIsTorn` | bc/chain/btc/hammersbald/src/memtable.rs:183-193 | Within a batch whose header is not safe there is a crash that recovers neither to the batch before nor to this one |
| `Store.FirstSession` | bc/chain/btc/hammersbald/src/api.rs:147-243 | All of this for a new store and every sequence of operations, without any condition; a crash while the store is created leaves no files or an empty store for the next session |
| `Store.NextSession` | bc/chain/btc/hammersbald/src/api.rs:147-243 | All of this again for the store opened over whatever a crash left of the session before: it begins with exactly the operations that survived and is like a plain map as long as no bucket reloaded from a stale cell is rehashed; a crash while it opens leaves the same for the next try |
| `Store.SessionAfterCrash` | bc/chain/btc/hammersbald/src/api.rs:147-243 | A session, a crash at any of its steps, and the next session, in one piece |
| `Store.LifetimeAnswers` | bc/chain/btc/hammersbald/src/api.rs:147-243 | Over any number of sessions and crashes, every answer is that of the plain map after exactly the operations that survived |
| `Store.SteadyWithinRound` | bc/chain/btc/hammersbald/src/memtable.rs:270-285 | As long as log_mod stays the same, strays below step are never reached by a rehash |
| `Store.SteadyInSameRound` | bc/chain/btc/hammersbald/src/memtable.rs:270-285 | As long as the table is in the round in which it was created, every further session is free of harmful rehashes, however many there are |
| `Store.ReadAfterCrash` | bc/chain/btc/hammersbald/src/memtable.rs:146-168 | What get answers in a store opened after a crash; with log_mod restored and no haunted cell, the answer of the last batch |
| `Store.ReopenedAnswers` | bc/chain/btc/hammersbald/src/memtable.rs:146-218 | With log_mod restored, a reopened store answers every key as the last batch did if and only if no stale cell holds a slot whose hash still leads to its bucket |
| `Growth.GrownIsSound` | bc/chain/btc/hammersbald/src/memtable.rs:270-285 | After any number of growth steps of a new table 8 <= log_mod <= 30, step <= 2^(log_mod+1) and the bucket count is 2^(log_mod+1) + step + log_mod - 8 |
| `Growth.GrownInNumbers` | bc/chain/btc/hammersbald/src/memtable.rs:270-285 | The same in numbers, with 512 + k buckets after k growth steps until growth stops at step 2^31 |
| `Growth.BucketInNumbers` | bc/chain/btc/hammersbald/src/memtable.rs:430-436 | The bucket of a hash in numbers: its remainder modulo 2^log_mod, or modulo 2^(log_mod+1) if that has been passed by step |
| `Growth.BitLenBounds` | bc/chain/btc/hammersbald/src/memtable.rs:152 | The number of significant bits is k if and only if the number lies in [2^(k-1), 2^k) |
| `Growth.SoundIsGrown` | bc/chain/btc/hammersbald/src/memtable.rs:270-285 | Each such triple is reached after exactly as many growth steps as it has buckets beyond 512 |
| `Growth.ReachableIffSound` | bc/chain/btc/hammersbald/src/memtable.rs:270-285 | The reachable growth parameters are exactly those triples |
| `Growth.BucketsInRange` | bc/chain/btc/hammersbald/src/memtable.rs:430-436 | Every computed bucket and every rehash target lies in the bucket vector and every shift amount is legal |
| `Growth.StepRehomes` | bc/chain/btc/hammersbald/src/memtable.rs:342-361 | Advancing step below 2^log_mod re-homes only hashes of bucket step, to itself or to step + 2^log_mod, where no hash was before |
| `Growth.LateStepRehomesNothing` | bc/chain/btc/hammersbald/src/memtable.rs:277-281 | Later steps and the rollover of log_mod re-home nothing |
| `Growth.GrowRehomes` | bc/chain/btc/hammersbald/src/memtable.rs:270-285 | The effect of one growth step on any hash, through advance and rollover |
| `Growth.ReloadExact` | bc/chain/btc/hammersbald/src/memtable.rs:146-155 | The bit-length formula of load restores log_mod if and only if step + log_mod - 8 < 2^(log_mod+1) |
| `Growth.ReloadOffByOne` | bc/chain/btc/hammersbald/src/memtable.rs:152 | Otherwise, for a count below 2^32, it yields log_mod + 1 |
| `Growth.ReloadWitness` | bc/chain/btc/hammersbald/src/memtable.rs:152 | The mistake is reached after 512 growth steps of a new table |
| `Growth.MisplacedAfterReload` | bc/chain/btc/hammersbald/src/memtable.rs:430-436 | Which hashes are looked for in the wrong bucket once log_mod is one too large |
| `Index.LookupIsMap` | bc/chain/btc/hammersbald/src/memtable.rs:405-428 | Under the index invariant a look-up in the one bucket of the hash answers what the map says, for every key |
| `Index.SlotSharesHash` | bc/chain/btc/hammersbald/src/memtable.rs:388-402 | In the bucket of a hash there is a slot with that hash if and only if some key of the map has it |
| `Index.RemoveKeeps` | bc/chain/btc/hammersbald/src/memtable.rs:301-325 | Removing the slot of a key removes that key from the map and disturbs no other |
| `Index.StoreKeeps` | bc/chain/btc/hammersbald/src/memtable.rs:327-340 | Storing a slot for an absent key adds that key |
| `Index.TargetWasEmpty` | bc/chain/btc/hammersbald/src/memtable.rs:366-371 | The only bucket a rehash moves slots to was empty |
| `Index.GrowKeeps` | bc/chain/btc/hammersbald/src/memtable.rs:270-285 | A whole growth step that rehashes no bucket with strays leaves every slot that can be looked for in the bucket its hash leads to under the new parameters, and every stray a stray |
| `Index.TwoWaysIsHalved` | bc/chain/btc/hammersbald/src/memtable.rs:342-376 | Without strays the slots of a rehashed bucket stay or move to one other bucket |
| `Index.SlotsAtMostKeys` | bc/chain/btc/hammersbald/src/memtable.rs:262-290 | Without strays there are never more slots than keys, in all buckets together |
| `Index.SplitConserves` | bc/chain/btc/hammersbald/src/memtable.rs:349-361 | Sorting slots into staying and moving ones neither loses nor duplicates any |
| `Index.SplitInOrder` | bc/chain/btc/hammersbald/src/memtable.rs:349-361 | Sorting slots keeps their order |
| `Index.RehashConserves` | bc/chain/btc/hammersbald/src/memtable.rs:342-376 | A rehash conserves the multiset of all slots, strays included |
| `MemTables.MemTable.constructor` | bc/chain/btc/hammersbald/src/memtable.rs:60-76 | A new table has log_mod 8, 512 empty buckets and a fill target cut to 1 to 128 |
| `MemTables.MemTable.ResolveBucket` | bc/chain/btc/hammersbald/src/memtable.rs:170-181 | Reads the slot list a reference leads to on first use; what the bucket holds does not change |
| `MemTables.MemTable.ModifyBucket` | bc/chain/btc/hammersbald/src/memtable.rs:378-386 | Marks the bucket and logs exactly the page of its cell, so that the invariant between buckets, cells, marks and log holds for the changed bucket |
| `MemTables.MemTable.StoreToBucket` | bc/chain/btc/hammersbald/src/memtable.rs:327-340 | Appends one slot to one bucket; an error exactly when there is no such bucket |
| `MemTables.MemTable.RemoveDuplicate` | bc/chain/btc/hammersbald/src/memtable.rs:301-325 | Drops the first slot that leads to the key and says whether there was one |
| `MemTables.MemTable.FindSlot` | bc/chain/btc/hammersbald/src/memtable.rs:304-315 | The search loop finds the first slot whose hash and stored key match, passing over other data |
| `MemTables.MemTable.SortOut` | bc/chain/btc/hammersbald/src/memtable.rs:343-362 | The sorting loop separates a bucket into the slots that stay and those that move, listed in order under the bucket they move to |
| `MemTables.MemTable.RehashBucket` | bc/chain/btc/hammersbald/src/memtable.rs:342-376 | Whatever the order of the moves, each slot is in the bucket its hash leads to under the next modulus, behind those already there; the emptied bucket loses its reference |
| `MemTables.MemTable.Grow` | bc/chain/btc/hammersbald/src/memtable.rs:272-284 | One growth step advances parameters and buckets together and keeps the whole invariant unless it rehashes a bucket with strays; then these are rehashed like any other slot |
| `MemTables.MemTable.GrowIfFull` | bc/chain/btc/hammersbald/src/memtable.rs:270-288 | Growth happens exactly when no forget is outstanding, the hash is a multiple of the fill target and step is below 2^31 |
| `MemTables.MemTable.Put` | bc/chain/btc/hammersbald/src/memtable.rs:262-290 | The index becomes the map with the key at its new reference, at most one slot more; the invariant holds unless a bucket with strays is rehashed; growth parameters and the forget count follow the policy; a bucket whose new slot moves on at once loses reference and empty slot list; next to an empty bucket at step only the page of the key is logged |
| `MemTables.MemTable.Reindex` | bc/chain/btc/hammersbald/src/memtable.rs:263-268 | The first half of put: the old slot of the key goes, the new one is in the bucket of its hash, no other bucket changes |
| `MemTables.MemTable.Forget` | bc/chain/btc/hammersbald/src/memtable.rs:292-299 | The index loses the key; the forget count rises exactly when the key was there |
| `MemTables.MemTable.Get` | bc/chain/btc/hammersbald/src/memtable.rs:405-428 | Answers the first hit of the bucket of the hash with its data, never corruption while every slot leads to its key |
| `MemTables.MemTable.Search` | bc/chain/btc/hammersbald/src/memtable.rs:410-423 | The search loop of get returns reference and data of the first slot of the key |
| `MemTables.MemTable.MayHaveKey` | bc/chain/btc/hammersbald/src/memtable.rs:388-402 | True exactly when the bucket has a slot with the hash of the key |
| `MemTables.MemTable.AppendData` | bc/chain/btc/hammersbald/src/memtable.rs:250-256 | New data gets a reference not handed out before and leaves index and invariant alone |
| `MemTables.MemTable.WriteTable` | bc/chain/btc/hammersbald/src/tablefile.rs:95-104 | Each page written on the way leaves a state from which the last batch can be recovered |
| `MemTables.MemTable.WriteOut` | bc/chain/btc/hammersbald/src/memtable.rs:199-210 | Writing one bucket appends its list, sets its reference and its cell, and only after the pre-image of the page is durable |
| `MemTables.MemTable.FlushBucket` | bc/chain/btc/hammersbald/src/memtable.rs:197-211 | A marked bucket is written out; one without slots is skipped and keeps its old cell |
| `MemTables.MemTable.WriteHeader` | bc/chain/btc/hammersbald/src/memtable.rs:184-193 | Rewrites the header whether or not the page was logged; if it was not and the header changed, the state is beyond recovery |
| `MemTables.MemTable.Flush` | bc/chain/btc/hammersbald/src/memtable.rs:183-218 | After it every bucket agrees with its cell, no mark is left, the header holds the parameters and the link file is written up to a page boundary |
| `MemTables.MemTable.FlushDirty` | bc/chain/btc/hammersbald/src/memtable.rs:194-213 | The walk over the bitmap up to used writes out every marked bucket, bits set by append included, in the order of the buckets |
| `MemTables.MemTable.BeginBatch` | bc/chain/btc/hammersbald/src/memtable.rs:85-86 | The log is written and synced before the first table write |
| `MemTables.MemTable.SyncTable` | bc/chain/btc/hammersbald/src/memtable.rs:91 | After the sync nothing the table file contained before can come back; the last batch stays recoverable |
| `MemTables.MemTable.SettleFiles` | bc/chain/btc/hammersbald/src/memtable.rs:91-99 | Table and link file are synced and the data file padded, written and synced before the batch is sealed; every step leaves the last batch recoverable |
| `MemTables.MemTable.Batch` | bc/chain/btc/hammersbald/src/memtable.rs:84-107 | The states after every step of a batch, none left out: up to the renewal of the log all recover the last batch, from there on all recover this one; it fails only if link or data file lack room |
| `MemTables.MemTable.EndBatch` | bc/chain/btc/hammersbald/src/memtable.rs:101-104 | Renewing the log commits: each of its states recovers to the files just written |
| `MemTables.MemTable.CutBack` | bc/chain/btc/hammersbald/src/memtable.rs:118-129 | Cuts the three files to the lengths in the log header; what was committed in them is intact |
| `MemTables.MemTable.ReplayLog` | bc/chain/btc/hammersbald/src/memtable.rs:131-136 | Writes back every logged page; all states on the way stay recoverable |
| `MemTables.MemTable.RollBack` | bc/chain/btc/hammersbald/src/memtable.rs:130-141 | Logged pages are written back and the table file is synced before the log is renewed; each state recovers to the same files |
| `MemTables.MemTable.Recover` | bc/chain/btc/hammersbald/src/memtable.rs:117-144 | Recovery computes exactly the recovered image, restores the committed table page for page, and a crash at any of its steps is harmless; without a log nothing is touched |
| `MemTables.MemTable.Load` | bc/chain/btc/hammersbald/src/memtable.rs:146-168 | Takes parameters from the first page and each reference from its cell; fails exactly when the bucket count is too small for the bit-length formula |
| `MemTables.MemTable.OpeningBatch` | bc/chain/btc/hammersbald/src/api.rs:154 | The batch at the end of opening writes nothing but the header and the log, even over buckets that are not a sound index |
| `MemTables.MarkedIsLogged` | bc/chain/btc/hammersbald/src/memtable.rs:378-386 | A marked bucket with slots lies on a page whose pre-image is in the log, or behind the table as it was when the batch began |
| `MemTables.HeaderLost` | bc/chain/btc/hammersbald/src/memtable.rs:184-193 | A state with an unlogged, changed header leaves an image that does not recover the last batch |
| `Ledger.ModifyKeeps` | bc/chain/btc/hammersbald/src/memtable.rs:378-386 | Marking and logging keeps cells, references, marks and log consistent |
| `Ledger.GrowRecorded` | bc/chain/btc/hammersbald/src/memtable.rs:480-488 | The bit set for a new bucket is the one behind it and harms nothing |
| `Ledger.WriteOutKeeps` | bc/chain/btc/hammersbald/src/memtable.rs:200-210 | After a bucket is written its cell says what its slots are |
| `Ledger.SkipKeeps` | bc/chain/btc/hammersbald/src/memtable.rs:200 | A skipped bucket keeps the relation to its cell, possibly a stale one |
| `Ledger.WriteOutSkips` | bc/chain/btc/hammersbald/src/memtable.rs:198-211 | Writing out one bucket leaves buckets without slots, their cells and all lists written before as they were |
| `Recovery.LogHeaderReadBack` | bc/chain/btc/hammersbald/src/logfile.rs:39-49 | The three lengths are read back from the log header |
| `Recovery.LogHeaderBytes` | bc/chain/btc/hammersbald/src/logfile.rs:39-49 | Byte by byte: six bytes each, most significant first, for the lengths of data, table and link file, then zeros |
| `Recovery.HeaderForReadBack` | bc/chain/btc/hammersbald/src/memtable.rs:117-124 | What recovery reads from the header of a batch are the lengths of its data, table and link file, in this order |
| `Recovery.ReplayedInNumbers` | bc/chain/btc/hammersbald/src/pagedfile.rs:178-187 | Recovery replays the log up to page 2^35 / 4096 |
| `Recovery.RecoveredFrom` | bc/chain/btc/hammersbald/src/memtable.rs:117-144 | What recovery makes of any image that grew out of a batch, page by page |
| `Recovery.RestoresExactly` | bc/chain/btc/hammersbald/src/memtable.rs:117-144 | Recovery restores the last batch if and only if every committed table page is untouched or in the log |
| `Recovery.RecoverTwice` | bc/chain/btc/hammersbald/src/memtable.rs:117-144 | Recovering once more changes nothing |
| `Recovery.GuardedRestores` | bc/chain/btc/hammersbald/src/memtable.rs:84-144 | A crash in a guarded state, with any part of the queues lost, recovers the last batch |
| `Recovery.SealedRestores` | bc/chain/btc/hammersbald/src/memtable.rs:91-104 | A crash while the log is renewed recovers the new batch, since table, link and data file have been synced |
| `Recovery.WriteProtected` | bc/chain/btc/hammersbald/src/memtable.rs:194-212 | Write-ahead rule: overwriting a committed page is safe once its pre-image is durable |
| `Recovery.WritesGuarded` | bc/chain/btc/hammersbald/src/memtable.rs:194-212 | Any number of such writes since the last sync of the table file leaves the last batch recoverable |
| `Recovery.UpdateLeads` | bc/chain/btc/hammersbald/src/tablefile.rs:95-104 | The steps of a page update, blank pages for a gap one by one and then the page, are all accounted for |
| `Recovery.InterruptedGuarded` | bc/chain/btc/hammersbald/src/asyncfile.rs:62-75 | Files caught between two guarded states, with queues partly drained, recover the last batch |
| `Recovery.InterruptedEither` | bc/chain/btc/hammersbald/src/memtable.rs:117-144 | The same for neighbouring states of a recovery |
| `Recovery.AnyMixture` | bc/chain/btc/hammersbald/src/tablefile.rs:75-77 | What a crash leaves of the table file: each page as any table since the last sync had it, and nothing else |
| `Recovery.MixtureProtected` | bc/chain/btc/hammersbald/src/memtable.rs:84-91 | Table pages written since the last sync may reach the disk in any order or not at all: any mixture of the tables of a batch that a crash leaves recovers the last batch |
| `Recovery.OtherDataIsNotRestored` | bc/chain/btc/hammersbald/src/memtable.rs:117-144 | What a crash leaves before a batch is sealed never recovers to files with other data |
| `Recovery.UnloggedHeader` | bc/chain/btc/hammersbald/src/memtable.rs:183-193 | With the first page not logged, a crash that leaves the header write recovers the last batch if and only if the header is the old one |
| `Recovery.LogFile.Init` | bc/chain/btc/hammersbald/src/logfile.rs:39-49 | The log holds nothing but the new header, written but not synced, in three steps |
| `Recovery.LogFile.Sync` | bc/chain/btc/hammersbald/src/logfile.rs:83-85 | What has been written survives a crash from now on; the contents do not change |
| `Recovery.LogFile.Renew` | bc/chain/btc/hammersbald/src/memtable.rs:102-104 | A new log, written and synced, with all its states |
| `Recovery.LogFile.LogPage` | bc/chain/btc/hammersbald/src/logfile.rs:55-62 | A page is logged at most once a batch, with its content at the start of the batch, and only if the table had it then |
| `Recovery.LogFile.Reset` | bc/chain/btc/hammersbald/src/logfile.rs:64-67 | A new batch starts with no page logged |
| `Recovery.LogNeverTooLong` | bc/chain/btc/hammersbald/src/pagedfile.rs:178-187 | The log never outgrows the page limit of its iterator, so recovery sees all of it |
| `Reopening.ReloadedBucket` | bc/chain/btc/hammersbald/src/memtable.rs:157-165 | Loading shows each bucket as it was, except those emptied by a rehash whose cell is still valid |
| `Reopening.ReloadedIsSound` | bc/chain/btc/hammersbald/src/memtable.rs:157-165 | All reloaded slots, stale ones too, lead to data stored under a key with their hash |
| `Reopening.ReopenAnswersExactly` | bc/chain/btc/hammersbald/src/memtable.rs:146-218 | With log_mod restored, every look-up answers as before if and only if no cell is haunted |
| `Reopening.GhostIsFound` | bc/chain/btc/hammersbald/src/memtable.rs:342-376 | A haunted cell makes a key that is not in the index be found again |
| `Reopening.ReopenIndexesExactly` | bc/chain/btc/hammersbald/src/memtable.rs:146-218 | The reloaded buckets are a correct index, with strays in given buckets, if and only if every stale cell belongs to one of these and none is haunted |
| `Reopening.StaleWasRehashed` | bc/chain/btc/hammersbald/src/memtable.rs:342-376 | Only buckets rehashed since the store was opened can become stale |
| `Reopening.ShiftedAnswersExactly` | bc/chain/btc/hammersbald/src/memtable.rs:146-155 | With log_mod one too large, what every look-up answers: a key whose bucket is now a stale one is looked for among its old slots; of the others those with the next hash bit set and the lower bits below step are looked for in a bucket without slots, strays excepted, and are lost |
| `Reopening.SavedCell` | bc/chain/btc/hammersbald/src/memtable.rs:200-209 | After a batch the cell of every bucket that is not empty leads to its slots |
| `Witnesses.ForgottenKeyReturns` | bc/chain/btc/hammersbald/src/memtable.rs:342-376 | A run of the store itself: put, batch, forget, two puts, batch. What it saved is remembered and haunted; closed and opened again, get finds the forgotten key |
| `Witnesses.StrayComesHome` | bc/chain/btc/hammersbald/src/memtable.rs:342-376 | A run of the store itself: put, batch, put, batch, closed and opened with no cell haunted; forget, and 514 puts that are steady up to the last, which rehashes the bucket of a stale cell: get finds the forgotten key |
| `Witnesses.UnsafeHeader` | bc/chain/btc/hammersbald/src/memtable.rs:183-193 | A run of the store itself, 713 puts, a batch and one more put, that leads to an unsafe header |
| `Witnesses.TornBatch` | bc/chain/btc/hammersbald/src/memtable.rs:84-107 | The batch after it leads from a guarded state to a sealed one and is torn: a crash at one of its steps recovers neither the batch before it nor the one it would have been |
| `PagedFile.PagedFileAppender.Append` | bc/chain/btc/hammersbald/src/pagedfile.rs:74-94 | The stream grows by exactly the buffer over any number of pages; a partial page exists exactly off a page boundary and is zero behind the position; panics exactly when the position would become invalid |
| `PagedFile.PagedFileAppender.ReadPage` | bc/chain/btc/hammersbald/src/pagedfile.rs:113-120 | The page being filled hides the file; together they are one sequence of pages |
| `PagedFile.PagedFileAppender.Read` | bc/chain/btc/hammersbald/src/pagedfile.rs:96-109 | Returns exactly the requested bytes across page boundaries, and an error exactly when they are not all there |
| `PagedFile.PagedFileAppender.StreamIsPrefix` | bc/chain/btc/hammersbald/src/pagedfile.rs:74-120 | A reader sees the appended stream followed by zeros to the end of the page |
| `PagedFile.PagedFileAppender.StreamSlice` | bc/chain/btc/hammersbald/src/pagedfile.rs:96-109 | Any range below the position reads as the appended bytes |
| `PagedFile.PagedFileAppender.Flush` | bc/chain/btc/hammersbald/src/pagedfile.rs:147-156 | Hands the partial page over with its zero tail and returns with everything written |
| `PagedFile.SyncSettles` | bc/chain/btc/hammersbald/src/pagedfile.rs:131-133 | Syncing after a flush makes sure of everything, before it only of what has been written |
| `PagedFile.PagedFileAppender.Truncate` | bc/chain/btc/hammersbald/src/pagedfile.rs:126-129 | The appender is well-formed afterwards if and only if it had no partial page |
| `DataFiles.PaddedIsAligned` | bc/chain/btc/hammersbald/src/datafile.rs:119-131 | Both padding cases end on a page boundary, less than a page and seven bytes ahead |
| `DataFiles.PaddingBytes` | bc/chain/btc/hammersbald/src/datafile.rs:119-131 | What a flush adds, byte by byte: nothing on a page boundary, otherwise one envelope with data of zeros |
| `DataFiles.ConcatAt` | bc/chain/btc/hammersbald/src/datafile.rs:157-176 | In a concatenation of envelopes each one lies at its offset, with the next right behind |
| `DataFiles.FiledPush` | bc/chain/btc/hammersbald/src/datafile.rs:76-111 | Appending an envelope keeps every earlier reference readable and makes a new one |
| `DataFiles.DataFile.GetEnvelope` | bc/chain/btc/hammersbald/src/datafile.rs:59-73 | At any position, returns exactly the bytes that the three-byte length there says, or an error exactly when they are not all there; so the payload of the envelope at a reference |
| `DataFiles.DataFile.Fetch` | bc/chain/btc/hammersbald/src/datafile.rs:59-73 | At a reference handed out, returns what was stored; anywhere else, what the bytes there parse as |
| `DataFiles.DataFile.AppendPayload` | bc/chain/btc/hammersbald/src/datafile.rs:75-111 | The file stays an exact concatenation of non-empty envelopes; the reference returned is the old end |
| `DataFiles.DataFile.Flush` | bc/chain/btc/hammersbald/src/datafile.rs:118-131 | Ends page-aligned and written, with at most one padding envelope added; panics exactly when the padded end is invalid |
| `DataFiles.DataFile.Sync` | bc/chain/btc/hammersbald/src/datafile.rs:133-136 | Makes sure of what has been written; the contents do not change |
| `DataFiles.DataFile.Truncate` | bc/chain/btc/hammersbald/src/datafile.rs:113-116 | Cut to a length at which it was flushed before, the file is well-formed again and holds what it held then |
| `DataFiles.DataFile.Envelopes` | bc/chain/btc/hammersbald/src/datafile.rs:49-52 | Iterating from 0 yields every envelope once, padding included, in order and at its offset, then stops, flushed or not |
| `DataFiles.EnvelopeIterator.Next` | bc/chain/btc/hammersbald/src/datafile.rs:157-176 | Standing before envelope i it yields that one and moves behind it; at the end it stops, in a zero tail too |
| `TableFiles.OffsetSplits` | bc/chain/btc/hammersbald/src/tablefile.rs:46-54 | Page and position of a cell are those of its offset, and the page is the one modify_bucket logs |
| `TableFiles.OffsetsInOrder` | bc/chain/btc/hammersbald/src/tablefile.rs:46-54 | Where each cell lies, in numbers: from byte 28 on six bytes apart for 677 buckets, then 681 to a page; and which page is logged for it |
| `TableFiles.CellsDisjoint` | bc/chain/btc/hammersbald/src/tablefile.rs:46-54 | Cells of different buckets share no byte, so table_offset is injective |
| `TableFiles.CellsInPayload` | bc/chain/btc/hammersbald/src/tablefile.rs:29-54 | Cells stay clear of the 28-byte header and of every page trailer |
| `TableFiles.InvalidOffsetsPage` | bc/chain/btc/hammersbald/src/memtable.rs:220-232 | The loops write a page whose cells all read as invalid and which carries its position |
| `TableFiles.InvalidPageReads` | bc/chain/btc/hammersbald/src/memtable.rs:220-232 | Every cell of a blank page reads as invalid |
| `TableFiles.BlankPageBytes` | bc/chain/btc/hammersbald/src/memtable.rs:220-232 | A blank page byte by byte: zeros for the header, ones for the cells, its position at the end |
| `TableFiles.HeaderBytes` | bc/chain/btc/hammersbald/src/memtable.rs:184-193 | The header byte by byte: bucket count and step in six bytes, the hash words in eight, most significant first; nothing else on the page changes |
| `TableFiles.SetCellEffect` | bc/chain/btc/hammersbald/src/memtable.rs:199-209 | Writing one cell, gap filling included, changes that cell and no other |
| `TableFiles.SetHeaderEffect` | bc/chain/btc/hammersbald/src/memtable.rs:184-193 | Writing the header changes the header and no cell |
| `TableFiles.TableRun` | bc/chain/btc/hammersbald/src/tablefile.rs:95-104 | After any sequence of writes the file is contiguous, each page knows its position, and each cell reads as last written or invalid |
| `TableFiles.TableFile.ReadPage` | bc/chain/btc/hammersbald/src/tablefile.rs:81-89 | Never reports corruption on a file written through update_page |
| `TableFiles.TableFile.UpdatePage` | bc/chain/btc/hammersbald/src/tablefile.rs:95-104 | The gap is filled with blank pages, the loop ends, and the file after each write is recorded |
| `TableFiles.TableFile.Sync` | bc/chain/btc/hammersbald/src/tablefile.rs:75-77 | What the file contained before cannot come back |
| `TableFiles.TableFile.Truncate` | bc/chain/btc/hammersbald/src/tablefile.rs:70-73 | Cuts whole pages and keeps the shape; refuses other lengths |
| `TableFiles.BucketIterator.Next` | bc/chain/btc/hammersbald/src/tablefile.rs:115-122 | Yields the cell of bucket n until the pages run out |
| `DirtyBits.Dirty.Set` | bc/chain/btc/hammersbald/src/memtable.rs:462-464 | Marks one bucket and no other |
| `DirtyBits.Dirty.Get` | bc/chain/btc/hammersbald/src/memtable.rs:466-468 | Tells whether the bucket is marked |
| `DirtyBits.Dirty.Clear` | bc/chain/btc/hammersbald/src/memtable.rs:470-474 | Unmarks all |
| `DirtyBits.Dirty.IsDirty` | bc/chain/btc/hammersbald/src/memtable.rs:476-478 | True exactly when some bucket is marked |
| `DirtyBits.Dirty.Append` | bc/chain/btc/hammersbald/src/memtable.rs:480-488 | Room for one more bucket, with the bit behind it set; no access leaves the words |
| `Codec.ValueOfBigEndian` | bc/chain/btc/hammersbald/src/page.rs:70-92 | Big-endian numbers of any width read back |
| `Codec.BigEndianOfValue` | bc/chain/btc/hammersbald/src/page.rs:70-92 | Any bytes are the big-endian form of their value |
| `Codec.BigEndianAt` | bc/chain/btc/hammersbald/src/page.rs:70-92 | Byte i of a number of any width is its digit to base 256, most significant first |
| `Codec.BytesInOrder` | bc/chain/btc/hammersbald/src/page.rs:70-92 | The bytes of lengths, hashes, references and words, one by one in numbers |
| `Codec.FieldBytes` | bc/chain/btc/hammersbald/src/page.rs:70-92 | A field of a page is written byte by byte in this order, all other bytes stay |
| `Codec.PRefReadBack` | bc/chain/btc/hammersbald/src/page.rs:70-80 | A reference written into a page reads back; no other field changes |
| `Codec.U64ReadBack` | bc/chain/btc/hammersbald/src/page.rs:82-92 | A 64-bit number written into a page reads back; no other field changes |
| `Codec.PayloadRoundTrip` | bc/chain/btc/hammersbald/src/format.rs:64-150 | Deserializing a serialized payload of any kind gives it back |
| `Codec.PayloadBytes` | bc/chain/btc/hammersbald/src/format.rs:64-130 | Every byte of a payload: kind 0, 1 or 2, length of the key and key, length of the data in three bytes and data |
| `Codec.PayloadInFront` | bc/chain/btc/hammersbald/src/format.rs:83-150 | A payload with its own length is read back whatever follows it |
| `Codec.UnknownKind` | bc/chain/btc/hammersbald/src/format.rs:83-91 | Other kinds are refused |
| `Codec.PayloadParsed` | bc/chain/btc/hammersbald/src/format.rs:83-150 | Whatever deserializes came from the serialization at the front of the input |
| `Codec.EnvelopeAppended` | bc/chain/btc/hammersbald/src/format.rs:42-46 | An envelope appended to a stream is found at its old end |
| `Codec.EnvelopeBytes` | bc/chain/btc/hammersbald/src/format.rs:42-46 | Every byte of an envelope: the length in three bytes, most significant first, and the payload |
| `Codec.EnvelopeStays` | bc/chain/btc/hammersbald/src/format.rs:42-52 | It stays there as the stream grows |
| `Codec.SlotsRoundTrip` | bc/chain/btc/hammersbald/src/format.rs:158-178 | Any list of slots with 48-bit references survives its byte form |
| `Codec.SlotsBytesInOrder` | bc/chain/btc/hammersbald/src/format.rs:158-167 | Every byte of a slot list: four for the hash and six for the reference, most significant first |
| `Codec.FromSlots` | bc/chain/btc/hammersbald/src/format.rs:159-167 | The loop over the zeroed buffer writes exactly the byte form |
| `Codec.ReadSlots` | bc/chain/btc/hammersbald/src/format.rs:169-178 | The loop reads exactly the slots back, ignoring a trailing partial one |
| `AsyncFiles.StepIsSafe` | bc/chain/btc/hammersbald/src/asyncfile.rs:62-146 | Every critical section keeps file and queue together equal to the append history and every answer linearizable |
| `AsyncFiles.RunIsSafe` | bc/chain/btc/hammersbald/src/asyncfile.rs:62-146 | So in every state of every interleaving of appends, drains, two-lock reads and flushes; a flush returns with everything appended in the file |
| `AsyncFiles.StepAnswers` | bc/chain/btc/hammersbald/src/asyncfile.rs:62-146 | What each critical section answers, told from the pages appended and the length of the file, for the page that was asked for; a first look without answer waits with that page; no other step answers or is forgotten |
| `AsyncFiles.RunIsAnswered` | bc/chain/btc/hammersbald/src/asyncfile.rs:62-146 | Over every run the history is the file at first and all pages appended since, and the events are exactly the answers of its steps |
| `AsyncFiles.ReadIsExact` | bc/chain/btc/hammersbald/src/asyncfile.rs:77-101 | In every interleaving, the read that a step begins is answered once, for the page it asked for: with that page if it was appended before the read began, with nothing if not before it ended, and never with another page |
| `AsyncFiles.EventIsExact` | bc/chain/btc/hammersbald/src/asyncfile.rs:77-101 | The same for every event recorded |
| `AsyncFiles.FlushIsComplete` | bc/chain/btc/hammersbald/src/asyncfile.rs:137-145 | Every flush returns with all pages appended before it in the file |
| `AsyncFiles.NeverStuck` | bc/chain/btc/hammersbald/src/asyncfile.rs:62-146 | Appending is always possible, a reader can begin and end, and a flush can return once the queue is written |
| `AsyncFiles.StepIsSeen` | bc/chain/btc/hammersbald/src/asyncfile.rs:62-146 | Each step does to the file with a queue, as the layers above and the theorems about crashes see it, what it is taken for |
| `AsyncFiles.RunIsSeen` | bc/chain/btc/hammersbald/src/asyncfile.rs:62-146 | So does every run |
| `AsyncFiles.CrashIsSeen` | bc/chain/btc/hammersbald/src/asyncfile.rs:62-75 | What a crash leaves, synced pages and some of those behind them in order, is exactly what is assumed of it above |
| `AsyncFiles.ReadIsSeen` | bc/chain/btc/hammersbald/src/asyncfile.rs:95-101 | A read answers from file and queue together |
| `AsyncFiles.TruncateNeedsEmptyQueue` | bc/chain/btc/hammersbald/src/asyncfile.rs:107-109 | Truncation cuts the whole file if and only if nothing is queued |
| `AsyncFiles.TruncateWitness` | bc/chain/btc/hammersbald/src/asyncfile.rs:107-109 | A queued page that survives a truncation to zero |
| `CachedFiles.CachedFile.ReadPage` | bc/chain/btc/hammersbald/src/cachedfile.rs:44-54 | Answers like the file behind the cache, whatever is evicted |
| `CachedFiles.CachedFile.AppendPage` | bc/chain/btc/hammersbald/src/cachedfile.rs:73-77 | The page is cached where the file puts it |
| `CachedFiles.CachedFile.UpdatePage` | bc/chain/btc/hammersbald/src/cachedfile.rs:79-83 | The page is cached and written at the position it carries |
| `CachedFiles.CachedFile.Truncate` | bc/chain/btc/hammersbald/src/cachedfile.rs:60-63 | No cached page is left behind the new end |
| `CachedFiles.RunCached` | bc/chain/btc/hammersbald/src/cachedfile.rs:43-149 | Over every run and every eviction a cached file cannot be told from the plain one |
| `RolledFiles.SingleFile.ReadPage` | bc/chain/btc/hammersbald/src/singlefile.rs:52-66 | Reads a page of its chunk, refuses positions of other chunks, fails where the length promises more than there is, and leaves the cursor behind the page |
| `RolledFiles.SingleFile.AppendPage` | bc/chain/btc/hammersbald/src/singlefile.rs:83-88 | Writes at the end of a file open for appending and at the cursor of one open for writing |
| `RolledFiles.SingleFile.UpdatePage` | bc/chain/btc/hammersbald/src/singlefile.rs:90-102 | Writes a page of its chunk at its position, or at the end of a file open for appending, and refuses others |
| `RolledFiles.PageInChunk` | bc/chain/btc/hammersbald/src/rolledfile.rs:114-122 | Page number, chunk number and position in the chunk agree |
| `RolledFiles.OneChunk` | bc/chain/btc/hammersbald/src/rolledfile.rs:114-122 | Each page lies in the range of one chunk only |
| `RolledFiles.RolledFile.ReadPage` | bc/chain/btc/hammersbald/src/rolledfile.rs:114-122 | Reads the page of the flat file, always from the right chunk, and moves the cursor of that chunk |
| `RolledFiles.RolledFile.AppendPage` | bc/chain/btc/hammersbald/src/rolledfile.rs:154-170 | Opens a chunk when the last is full; the chunk files are the flat file with the page appended if and only if they are open for appending or the cursor of the last chunk is at its end |
| `RolledFiles.RolledFile.UpdatePage` | bc/chain/btc/hammersbald/src/rolledfile.rs:172-188 | The chunk files are the flat file with the page written at its position if and only if they are open for writing or the page comes right behind the last |
| `RolledFiles.RolledFile.Truncate` | bc/chain/btc/hammersbald/src/rolledfile.rs:128-143 | Cuts the flat file, emptying all later chunks; refuses lengths off a page boundary |
| `RolledFiles.RolledFile.AppendWraps` | bc/chain/btc/hammersbald/src/rolledfile.rs:154-165 | With 65536 full chunks the next append goes to the file of chunk 0 |
| `RolledFiles.RunRolled` | bc/chain/btc/hammersbald/src/rolledfile.rs:101-196 | Every run of reads, truncations and appends to files open for appending, or updates of files open for writing, behaves like one flat sequence of pages; so does a mixed run as long as every append to files open for writing finds the cursor at the end and every update of files open for appending comes right behind the last page; the first operation of which this is not so leaves something else in the chunk files |
| `RolledFiles.UpdateWhileAppending` | bc/chain/btc/hammersbald/src/rolledfile.rs:101-109 | For every chunk size, a page updated in files open for appending does not land at its position; in the file of one chunk it ends up at the end and the old page is still read |
| `RolledFiles.AppendAfterReading` | bc/chain/btc/hammersbald/src/singlefile.rs:52-88 | For every chunk size of more than two pages, a page appended after a read to files open for writing does not land at the end; it overwrites the page behind the one read, and reading the page appended fails |

## Left out

- Operating system input and output, directory scanning, file names and `RolledFile::open`: files are sequences of pages.
- The layers are proved one by one and not stacked into one theorem. In particular `Store.Run` speaks of files up to 2^48 bytes, while with the 2^30-byte chunks of `persistent.rs` and 16-bit chunk numbers a file stays flat up to 2^46 bytes only (RolledFiles.RolledFile.AppendWraps).
- Loss of pages of data, link or log file out of order before a sync, and a write torn inside a page.
- Truncation of a chunked file as the several steps it takes, one for each chunk file: a crash in between is not covered.
- Thread start, `shutdown`, lock poisoning and liveness of the background writer, and the update of its state in place: it is a state machine over values.
- Recency order and capacity of the page cache.
- `HammersbaldIterator`, data writer and reader of the public interface: the walk over envelopes is proved, unwrapping payloads would only add an easy member.
- `stats.rs`, `bitcoin_adaptor.rs`, `persistent.rs`, `transient.rs`: printing, wrapping and wiring.
- Behaviour of a release build beyond the limits a debug build enforces.
- The read and write locks inside the memory table: its methods run one at a time.
- Other crates of the repository (wallets, Ethereum, EEE, network code, user interfaces).
- Store.Open: bucket counts of 2^32 and more, where the stored count is cut to 32 bits, are not covered.
- Store.ReadAfterCrash: the same limit on the bucket count.
- Store.Run: what a get of a reference that was never handed out answers is not said in terms of the map; Store.Hammersbald.Get says it in terms of the bytes there. Whether a batch finds room is bounded from the number of puts and batches, not computed exactly: a run is promised to go on below the bound, and may or may not beyond it.
- RolledFiles.RolledFile.AppendPage: appending to a file with 65536 full chunks is only characterised by AppendWraps.
- RolledFiles.RolledFile.UpdatePage: writes beyond the end of the file, which its only caller never makes, are not covered.
- Recovery.InterruptedGuarded: the drain of a queue is seen page by page, never inside a page.
- Store.NextSession: needs log_mod restored and no haunted cell, what is read otherwise is Store.ReadAfterCrash; and holds up to the rehash of a bucket reloaded from a stale cell, see Witnesses.StrayComesHome.
- Store.Serve: the same for a store with strays.
- MemTables.MemTable.Flush: flushing the table file is no step, since it has no queue; syncing it is.
- PagedFile.PagedFileAppender.Truncate: covers lengths within the file and nothing pending; what a queue does to a truncation is AsyncFiles.TruncateNeedsEmptyQueue.
- DataFiles.DataFile.Truncate: covers lengths at which the file was flushed before, the only ones recovery uses.
- TableFiles.TableFile.Truncate: covers lengths within the file.
- CachedFiles.CachedFile.Truncate: covers page-aligned lengths within the file.
- RolledFiles.RolledFile.Truncate: covers lengths within the file, the only ones recovery uses.
