# RediQueue in Dafny

RediQueue is an in-memory server that speaks the Redis serialization protocol. This project models its
commands, its storage, its locking and its wire format, and proves what clients rely on: that queued
elements are neither lost nor duplicated, that a transaction runs as one step or not at all, that WATCH
notices changes, that a client that waits is woken, and that every request gets exactly one reply.

`dafny verify dfyconfig.toml` checks everything.

## How the model is built

In layers, each with its own proofs:

- **Values.** `Store` is one numbered database (db.go) as an immutable value: the maps `keys`, `listKeys`,
  `setKeys` and `keyVersion`. `Lists` and `Ranges` hold the list algorithms and the offset arithmetic in
  64-bit integers, `Commands` the callbacks of all commands: new contents plus the writer calls they
  make, or a Go panic. Random numbers and map iteration order are a parameter `choice`, restricted by
  `ValidChoice` to what can happen, so a statement about all choices holds for every random outcome.
  `Resp` has the writer calls as tokens and as bytes.
- **The machine.** `Machine` is the whole server as a step function: any number of connections, each with
  a main goroutine and, while it blocks, a helper goroutine, over one mutex, one condition variable and
  the databases. One event is what one goroutine does between two synchronisation points, so a run is
  any interleaving. A run is a sequence of events from a fresh server; `At(ids, es, i)` is the state
  before event `i`. `LockSafety`, `Wakeups`, `Timeouts`, `Watching`, `Transactions`, `Ledger`, `Fifo`,
  `Framing` and `Lines` prove their theorems for every run, `Scenarios` gives runs that show where a
  condition is needed. `CommandLaws`, `CommandFacts` and `CommandResults` are about single callbacks.
- **What clients see.** `History` says what the requests of one client mean, from their order alone: which
  transaction is open and what it has queued, which database is selected, which keys are watched.
  `Sessions` proves that the machine keeps exactly that state in every run, and `Answers` that every request
  takes effect at one moment and is answered accordingly.
- **The heap.** `Heap` is `RedisDB` as the Go program has it: maps of slices into shared backing arrays
  and of references to hash tables, changed in place. `HeapCommands` and `HeapCallbacks` are the
  callbacks over it, `HeapQueue` is `RediQueue` with its numbered databases and runs any callback on
  them, `Session` is `connCtx`, `Peer` and the handlers. Every method is proved to do what the value
  layer says.

`Proto` is the request reader. `Glob` is the compiler of KEYS patterns, `Regexp` the part of Go's regular
expressions it relies on, errors included, `GlobMeaning` relates the two, and `GlobText` says what a pattern
selects, sign by sign of its text.

## Where the code does not do what one would expect

Each of these is a lemma, together with the exact condition under which the expected property holds.

- `RENAME k k` of an existing key panics (`RenameExact`).
- `SRANDMEMBER` of an empty set panics without a count or with a negative one; the *STORE commands can
  leave such sets. With the smallest integer as count it announces a negative number of elements
  (`SRandMemberExact`, `SRandMemberOne`, `RunFramed`).
- `LREM` with the smallest integer as count removes nothing (`LRemExact`).
- `LRANGE` and `LTRIM` with the largest integer as end select nothing (`RangeExact`).
- `KEYS`, `SCAN` and `SSCAN` panic on a pattern whose expression Go refuses to compile, such as `[b-a]`,
  `[^]` or `\\E` (`DescendingRange`, `NegatedNothing`, `LoneMark`, `PatternCrash`; they do not with plain
  classes and without a literal backslash right before a literal E, `SafeCompiles`).
- A `BRPOPLPUSH` outside MULTI that completes does not broadcast, so a client waiting for its
  destination can sleep on although there is an element for it (`NoLostWakeup`, `LostWakeup`).
- The broadcast after a timeout is lost if the helper goroutine has not yet joined the notify list; the
  client then stays blocked until somebody else broadcasts (`TimeoutExact`, `TimeoutProgress`,
  `LostTimeout`).
- A flush between WATCH and EXEC that removes a watched key goes unnoticed, and so does a version counter
  that has wrapped around (`WatchSoundness`, `UnseenFlush`, `WrappedCounter`).
- The error for an unknown command repeats the client's text; with a line break in it the answer reads as
  more than one value (`WireOutput`, `SplitAnswer`).
- A request without any argument is read without error and then panics in `dispatch`
  (`RequestRoundTrip`).
- A KEYS pattern with a literal backslash right before a literal E compiles to an expression with a
  different meaning, or panics (`MeaningExact`, `ReadBackExact`, `BrokenQuote`).
- An unknown command inside MULTI does not make the transaction dirty, and an EXEC refused as dirty
  leaves the transaction open (cmd_transactions.go:58-61); `DirtyNeverRuns` is stated accordingly.

## Model

| member | source | states |
|---|---|---|
| LockSafety.MutualExclusion | redis.go:87-116 | in every state of every run at most one connection is inside a callback, a callback and every final Unlock find the mutex held by their own main/helper pair, and the mutex is held by exactly the pair between its Lock and Unlock, timeout path included |
| LockSafety.StepSafe | redis.go:48-52 | a step brings the process down exactly when it runs a panicking callback, the compilation of a refused pattern included: no Unlock of a free mutex; the index maps keep agreeing |
| LockSafety.RunInv | redis.go:37-116 | the lock and index invariants hold after every run that has not crashed |
| LockSafety.IndexAgreement | db.go:35-187 | in every reachable state `keys` is the disjoint union of `listKeys` and `setKeys` with matching tags and no list is empty; the next event crashes the server exactly for RENAME of a key onto itself, SRANDMEMBER of an empty set without a count or with a negative one, and KEYS, SCAN or SSCAN with a pattern that Go refuses to compile |
| Wakeups.NoLostWakeup | redis.go:89-115 | whenever the mutex is free, a client asleep and not notified has a callback that would still return false, unless a BRPOPLPUSH outside MULTI pushed to an awaited key since the last broadcast |
| Wakeups.SilentNever | cmd_list.go:664-686 | in runs without such BRPOPLPUSH completions that exception never arises |
| Timeouts.TimeoutExact | redis.go:100-113 | in every run, a client that has timed out and waits for its helper had asked for a timeout, and no broadcast will have reached the helper if and only if the client's own broadcast came before the helper had joined the notify list and none has come since it joined |
| Timeouts.TimeoutProgress | redis.go:89-113 | such a client has no step at all while its helper sleeps unnotified; otherwise it has a step or waits only for the mutex |
| Answers.AnswerExact | redis.go:37-116 | in every run, what a client is sent for a request is the answer of one moment between the request and the end of its handling: its command ran then, alone, on the database selected; a blocking command completed then, or had asked for a timeout and timed out; EXEC found a watched key changed, or ran what the client had sent since its MULTI, uninterrupted; inside a transaction it was queued or refused; a rejected request got its error |
| Sessions.SessionExact | rediqueue.go:348-375 | in every run an idle connection is in a transaction if and only if an accepted MULTI came after its last DISCARD and its last EXEC that ran or aborted; the queue is everything it has sent since, in order and with repetitions; the selected database is the argument of its latest SELECT, or 0; a key is watched if and only if its WATCH came after the last UNWATCH and the last end of a transaction |
| Sessions.BlockingOwn | redis.go:80-115 | over any number of rounds a blocking client retries the callback of its latest request, with the timeout flag of that request |
| Sessions.TimerAsked | redis.go:80-85 | a timer fires only for a client whose latest request asked for a timeout |
| Sessions.RunFollows | redis.go:37-116 | in every state of every run, also in the middle of a request, the state of a connection is what its requests say |
| History.InTransactionExact | rediqueue.go:348-360 | a transaction is open if and only if nothing has ended it since an accepted MULTI |
| CommandLaws.TryWaits | cmd_list.go:79-111 | a blocking callback returns false exactly when none of the keys it waits for exists |
| Scenarios.LostWakeup | redis.go:90-93 | a run that ends with the mutex free, nobody about to broadcast, and a client asleep whose callback would succeed |
| Scenarios.LostTimeout | redis.go:100-113 | a run in which a timed-out client ends up with no possible step of its own |
| Scenarios.UnseenFlush | db.go:28-32 | a run in which EXEC runs its queue although a watched key was flushed away after its WATCH |
| Scenarios.WrappedCounter | rediqueue.go:366-371 | a run in which EXEC runs its queue after 2^64 LSETs of the one element of a watched list, the last of which writes another value |
| Scenarios.PatternCrash | keys.go:64 | a run that brings the server down: `KEYS [b-a]` to a fresh server |
| Watching.ExecDecides | cmd_transactions.go:65-83 | in every run, the step at EXEC's check runs the queue if and only if no key watched since the latest UNWATCH or end of a transaction shows a higher version than at its latest WATCH; otherwise one empty array is written and the transaction is over; no database changes |
| Watching.WatchSoundness | cmd_transactions.go:65-74 | when EXEC runs its queue and the counter has not wrapped around, a watched (database, key) has the type and contents it had at its latest WATCH, for any interleaving, if and only if no flush found the key in between |
| Watching.SameVersionExact | db.go:28-32 | over any stretch of a run at whose ends a key shows the same version, its type and contents are the same if and only if no flush of its database found it there |
| Watching.WatchExact | cmd_transactions.go:65-74 | without wrap-around, EXEC runs its queue if and only if every watched key has the version it had at its latest WATCH |
| Watching.WatchOrigin | rediqueue.go:366-371 | every recorded version is the one shown at the latest WATCH of that key by that connection |
| Watching.StretchEvolves | db.go:35-187 | over any stretch of a run versions never decrease, and without a flush an unchanged version means unchanged type and contents |
| Watching.StepEvolves | db.go:35-187 | the same for one event of the machine, whatever goroutine it belongs to |
| Watching.OtherStepKeepsDbs | redis.go:42-47 | queueing, MULTI, DISCARD, WATCH, a refused or aborted EXEC and every other step that runs no callback leave all databases as they are |
| Transactions.TransactionEquivalence | cmd_transactions.go:63-83 | when EXEC has run its queue, databases and output are those of the commands the client has sent since its MULTI, with repetitions, run in order and uninterrupted, from the state at the check and on the database the client has selected, behind an array header of their number |
| Transactions.QueueIsSequential | cmd_transactions.go:76-79 | at every point inside the queue, with any steps of other connections in between, exactly the callbacks so far have run, one after the other |
| Transactions.Uninterrupted | cmd_transactions.go:63-64 | while a queue runs, an event of another connection changes neither the databases nor this connection |
| Transactions.DirtyNeverRuns | rediqueue.go:348-384 | after an argument error inside MULTI, no continuation of any length without DISCARD executes a callback of the transaction, which stays open with its whole queue |
| Transactions.DirtyStays | cmd_transactions.go:53-61 | the invariant behind it: a dirty transaction stays dirty and open until DISCARD |
| Ledger.Conservation | db.go:92-139 | for every run and value, occurrences pushed equal occurrences held in all lists of all databases plus those handed out by pops plus those dropped by deleting, trimming or overwriting commands |
| Ledger.NothingDropped | cmd_list.go:79-111 | in runs of pushes, pops, blocking pops, rotations, MOVE and RENAMENX nothing is dropped, so pushed equals held plus handed out; timeouts take nothing |
| Ledger.RunBalances | db.go:35-139 | the balance for one callback of any command |
| Ledger.TryBalances | cmd_list.go:79-111 | the balance for one blocking callback |
| Fifo.FirstInFirstOut | db.go:92-139 | if a key is touched only by LPUSH and RPOP/BRPOP, from any connections, inside or outside MULTI, what was delivered followed by what is still queued is what was pushed, in order, across deletions and re-creations and whatever happens to other keys and databases, flushes of other databases included |
| Fifo.RunQueue | cmd_list.go:331-340 | one callback under that discipline takes only from the old end and adds only at the new end |
| Framing.ReplyFraming | server/server.go:207-239 | for every run, the output of an idle connection is exactly one complete value per request; a client reading its bytes gets exactly those values with nothing left over if and only if every one-line answer is free of line breaks |
| Framing.RunFramed | cmd_set.go:432-456 | a callback writes exactly one complete value if and only if it is not SRANDMEMBER of an existing set with the smallest integer as count |
| Framing.RunIsFramed | cmd_transactions.go:76-79 | in every state of a run the output is complete values, followed inside EXEC by the header and one value per callback run so far |
| Resp.WireFraming | server/server.go:207-239 | the bytes of n replies scan back to the same writer calls, if and only if no one-line text holds a line break, and these parse as n values with nothing left over |
| Resp.ReadBackAll | server/server.go:222-234 | reading values from the writer calls of any values gives those values back, whatever follows |
| Resp.ScanAllExact | server/server.go:207-239 | scanning the bytes of any sequence of writer calls whose numbers fit gives those calls back if and only if no one-line text holds a line break (CR LF) |
| Lines.WireOutput | server/server.go:11-13 | for every run, a client reading the bytes of its idle connection gets exactly its output, one value per request, if and only if none of its own requests was rejected with a text that holds a line break |
| Lines.RunOutput | server/server.go:207-214 | everything else the server ever writes in an error or a status is free of line breaks |
| Lines.SplitAnswer | server/server.go:146-165 | the failing input: the answer to an unknown command with a line break in its name reads as two values |
| Resp.AtoiItoa | server/server.go:232-239 | printing and parsing a machine integer undo each other |
| Proto.RequestRoundTrip | server/server.go:119-165 | for every sequence of argument vectors of arbitrary bytes, serving their encodings dispatches exactly those vectors, in order, with nothing left over, up to the first empty one, which panics |
| Proto.ReadArrayBack | server/proto.go:14-44 | an encoded argument vector, followed by anything, is read back and exactly the rest is left |
| Proto.ReadStringBack | server/proto.go:46-87 | the same for one bulk string of arbitrary bytes |
| Proto.Reader.ReadArray | server/proto.go:14-44 | the reader loop meets the specification on the whole stream, errors included |
| Proto.Reader.ReadString | server/proto.go:46-87 | the same for one string, whatever pieces the reads return |
| Proto.Reader.ReadFull | server/proto.go:70-85 | the buffer is filled with exactly the next bytes for every way the reads are split, and it fails exactly when too few bytes come |
| Proto.Serve | server/server.go:119-144 | the peer loop meets the specification of the round trip |
| Lists.LRemExact | cmd_list.go:470-493 | LREM removes the first min(count, n) matches, the last min(-count, n) or all, keeping the order of the rest, if and only if the count is not the smallest integer or nothing matches; the number removed is exact |
| Lists.RemoveNIsKeep | cmd_list.go:478-488 | the filter loop removes exactly the first n occurrences, position by position |
| Lists.LRemBackwards | cmd_list.go:470-494 | reversing, filtering and reversing back removes exactly the last n occurrences |
| CommandFacts.LRemCommand | cmd_list.go:470-503 | the command: the promised list, the number removed as reply, the key deleted exactly when nothing remains |
| Ranges.RangeExact | redis.go:151-180 | for every length and 64-bit start and end the slice is the inclusive Redis range if and only if end is not the largest integer or nothing is selected anyway |
| Ranges.RangeBounds | redis.go:151-180 | the offsets are usable as a slice for all arguments, also when end wraps around |
| CommandFacts.RangeReply | cmd_list.go:424-434 | LRANGE answers exactly the selected elements in order |
| CommandFacts.TrimThenRange | cmd_list.go:592-601 | LTRIM s e and then LRANGE 0 -1 answers what LRANGE s e answered before |
| CommandResults.PushExact | cmd_list.go:322-341 | RPUSH appends its values in order, LPUSH leaves them in front in reverse order, and the reply is the new length |
| CommandResults.PopExact | cmd_list.go:276-299 | LPOP and RPOP split the element they answer with off their end of the list; the key goes with the last element |
| CommandResults.BlockingPopExact | cmd_list.go:79-111 | BLPOP and BRPOP take from the first listed key that exists and answer with its name and element |
| CommandResults.RotateExact | cmd_list.go:618-633 | RPOPLPUSH and BRPOPLPUSH move the last element of one list to the front of another, or of the same list |
| CommandResults.InsertExact | cmd_list.go:200-220 | LINSERT puts the value right before or after the first occurrence of the pivot, and answers -1 if there is none |
| CommandResults.SetExact | cmd_list.go:535-551 | LSET overwrites the element its index denotes and fails exactly when it denotes none |
| CommandResults.IndexExact | cmd_list.go:145-156 | LINDEX answers with the element its index denotes, and null exactly when it denotes none |
| CommandResults.AddExact | cmd_set.go:43-56 | SADD leaves the union and answers with the number of new members |
| CommandResults.RemoveExact | cmd_set.go:472-488 | SREM leaves the difference, answers with the number of members removed, and deletes an emptied key |
| CommandResults.DeleteExact | cmd_generic.go:37-48 | DEL removes exactly the listed keys, leaves all others, and answers with the number of different ones that existed |
| CommandResults.MoveExact | cmd_generic.go:118-132 | MOVE hands the value over exactly when the key exists here and not there, and changes no third database |
| CommandResults.RenameNxExact | cmd_generic.go:226-242 | RENAMENX renames exactly when the new name is free, and never panics |
| CommandFacts.SPopExact | cmd_set.go:350-386 | for every random outcome SPOP hands out min(count, size) different members that with the rest partition the old set; the key goes when emptied |
| CommandFacts.SRandMemberExact | cmd_set.go:432-456 | SRANDMEMBER with a count: exact panics, exact header, min(count, size) different members or -count members, nothing changed |
| CommandFacts.SRandMemberOne | cmd_set.go:446-452 | SRANDMEMBER without a count: one member, or a panic exactly on an empty set |
| CommandFacts.StoreExact | cmd_set.go:131-143 | a *STORE command leaves in its destination the result over the old contents even if the destination is an operand, replies with its size and leaves every other key; wrong type exactly for a bad operand |
| CommandFacts.SMoveExact | cmd_set.go:285-310 | SMOVE moves one member, also between a set and itself; nothing is lost or made |
| CommandFacts.RenameExact | cmd_generic.go:200-211 | RENAME panics exactly for equal names, else the value is under the new name and nothing under the old |
| Store.CombineMeaning | db.go:211-289 | difference and union over all operands, intersection over the first and the later operands that are sets; fails exactly when an operand looked at is not a set |
| Store.MoveKeeps | db.go:35-56 | MOVE keeps both databases' maps in agreement and bumps the versions on both sides |
| Store.RenameKeeps | db.go:58-72 | `rename` is defined exactly for an existing, different name, keeps the maps in agreement and bumps both versions |
| Store.RenameMoves | db.go:58-72 | what it leaves under the two names |
| Store.DelKeeps | db.go:74-90 | `del` keeps the maps in agreement, bumps the version and leaves nothing under the key |
| CommandLaws.RunLawful | redis.go:48-52 | every callback panics exactly as `Panics` says (RENAME of a key onto itself, SRANDMEMBER of an empty set, a pattern that Go refuses), keeps the maps in agreement, and unless it flushes gives every (database, key) it changes a higher version and changes no other |
| CommandLaws.TryLawful | cmd_list.go:79-111 | the same for a blocking callback that completes |
| Heap.Append | db.go:117-125 | Go's append, in place or into a new array: the old elements followed by the new ones |
| Heap.ReverseSlice | db.go:291-296 | the in-place reversal |
| Heap.RedisDB.FlushDb | db.go:28-32 | on the heap: the contents of `Flush`, and nothing owned any more |
| Heap.RedisDB.Delete | db.go:74-90 | on the heap: `Del` of the old contents, no other array or table touched |
| Heap.RedisDB.ListLpush | db.go:92-101 | on the heap: refines `Store.ListLpush` with a new array that no other key uses |
| Heap.RedisDB.ListLpop | db.go:104-115 | on the heap: the first element, and refines `Store.ListLpop` |
| Heap.RedisDB.ListPush | db.go:117-125 | on the heap: refines `Store.ListPush` although it may write into spare capacity |
| Heap.RedisDB.ListPop | db.go:128-139 | on the heap: the last element, and refines `Store.ListPop` |
| Heap.RedisDB.SetSet | db.go:142-147 | on the heap: refines `Store.SetSet` |
| Heap.RedisDB.SetAdd | db.go:149-165 | on the heap: refines `Store.SetAdd`, and the number of new members |
| Heap.RedisDB.SetRem | db.go:168-187 | on the heap: refines `Store.SetRem`, and the number of members removed |
| Heap.RedisDB.Combine | db.go:211-289 | the loops over the operands compute `Store.Combine` in a new table and leave the operands alone |
| Heap.RedisDB.RenameKey | db.go:58-72 | on the heap: refines `Store.Rename`; the array or table changes its owner, it is not copied |
| Heap.RedisDB.MoveKey | db.go:35-56 | on the heap: refines `Store.Move`; the array or table changes its database and the two databases still share nothing |
| Heap.RedisDB.AfterCellWrites | cmd_list.go:547-548 | writing into the cells of one list leaves every other key's contents as they were |
| HeapCommands.PushCmd | cmd_list.go:331-340 | LPUSH and RPUSH on the heap do what `Commands` says |
| HeapCommands.BPopCallback | cmd_list.go:79-111 | the callback of BLPOP and BRPOP on the heap |
| HeapCommands.LRemCmd | cmd_list.go:470-503 | LREM on the heap, with the in-place reversals |
| HeapCommands.LSetCmd | cmd_list.go:535-551 | LSET on the heap, with the one cell written in place |
| HeapCommands.LTrimCmd | cmd_list.go:592-601 | LTRIM on the heap, as a narrower window on the same array |
| HeapCommands.LInsertCmd | cmd_list.go:200-220 | LINSERT on the heap, with the tail copied out before the append |
| HeapCallbacks.RPopLPushCallback | cmd_list.go:618-633 | RPOPLPUSH on the heap, all answers, also of a list onto itself |
| HeapCommands.DelCmd | cmd_generic.go:37-48 | DEL on the heap, with the count of keys that existed |
| HeapCommands.StoreCmd | cmd_set.go:131-143 | the *STORE commands on the heap |
| HeapCallbacks.SMoveCallback | cmd_set.go:285-310 | SMOVE on the heap, all answers |
| HeapCallbacks.SPopCallback | cmd_set.go:350-386 | SPOP on the heap, all answers: the members drawn are a valid choice, and state and reply are those of that choice |
| HeapCommands.RandMembers | cmd_set.go:441-456 | the members SRANDMEMBER draws after shuffling are a valid choice |
| HeapCallbacks.SRandMemberCallback | cmd_set.go:432-456 | SRANDMEMBER on the heap, all answers and the panic |
| HeapCallbacks.RunListCallback | cmd_list.go:145-156 | any list callback on the heap refines `RunList`, wrong types and missing keys included |
| HeapCallbacks.RunTryCallback | cmd_list.go:79-111 | any blocking callback on the heap refines `RunTry` |
| HeapCallbacks.RunSetCallback | cmd_set.go:43-56 | any set callback on the heap refines `RunSet` for a valid choice |
| HeapCallbacks.RunKeyCallback | cmd_generic.go:37-48 | any generic callback on the heap refines `RunKey` for a valid choice |
| HeapCallbacks.Select | redis.go:184-199 | what `matchKeys` selects from any names, or its panic, is what `MaySelect` and `CompilePanics` allow |
| HeapCommands.Shuffle | cmd_set.go:633-639 | random swaps are a permutation for all random numbers |
| HeapCommands.Filter | cmd_list.go:476-490 | LREM's loop computes `RemoveN` and counts what it drops |
| HeapCommands.FindPivot | cmd_list.go:201-206 | LINSERT's search stops at the first pivot |
| HeapQueue.RediQueue.Db | rediqueue.go:229-237 | a database is looked up or created; no other changes, and none shares anything with it |
| HeapQueue.RediQueue.OthersKept | rediqueue.go:39-48 | changing one database in place leaves every other one as it was, and still nothing is shared |
| HeapQueue.RediQueue.FlushAllCallback | direct.go:46-50 | FLUSHALL's loop, in any order, empties every database as `Commands` says |
| HeapQueue.RediQueue.MoveCallback | cmd_generic.go:118-132 | MOVE across databases on the heap |
| HeapQueue.RediQueue.Callback | redis.go:42-52 | any callback on the selected database of the whole server state on the heap refines `Run`: panics, replies and all databases; afterwards still nothing is shared and the index maps agree |
| HeapQueue.RediQueue.ExecQueue | cmd_transactions.go:76-79 | EXEC's loop on the heap computes `RunAll` over the whole queue for random outcomes that can happen, writes the bytes of its replies and sets the dirty flag exactly when a callback does; a panic ends it at that callback |
| HeapQueue.RediQueue.WatchCallback | cmd_transactions.go:122-131 | the WATCH loop records exactly what the machine records |
| HeapQueue.RediQueue.WatchedKeysUnchanged | cmd_transactions.go:65-74 | EXEC's loop over the watched keys, in any order, decides the machine's check |
| HeapQueue.RediQueue.ExecStart | cmd_transactions.go:49-76 | EXEC up to its first callback: whether the queue runs, the new connection state and the bytes written, for all four outcomes; an aborted transaction is over |
| HeapQueue.RediQueue.CheckLikeMachine | cmd_transactions.go:65-76 | the machine's step at EXEC's check decides, answers and changes the connection state in the same way |
| Session.CmdMulti | cmd_transactions.go:28-37 | connection state and reply are those of the machine's dispatch; outside a transaction an empty, unspoilt one is open afterwards |
| Session.CmdDiscard | cmd_transactions.go:97-104 | connection state and reply are those of the machine's dispatch; no transaction is open afterwards and, if one was, no key is watched |
| Session.Enqueue | redis.go:42-47 | inside MULTI the command is appended to the queue, whatever is in it, and QUEUED written; outside nothing happens |
| Session.Peer.WriteBulks | cmd_list.go:431-434 | header and loop write the bytes of one array of the listed strings |
| Glob.PatternRE | keys.go:13-63 | the compile loop emits the text for the pattern's tokens, and nil exactly for a trailing backslash or an empty class |
| GlobMeaning.ReadBackExact | keys.go:13-65 | with plain classes (characters, escaped non-alphanumerics, ascending ranges, negated or not), the emitted text is read back as the pattern's own tokens if and only if no literal backslash stands right before a literal E |
| GlobMeaning.QuoteExact | keys.go:11-15 | a quoted text is read back as itself if and only if it does not contain the closing mark |
| GlobMeaning.CompiledMeaning | keys.go:13-65 | under that condition the compiled expression matches exactly the newline-free keys that the pattern matches |
| GlobMeaning.MeaningExact | keys.go:13-65 | the condition is exact for the meaning: with plain classes and a pattern that matches some newline-free key, compiled and own meaning agree on all such keys if and only if no literal backslash stands right before a literal E |
| GlobMeaning.SafeCompiles | keys.go:64 | with plain classes and under that condition the compiler never panics |
| GlobMeaning.RefusedPattern | keys.go:64 | a class that Go refuses makes the compiler panic, whatever follows it, behind plain classes and text without a literal backslash right before a literal E |
| GlobMeaning.DescendingRange | keys.go:64 | `[b-a]` panics |
| GlobMeaning.NegatedNothing | keys.go:64 | `[^]` panics: the bracket is a member of a class that never ends |
| GlobMeaning.LoneMark | keys.go:64 | `\\E` panics: the quote ends early and leaves a closing mark |
| GlobMeaning.BrokenQuote | keys.go:48-56 | a pattern that compiles to an expression with another meaning |
| Glob.MatchKeys | redis.go:184-199 | the filter loop returns the keys the compiled expression matches, in order, none for a pattern that compiles to nil, and panics for one that Go refuses |
| GlobText.CompiledText | keys.go:13-65 | with plain classes and without a literal backslash right before a literal E, the compiled expression exists and matches exactly the newline-free keys that the text of the pattern stands for |
| GlobText.EmptyLaw | keys.go:15-16 | the empty pattern matches only the empty key |
| GlobText.OneLaw | keys.go:21-22 | `?` and more matches a key if and only if the key has a first character and the rest matches the rest |
| GlobText.ManyLaw | keys.go:19-20 | `*` and more matches a key if and only if some end of the key matches the rest |
| GlobText.EscapeLaw | keys.go:48-56 | an escaped character and more matches a key if and only if the key starts with it and the rest matches the rest |
| GlobText.PlainLaw | keys.go:57-58 | the same for any character but the four signs |
| GlobText.ClassLaw | keys.go:23-46 | a class and more matches a key if and only if the first character is in the class and the rest matches the rest |
| GlobText.OpenClassLaw | keys.go:26-46 | a class without its bracket reaches to the end of the pattern |
| GlobText.NothingLaw | keys.go:40-53 | a lone backslash and a pattern that begins with an empty class match nothing |
| GlobText.ListedClass | keys.go:37-46 | a list of characters without a hyphen or a leading caret stands for those characters |
| GlobText.RangeClass | keys.go:37-46 | a range stands for the characters from its first to its last, whatever the class lists after it |
| GlobText.NegatedClass | keys.go:37-46 | a leading caret stands for all other characters |
| CommandResults.KeysExact | cmd_generic.go:147-155 | under the conditions above KEYS does not panic and answers once with each newline-free key that the text of the pattern stands for |
| CommandResults.ScansExact | cmd_generic.go:300-323 | so do SCAN and SSCAN with MATCH, in one go |
| CommandResults.AlgebraExact | cmd_set.go:89-115 | SDIFF, SINTER and SUNION answer with each member of the result once and change nothing; wrong type exactly for a bad operand |
| CommandResults.PushXExact | cmd_list.go:355-390 | LPUSHX and RPUSHX push as LPUSH and RPUSH do on an existing key, and do nothing without one |
| CommandResults.QueuedBlockExact | redis.go:72-79 | a blocking command inside MULTI answers null exactly when none of its keys exists, and else does what it does outside |
| CommandResults.FlushExact | db.go:28-32 | FLUSHDB empties exactly the selected database, FLUSHALL all of them |

## Left out

- Watching.WatchSoundness: says nothing about counters that have wrapped around; that the property is false then is shown by `WrappedCounter`.
- Wakeups.NoLostWakeup: speaks of runs over the network only; the direct Go methods (direct.go) push without a broadcast and are not part of the model.
- Framing.ReplyFraming: excludes runs in which the connection itself runs the one callback whose header overflows, for which `RunFramed` is exact, and asks that string lengths and counts fit the 64-bit integers they are printed as.
- GlobMeaning.MeaningExact: covers ASCII keys, ASCII patterns and plain classes. Named classes, a bracket inside a class, escapes with a meaning of their own and text that is not ASCII are syntax that `Regexp` does not decide; whether Go refuses such an expression is the parameter `refusedBeyond` of a pattern, so the statements about crashes cover both answers, and what it selects is an arbitrary subset.
- CommandResults.KeysExact: says nothing about keys with a newline or with bytes that are not ASCII.
- Go's limit on the size of a compiled regular expression.
- Argument parsing of the handlers: a request of the machine is what is left after it; every rejected request is one `Rejected` request with the text of its error that says whether `setDirty` was called.
- Authentication, including the short lock that `handleAuth` takes and releases before each command, PING, ECHO and QUIT.
- Real time: the timer is an event that can happen at any time while a client waits with a non-zero timeout. Fairness and liveness are not modelled.
- Sorted replies appear in arbitrary order.
- The direct Go API (direct.go) other than `flushAll`, saving and loading, TCP, peer bookkeeping, and the debugging text of `Dump`.
- The version counter is an unbounded number in the state; comparisons see it modulo 2^64.
- Memory limits: allocations succeed, and lists are shorter than the largest integer where a statement says so.
- Closing a connection while a command runs.
