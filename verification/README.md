# Llavero, modelled and proved

Llavero is a Redis-like server: an in-memory store of strings, lists, hashes and sets with absolute deadlines, kept in
power-of-two shards; an append-only log and a binary snapshot to survive a restart; RESP2 on the wire; a memory limit;
publish/subscribe; and an orderly shutdown. This project models that logic in Dafny and proves what it is for.

Check it with `dafny verify dfyconfig.toml`.

## How it is built

- **One-map specification.** `Values` and `Keyspace` say what each operation does to one live record. `Runs` adds the
  clock: a physical store, which keeps expired keys until something deletes them, against an ideal one that never shows
  them. `Accounting` adds the incremental memory estimate and the counter of expired keys.
- **The store in place.** `Shards` has the mutable entry and shard, and every operation as the code that runs under the
  shard's lock; each is proved to be its one-map operation on the shard. `Sharding` and `Stores` carry that over to the
  sharded store, for any hash.
- **Commands.** `Protocol` and `Commands` hold the handlers' argument checks and replies, `Dispatcher` runs a command on
  a store, `Transparency` compares whole commands with a map that never shows an expired key, `LogNormal` is the
  normalisation for the log.
- **What it all means to a client.** `Effects` tells each operation by what later operations answer, `Footprint` by the
  bytes it adds to the estimate. `Handlers`, `Batches` and `Deadlines` say for every command, without its plan, what it
  leaves in the store and replies, and until which nanosecond a key lives; `Spelling` which bytes are which command;
  `Formats` what the bytes on the wire, in the log and in the snapshot are. Names, units and limits are written out there.
- **The log.** `Replay` is the simulation theorem between a live run and a later replay, and `InStep` its exact
  condition; `Wire`, `Resp` and `Aof` are the bytes, and `Tears` what an append after a torn record does; `Servers` is the
  write path with its history as ghost state, and `Recovery` what a restart makes of a log cut anywhere.
- **The snapshot.** `SnapshotEntries`, `SnapshotCodec`, `SnapshotFile` and `Snapshots`, from a store to bytes and into
  another store.
- **Replies.** `ReplyCodec` is the server's encoder against the command line client's reader.
- **Protocols.** `MemoryLimit` and `ServerLimits`, `Connections` (shutdown), `PubSub`, `Locking` (shard locks).

Time is an integer of nanoseconds since 1970; every reading of the clock is a parameter. Go's wrap-around and saturation
of 64-bit integers, durations and Unix milliseconds are written out where they occur. A map iteration is an arbitrary
choice, so every result holds for every order.

## What turned out false, and when the code does meet it

- A replay is not always faithful: liveness is judged by the replay's clock. `Replay.PersistedKeyLost` loses a key. A replay
  stays in step with its run exactly when no SETNX, INCRBY, push, HSET, SADD, PERSIST or EXPIRE that met a live key is
  replayed after that key's deadline, an EXPIRE whose new deadline has passed by then excepted (`InStep.InStepExactly`).
- An EXAT deadline is logged wrongly exactly when its seconds do not fit in 64 bits as milliseconds (`LogNormal.ExatExact`).
- SET with fewer than two arguments panics while it is normalised, and nothing else does (`LogNormal.LoggedExactly`).
- A log reopened after a torn record is appended to where it was torn. A tear in a header, a length line or a terminator,
  or between two parts, makes the next start fail (`Tears.TearCorrupts`); a tear in the bytes of a part can also drop what
  follows, or turn it into a command nobody sent, without an error (`Tears.TearSwallows`, `Tears.InventedCommand`).
- An inline command has no length limit, and one beyond the parser's limits for arrays is logged as a record the next
  start cannot read (`Aof.InlineKeyUnreadable`); a command that came as an array never is (`Resp.ArrayCommandFits`).
- HDEL and SREM that empty their container leave its bytes in the memory estimate (`Accounting.AccountingExact`,
  `Accounting.EmptyingLeaks`).
- MSET naming a key twice can pass the memory limit (`MemoryLimit.RepeatedKeyPassesLimit`), and so can a SETNX whose key
  expires after it was measured (`MemoryLimit.ExpiredSetNxPassesLimit`); `MemoryLimit.EstimateSuffices` says exactly when the estimate is enough.
- A snapshot with an empty key is written and cannot be loaded; one past the reader's limits likewise
  (`Snapshots.SavedLoads`); a deadline from the year 2262 on, or before 1970, does not survive it (`SnapshotFile.DeadlineBack`).
- DECRBY by the least 64-bit integer adds that integer instead of subtracting it (`Commands.DecrByExact`),
  and TTL of a deadline some 292 years away is negative (`Commands.TtlExact`): right after an EXPIRE of 9,223,372,036 seconds,
  which do fit in 64 bits as nanoseconds, and of none that is less (`Deadlines.TtlAfterExpire`).
- An unknown command's name is echoed as it came, and the client reads the error back exactly when that name is one line
  (`ReplyCodec.UnknownNameMisleads`).
- More connections can be active than there are slots (`Connections.MoreActiveThanSlots`), but only by those that have given
  theirs back and are not counted out yet (`Connections.ActiveWithinSlots`).

## Model

| member | source | states |
|---|---|---|
| Runs.ExpiryTransparency | internal/store/store.go:29-54 | for every sequence of operations, active cycles, snapshots, flushes and loads under a nondecreasing clock, all answers equal those of a map that drops every expired key before each operation, and the views agree at every later time |
| Transparency.CommandTransparent | internal/command/command.go:74-80 | on a store and an ideal map that show the same, a command can give exactly the same replies, counts, arrays, TTL, DBSIZE and FLUSHALL included, and both show the same afterwards |
| Transparency.RepliesAreIdeal | internal/store/store.go:29-54 | over any run of commands with expiry cycles and snapshots between them, the replies are replies of the ideal map to the commands alone, and at the end both show the same |
| Transparency.IdealIsPossible | internal/store/store.go:29-54 | every run of replies of the ideal map is one the store may give, whatever cycles run between |
| Runs.StepSameView | internal/store/store.go:43-54 | an operation depends on the view alone: two stores with one view answer alike and end with one view, whatever expired keys either still holds |
| Runs.SweepKeepsView | internal/store/store.go:215-251 | deleting any selection of expired keys changes no view |
| Runs.DeadlineKept | internal/store/list.go:20-125 | only SET, EXPIRE and PERSIST touch a deadline; any other operation leaves the live key's deadline, and a key it creates has none |
| Runs.OtherKeysKept | internal/store/store.go:86-90 | an operation changes no key but its own |
| Keyspace.WindowIsSlice | internal/store/list.go:142-173 | for all signed bounds the clipped slice of LRANGE is the list of elements whose index lies between them |
| Numbers.ParseFormatAny | internal/store/string.go:16-44 | the decimal text of an integer reads back as that integer, and is refused exactly when it does not fit in 64 bits |
| Numbers.FormatIntLength | internal/server/aof.go:90-99 | the text of a 64-bit integer is at most 20 bytes, within the 32 the estimate allows |
| Numbers.ParseReads | internal/command/handlers_string.go:32-41 | a sign or none and any number of digits read as the integer they write, leading zeros and all, exactly when it fits in 64 bits |
| Numbers.ParseOnly | internal/command/handlers_string.go:32-41 | nothing else reads as an integer |
| Counters.IncrExact | internal/store/string.go:16-44 | INCRBY on an absent or numeric key succeeds exactly when the exact sum fits in 64 bits, then the stored text reads back as the sum and the deadline stays; otherwise nothing changes |
| Counters.IncrChain | internal/store/string.go:16-44 | over any chain of increments, refused ones included, the stored decimal equals a counter in exact arithmetic that refuses to leave the 64-bit range |
| Counters.PushManyIsPushEach | internal/store/list.go:20-45 | LPUSH of many values leaves what pushing each in turn leaves |
| Effects.PushedArePopped | internal/store/list.go:20-125 | after RPUSH of values on a missing key successive LPOPs answer them in order and then nothing, and RPOPs in reverse; after LPUSH the other way round, at any later instants |
| Effects.PopUndoesPush | internal/store/list.go:20-125 | RPOP after RPUSH, and LPOP after LPUSH, answers the value pushed and shows the store as it was before, for any list or none |
| Effects.PushShows | internal/store/list.go:20-67 | LRANGE of everything after a push is the old list with the new values after it in order, or before it in reverse; the length is told |
| Effects.PopShows | internal/store/list.go:70-125 | the answer of LPOP and what LRANGE of everything then shows are the list it showed before, and likewise at the tail for RPOP |
| Effects.RangeShows | internal/store/list.go:142-173 | LRANGE for all signed bounds on any list or none, a negative bound counting from the end |
| Effects.FieldSet | internal/store/hash.go:20-116 | after HSET HGET answers the new value for its field and what it answered before for every other; HSET told whether the field was new, and HLEN and HGETALL follow |
| Effects.FieldsGone | internal/store/hash.go:42-83 | after HDEL HGET answers nothing for the fields named and what it answered before for the others; HDEL counted those present, each once; an emptied hash is no key |
| Effects.MembersAdded | internal/store/set.go:20-123 | after SADD SISMEMBER says yes to the members named and to those there before, and to no other; SADD counted the new ones |
| Effects.MembersGone | internal/store/set.go:48-90 | after SREM SISMEMBER says no to the members named and answers as before for the others; SREM counted those present; an emptied set is no key |
| Effects.StringKept | internal/store/string.go:47-56 | GET answers what SET wrote, and what SETNX wrote exactly when EXISTS said no before it |
| Effects.KeyDeleted | internal/store/store.go:132-156 | after DEL the key is gone, and DEL answered what EXISTS answered before it |
| Effects.KindTold | internal/store/admin.go:9-29 | TYPE names the kind of what a key shows, or none |
| Effects.KindWanted | internal/store/list.go:7-17 | an operation answers a type error exactly when its key shows a value of another kind than it wants, and then the view stays |
| Accounting.AccountingExact | internal/store/memory.go:43-91 | over any run the memory estimate is the true size plus exactly the bytes left behind by HDELs and SREMs that emptied a container since the last flush or load |
| Accounting.NeverUnderCounts | internal/store/memory.go:43-91 | started exact, the estimate never falls below the true size, and stays exact on runs that empty no hash or set by HDEL or SREM |
| Accounting.EmptyingLeaks | internal/store/set.go:61-74 | SADD of one member then SREM of it leaves an empty store whose estimate still counts the member's bytes |
| Values.HashWeighs | internal/store/memory.go:81-84 | an empty hash has no size; a new field adds the bytes of its name and value, a known one the difference between the values, and taking one out gives them back |
| Values.SetWeighs | internal/store/memory.go:85-88 | an empty set has no size, a new member adds its bytes, and taking one out gives them back |
| Values.ListWeighs | internal/store/memory.go:77-80 | an empty list has no size, and an element at any place adds its bytes; a string weighs its own |
| Values.StoreWeighs | internal/store/memory.go:43-59 | the size of a store, which the estimate is compared with, rises by the name and value of a new key, changes by the difference for a known one, and falls by both with a deleted one |
| Footprint.FieldBytes | internal/store/hash.go:20-83 | HSET on a live hash raises the estimate by exactly the bytes of a new field and its value, or by the difference of the values; HDEL of a field lowers it by them, and of the last field by the key alone |
| Footprint.MemberBytes | internal/store/set.go:20-76 | SADD on a live set raises the estimate by exactly the bytes of a new member; SREM lowers it by them, and for the last member by the key alone |
| Footprint.ElementBytes | internal/store/list.go:20-125 | a push on a live list raises the estimate by exactly the bytes of its value; a pop lowers it by those of the element it takes, and with the last one by the key as well |
| Footprint.KeyBytes | internal/store/memory.go:43-59 | a new key of any kind raises the estimate by its name and value; SET over a live key changes it by the difference and DEL takes all of it off |
| Footprint.ExpiredBytes | internal/store/store.go:43-54 | an expired key found by a read gives all its bytes back and is counted; one found by SET is replaced uncounted |
| Accounting.CollectionsNonEmpty | internal/command/handlers_list.go:10-30 | no run of operations that push and add at least one value ever stores an empty list, hash or set |
| Dispatcher.DispatchedNonEmpty | internal/command/handlers_list.go:10-30 | the handlers plan only such operations, so no command leaves an empty list, hash or set |
| Servers.ReactedNonEmpty | internal/server/aof.go:12-43 | nor does any command of the server, refused or logged; the server keeps it as an invariant from its start |
| Shards.EntryApproxMemory | internal/store/memory.go:69-91 | the loop over an entry's parts, in any map order, totals the key's bytes and the value's |
| Shards.Entry.DeleteFields | internal/store/hash.go:69-76 | the fields named are gone from the entry's own map, others stay, and the count is of those that were there, each once |
| Shards.Entry.AddMembers | internal/store/set.go:33-41 | the members are added in place and the count is of those that were new |
| Shards.Entry.RemoveMembers | internal/store/set.go:61-68 | the members are removed in place and the count is of those that were there |
| Shards.Prepend | internal/store/list.go:31-38 | the array filled from both ends holds the pushed values reversed, then the old list |
| Shards.RangeOf | internal/store/list.go:142-173 | negative bounds count from the end, clipping never reads outside, and the result is the elements between the bounds |
| Shards.Shard.SetEntry | internal/store/memory.go:43-49 | the entry is stored and the estimate changes by the difference between the new and the old entry's size |
| Shards.Shard.DeleteEntry | internal/store/memory.go:51-59 | the entry is gone and the estimate falls by its present size |
| Shards.Shard.RefreshEntryMemory | internal/store/memory.go:61-67 | after a change in place the estimate takes in the difference |
| Shards.Shard.LiveEntry | internal/store/store.go:43-54 | an expired entry is deleted and counted; a live one is returned; a deadline equal to the clock is live |
| Shards.Shard.Get | internal/store/store.go:116-129 | answers the live string, absence or a type error, and changes nothing but an expired key |
| Shards.Shard.SetEx | internal/store/store.go:93-112 | the key holds the value and deadline given, whatever was there |
| Shards.Shard.Del | internal/store/store.go:142-156 | the key is gone, and the answer says whether it was live; an expired one is counted as expired |
| Shards.Shard.ExpireAt | internal/store/store.go:166-176 | a live key takes the deadline, a missing or expired one stays missing |
| Shards.Shard.Persist | internal/store/store.go:179-192 | a live key with a deadline loses it, and only then is the answer yes |
| Shards.Shard.TTL | internal/store/store.go:195-208 | answers the saturated remaining time, no deadline, or absence |
| Shards.Shard.Exists | internal/store/store.go:132-138 | answers whether the key is live |
| Shards.Shard.Type | internal/store/admin.go:9-29 | answers the kind of the live value, or none |
| Shards.Shard.LPush | internal/store/list.go:20-45 | the values are pushed one before another onto the live list or a new one, with the length as answer and the estimate kept |
| Shards.Shard.RPush | internal/store/list.go:48-67 | the values are appended to the live list or a new one |
| Shards.Shard.LPop | internal/store/list.go:70-96 | takes the first element; the last one takes the key with it, and the estimate stays exact |
| Shards.Shard.RPop | internal/store/list.go:99-125 | takes the last element; the only one takes the key with it, and the estimate stays exact |
| Shards.Shard.LRange | internal/store/list.go:142-173 | answers the elements between two signed bounds and changes nothing |
| Shards.Shard.HSet | internal/store/hash.go:20-39 | the field holds the value, other fields stay, and the answer says whether the field is new |
| Shards.Shard.HDel | internal/store/hash.go:56-83 | the fields named are gone and counted; an emptied hash takes the key with it and leaves its fields' bytes in the estimate |
| Shards.Shard.HGet | internal/store/hash.go:42-53 | answers the field's value or absence |
| Shards.Shard.HGetAll | internal/store/hash.go:86-103 | answers every field with its value, each once, in some order |
| Shards.Shard.HLen | internal/store/hash.go:106-116 | answers the number of fields |
| Shards.Shard.SAdd | internal/store/set.go:20-45 | the members are in the set, and the answer counts the new ones |
| Shards.Shard.SRem | internal/store/set.go:48-76 | the members named are gone and counted; an emptied set takes the key with it and leaves its members' bytes in the estimate |
| Shards.Shard.SIsMember | internal/store/set.go:79-90 | answers membership in the live set |
| Shards.Shard.SMembers | internal/store/set.go:93-110 | answers every member once, in some order |
| Shards.Shard.SCard | internal/store/set.go:113-123 | answers the number of members |
| Shards.Shard.IncrBy | internal/store/string.go:16-44 | adds exactly or refuses, without wrapping, and keeps the deadline |
| Shards.Shard.SetNX | internal/store/string.go:47-56 | stores the value only on a missing or expired key |
| Shards.Shard.SampleRound | internal/store/store.go:225-251 | one round, in any order, looks at up to 20 keys with a deadline and removes exactly the expired ones among those it saw |
| Shards.Shard.ExpireShard | internal/store/store.go:225-251 | removes only expired keys, at most 320; all of them when at most 20 keys have a deadline; exactly the lesser of their number and 320 when every key with a deadline is expired; and counts each. It does so in at most 16 rounds, each of 20 of the keys with a deadline or all that are left, and another round follows exactly when at least a quarter of those looked at were removed |
| Shards.Shard.CopyLive | internal/store/snapshot.go:40-52 | expired keys are deleted and counted, and every key left is copied once |
| Sharding.NextPow2 | internal/store/store.go:74-83 | the doubling loop ends at the least power of two that is at least the request and at least 1 |
| Sharding.NoLargerPow2 | internal/store/store.go:74-83 | for a request above 2^62 no such power is a 64-bit integer |
| Sharding.MaskIsMod | internal/store/store.go:86-90 | masking a hash with a power of two less one is its remainder by that power |
| Sharding.FlattenStep | internal/store/store.go:86-90 | an operation on the shard that owns its key is the same operation on the whole store seen as one map, and keeps every key in its own shard |
| Sharding.FlattenSweep | internal/store/store.go:215-251 | expiry within one shard is expiry on the whole store |
| Sharding.LiveCountFlat | internal/store/admin.go:56-69 | live keys counted shard by shard are the size of the whole view |
| Stores.Store.constructor | internal/store/store.go:64-71 | the store is empty and has the least sufficient power of two of shards, for every request for which there is one among 64-bit integers |
| Stores.MaskedIndex | internal/store/store.go:64-90 | masking a 32-bit hash gives its remainder by the number of shards, with the mask cut to 32 bits as it is |
| Stores.Store.ShardFor | internal/store/store.go:86-90 | the shard found is the one the masked hash names, and there is one |
| Stores.Store.IndexInRange | internal/store/store.go:86-90 | the masked hash is the hash modulo the number of shards and names one |
| Stores.Store.Do | internal/store/store.go:86-208 | any operation, run on its key's shard, is the one-map operation on the flattened store: entries, estimate and expired count |
| Stores.Store.Len | internal/store/admin.go:56-69 | the number of keys of the view |
| Stores.Store.ApproxMemory | internal/store/memory.go:8-16 | the sum of the shards' estimates is the flattened store's |
| Stores.Store.ExpiredKeys | internal/store/memory.go:33-41 | the sum of the shards' counts is the flattened store's |
| Stores.Store.EntryMemory | internal/store/memory.go:20-29 | the live size of a key, 0 when there is none; asking deletes an expired one |
| Stores.Store.Flush | internal/store/admin.go:72-84 | no keys, a zero estimate, and the expired counts as they were |
| Stores.Store.ActiveExpireCycle | internal/store/store.go:215-219 | every shard loses what its own cycle promises, at its own reading: expired keys only, at most 320, all of them or 320 in the cases it promises that; the sizes and a count of each go with them |
| Stores.Store.Snapshot | internal/store/snapshot.go:31-55 | the store keeps exactly its view, and the entries copy every key of it once |
| Stores.Store.Restore | internal/store/snapshot.go:79-105 | succeeds exactly when no entry is refused, then holds what the entries restore to with an exact estimate; refused, it holds the entries before the refused one |
| SnapshotEntries.RestoredWhole | internal/store/snapshot.go:79-105 | copies of a whole store, in any order, restore to its view at the load, if no key is empty |
| SnapshotEntries.EmptyKeyRefused | internal/store/snapshot.go:88-91 | one empty key anywhere among the entries refuses the whole load |
| Commands.ParseSetExpiry | internal/command/handlers.go:48-79 | the option loop accepts exactly no options or one option with its integer, and yields its deadline |
| Commands.ReadonlyPlans | internal/command/handlers.go:12-31 | a reading command plans no write |
| Commands.TtlExact | internal/command/handlers.go:132-147 | TTL's reply is the remaining time rounded up to seconds if and only if that rounding fits in 64 bits |
| Commands.DecrByExact | internal/command/handlers_string.go:43-52 | DECRBY subtracts its argument if and only if that is not the least 64-bit integer |
| Spelling.VerbSpelled | internal/command/command.go:74-80 | a command is known by exactly those names that have, at each place, the letter of its name or that letter 32 further on |
| Spelling.OptionSpelled | internal/command/handlers.go:48-79 | the four options of SET are known by exactly their spellings in letters of either case |
| Deadlines.ExpireReplies | internal/command/handlers.go:104-116 | EXPIRE of n on a live key replies 1 and changes only its deadline; the key is then there up to n times 1,000,000,000 nanoseconds after the handler read the clock and not one longer, exactly when that product fits in 64 bits; on a missing key it replies 0 |
| Deadlines.PExpireAtReplies | internal/command/handlers.go:118-130 | PEXPIREAT likewise lets it live until that millisecond since 1970 |
| Deadlines.PersistReplies | internal/command/handlers.go:149-158 | PERSIST replies 1 and lets a live key with a deadline live on for good, else 0 and nothing changes |
| Deadlines.TtlReplies | internal/command/handlers.go:132-147 | TTL changes nothing and replies -2 for a key not shown, -1 for one that lives on for good, and otherwise the seconds left, rounded up; a negative number exactly when the rounding leaves 64 bits |
| Deadlines.TtlAfterExpire | internal/command/handlers.go:104-147 | TTL at the reading at which EXPIRE gave a key n seconds replies n if and only if n is at most 9,223,372,035, among all positive n whose nanoseconds fit in 64 bits |
| Deadlines.SetExReplies | internal/command/handlers.go:48-79 | SET with EX n, in any spelling: the key holds the value up to n times 1,000,000,000 nanoseconds later and not one longer, exactly when that fits in 64 bits |
| Deadlines.SetPxReplies | internal/command/handlers.go:48-79 | SET with PX n: n times 1,000,000 nanoseconds, exactly when they fit in 64 bits |
| Deadlines.SetExatReplies | internal/command/handlers.go:48-79 | SET with EXAT n: until that second since 1970, exactly when its count since the year 1 fits in 64 bits and it is not the second that stands for no deadline |
| Deadlines.SetPxatReplies | internal/command/handlers.go:48-79 | SET with PXAT n: until that millisecond since 1970, but for the one that stands for no deadline |
| Deadlines.SetRefuses | internal/command/handlers.go:48-79 | any other option, or one without a number, gets an error and changes nothing |
| Dispatcher.PlansFit | internal/command/command.go:74-80 | every command that reaches the store does so in at least one step and no more steps than arguments, with 64-bit increments |
| Dispatcher.RunSteps | internal/command/handlers_string.go:54-78 | the handlers' loops perform their operations in order, each at its own clock reading, and collect the specified answers |
| Dispatcher.Dispatch | internal/command/command.go:74-80 | a command changes the store as its plan says and replies with the rendering of the plan's answers; an unknown or malformed one changes nothing |
| Handlers.GetReplies | internal/command/handlers.go:19-31 | GET replies with the live string, nothing, or a type error, and changes nothing a client can see |
| Handlers.SetWrites | internal/command/handlers.go:33-46 | SET without options leaves the value under the key with no deadline and replies OK |
| Handlers.SetNxReplies | internal/command/handlers_string.go:80-88 | SETNX writes and replies 1 exactly when the key is not shown, else 0 and nothing changes |
| Handlers.ExistsReplies | internal/command/handlers.go:94-102 | EXISTS replies 1 or 0 as the key is shown or not |
| Handlers.TypeReplies | internal/command/handlers_admin.go:8-13 | TYPE replies string, list, hash, set or none |
| Handlers.IncrReplies | internal/command/handlers_string.go:18-23 | INCR on an absent or numeric key n with n + 1 in 64 bits leaves text that reads back as n + 1 with the deadline kept, and replies n + 1; on any other key it replies an error and nothing changes |
| Handlers.DecrReplies | internal/command/handlers_string.go:25-30 | DECR likewise gives n - 1 |
| Handlers.IncrByReplies | internal/command/handlers_string.go:32-41 | INCRBY likewise gives n plus its argument |
| Handlers.DecrByReplies | internal/command/handlers_string.go:43-52 | DECRBY likewise gives n less its argument, but adds the least 64-bit integer |
| Handlers.LPushReplies | internal/command/handlers_list.go:10-19 | LPUSH leaves its arguments, last one first, before the list the key showed, and replies the length |
| Handlers.RPushReplies | internal/command/handlers_list.go:21-30 | RPUSH leaves its arguments, in order, after the list the key showed, and replies the length |
| Handlers.LPopReplies | internal/command/handlers_list.go:32-44 | LPOP replies the first element and leaves the rest; with the last one the key goes |
| Handlers.RPopReplies | internal/command/handlers_list.go:46-58 | RPOP replies the last element and leaves the rest; with the last one the key goes |
| Handlers.LLenReplies | internal/command/handlers_list.go:60-69 | LLEN replies the number of elements, 0 without a key |
| Handlers.LRangeReplies | internal/command/handlers_list.go:71-86 | LRANGE takes its start and then its stop, and replies the elements between them for all signed bounds |
| Handlers.HSetReplies | internal/command/handlers_hash.go:8-20 | HSET takes the field and then the value, and replies 1 for a new field and 0 for a known one |
| Handlers.HGetReplies | internal/command/handlers_hash.go:22-34 | HGET replies the value of the field, or nothing |
| Handlers.HDelReplies | internal/command/handlers_hash.go:36-49 | HDEL leaves the fields it does not name, and replies how many were there, each counted once |
| Handlers.HGetAllReplies | internal/command/handlers_hash.go:51-60 | HGETALL replies every field once, in some order, each followed by its own value |
| Handlers.HLenReplies | internal/command/handlers_hash.go:62-71 | HLEN replies the number of fields |
| Handlers.SAddReplies | internal/command/handlers_set.go:8-17 | SADD leaves the union, and replies how many members are new |
| Handlers.SRemReplies | internal/command/handlers_set.go:19-28 | SREM leaves the difference, and replies how many members were there |
| Handlers.SIsMemberReplies | internal/command/handlers_set.go:30-42 | SISMEMBER replies 1 or 0 |
| Handlers.SMembersReplies | internal/command/handlers_set.go:44-53 | SMEMBERS replies every member once, in some order |
| Handlers.SCardReplies | internal/command/handlers_set.go:55-64 | SCARD replies the number of members |
| Batches.MGetReplies | internal/command/handlers_string.go:64-78 | MGET replies as many parts as it has keys, each the string its key shows at its turn or nothing, and changes nothing a client can see |
| Batches.MSetReplies | internal/command/handlers_string.go:54-62 | after MSET every key named holds the last value given for it with no deadline, and no other key has changed |
| Batches.DelReplies | internal/command/handlers.go:81-92 | DEL leaves no key it names and every other, and replies how many were live at their turn, a key named twice counted once |
| Batches.DbSizeReplies | internal/command/handlers_admin.go:26-31 | DBSIZE replies the number of keys that have not expired |
| Batches.FlushAllReplies | internal/command/handlers_admin.go:33-39 | FLUSHALL leaves an empty store and keeps the count of expired keys |
| Batches.PingReplies | internal/command/handlers.go:12-17 | PING replies PONG or its first argument |
| Batches.EveryCallAnswered | internal/command/command.go:74-80 | every command, well formed or not, is answered on every store at any readings of the clock, and leaves one store whatever order a map is walked in |
| Batches.WrongCallsRefused | internal/command/command.go:74-80 | a command with a number of arguments it does not take gets an error and changes nothing; a name that spells no command gets the error that repeats it |
| Batches.NotNumberRefused | internal/command/handlers_string.go:32-52 | an argument that should be an integer and is none gets an error and changes nothing |
| Steps.ReadsKeepView | internal/command/handlers_string.go:64-78 | steps that only read change no view from the last of them on |
| LogNormal.SetOptionsAgree | internal/server/aof.go:190-210 | for non-empty SET options the log accepts exactly what the handler accepts, at whatever instants |
| LogNormal.LoggedExactly | internal/server/aof.go:112-182 | a command is logged if and only if its handler gets as far as changing the store; the log panics exactly on SET with fewer than two arguments |
| LogNormal.UnloggedOnlyReads | internal/server/aof.go:112-182 | what is not logged is refused by its handler or only reads |
| LogNormal.Idempotent | internal/server/aof.go:112-210 | normalising twice is normalising once, and the logged form no longer depends on the clock |
| LogNormal.LoggedPlanNear | internal/server/aof.go:112-210 | a logged command replays as the same operations on the same keys, with deadlines never later and less than a millisecond plus the gap between the two clock readings earlier |
| LogNormal.ExatExact | internal/server/aof.go:190-210 | an EXAT deadline survives the log if and only if its seconds fit in 64 bits as milliseconds |
| Replay.ApplyNear | internal/server/aof.go:212-218 | one operation on nearly equal records leaves nearly equal records, at any two instants; SET and DEL need nothing of what was there |
| Replay.ReplaySimulation | internal/server/aof.go:12-43 | for any interleaving of logged operations with reads, failed writes and expiry, replaying the log rebuilds the live store up to deadline rounding, if no operation that tells a live key from a missing one is replayed after the deadline of the live key it met |
| Replay.ShadowedViews | internal/server/aof.go:12-43 | what that rounding means to a reader: nothing extra, no other value, no key lost more than the skew early, and equal views when there is no skew |
| Replay.ExactReplay | internal/persistence/aof.go:131-154 | with whole-millisecond readings the replayed view equals the live view at every time from the last replay instant |
| Replay.PersistedKeyLost | internal/server/aof.go:112-182 | such an operation replayed too late does harm: a key persisted before its deadline and replayed after it is lost |
| InStep.OneOperationExact | internal/server/aof.go:212-218 | one operation, run and replayed on stores that show the same, leaves them showing the same if and only if it was not replayed too late for its key; SET, DEL, LPOP, RPOP, HDEL, SREM and an EXPIRE already passed never are |
| InStep.InStepExactly | internal/persistence/aof.go:131-154 | a replay shows what the run showed after every one of its operations if and only if none of them is replayed too late |
| InStep.InTimeReplays | internal/persistence/aof.go:131-154 | a log with no deadline before the end of its replay is replayed faithfully, whatever its commands |
| InStep.TimelessReplays | internal/persistence/aof.go:131-154 | a log whose commands give no key a deadline is replayed exactly, whenever that is |
| Wire.Reader.ReadLine | internal/protocol/resp.go:63-69 | takes the bytes up to the first LF and strips trailing CR and LF; with no LF it reports the end |
| Wire.Reader.ReadFull | internal/protocol/resp.go:84-95 | takes exactly the bytes asked for, or reports a clean or a torn end |
| Resp.ReadBulk | internal/protocol/resp.go:72-97 | follows the bulk grammar: header, limit, body, checked terminator |
| Resp.Parse | internal/protocol/resp.go:20-41 | follows the command grammar: an array of parts or the words of a line, its first in capitals |
| Spelling.SpelledParses | internal/protocol/resp.go:20-41 | an array whose first part spells a command in letters of either case is that command, with the other parts as its arguments, whatever follows |
| Spelling.NameParsed | internal/protocol/resp.go:20-41 | of any other name the bytes from a to z go down by 32 and every other byte stays |
| Spelling.InlineParses | internal/protocol/resp.go:43-61 | an inline line with any blanks between its words, whose first word spells a command, is that command with the other words as arguments |
| Spelling.BlankLineRefused | internal/protocol/resp.go:43-61 | a line of blanks is refused |
| Formats.HeadersRefused | internal/protocol/resp.go:20-83 | an array of fewer than 1 or more than 1,048,576 parts, and a part of a negative length or one above 536,870,912, are refused at the header |
| Formats.EndChecked | internal/protocol/resp.go:88-96 | a part is accepted exactly when a carriage return and a line feed follow it |
| Formats.LineEnds | internal/protocol/resp.go:64-70 | a line ends at its line feed, with any number of carriage returns before it taken off |
| Formats.RequestLaidOut | internal/persistence/aof.go:107-127 | the bytes of a request, spelt out, as the client sends it and the log keeps it |
| Resp.ParseExtends | internal/protocol/resp.go:20-41 | a verdict reached on some bytes stands whatever bytes follow them |
| Resp.WriteCommand | cmd/llavero-cli/main.go:202-215 | writes the array encoding of its parts, and nothing when there are none |
| Resp.CommandBack | cmd/llavero-cli/main.go:202-215 | the server reads what the client writes, name in upper case, and nothing of what follows, exactly within the limits, and refuses everything beyond them |
| Resp.ArrayCommandFits | internal/protocol/resp.go:20-41 | a command that came as an array is within the parser's limits |
| Resp.InlineUnlimited | internal/protocol/resp.go:43-60 | an inline command is accepted with a key of any length |
| Aof.AppendOnlyFile.Append | internal/persistence/aof.go:66-93 | the file grows by the record, or by part or all of it when the write or the sync fails |
| Aof.LoggedIsRecorded | internal/server/aof.go:112-182 | whatever the server logs within the limits has the form its replay accepts |
| Aof.ReadsItsOwnLog | internal/server/aof.go:112-210 | a command within the parser's limits is logged within them, in the form the replay accepts |
| Aof.InlineKeyUnreadable | internal/protocol/resp.go:43-60 | an inline command beyond those limits is logged all the same, and the next replay fails at its record |
| Aof.TornLog | internal/persistence/aof.go:107-154 | for every log the replay accepts, replaying any byte prefix of it applies exactly the commands wholly in it, in order, with no error |
| Aof.AppendAtBoundary | internal/persistence/aof.go:50-62 | records appended at a record boundary are recovered too, up to a later cut |
| Aof.AppendAfterTear | internal/persistence/aof.go:50-62 | after a tear between two parts of a record, an append makes the next replay fail at the tear, and nothing after it is applied |
| Tears.EveryTear | internal/persistence/aof.go:66-93 | every cut within a record is a tear in its header or in one of its parts |
| Tears.TearCorrupts | internal/persistence/aof.go:50-62 | after a tear anywhere but in the bytes of a part, an append makes the next replay fail at the tear, and nothing written since is applied |
| Tears.TearSwallows | internal/persistence/aof.go:50-62 | after a tear in the bytes of a part the replay takes the missing ones from what follows: it stops without an error if that ends too soon, fails if no terminator lies where one is due, and otherwise goes on with a part nobody wrote |
| Tears.InventedCommand | internal/persistence/aof.go:50-62 | for every key of two bytes or more, a SET torn two bytes before the end of the key and followed by a FLUSHALL replays, without an error, as a SET nobody sent, and flushes nothing |
| Aof.CrashRecovery | internal/persistence/aof.go:131-154 | the torn log's replay builds a store that shadows the live store of the moment the surviving commands had been applied |
| History.DispatchedRun | internal/command/command.go:74-80 | a dispatched command is its plan's operations run in order on the store seen as one map |
| Servers.EstimatedGrowth | internal/server/aof.go:53-72 | the growth estimate, with the sizes it reads, deleting expired keys it looks at |
| Servers.MemoryLimitExceeded | internal/server/aof.go:45-51 | true exactly when the estimate is positive and would take the accounted memory past the limit |
| Servers.ReplayAOF | internal/persistence/aof.go:131-154 | dispatches exactly the commands the log's prefix grammar yields, stops with its verdict, a panic over a SET with fewer than two arguments included, and leaves the store the replay specification describes |
| Servers.Boot | internal/server/server.go:90-194 | starts if and only if the replay ends cleanly, with the replayed store, the file untouched, and a history that accounts for the store; a torn tail stays in the file |
| Servers.Server.DispatchMutating | internal/server/aof.go:32-43 | an error reply is not logged; any other is acknowledged only with its record in the file |
| Servers.Server.React | internal/server/aof.go:12-30 | panics, reads, refuses for memory, or runs and logs, with the store, file and reply each case leaves |
| Servers.Server.DispatchWithAOF | internal/server/aof.go:12-43 | keeps the invariant that the history leads to the store, that the logged commands account for the history, that the file is their encoding while no append has failed, and that the replay accepts all of it while every command was within the parser's limits; with no new record the view is unchanged |
| Servers.Server.ExpireCycle | internal/server/server.go:387-398 | an expiry cycle changes no view and logs nothing |
| Servers.ErrorMeansFailed | internal/server/aof.go:32-37 | the reply to a logged command is an error exactly when its operation failed |
| Servers.ReactedHistory | internal/server/aof.go:12-43 | log completeness: a command's part of the history is quiet unless a record of it was due, and the record is exactly what it adds to the file |
| Servers.QuietHistory | internal/server/aof.go:12-43 | acts that are not logged change no view from the last of them on |
| Servers.WholeLog | internal/persistence/aof.go:131-154 | a log of whole records is replayed whole, and normalising what was replayed gives the log back |
| Recovery.SurvivorsHadTheirMoment | internal/persistence/aof.go:131-154 | wherever the log is cut there was a moment of the run when exactly the surviving commands had been applied |
| Recovery.RestartShadows | internal/persistence/aof.go:131-154 | for a server in any state it can reach with no failed append and no command beyond the parser's limits, its log cut at any byte restarts into a store that shadows that moment's |
| Recovery.RestartExact | internal/server/server.go:140-160 | uncut and without skew, the restarted server shows what the running one showed, from the last replay instant on |
| MemoryLimit.GrowthBounded | internal/store/memory.go:43-67 | no operation adds more to the estimate than its key and the values it brings |
| MemoryLimit.EstimatedAsLogged | internal/server/aof.go:12-22 | a command's logged form is estimated as the command itself |
| MemoryLimit.MsetGrowth | internal/server/aof.go:66-70 | MSET adds its arguments and frees what each pair finds of its key, whatever keys come twice |
| MemoryLimit.EstimateSuffices | internal/server/aof.go:45-102 | for every logged command the estimate is at least the true growth if and only if MSET frees at least what was measured, each key just before its own pair, and SETNX finds a key measured as live still live, or frees at least what it brings |
| MemoryLimit.DifferentKeysEstimable | internal/server/aof.go:66-70 | an MSET that names no key twice always meets that condition |
| MemoryLimit.LimitHolds | internal/server/aof.go:14-22 | over any run of writes that meet that condition, reads and expiry the accounted memory stays at most the limit, or what it was at the start |
| MemoryLimit.RepeatedKeyUnderestimated | internal/server/aof.go:66-70 | a key named twice in one MSET makes the true growth exceed the estimate by what the key held beyond the first value |
| MemoryLimit.RepeatedKeyPassesLimit | internal/server/aof.go:45-70 | a store just at its limit takes an MSET of its key to nothing and then to twice its bytes, and ends above the limit |
| MemoryLimit.ExpiredSetNxPassesLimit | internal/server/aof.go:45-65 | a store just at its limit takes a SETNX of a key that expired after it was measured, to twice its bytes, and ends above the limit |
| ServerLimits.CommandKeepsLimit | internal/server/aof.go:12-30 | each command of the server, logged or not, refused or not, keeps the accounted memory within the limit and at or above the truth |
| Footprint.EstimateExact | internal/server/aof.go:53-102 | the estimate is, to the byte, what a SET changes after its key was measured, and what a SETNX, a push, an SADD or an HSET of one value adds on a missing key |
| ServerLimits.SetRefusedExactly | internal/server/aof.go:45-65 | a SET is refused if and only if there is a limit and the SET would raise the accounted memory and leave it above the limit |
| ServerLimits.NewRefusedExactly | internal/server/aof.go:45-102 | a SETNX, a push, an SADD or an HSET of one value on a missing key is refused if and only if there is a limit and the new key would not fit under it |
| ServerLimits.RefusalSaid | internal/server/aof.go:14-22 | a refused command replies the out-of-memory error, writes no record, adds no key and no byte |
| SnapshotCodec.I64Back | internal/persistence/snapshot.go:280-288 | every signed 64-bit integer survives its eight little-endian bytes |
| SnapshotCodec.RawsBack | internal/persistence/snapshot.go:90-203 | a written list of entries reads back exactly when every length is within the reader's limits, consuming just its bytes, and is refused otherwise |
| SnapshotFile.DeadlineBack | internal/persistence/snapshot.go:105-116 | a deadline survives the file if and only if there is none or its nanoseconds lie strictly between 0 and 2^63 |
| SnapshotFile.EntryBack | internal/persistence/snapshot.go:105-203 | whatever order its hash is written in, an entry comes back |
| SnapshotFile.WriteHash | internal/persistence/snapshot.go:124-136 | each field is written once with its value, in some order |
| SnapshotFile.EncodeEntry | internal/persistence/snapshot.go:105-143 | writes an entry of a known kind, and refuses any other |
| SnapshotFile.Encode | internal/persistence/snapshot.go:90-103 | writes the header, the count and every entry, or stops at an unknown kind |
| SnapshotFile.ReadBytes | internal/persistence/snapshot.go:267-278 | follows the field grammar with its limit |
| SnapshotFile.ReadByteList | internal/persistence/snapshot.go:217-234 | follows the list grammar with its limit |
| SnapshotFile.ReadHash | internal/persistence/snapshot.go:236-257 | follows the pair grammar, and a field that comes twice keeps its last value |
| SnapshotFile.DecodeEntry | internal/persistence/snapshot.go:172-203 | follows the entry grammar, stopping at the first fault |
| SnapshotFile.Decode | internal/persistence/snapshot.go:146-170 | follows the file grammar, stopping at the first fault |
| SnapshotFile.SnapshotBack | internal/persistence/snapshot.go:90-203 | reading what was written gives back every entry in order, whatever orders the hash loops picked, and consumes just those bytes, exactly within the limits |
| Formats.SnapshotLaidOut | internal/persistence/snapshot.go:90-143 | the bytes of a header and of an entry of each kind, spelt out |
| Formats.SignedAt | internal/persistence/snapshot.go:280-288 | a signed integer is eight bytes of its two's complement, the least significant first |
| Formats.MarksMean | internal/store/snapshot.go:107-124 | S, L, H and T stand for the four kinds of value, and no other mark for any |
| Formats.DeadlineAs | internal/persistence/snapshot.go:105-116 | no deadline is written as 0 and read back so, and a deadline as its nanoseconds since 1970 |
| Snapshots.Save | internal/persistence/snapshot.go:25-66 | the bytes are a snapshot of the store's view, which is all the store keeps |
| Snapshots.Load | internal/persistence/snapshot.go:69-87 | bytes that are no snapshot leave the store alone; otherwise it holds what the entries restore to, or those before the first refused one |
| Snapshots.SavedLoads | internal/persistence/snapshot.go:25-87 | a snapshot loads exactly when its store has no empty key and is within the reader's limits, and then gives back its view |
| Snapshots.FiledExactly | internal/persistence/snapshot.go:105-116 | the file keeps a whole store if and only if each deadline is none or in range |
| Snapshots.Reload | internal/persistence/snapshot.go:25-87 | a new store of any number of shards loads another's snapshot exactly when that has no empty key and is within the limits, and then holds its view at the load |
| Snapshots.ReloadedView | internal/persistence/snapshot.go:25-87 | with every deadline in range the two stores have one view at every time from the load on |
| ReplyCodec.Encode | internal/protocol/resp.go:100-141 | writes the encoding of a reply, nested arrays included |
| ReplyCodec.ReadReplyDepth | cmd/llavero-cli/main.go:230-288 | follows the client's reply grammar with its depth and size limits |
| ReplyCodec.ReadsProper | cmd/llavero-cli/main.go:230-288 | whatever bytes it is given, the client only returns one-line texts, bulks within its limit and nesting within its depth |
| ReplyCodec.ReplyReadsBack | cmd/llavero-cli/main.go:230-288 | a reply followed by anything reads back as itself, leaving just the rest, if and only if its texts are single lines, its bulks within the limit and its nesting within the depth |
| Formats.ReplyLaidOut | internal/protocol/resp.go:100-141 | the bytes of every kind of reply, spelt out |
| Formats.ArrayLaidOut | internal/protocol/resp.go:100-141 | an array is the number of its elements and then each in order |
| Formats.ClientNothing | cmd/llavero-cli/main.go:249-275 | the client takes any negative length, of a text or of an array, for nothing |
| Formats.ClientSkipsEnd | cmd/llavero-cli/main.go:257-267 | the client accepts a text whatever two bytes follow it |
| ReplyCodec.UnknownNameMisleads | internal/command/command.go:74-80 | the error for an unknown command reads back as sent if and only if the command's name has no line feed and does not end in a carriage return |
| Connections.Tracker.BeginClosing | internal/server/server.go:252-256 | closing is set for good and nothing else changes |
| Connections.Tracker.TrackConn | internal/server/server.go:258-269 | refuses after closing has begun; otherwise counts the connection, with a new channel for the first |
| Connections.Tracker.FinishConn | internal/server/server.go:271-279 | counts the connection out, and closes the channel exactly with the last one |
| Connections.Tracker.WhatToAwait | internal/server/server.go:281-288 | there is an open channel to wait on exactly when a connection is tracked |
| Connections.EveryReachableState | internal/server/server.go:252-368 | in every reachable state a channel exists exactly while a connection is tracked, each earlier one was closed exactly once, slots taken never exceed the maximum, and each slot is released exactly once, after a panic too |
| Connections.NoLostWakeup | internal/server/server.go:281-299 | a waiting closer can go on as soon as no connection is tracked, and a release never blocks |
| Connections.NoneAfterClosing | internal/server/server.go:258-269 | after closing has begun no connection becomes tracked |
| Connections.ShutdownDrains | internal/server/server.go:232-299 | once Close is past waiting without a timeout no connection is tracked, then or later, and no command is appended any more |
| Connections.MoreActiveThanSlots | internal/server/server.go:402-412 | with any number of slots any number of connections can be active, because a slot is released before its connection is counted out |
| Connections.ActiveWithinSlots | internal/server/server.go:402-412 | active connections never exceed the slots by more than those between release and count-out, and not at all when there are none of those |
| PubSub.Broker.Subscribe | internal/pubsub/broker.go:24-37 | the subscriber is in the channel's set, no other channel changes, and the answer says whether it is new |
| PubSub.Broker.Unsubscribe | internal/pubsub/broker.go:40-55 | the subscriber is out of the channel's set, and an emptied set is dropped |
| PubSub.Broker.Publish | internal/pubsub/broker.go:60-76 | every subscriber gets the message exactly once, and their number is the answer |
| PubSub.CmdSubscribe | internal/server/pubsub.go:60-75 | channels are taken in turn until the client has 1000, each confirmed with its count; those taken stay; the reply is an error exactly when no channel is named or one is not taken; broker and client agree |
| PubSub.TakesUpTo | internal/server/pubsub.go:60-75 | a channel is taken while the client holds fewer than 1000, and the first not taken finds it with at least 1000 |
| PubSub.Confirmed | internal/server/pubsub.go:50-57 | the confirmation of each channel has its kind, the channel, and the number the client then holds |
| PubSub.CmdUnsubscribe | internal/server/pubsub.go:79-104 | the named channels, or all in some order, are left and confirmed; broker and client agree |
| PubSub.UnsubscribeAll | internal/server/pubsub.go:116-120 | the client is in no set of the broker, and nobody else is moved |
| PubSub.CmdPublish | internal/server/pubsub.go:107-113 | the reply is the number of clients that hold the channel, and each has got the message |
| PubSub.Connected | internal/server/pubsub.go:23-25 | a new client without channels keeps the agreement |
| Locking.SnapshotIsACut | internal/store/snapshot.go:31-55 | under any interleaving a snapshot copies the store of one single moment of its own life, when only its last lock was missing, all shards together, filtered by its own clock reading |
| Locking.WorkShows | internal/store/admin.go:72-84 | as others can see it, a flush empties the whole store in one step, and any other working step changes one shard |
| Locking.LockingShowsNothing | internal/store/admin.go:72-84 | taking or freeing a lock shows nothing |
| Locking.SomeoneCanRun | internal/store/snapshot.go:31-55 | in every reachable state, if a thread is not done some thread can take a step |
| Locking.NoCycle | internal/store/snapshot.go:31-55 | no reachable state has a cycle of threads waiting for one another |

## Left out

- KEYS, SAVE and their pattern and file handling; in the model those two names are unknown commands. AUTH, HELLO, QUIT, CLIENT, COMMAND, ECHO, HEALTH, INFO, SELECT, STATS and SLOWLOG are answered before the dispatcher and are constant replies or bookkeeping.
- Files: the log and the snapshot are byte sequences. Temporary files, renames, permissions and fsync policies are not modelled; a failed append leaves part or all of its record, at will.
- Sockets, TLS, deadlines on connections, logging, metrics, configuration and the client's dialling and printing.
- MiniRESP, which has RESP2's shape and which the server does not use.
- Unicode: upper-casing and inline-command splitting are ASCII; for other bytes the standard library may differ.
- The FNV-1a hash is any deterministic 32-bit function.
- Sharding.NextPow2: a request above 2^62 is outside it and the store's constructor; the doubling would overflow and not end (Sharding.NoLargerPow2).
- Dispatcher.Dispatch: KEYS and SAVE are unknown commands in it.
- Servers.Server.DispatchWithAOF: runs one command at a time; in the program commands that are not logged run outside the mutex, and Replay covers their interleaving operation by operation.
- One clock serves for Go's wall and monotonic readings, and adding a duration to an instant never overflows an instant.
- Locks in the classes: a method of Shard, Store, Broker or Tracker is what runs under the lock, and Server runs one command at a time. Interleaving is modelled where it matters: in Runs and Replay operation by operation, in Locking and Connections step by step. Read locks are exclusive in Locking, which allows fewer interleavings of readers.
- The two counters of a shard are unbounded integers; in the program they are 64 bits wide.
- Sharing of backing arrays between slices: lists are values.
- Memory exhaustion: the client allocates an array for whatever count a reply announces.
- Delivery of messages: Deliver appends to a list of sent replies; a send that fails is ignored by the program too.
- LogNormal.LoggedPlanNear: assumes clock readings between 1970 and 2262 and an EXAT argument whose milliseconds fit in 64 bits, the guard of LogNormal.ExatExact.
- Deadlines.ExpireReplies: takes the clock to read 1970 or later, and so do SetExReplies, SetPxReplies and TtlAfterExpire; a clock centuries earlier could reach the instant that stands for no deadline.
- MemoryLimit.LimitHolds: takes the check and the write as one step, and each write is to meet the exact condition of MemoryLimit.EstimateSuffices, since the limit can be passed otherwise.
- Servers.Boot: covers a start from the log; the server refuses a snapshot and a log together, and a start from a snapshot is Snapshots.Load.
- Connections.EveryReachableState: does not bound activeConns by the number of slots, because that is false.
- Replay.ReplaySimulation: a replay that has fallen out of step may meet the run again, at a later SET or DEL of the key or a FLUSHALL; the exact condition is for staying in step.
