# A verified model of the hard parts of GNU uCommon

This project states in Dafny what the trickiest parts of uCommon and its Common C++ layer promise, and proves it for
every input, every run or every reachable state. `dafny verify dfyconfig.toml` checks all of it.

* **Object archives** (`Persist.dfy`). The engine writes an object graph as tokens: an object's number, its class, its
  body between markers; an object met again is only its number. The reader rebuilds both number tables as it goes. The
  central theorem: any number of pointers into any graph, shared or cyclic, read back as an isomorphic graph, with the
  whole archive consumed and objects numbered in depth-first visit order, if and only if fewer than 2^32 objects can
  be reached. The same holds over objects the caller already has: what stands for an object of the graph is filled in
  where it is. An archive cut short is always refused. The two engines are classes that update their tables and stream
  through recursive calls; each method is proved to do what the functional writer and reader do.
* **Lock protocols** (`ConditionalAccess.dfy`, `RWLock.dfy`, `ConditionalLock.dfy`, `MutexTable.dfy`, with
  `Waiting.dfy`, `Slots.dfy` and `AddressHash.dfy`). Each is a step system over any number of threads; a step is one
  critical section of the internal mutex. A waiting thread is blocked until a signal, a broadcast or a spurious wakeup
  makes it awake, and an awake thread has still to retake the mutex. `signal` wakes one thread waiting on `cond`,
  `broadcast` all those waiting on `bcast`. For each it is proved what every run keeps, that no wakeup is lost,
  exactly when each call waits, in terms of what the threads hold and wait for, that waiting writers are not overtaken
  by readers, and that nothing but what is stated holds a thread up.
* **The blocking ring** (`ArrayRing.dfy`): the ring of counted references as a class over its slot array, and the
  waiting protocol of its pushers and pullers.
* **Calendar dates** (`Calendar.dfy`, `Numbers.dfy`, `Dates.dfy`): Julian day numbers both ways, the walk through the
  4/100/400 calendar, the digit fields in a text buffer and the text of a date.
* **Codecs and checksums** (`Base64.dfy`, `HexFormat.dfy`, `Crc.dfy`, over `Bytes.dfy` and `BitStrings.dfy`): Base64
  against section 4 of RFC 4648, CRC-24 of section 6.1 of RFC 4880 and a CRC-16 as one shift register and as
  remainders of polynomial division, and hex text laid out by a format.
* **Indexes and allocators** (`MapTable.dfy`, `Cidr.dfy`, `MemAlloc.dfy`): the chained hash table on the heap against
  a plain list, the innermost and outermost address block of section 3.1 of RFC 4632, and the paged allocator.

Machine words are written out: object and class numbers and table counts wrap at 2^32, the hash key and the CRC
registers are strings of 32 or 16 bits, the length of a hex field is doubled in 32 bits. What the system allocator
answers, today's year, and which thread moves next are parameters.

`Options.dfy` and `Sequences.dfy` hold what several modules share.

Seven promises turned out to have a limit; each is stated with its exact condition.

* Archives: object numbers are 32-bit and the last of them marks a null pointer, so the round trip holds if and only
  if at most 2^32 - 1 objects can be reached from the roots (`Persist.RoundTrip`); `Persist.CrowdLost` is a family of
  graphs beyond.
* `ConditionalAccess`: when no new calls arrive, everybody is served if and only if no writer was waiting or no thread
  waited while it held a share itself (`ConditionalAccess.EveryoneServed`); a thread that calls `access` and then
  `modify` waits for itself (`ConditionalAccess.WaitsForItself`).
* `RWLock`: no run loses a wakeup if and only if writers never wait with a finite timeout (`RWLock.NeverLostExactly`);
  `RWLock.FiniteWritersLose` is a run that does.
* `memalloc`: whether a page has room is asked before the request is rounded and is not asked again of a new page, and
  the room left is an unsigned difference. The blocks stay in order if and only if the page picked had room for the
  rounded request (`MemAlloc.Allocator.Alloc`). On pages that begin at a word this is always so if and only if the
  page size is a multiple of the word, holds the header and is below 2^32 (`MemAlloc.SafeSizes`,
  `MemAlloc.SafeAlways`); `memalloc(100)` asked for 84 bytes is a case beyond (`MemAlloc.OddPage`).
* The text of a valid date is read back as that date if and only if its year has four digits, or its day number is the
  one that marks an invalid date (`Dates.TextRoundTrip`).
* `hexsize`, `hexdump` and `hexpack` return the length of the text exactly when every field is shorter than 2^31 bytes
  (`HexFormat.CountedExactly`); "2147483648" is a format beyond (`HexFormat.CountWraps`).
* `String::b64` allots a buffer that the encoding fits if and only if the size is a multiple of three
  (`Base64.StringRoom`).

## Model

| member | source | states |
|---|---|---|
| Persist.RoundTrip | commoncpp/persist.cpp:143-270 | For every graph and any list of root pointers: reading what was written into a fresh engine succeeds, uses up all tokens and gives a heap isomorphic to what the roots reach, with classes, data, sharing, cycles and nulls preserved, if and only if at most 2^32 - 1 objects can be reached; the numbering is then the depth-first one. |
| Persist.ReachedIsArchived | commoncpp/persist.cpp:143-182 | For a graph of any size, the objects archived are exactly those that can be reached from the roots. |
| Persist.AllTexts | commoncpp/persist.cpp:154-177 | Over a whole session each class name occurs in the stream once and each object's start and end marker once per object met, for every string that could be mistaken for them. |
| Persist.AllNumbers | commoncpp/persist.cpp:155-160 | The object numbers are 0, 1, 2, ... in the order of a depth-first visit defined without the archive. |
| Persist.AllStayIn | commoncpp/persist.cpp:143-182 | Only objects reachable from the roots are archived: the archived set stays inside every closed set that holds them. |
| Persist.PtrInStep | commoncpp/persist.cpp:205-238 | Reading back one written pointer, with any tokens after it, through a pointer that is null or holds the object that stands for what was written, keeps the reader's tables in step with the writer's and copies exactly the objects the writer added; objects met before, and existing ones not met, are left alone. |
| Persist.NewInStep | commoncpp/persist.cpp:222-238 | The same for an object met for the first time: it goes into the object held, or into a new one, under the reader's next number. |
| Persist.InPlace | commoncpp/persist.cpp:205-238 | The first time an object comes, a pointer that holds an object of its class keeps it: it is filled in, none is made beside it, and no other object changes but those that stand for what is met on the way. |
| Persist.ReadsKnown | commoncpp/persist.cpp:205-219 | A null or known number only sets the pointer: no object is changed, whatever the pointer held. |
| Persist.RoundTripOver | commoncpp/persist.cpp:143-270 | The round trip over existing objects, whose own pointers may hold others: the graph is restored, each object in the existing one that stands for it or in a new one; all other existing objects are as they were; a pointer that is the first to lead to its object keeps what it held; over a whole structure nothing is made. |
| Persist.CutShort | commoncpp/persist.cpp:205-270 | A written archive cut off after any number of tokens is refused. |
| Persist.MarkersNeeded | commoncpp/persist.cpp:240-252 | What is accepted as a new object's body stands between a start and an end marker. |
| Persist.Refused | commoncpp/persist.cpp:221-252 | A new object of an unregistered class is refused when it has no place of its own, and any whose start marker is something else. |
| Persist.FieldsInStep | commoncpp/persist.cpp:240-252 | The same for a body, field by field, through objects that are still being filled. |
| Persist.ClassInStep | commoncpp/persist.cpp:254-270 | A class number is one the reader knows or exactly the next, in which case the name follows. |
| Persist.PtrNumbers | commoncpp/persist.cpp:155-159 | One `write` extends the numbering by the objects its visit meets for the first time. |
| Persist.PtrStaysIn | commoncpp/persist.cpp:143-182 | One `write` archives nothing outside a closed set that holds its object. |
| Persist.PtrTexts | commoncpp/persist.cpp:154-181 | One `write` emits each new class name once and each new body once, and nothing of the kind for a known object. |
| Persist.NumberClash | commoncpp/persist.cpp:148-238 | From the 2^32nd object on, a new object is written under a number that the reader takes for a null pointer or for an object it has: the body stays in the stream and the wrong pointer is returned. |
| Persist.CrowdLost | commoncpp/persist.cpp:143-270 | For every n above 2^32 - 1, the graph of n objects without fields, each a root, is not restored. |
| Persist.UnseenShrinks | commoncpp/persist.cpp:155-159 | Registering an object leaves fewer objects unseen, the measure by which `write` terminates on cyclic graphs. |
| Persist.WriteEngine.Write | commoncpp/persist.cpp:143-182 | The engine's tables and stream after `write` are those of the functional writer. |
| Persist.WriteEngine.WriteNew | commoncpp/persist.cpp:156-177 | An object not yet archived: number, class, markers and body in order, registered before its body. |
| Persist.WriteEngine.WriteClassOf | commoncpp/persist.cpp:161-170 | A class met before is its number, a new one its number and name. |
| Persist.WriteEngine.WriteBody | commoncpp/persist.cpp:174-174 | The object's own `write`: the fields in order, pointers through the engine. |
| Persist.ReadEngine.Read | commoncpp/persist.cpp:205-238 | `read` through a pointer, null or not: the reader's outcome, tables, heap and rest of the stream, and every failure. |
| Persist.ReadEngine.ReadInto | commoncpp/persist.cpp:240-252 | The object is known before its body is read; both markers are checked. |
| Persist.ReadEngine.ReadClassName | commoncpp/persist.cpp:254-270 | A known class number gives its name, any other takes the name from the stream. |
| Persist.ReadEngine.ReadBody | commoncpp/persist.cpp:248-248 | The object's own `read`: the fields in order. |
| ConditionalAccess.RunKeeps | corelib/condition.cpp:345-388 | In every run `pending`, `waiting` and `sharing` are the numbers of waiting writers, waiting readers and shares, no thread waits twice, a writer excludes readers, and blocked threads are covered by a wakeup. |
| ConditionalAccess.WriterAlone | corelib/condition.cpp:345-353 | While a thread is between `modify` and `commit` nobody holds a share. |
| ConditionalAccess.NoLostWakeup | corelib/condition.cpp:355-388 | If nobody holds the lock and a thread is blocked, an awakened writer exists and its next step enters. |
| ConditionalAccess.ModifyWaitsExactly | corelib/condition.cpp:345-353 | A call of `modify` waits if and only if some thread holds a share. |
| ConditionalAccess.AccessWaitsExactly | corelib/condition.cpp:364-375 | A call of `access` waits if and only if a writer waits, shares or no shares. |
| ConditionalAccess.RetryExactly | corelib/condition.cpp:345-375 | Awake threads that try again enter or wait by the same rules. |
| ConditionalAccess.NoOvertaking | corelib/condition.cpp:364-388 | From any state on, as long as a writer waits and whatever is called, no share is taken: those then held are given up one by one and are all there is before a writer. |
| ConditionalAccess.WakesFew | corelib/condition.cpp:355-388 | A commit or release wakes at most one writer, and only on a lock nobody holds, and readers only when no writer waits. |
| ConditionalAccess.CallsPossible | corelib/condition.cpp:345-388 | With the mutex free, a thread outside can always call, a share holder release, an awake thread try again; the owner can commit. |
| ConditionalAccess.NoDeadlock | corelib/condition.cpp:345-388 | No run has all waiting threads blocked with nobody holding the lock. |
| ConditionalAccess.DrainBound | corelib/condition.cpp:345-388 | When no new calls arrive, the work in progress ends within a bound computed from the waiters and holders, whatever the schedule. |
| ConditionalAccess.DrainContinues | corelib/condition.cpp:345-388 | A waiting or finishing step can be taken whenever a thread holds the lock to modify, a waiter is awake, or not all share holders wait themselves. |
| ConditionalAccess.StuckExactly | corelib/condition.cpp:345-388 | No such step can be taken if and only if nobody modifies, nobody is awake and every share holder waits itself; threads then wait if and only if there are shares. |
| ConditionalAccess.EveryoneServed | corelib/condition.cpp:345-388 | A run that goes on without new calls until it can do no more has served every waiter if and only if, when the calls stopped, no writer was waiting or no thread was waiting while it held a share. |
| ConditionalAccess.WaitsForItself | corelib/condition.cpp:345-388 | One thread, `access` and then `modify`: the run is stuck with that thread waiting. |
| RWLock.RunSafe | corelib/thread.cpp:341-422 | In every run, finite timeouts included, the counters are what threads hold and wait for, writes belong to one thread, and reads and writes exclude each other. |
| RWLock.Exclusion | corelib/thread.cpp:341-396 | While a thread holds a write: no reads, `writeid` is that thread, `writers` its recursion depth, and no other thread holds a write. |
| RWLock.ReleaseMatches | corelib/thread.cpp:398-422 | A release by a holder undoes that holder's own kind of acquisition and leaves the other kind alone. |
| RWLock.ModifyWaitsExactly | corelib/thread.cpp:341-370 | A call of `modify` waits, or with a zero timeout is refused, if and only if another thread holds a write or some thread holds a read; otherwise it enters. |
| RWLock.OwnerReenters | corelib/thread.cpp:350-352 | A thread that holds the write lock enters again at once, one level deeper, and nobody else is affected. |
| RWLock.RetryModifyExactly | corelib/thread.cpp:350-369 | An awake writer that tries again enters or waits by the same rule. |
| RWLock.AccessWaitsExactly | corelib/thread.cpp:372-396 | A call of `access` waits, or with a zero timeout is refused, if and only if some thread holds a write or a writer waits. |
| RWLock.RetryAccessExactly | corelib/thread.cpp:381-395 | An awake reader that tries again enters or waits by the same rule. |
| RWLock.QuitExactly | corelib/thread.cpp:341-396 | A thread whose wait has expired leaves without the lock and without a trace. |
| RWLock.NoOvertaking | corelib/thread.cpp:372-396 | From any state on, as long as a writer waits and whatever is called, no read is taken. |
| RWLock.StepsExactly | corelib/thread.cpp:341-422 | In every run each step, call, retry, expiry or release, is possible if and only if it is due. |
| RWLock.WakesFew | corelib/thread.cpp:398-422 | A release wakes at most one writer, and only on a lock nobody holds, and readers only when no writer waits. |
| RWLock.NoLostWakeup | corelib/thread.cpp:341-422 | With infinite or zero writer timeouts: if nobody holds the lock and a thread is blocked, an awakened writer exists and its next step enters. |
| RWLock.FiniteWritersLose | corelib/thread.cpp:350-362 | A run in which a writer times out and leaves a reader blocked on a free lock, with nobody awake on the way to it: only a later call can wake it. |
| RWLock.NeverLostExactly | corelib/thread.cpp:341-422 | No run loses a wakeup if and only if writers never wait with a finite timeout. |
| Slots.FindSlot | corelib/condition.cpp:406-425 | One pass over the list finds the slot in use for the key, else a free one, else adds one. |
| Slots.SlotFor | corelib/condition.cpp:406-425 | Only the slot returned can change; a slot is reused only when its count is zero, and the list grows only when all slots are in use. |
| Slots.BumpOneSlot | corelib/condition.cpp:406-425 | Counting up the slot found keeps at most one slot in use for each key. |
| ConditionalLock.RunKeeps | corelib/condition.cpp:468-526 | Every run keeps one slot per thread, `sharing` balanced with the counts, the waiting counters and the coverage of blocked threads. |
| ConditionalLock.AssertionsHold | corelib/condition.cpp:468-526 | Clients that follow the guard objects' protocol never meet a failing assertion of the lock. |
| ConditionalLock.SlotsAndSharing | corelib/condition.cpp:406-425 | Each thread has at most one slot in use, every thread waiting or exclusive has one, and `sharing` is the sum of the counts of the threads really in shared mode. |
| ConditionalLock.ExclusiveAlone | corelib/condition.cpp:505-518 | When `exclusive` has returned, every other thread with a count is itself waiting to upgrade, or to enter for the first time. |
| ConditionalLock.AccessExactly | corelib/condition.cpp:484-503 | A call of `access` waits if and only if the thread has no share and some thread waits to upgrade; its count grows by one, and no other thread's count or mode changes. |
| ConditionalLock.RetryAccessExactly | corelib/condition.cpp:496-502 | A thread that tries again enters if and only if none waits to upgrade. |
| ConditionalLock.ExclusiveExactly | corelib/condition.cpp:505-518 | `exclusive`, called or tried again, returns if and only if no other thread is in shared mode. |
| ConditionalLock.NoOvertaking | corelib/condition.cpp:484-503 | As long as a thread waits to upgrade, and whatever is called, no thread gets its first share. |
| ConditionalLock.WakesFew | corelib/condition.cpp:468-482 | A release wakes at most one upgrading thread, and only when nobody is in shared mode, and entering threads only when none waits to upgrade. |
| ConditionalLock.LegalPossible | corelib/condition.cpp:468-526 | In every run all that the client protocol allows can be done. |
| ConditionalLock.NoDeadlock | corelib/condition.cpp:468-526 | While any thread is inside an operation, some thread can go on: awake, exclusive or in shared mode. |
| ConditionalLock.LegalAsserted | corelib/access.cpp:41-133 | What the guards allow, an upgrade or a release only by a holder, implies what the lock asserts. |
| AddressHash.ComputeKey | corelib/thread.cpp:104-122 | The shift-and-xor loops give, in 32 bits, the sum of the address's first run of bytes that are not zero, each shifted by its distance from the last of the run. |
| AddressHash.LastByte | corelib/thread.cpp:113-119 | Each further byte moves the sum up by one place and is added. |
| AddressHash.SwapShows | corelib/thread.cpp:113-119 | Two different bytes give another key when swapped. |
| AddressHash.HashAddress | corelib/thread.cpp:104-125 | A bucket within the table, and the same bucket for every address whose first run of bytes that are not zero is the same. |
| MutexTable.RunKeeps | corelib/thread.cpp:648-735 | In every run counts are owners plus waiters, active entries of a bucket have distinct addresses and are in the address's bucket, and every owner holds its entry's mutex. |
| MutexTable.MutualExclusion | corelib/thread.cpp:648-682 | At most one thread holds `protect(p)` for each p. |
| MutexTable.Refines | corelib/thread.cpp:648-735 | Every step of the table is a step of independent mutexes, one for each address, or invisible to them, and `release` always finds its entry. |
| MutexTable.WaitsOnlyForOwner | corelib/thread.cpp:655-681 | A waiter's entry is its address's one live entry and is locked exactly when a thread owns that address. |
| MutexTable.AcquireExactly | corelib/thread.cpp:648-682 | A waiter can take its address if and only if no thread owns it. |
| MutexTable.CallsExactly | corelib/thread.cpp:648-735 | `protect` makes the caller wait for its own address and changes no ownership; after `release` nobody owns the address. |
| MutexTable.ReleasePossible | corelib/thread.cpp:710-735 | An owner that does not wait can always release. |
| MutexTable.RecycledWhenIdle | corelib/thread.cpp:659-673 | An entry changes its address only when its mutex is free and nobody waits on it. |
| MutexTable.BucketPeak | corelib/thread.cpp:663-672 | A bucket's entries are no more than the addresses it had in use at one time: some earlier state had exactly as many. |
| ArrayRing.Ring.Count | corelib/arrayref.cpp:69-75 | The number of live slots, always below the size. |
| ArrayRing.Ring.Assign | corelib/arrayref.cpp:96-109 | The new object is retained, the replaced one released. |
| ArrayRing.Ring.Remove | corelib/arrayref.cpp:85-94 | The reference goes to the caller and the slot becomes empty. |
| ArrayRing.Ring.Push | corelib/arrayref.cpp:228-247 | The contents gain the item at the new end; slots outside the live range stay empty and the references held are those of the contents. |
| ArrayRing.Ring.Pull | corelib/arrayref.cpp:278-366 | A queue gives out its oldest item, a stack its newest, and the rest stays in order. |
| ArrayRing.Ring.Pop | corelib/arrayref.cpp:170-206 | Drops what `pull` would have given out, or does nothing when empty. |
| ArrayRing.RunKeeps | corelib/arrayref.cpp:170-366 | Every step of every run, with or without timeouts, conserves references and keeps waiting threads covered. |
| ArrayRing.NothingLostOrDoubled | corelib/arrayref.cpp:170-366 | In every run each reference `push` was called with has entered, is held by its pusher, who waits, or was given back to one that timed out; each one entered is in the ring, was handed to one puller or was dropped by `pop`; a queue gives them out in the order they came; the ring holds at most size - 1. |
| ArrayRing.PushExactly | corelib/arrayref.cpp:228-247 | A pusher, calling or trying again, stores the object its own call brought, as the newest, and wakes all pullers, or waits, if and only if the ring holds size - 1; one that gives up gets that object back. |
| ArrayRing.PullExactly | corelib/arrayref.cpp:170-366 | A puller waits if and only if the ring is empty; otherwise it gets what its kind of ring gives first, `pop` drops just that, one pusher at most is woken, and nothing else leaves or enters. |
| ArrayRing.TakenExactly | corelib/arrayref.cpp:278-366 | A stack gives back what was put in last, a queue what was put in first. |
| ArrayRing.StepsExactly | corelib/arrayref.cpp:170-366 | In every run each step, call, retry or expiry, is possible if and only if it is due. |
| ArrayRing.NoLostWakeup | corelib/arrayref.cpp:228-366 | A blocked puller implies an empty ring; if a pusher is blocked the free slots do not exceed the awakened pushers. |
| Calendar.RoundTrip | corelib/datetime.cpp:386-437 | For every valid Gregorian date from year 1 on, `put` turns the day number `set` computes back into the same year, month and day. |
| Calendar.NextDayNumber | corelib/datetime.cpp:386-400 | The next day under the 4/100/400 rule has the next day number. |
| Calendar.AddWalks | corelib/datetime.cpp:314-348 | After adding n the date shown is n calendar days later. |
| Calendar.SubtractWalks | corelib/datetime.cpp:321-354 | After subtracting n, walking n days forward gives the date back. |
| Calendar.EveryNumber | corelib/datetime.cpp:386-437 | Every day number from 1 January of year 1 on belongs to a valid date, the one `put` shows. |
| Calendar.OrderAgrees | corelib/datetime.cpp:356-384 | Day numbers compare as years, months and days do, and are equal only for equal dates. |
| Calendar.InvalidExactly | corelib/datetime.cpp:386-400 | For any year, month and day, the invalid mark is stored if and only if month or day is out of range, the year is 0, or the date is 3 June 5874898, whose number is the mark. |
| Calendar.OverflowDay | corelib/datetime.cpp:386-400 | A day up to 31 beyond the end of its month is that many days into the next one. |
| Calendar.Epoch | corelib/datetime.cpp:396-399 | 1 January 2000 has the Julian day number 2451545. |
| Calendar.YearsSkipped | corelib/datetime.cpp:393-399 | The last day of year -1 has a number 732 below that of the first day of year 1, not 1. |
| Numbers.Number.Get | corelib/numbers.cpp:41-66 | The value of the digits a field begins with, after an optional sign. |
| Numbers.ValueExactly | corelib/numbers.cpp:41-66 | A plus sign and what follows the digits do not matter, a minus sign negates, and a field with no digits in front is worth 0. |
| Numbers.Number.SetZeroed | corelib/numbers.cpp:145-168 | The whole field holds the value with leading zeros, nothing else in the buffer changes. |
| Numbers.Number.constructor | corelib/numbers.cpp:30-39 | The width is clamped to 1 to 10. |
| Numbers.ReadsBack | corelib/numbers.cpp:41-168 | What was written into a field is read back exactly when the value has room in it, sign included. |
| Dates.Date.Set | corelib/datetime.cpp:386-400 | The stored day number; for a valid date, `put` will show that date. |
| Dates.Date.SetText | corelib/datetime.cpp:176-235 | The day number of a text in each of the six layouts, and the invalid day for any other length. |
| Dates.Date.Convert | corelib/datetime.cpp:419-434 | The steps of the conversion compute the calendar date of the day number. |
| Dates.Date.Put | corelib/datetime.cpp:408-437 | Ten characters, year, month and day in their columns, then the terminator; nothing beyond changes. |
| Dates.Date.Add | corelib/datetime.cpp:314-348 | `++` and `+=` walk the calendar forward. |
| Dates.Date.Subtract | corelib/datetime.cpp:321-354 | `--` and `-=` walk it backward. |
| Dates.Date.IsBefore | corelib/datetime.cpp:366-369 | `<` is the order of year, month and day. |
| Dates.TextRoundTrip | corelib/datetime.cpp:176-437 | For every valid date, the text `put` writes is read by `set(str, 10)` as the same day if and only if the year is at most 9999 or the date is the one whose number is the invalid mark. |
| Dates.TextRefused | corelib/datetime.cpp:176-235 | Texts of no layout's length are refused; others if and only if what stands in the layout's columns is out of range, or names the date whose number is the invalid mark. |
| Dates.CompactRead | corelib/datetime.cpp:204-210 | Eight digits of year, month and day read as that day. |
| Dates.MonthDayRead | corelib/datetime.cpp:186-196 | Month and day, with or without a separator, read as that day of the current year. |
| Dates.TwoDigitYearRead | corelib/datetime.cpp:197-217 | A two-digit year with month and day, run together or separated, reads as that day of the current century. |
| Base64.EncodeIsStandard | corelib/string.cpp:2126-2173 | The encoding by groups is the one of section 4 of RFC 4648: the bit string in sixes, then padding. |
| Base64.Base64Encode | corelib/string.cpp:2126-2173 | The buffer holds the encoding of the bytes counted and a terminator, within the room given; fewer than all bytes only when no further group fits; with the default size all of them. |
| Base64.SizeSuffices | corelib/string.cpp:2175-2178 | `b64size` has room for the whole encoding and its terminator. |
| Base64.StringRoom | corelib/string.cpp:2117-2124 | The buffer `String::b64` makes holds the encoding and its terminator if and only if the size is a multiple of three. |
| Base64.Base64Decode | corelib/string.cpp:2226-2286 | For every text and every room: the bytes written are those the text stands for, or the whole triples of them that fit, and the count is the characters used up. |
| Base64.Base64Count | corelib/string.cpp:2180-2224 | For every text, the number of bytes `b64decode` writes when it has that much room. |
| Base64.ReadExactly | corelib/string.cpp:2199-2211 | For every text, exactly the letters before the first character that is neither a letter nor, in white-space mode, white space are read, in order. |
| Base64.UsedExactly | corelib/string.cpp:2240-2275 | For every text and number of letters wanted, the characters used up go to that letter or, when there are fewer, to the character that ends reading, and over one or two pads there. |
| Base64.EndIgnored | corelib/string.cpp:2242-2261 | What follows a character that ends reading changes neither the bytes nor, unless it is a pad, the count. |
| Base64.FittingLongest | corelib/string.cpp:2264-2284 | What is written is the longest beginning of the bytes that fits and is all of them or whole triples. |
| Base64.AlphabetIsTable | corelib/string.cpp:2114-2115 | The alphabet is table 1 of RFC 4648. |
| Base64.SpaceExactly | corelib/string.cpp:2242-2242 | White space is blank, tab, line feed, vertical tab, form feed and return. |
| Base64.Load | corelib/typeref.cpp:457-468 | The room `b64count` asks for is filled exactly with the bytes the text stands for. |
| Base64.OctetsBits | corelib/string.cpp:2261-2284 | Whatever was read, the bytes are the whole octets of its bits, with fewer than eight bits dropped. |
| Base64.RoundTrip | corelib/string.cpp:2126-2286 | Decoding an encoded text into room for the original gives the original and uses up the whole text. |
| Base64.SpacesIgnored | corelib/string.cpp:2242-2250 | In white-space mode the sextets depend only on the other characters. |
| Base64.BuildDecoder | corelib/string.cpp:2228-2238 | The table gives each character's place in the alphabet, 64 for all others. |
| Crc.ComputeCrc24 | corelib/string.cpp:2291-2305 | The 32-bit loop keeps its upper eight bits clear and computes the 24-bit shift register's checksum. |
| Crc.ComputeCrc16 | corelib/string.cpp:2307-2322 | The 16-bit loop computes the checksum of the register read from its lowest bit. |
| Crc.Generators | corelib/string.cpp:2288-2313 | CRC-24 has the generator and initial value of section 6.1 of RFC 4880, CRC-16 has x^16 + x^15 + x^2 + 1 and all ones. |
| Crc.IsRemainder | corelib/string.cpp:2291-2322 | The checksum is the remainder of the polynomial division by the generator of the message, the initial value added to its first bits, followed by zeros. |
| Crc.SameExactly | corelib/string.cpp:2291-2322 | Two messages of one length have the same checksum if and only if their difference, followed by zeros, is a multiple of the generator. |
| Crc.SelfCheck | corelib/string.cpp:2291-2322 | For every message, the message followed by the bytes of its own checksum has checksum 0. |
| Crc.Adds | corelib/string.cpp:2291-2322 | For three messages of equal length the checksum of their sum is the sum of their checksums. |
| Crc.Detects | corelib/string.cpp:2291-2322 | Two messages that differ within as many consecutive bytes as the checksum has, and are otherwise alike, have equal checksums only if they are equal. |
| Crc.BigEndian24 | corelib/string.cpp:2304-2304 | The bytes meant for `crc24` are most significant first. |
| Crc.LittleEndian16 | corelib/string.cpp:2321-2321 | The bytes meant for `crc16` are least significant first. |
| HexFormat.RoundTrip | corelib/string.cpp:1924-1996 | For every format and data of its size, packing the dump under the same format gives back the data and the count of `hexsize`. |
| HexFormat.PackStops | corelib/string.cpp:1973-1996 | Packing a text that differs from the dump in a character of the format gives the data and the count up to there. |
| HexFormat.PackIgnoresCase | corelib/string.cpp:1865-1873 | Two texts that differ only in the case of letters in the fields are packed alike. |
| HexFormat.DigitsExactly | corelib/string.cpp:1865-1873 | Digits are written in lower case and read in both. |
| HexFormat.OnlyDigits | corelib/string.cpp:1865-1873 | Nothing else is read as a digit. |
| HexFormat.ItemsBack | corelib/string.cpp:1897-1909 | A format that describes items, no field right after another, is read as these items. |
| HexFormat.NumberRead | corelib/string.cpp:1905-1906 | A number beyond a `long` counts as the largest `long`, and of every number only the lower 32 bits are kept. |
| HexFormat.CountedExactly | corelib/string.cpp:1893-1911 | The count is the length of the text if and only if every field is shorter than 2^31 bytes. |
| HexFormat.CountWraps | corelib/string.cpp:1900-1908 | The format "2147483648" describes a text of 2^32 digits and counts 0. |
| HexFormat.HexSize | corelib/string.cpp:1893-1911 | The count of a format. |
| HexFormat.HexDump | corelib/string.cpp:1924-1947 | The text of the format and the data, the terminator right after it, nothing beyond, and the count. |
| HexFormat.HexPack | corelib/string.cpp:1973-1996 | The data read up to the first character that is not the format's, nothing else in the buffer changed, and the count so far. |
| HexFormat.PairBack | corelib/string.cpp:1865-1873 | The two digits of a byte are read as that byte. |
| MapTables.GetIndex | commoncpp/map.cpp:101-109 | The 32-bit shift-and-add key of a name, modulo the range. |
| MapTables.IndexIsSum | commoncpp/map.cpp:101-109 | The bucket of a name is the sum, bit by bit, of its characters' low five bits, each shifted by its distance from the last, modulo the range. |
| MapTables.SameIdExactly | commoncpp/map.cpp:118-120 | Two names are the same if and only if they differ in nothing but the case of ASCII letters. |
| MapTables.FoundAlike | commoncpp/map.cpp:111-126 | A name finds what any spelling of it in other cases finds. |
| MapTables.SameBucket | commoncpp/map.cpp:101-109 | Names equal but for ASCII case have the same bucket. |
| MapTables.MapTable.GetObject | commoncpp/map.cpp:111-126 | Finds what searching the plain list of stored objects, newest first and ignoring case, finds. |
| MapTables.MapTable.AddObject | commoncpp/map.cpp:180-194 | An object of this table stays; any other leaves its own table, whose list loses just it, and becomes the newest here; `count` is the number stored. |
| MapTables.MapObject.Detach | commoncpp/map.cpp:215-241 | The list of the object's table loses just this object, while chains, `count` and the free list stay right; an object in no table is left as it is. |
| MapTables.MapTable.AddFree | commoncpp/map.cpp:171-178 | The object leaves its table and becomes the first of the free list. |
| MapTables.MapTable.GetFree | commoncpp/map.cpp:161-169 | The object freed last, off the list, or null; stored objects stay. |
| MapTables.MapTable.GetFirst | commoncpp/map.cpp:128-141 | The first object in the order of buckets. |
| MapTables.MapIndex.Advance | commoncpp/map.cpp:54-76 | From an object of a table to the next in the order of buckets, or to null after the last; null stays null, and an object in no table is left by its old link if it has one. |
| MapTables.MapTable.Walk | commoncpp/map.cpp:54-141 | From `getFirst` with `++` every stored object is met exactly once, and the walk stops. |
| MapTables.SearchBucket | commoncpp/map.cpp:111-126 | Searching one bucket is searching the whole list. |
| Cidr.BitMask | corelib/socket.cpp:448-455 | The bits are those of both arrays together. |
| Cidr.BitInverseMask | corelib/socket.cpp:457-464 | The bits outside the mask become ones. |
| Cidr.BitSet | corelib/socket.cpp:466-481 | The first bits become ones, the rest stay. |
| Cidr.BitCount | corelib/socket.cpp:483-501 | The number of ones the mask begins with. |
| Cidr.MakeBlock | corelib/socket.cpp:800-826 | A block has a mask of exactly the prefix length, which `bitcount` gives back, and the address's prefix with zeros after it. |
| Cidr.MaskOf | corelib/socket.cpp:597-610 | The prefix length; 0 for no family. |
| Cidr.IsMember | corelib/socket.cpp:655-683 | Masking and comparing accepts exactly the addresses of the family that begin with the block's prefix. |
| Cidr.Broadcast | corelib/socket.cpp:685-703 | The block's prefix followed by ones. |
| Cidr.MembersAreRange | corelib/socket.cpp:655-703 | The block's addresses are, as numbers, those from the network address to the broadcast address. |
| Cidr.Nested | corelib/socket.cpp:655-683 | Of two blocks that share an address, the one with the longer prefix lies within the other. |
| Cidr.Find | corelib/socket.cpp:612-631 | Null if and only if no block with a prefix of at least 1 holds the address; otherwise a block contained in every block that holds it, the first of the longest prefixes. |
| Cidr.Container | corelib/socket.cpp:633-652 | Null if and only if no block with a prefix below 128 holds the address; otherwise a block containing every block that holds it, the first of the shortest prefixes. |
| MemAlloc.Allocator.Alloc | corelib/memory.cpp:198-224 | Every error and what it leaves alone; the block goes to the first page that passes the test and a new page is taken only when none does; the allocator's invariant (word-aligned, disjoint blocks inside their pages, past the header, `used` exactly accounted) holds afterwards if and only if the page picked, by the state before the call, had room for the rounded request. |
| MemAlloc.Allocator.constructor | corelib/memory.cpp:68-104 | A page size up to the system's is taken as it is, a larger one becomes whole system pages, and the new allocator is in order. |
| MemAlloc.PageSizeExactly | corelib/memory.cpp:78-81 | No size gives the system's page, a size up to it is kept, a larger one becomes the next multiple of it. |
| MemAlloc.Allocator.Pager | corelib/memory.cpp:157-196 | The limit, the failure of the system allocator, or a new page in front with its header and alignment used, whatever the page size. |
| MemAlloc.Allocator.FirstFit | corelib/memory.cpp:213-217 | The first page whose unsigned difference of size and used part is enough; the difference wraps on a page used beyond its end. |
| MemAlloc.Allocator.PlaceOn | corelib/memory.cpp:221-223 | The block starts where the page's used part ended, room or no room; `used` grows by the size in 32 bits. |
| MemAlloc.Allocator.Purge | corelib/memory.cpp:139-155 | No pages and no blocks remain. |
| MemAlloc.PlaceExactly | corelib/memory.cpp:213-223 | Placing a block on a page keeps the invariant if and only if the page has room for it and its count does not wrap. |
| MemAlloc.FreshExactly | corelib/memory.cpp:157-223 | The same for a new page, which may be too small for its own header and alignment. |
| MemAlloc.SafeSizes | corelib/memory.cpp:198-224 | On pages that begin at a word, for every page size: all admitted requests have room on a new page if and only if the size is a multiple of the word, at least the header's and below 2^32. |
| MemAlloc.SafeAlways | corelib/memory.cpp:198-224 | With such pages and sizes an allocator in order stays in order, whatever is asked of it. |
| MemAlloc.OddPage | corelib/memory.cpp:78-224 | With pages of 100 bytes a request for 84 is admitted and has no room, and from then on every request is placed beyond the page. |
| MemAlloc.PlaceKeeps | corelib/memory.cpp:198-224 | A block at the end of a page's used part is aligned, inside, and apart from all others. |

## Left out

- `commoncpp/persist.cpp`: the byte form of tokens (lengths, compression, byte order), reading into a reference (`read(PersistObject &)`), and objects that change while they are written; an object's own `write` and `read` are its fields in order.
- Lock protocols are step systems on values, one step for each critical section, not classes: the order of single assignments inside a critical section is not modelled, nor memory ordering.
- `ConditionalLock::modify` and `commit` entered without a share, whose slot has count 0 while it waits (corelib/condition.cpp:412-453), and `max_sharing` limits.
- The address-keyed `RWLock::reader`, `RWLock::writer` and `RWLock::release(ptr)` (corelib/thread.cpp:554-627, 684-708): the same table around another lock, easy once `MutexTable` and `RWLock` are there; `Mutex::indexing` during use.
- Counters of waiting threads and shares are unbounded numbers, not 32-bit ones.
- `ArrayRef` in FALLBACK mode, and `get`, `reset`, `clear`, `resize`; null items and size below 2.
- `Date::put` computes in doubles and truncates: modelled by integer division, which gives the same for every day number a `long` date of the supported years has; day numbers beyond the range of `int`, negative years but for `Calendar.InvalidExactly` and `Calendar.YearsSkipped`, local time, `Time` and `DateTime`.
- Numbers.Number.SetZeroed: a negative value in a field of one column, for which the loop in corelib/numbers.cpp:157-159 counts down past zero and overflows, is not covered.
- `Number::set` (blank-padded fields) and arithmetic on fields: nothing here uses them.
- Sizes near the limit of `size_t` in the codecs, and locales other than C for `isspace` and `toupper`; `hex2bin`, `hexcount` and `String::hex` would only add easy members.
- `MapTable::getLast`, a table after its cleanup, a table of range 0, an object freed twice or added while it is on a free list: the source demands otherwise and does not check.
- The text of an address block (`cidr::set` up to the mask, `cidr::mask(const char *)`): depends on `inet_aton` and `atoi`; prefix lengths longer than the address.
- MemAlloc.Allocator.constructor: page sizes within one system page of the limit of `size_t`, for which the rounding wraps; sizes of words and headers are those of a 64-bit build.
- `mempager`, `bufpager` and the other pagers built on `memalloc`.
- Network, file, process, shell, stream, logging, XML, regular expressions, ciphers and name resolution: input and output, or foreign library behaviour.
