# Verified model of ckCore

ckCore is a small C++ library with the functionality that several desktop
programs share.  This project models the parts of it that hold state or do
arithmetic, and proves what they are for:

* **Thread pool** (`PoolState`, `PoolProgress`, `PoolWait`, `PoolAccounts`,
  `PoolService`, `PoolDrain`, `PoolDefects`, `ThreadPool`, `WaitCondition`).  `PoolState` is the hand-off protocol as a
  state machine.  Every step is one stretch of code under the pool mutex, or
  one change that the wait condition makes while that mutex is open.
  `ThreadPool` and `WaitCondition` are the classes with their fields updated in
  place; each method is proved to do the step of the state machine that it is
  named after.  All counters wrap like the original's 32-bit ones.
* **Checksums** (`Gf2`, `Words`, `Crc`, `CrcStandards`, `CrcStream`).  `Gf2` is division of
  polynomials over GF(2), `Crc` says which division a checksum is, and
  `CrcStream` is the stream with its table.  The three variants are the one
  with polynomial 0x8005, the CRC-32 of section 3.2.9 of IEEE 802.3 and section
  8 of RFC 1952, and the CCITT one of section 6.5 of UDF 1.50.
* **Streams** (`Streams`, `BufferedStreams`, `StreamCopy`, `MemoryStream`).
  `Streams` says what any non-failing source and sink do; a source may give
  fewer bytes than asked for, but before its end at least one.
* **Path names** (`PathNames`), **lines of text** (`LineReaders`) and **decimal
  numbers** (`Convert`).

Where the code differs from its documentation, the model follows the code:

* The header promises that the pool's `wait` waits for all tasks
  (include/ckcore/threadpool.hh:187-191).  It always returns (`PoolProgress`),
  but not always with every accepted task done.  `PoolWait` proves, for any
  reservations, timeouts and order of steps before the call, that it is certain
  to do so if and only if the workers can cope with the queue when it is
  called: nothing is queued; or the pool is not shut, and some worker runs or
  was woken in time; or it is shut, and as many were woken in time as there are
  tasks.  If nobody times out during the call, everyone who waits counts as
  woken in time.  `PoolDefects` gives three runs that lose a task: one in
  which all threads are reserved, one in which a signal sent during a
  reservation spoils the idle counter for later, and one without reservations
  in which a timeout strikes just before the worker gets the pool mutex back.
* `PoolAccounts` says exactly which steps spoil the idle counter.  A right
  counter is not enough for `wait` to drain: the first of the three runs keeps
  it right.  `PoolDrain` proves the promise for the plain pool, in which nothing
  is reserved and timeouts strike only unsignalled waiters and retire them at
  once.
* The sized copy of the canex streams reports the last read count again for
  every block of padding (src/canexstream.cc:144).
* Joining a path with the empty path by `+` gives the empty path, by `+=` the
  path with a separator behind it.  Names of one character have no components,
  so joining is a homomorphism on component lists only where `JoinsWell` holds.
  A component called NULL looks like the end of the iteration, so comparing two
  paths stops there.
* The line reader makes the second of two adjacent carriage returns a part of
  a line.  A byte order mark is looked for at the position of the stream but
  skipped from its beginning.

`dafny verify dfyconfig.toml` checks everything.

## Model

| member | source | states |
|---|---|---|
| PoolState.StepSound | src/threadpool.cc:31-285 | every step of the pool, in any order and with reservations and timeouts, keeps the counters, the two thread lists, the slots and the whereabouts of tasks consistent |
| PoolState.RoomToSpawn | src/threadpool.cc:167-200 | a new thread is created only when there are fewer threads than the maximum, because then nobody is idle or retired |
| PoolState.Exec | src/threadpool.cc:31-285 | the state after any run is consistent, and no task that was accepted or done on the way is taken back |
| PoolState.ExecSplits | src/threadpool.cc:31-285 | a run can be interrupted after any of its events and continued from there |
| PoolState.ExecJoins | src/threadpool.cc:31-285 | and a run that is possible afterwards continues it |
| PoolState.EveryRunIsSafe | src/threadpool.cc:152-226 | at every moment of every run: at most the maximum of threads and of reservations; each accepted task is in the queue, in one slot or done, as often as it was accepted; slots are empty unless their worker runs; a task done stays done |
| PoolProgress.WorkersDescend | src/threadpool.cc:31-102 | in every consistent state, with reservations and timeouts of any kind, every worker step lowers a weighted sum of queued tasks, active workers, signals and waiters |
| PoolProgress.DrainingEnds | src/threadpool.cc:31-102 | so without further calls every sequence of worker steps is no longer than that sum |
| PoolProgress.SomebodyGoesOn | src/threadpool.cc:69-102 | during `wait`, as long as some worker has not returned, one can go on without any timeout |
| PoolProgress.WaitReturns | src/threadpool.cc:228-266 | `wait` always returns: called in any consistent state, the workers take no more steps than the sum says, and they stop by themselves exactly when every thread can be joined |
| PoolWait.ShutMeans | src/threadpool.cc:123-127 | without the cleared thread list `active_threads` exceeds the maximum exactly when more workers are booked as idle or retired than threads are reserved, up to the wrap-around given in figures |
| PoolWait.StepCopes | src/threadpool.cc:38-100 | the condition for draining is kept by every worker step during `wait` |
| PoolWait.FailingRun | src/threadpool.cc:38-100 | where it does not hold, there is a schedule after which all workers have returned and it still does not hold |
| PoolWait.SettledLedger | src/threadpool.cc:240-258 | once all workers have returned, every accepted task is done if and only if nothing is queued |
| PoolWait.WaitDrainsExactly | src/threadpool.cc:228-266 | for any history of calls, reservations and timeouts: every schedule ends with every accepted task done if and only if, at the call, nothing is queued or the workers can cope; both for all schedules and for those in which nobody times out |
| PoolAccounts.BooksKeptExactlyWhenCareful | src/threadpool.cc:167-213 | for any reservations and timeouts, a step leaves the idle counter equal to the unsignalled waiters plus the timed-out ones if and only if the guard of the branch it takes holds |
| PoolAccounts.TimeOutBooked | src/unix/thread.cc:259-271 | a timeout leaves the idle counter right if and only if some waiter had no signal |
| PoolAccounts.StartBooked | src/threadpool.cc:202-213 | `start` and `start_now` leave the idle counter right exactly under their guards, among them that a task that gets no thread signals nobody |
| PoolAccounts.ReserveBooked | src/threadpool.cc:268-285 | the same for a task that a smaller reservation sets free |
| PoolAccounts.ActiveIsExact | src/threadpool.cc:123-127 | while the idle counter is right, `active_threads` counts the reserved, running, signalled and woken threads and does not wrap |
| PoolAccounts.NoCounterUnderflows | src/threadpool.cc:69-92 | whenever a step decrements the pool counter, the waiters or the wake-ups they are positive, in every consistent state; so is the idle counter as long as it is right |
| PoolAccounts.CarefulRunsKeepTheBooks | src/threadpool.cc:31-285 | over every run of such steps the idle counter stays right, so it never underflows |
| PoolService.LoadDecides | src/threadpool.cc:123-127 | while the idle counter is right, `try_start` refuses and `overworking` answers by the number of threads that are reserved, running, signalled or woken |
| PoolService.StartTakesRoom | src/threadpool.cc:167-226 | if fewer than the maximum are in use, a task that is started has a worker: an idle one that is signalled, else the thread that retired last, else a new one; one more worker is busy |
| PoolService.StartWaitsItsTurn | src/threadpool.cc:167-226 | otherwise `start` leaves the task in the queue, with a signal to a waiter that has none, and `start_now` changes nothing |
| PoolService.StartsFillThePool | src/threadpool.cc:152-213 | tasks started one after another get a worker each until the maximum is in use, and only then fill the queue |
| PoolService.ReserveMakesRoom | src/threadpool.cc:268-285 | the reservation becomes the lesser of what was asked and the maximum; a queued task gets a worker exactly if it shrank and there is room now |
| PoolService.FinishOutcome | src/threadpool.cc:50-92 | a worker that comes back has executed its task; it retires if more than the maximum are in use, whatever is queued, else it takes the next task, else it goes to sleep |
| PoolService.RelockOutcome | src/threadpool.cc:78-100 | a worker back from waiting retires if it was late, and takes a queued task if it was woken, even if too many threads are in use |
| PoolService.ExitingFinishes | src/threadpool.cc:50-73 | during `wait` a worker that comes back takes the next task unless the pool overworks, and otherwise returns without being listed as retired |
| PoolService.ExitingRelocks | src/threadpool.cc:69-100 | during `wait` a woken worker takes a queued task, and returns if there is none |
| PoolService.OverworkEnds | src/threadpool.cc:50-92 | workers never put more threads in use, and after as many ends of tasks as there are threads too many, there are none too many |
| PoolService.AtRestOnlyReserved | src/threadpool.cc:31-102 | where no worker can go on, only reserved threads are in use |
| PoolDrain.PlainKept | src/threadpool.cc:31-285 | every step of the plain pool keeps the invariant behind draining: while it is not full each queued task has a worker coming for it, and during `wait` nobody idles or retires while tasks outnumber the workers still coming |
| PoolDrain.CountersAreExact | src/threadpool.cc:69-127 | in every state that the plain pool reaches outside `wait`: waiters minus wake-ups is the idle counter, the pool counter is the number of running workers, all modes add up to the number of threads, and `active_threads` counts exactly the running, signalled and woken ones and never exceeds the maximum |
| PoolDrain.NoLostWakeup | src/threadpool.cc:144-200 | in the plain pool, a queued task always has a running, signalled or woken worker |
| PoolDrain.RestMeansAllDone | src/threadpool.cc:31-102 | where no worker of the plain pool can go on, the queue is empty and every accepted task was executed |
| PoolDrain.WaitDrains | src/threadpool.cc:228-266 | in every state of the plain pool in which `wait` can return, every accepted task is done and the queue is empty, and returning leaves the pool as it was constructed |
| PoolDrain.PlainCopes | src/threadpool.cc:228-266 | every state of the plain pool meets the condition under which `wait` drains in all schedules without timeouts |
| PoolDrain.PlainStepsAreCareful | src/threadpool.cc:167-213 | without reservations, and with timeouts that strike only unsignalled waiters and retire them at once, every step meets its guard |
| PoolDefects.LateTimeoutLosesTask | src/unix/thread.cc:258-268 | a run without reservations in which a timeout before the mutex is locked again makes `wait` return with an accepted task still queued |
| PoolDefects.FullReservationLosesTask | src/threadpool.cc:202-213 | a run of four events that does the same: with all threads reserved, `start` accepts a task that no worker will look for; the idle counter is right throughout |
| PoolDefects.ReservationLosesTask | src/threadpool.cc:209-210 | a run in which `start` during a reservation signals an idle worker that stays on the books, so that `wait` need not drain although the reservation was given back |
| ThreadPools.ThreadPool.constructor | src/threadpool.cc:104-109 | the initial state |
| ThreadPools.ThreadPool.TryStart | src/threadpool.cc:167-200 | refuses exactly when the pool is full and then changes nothing; otherwise an idle worker is signalled, the last retired one restarted, or a new one created |
| ThreadPools.ThreadPool.Enqueue | src/threadpool.cc:144-150 | one more queued task and one more signal, if somebody waits without one |
| ThreadPools.ThreadPool.Spawn | src/threadpool.cc:152-160 | one more thread, which runs the task |
| ThreadPools.ThreadPool.StartTask | src/threadpool.cc:202-213 | accepts every task but NULL and does what the start step does; between waits the pool stays consistent |
| ThreadPools.ThreadPool.StartTaskNow | src/threadpool.cc:215-226 | accepts a task only with a thread for it, and otherwise changes nothing; between waits the pool stays consistent |
| ThreadPools.ThreadPool.ReserveThreads | src/threadpool.cc:268-285 | caps the reservation and moves the top of the queue to a thread when a smaller reservation makes room, putting it back otherwise; between waits the pool stays consistent |
| ThreadPools.ThreadPool.TaskReturned | src/threadpool.cc:50-92 | a worker back from its task takes the next one, exits, retires or goes to sleep, as the step says |
| ThreadPools.ThreadPool.CameOut | src/unix/thread.cc:238-268 | a waiter leaves with a signal or late, or goes back to sleep |
| ThreadPools.ThreadPool.WaitReturned | src/threadpool.cc:82-100 | a worker that has the mutex again retires if it was late, or takes a task, or idles again |
| ThreadPools.ThreadPool.WaitStarts | src/threadpool.cc:228-245 | exiting is set, everyone is signalled, and the thread list is cleared |
| ThreadPools.ThreadPool.WaitEnds | src/threadpool.cc:260-265 | the lists and counters are cleared, the reservation is kept |
| ThreadPools.ThreadPool.Perform | src/threadpool.cc:31-285 | every event of the state machine is what the method for it does |
| ThreadPools.ThreadPool.Replay | src/threadpool.cc:31-285 | after any run of the class its fields are where the state machine ends, so every statement about runs is one about the class |
| WaitConditions.StepBalanced | src/unix/thread.cc:221-288 | no step lets a counter underflow or more waiters leave than signals were given |
| WaitConditions.WakeupsArePaidFor | src/unix/thread.cc:221-288 | over every run, timeouts and spurious wake-ups included, the waiter counter is the number of threads inside `wait`, and successful returns plus pending wake-ups never exceed one per `signal_one` and the waiters per `signal_all` |
| WaitConditions.SignalsArrive | src/unix/thread.cc:274-288 | as long as each signal finds a waiter without one and nobody times out, every signal was used or is pending |
| WaitConditions.WakeupsFindWaiters | src/unix/thread.cc:274-288 | while nobody times out there are never more wake-ups than waiters |
| WaitConditions.TimeoutStrandsWakeup | src/unix/thread.cc:253-259 | a timeout leaves more wake-ups than waiters if and only if every waiter had one |
| WaitConditions.WaitCondition.ReturnFromWait | src/unix/thread.cc:246-259 | the retry for spurious wake-ups, and the way out in time or late |
| WaitConditions.WaitCondition.SignalOne | src/unix/thread.cc:274-280 | one more wake-up, but no more than waiters |
| WaitConditions.WaitCondition.SignalAll | src/unix/thread.cc:282-288 | as many wake-ups as waiters |
| Gf2.RemainderIsUnique | src/crcstream.cc:75-91 | long division over GF(2) finds a remainder, and no other list of coefficients is one |
| Gf2.RegisterIsRemainder | src/crcstream.cc:75-122 | a shift register with feedback holds exactly the remainder of initial times x^k plus message times x^n |
| Gf2.FeedBlock | src/crcstream.cc:104-122 | a block of bits at once: shift the register by the block, and add the division of what left it plus the block |
| Gf2.NeverEmpties | src/crcstream.cc:44-69 | with a constant term in the generator a register that is not empty never becomes empty by shifting |
| Crc.ChecksumIsRemainder | src/crcstream.cc:94-122 | for all three variants and every message, the checksum without its final sum is the remainder modulo the configured polynomial, and nothing else is |
| CrcStandards.Crc32Generator | src/crcstream.cc:41-45 | the CRC-32 generator is x^32 + x^26 + x^23 + x^22 + x^16 + x^12 + x^11 + x^10 + x^8 + x^7 + x^5 + x^4 + x^2 + x + 1 |
| CrcStandards.Crc16Generator | src/crcstream.cc:50-56 | the generator of the other reflected variant is x^16 + x^15 + x^2 + 1 |
| CrcStandards.CcittGenerator | src/crcstream.cc:62-69 | the CCITT generator is x^16 + x^12 + x^5 + 1 |
| CrcStandards.InitialAndFinal | src/crcstream.cc:39-69 | initial and final values are all ones on the order of the checksum, or zero for CCITT |
| CrcStandards.Crc32Check | src/crcstream.cc:39-122 | check value: the CRC-32 of the byte 0x7f is 0x12b88320 |
| CrcStandards.Crc16Check | src/crcstream.cc:39-122 | check value: the 16-bit reflected checksum of the byte 0x7f is 0x5f01 |
| CrcStandards.CcittCheck | src/crcstream.cc:39-122 | check value: the CCITT checksum of the byte 1 is 0x1021 |
| Crc.BurstsAreDetected | src/crcstream.cc:44-122 | two different messages of one length that differ only within as many consecutive bits, in transmission order, as the checksum has never have the same checksum |
| Crc.ChecksumsAreAffine | src/crcstream.cc:94-122 | the checksum of a^b^c is the sum of the checksums of a, b and c |
| Crc.RegisterContinues | src/crcstream.cc:104-122 | a message may be written in any pieces |
| Crc.AppendedChecksumLeavesResidue | src/crcstream.cc:94-122 | a message with its checksum appended has a checksum that depends on the variant only |
| Crc.CcittResidueIsZero | src/crcstream.cc:62-69 | for the CCITT variant that checksum is zero |
| Crc.AppendedIsSent | src/crcstream.cc:94-122 | the bytes to append, low byte first for the reflected variants and high byte first for CCITT, are sent as the coefficients of the checksum |
| CrcStreams.MirrorIsInvolution | src/crcstream.cc:24-37 | reflecting twice restores the reflected bits |
| CrcStreams.MirrorCarriesStep | src/crcstream.cc:24-37 | reflecting turns a step of the left-shifting register into a step of the right-shifting one |
| CrcStreams.RightStepIsStep | src/crcstream.cc:108-113 | so the right-shifting register with the reflected polynomial is the register of the division |
| CrcStreams.CrcStream.Reflect | src/crcstream.cc:24-37 | the loop computes the mirrored word for every length |
| CrcStreams.TableRound | src/crcstream.cc:82-88 | a round of the table loop is a step of the register, whatever the bits above its order are |
| CrcStreams.CrcStream.OneEntry | src/crcstream.cc:80-90 | a table entry is the division of its byte alone |
| CrcStreams.CrcStream.FillTable | src/crcstream.cc:78-91 | so is every entry of the table |
| CrcStreams.CrcStream.constructor | src/crcstream.cc:39-92 | the configuration, mask, table and register of a stream to which nothing was written |
| CrcStreams.ByteAtATime | src/crcstream.cc:108-118 | one table look-up and shift does what feeding the eight bits of a byte does |
| CrcStreams.LookUpIsEightSteps | src/crcstream.cc:108-113 | for the reflected variants, one table look-up is eight steps of the right-shifting register with the byte added to its low end |
| CrcStreams.CrcStream.WriteByte | src/crcstream.cc:108-118 | the register moves on by one byte |
| CrcStreams.CrcStream.Write | src/crcstream.cc:104-122 | the register is the one of everything written so far, in however many calls |
| CrcStreams.CrcStream.Reset | src/crcstream.cc:94-97 | as if nothing had been written |
| CrcStreams.CrcStream.GetChecksum | src/crcstream.cc:99-102 | the checksum of everything written since the last reset |
| BufferedStreams.BufferedInStream.constructor | src/bufferedstream.cc:40-53 | nothing is buffered, and the buffer has the size asked for, or 8192 |
| BufferedStreams.BufferedInStream.Read | src/bufferedstream.cc:107-142 | gives the next bytes of the source in full, or all that are left, for every buffer size and every pattern of short reads; what is buffered is given without reading from the source |
| BufferedStreams.BufferedInStream.Refill | src/bufferedstream.cc:123-134 | one read from the source, which fills the buffer unless the source gives less |
| BufferedStreams.BufferedInStream.Seek | src/bufferedstream.cc:70-105 | moves the position by the distance, from here or from the beginning |
| BufferedStreams.BufferedInStream.End | src/bufferedstream.cc:65-68 | true exactly at the end of the content, not of the source |
| BufferedStreams.BufferedInStream.Replay | src/bufferedstream.cc:65-142 | every sequence of reads, end tests and seeks sees what a full-read cursor over the whole content sees |
| BufferedStreams.BufferedOutStream.constructor | src/bufferedstream.cc:164-176 | nothing is pending, and the buffer has the size asked for, or 8192 |
| BufferedStreams.BufferedOutStream.Write | src/bufferedstream.cc:190-219 | sink content and pending bytes together grow by the data, only whole buffers reach the sink and none if the data fits, and as many bytes stay pending as `PendingAfter` says |
| BufferedStreams.PendingIsTheRest | src/bufferedstream.cc:199-216 | pending bytes are what whole buffers leave, a full buffer rather than none; no buffer is passed on exactly if everything fits |
| BufferedStreams.BufferedOutStream.Flush | src/bufferedstream.cc:221-232 | the sink has everything that was written, in one more portion |
| BufferedStreams.BufferedOutStream.WriteAll | src/bufferedstream.cc:190-232 | any sequence of writes and flushes in which no loop condition wraps accepts the concatenation of the data, and after a last flush the sink has exactly that |
| StreamCopy.Copy | src/stream.cc:27-59 | the sink gets the rest of the source |
| StreamCopy.CopySized | src/stream.cc:155-220 | unless cancelled, exactly the given number of bytes: the first of the source and then zeros, with progress adding up to that number; if cancelled, a beginning of the source with its length as progress; the progresser is asked once before each read, and the first refusal ends the copy |
| StreamCopy.CanexCopySized | src/canexstream.cc:109-146 | the same bytes and questions; the progress is what was copied plus, once per block of 8192 bytes of padding, what the last read of the source gave, and it is the given number if and only if those reports add up to the padding |
| MemoryStreams.WrapsExactly | src/memorystream.cc:103-115 | doubling stays within 32 bits if and only if the size where it ends does |
| MemoryStreams.TwoGibFit | src/memorystream.cc:103-115 | up to 2^31 bytes it does, whatever the first size was |
| MemoryStreams.GrownShape | src/memorystream.cc:103-115 | the capacity is a power of two times the first one, and below twice the need if it grew |
| MemoryStreams.MemoryOutStream.MakeRoom | src/memorystream.cc:103-115 | the growth loop keeps the data and ends at the first such capacity that suffices |
| MemoryStreams.MemoryOutStream.Write | src/memorystream.cc:97-120 | the data is the concatenation of everything written |
| MemoryStreams.MemoryOutStream.WriteAll | src/memorystream.cc:97-120 | any number of writes of at most 2^31 bytes in all: nothing wraps, the data is their concatenation, the capacity is a power of two times the first one and below twice the data if it grew, and all growth steps together copied fewer bytes than it |
| MemoryStreams.MemoryOutStream.GrowthIsLinear | src/memorystream.cc:103-115 | between writes the capacity is a power of two times the first one and below twice the data if it grew, and all growth steps together copied fewer bytes than it |
| PathNames.SplitThenJoin | src/path.cc:33-63 | splitting at separators loses nothing and leaves none inside a part |
| PathNames.JoinThenSplit | src/path.cc:33-63 | and the parts are the only ones with that property |
| PathNames.ComponentsMakeName | src/path.cc:33-63 | the components have no separator inside, and joined by one each, with the one at either end, they make up the name |
| PathNames.Iterator.constructor | src/path.cc:27-31 | the iterator starts with all components: the split of the name without one leading and one trailing separator |
| PathNames.Iterator.Next | src/path.cc:33-63 | moves to the components behind the current one, for every name, or to the end |
| PathNames.Iterator.Advance | src/path.cc:73-79 | the first of the remaining components is gone |
| PathNames.PlusShape | src/path.cc:244-268 | two non-empty names are joined with exactly one separator in between, whatever they bring |
| PathNames.JoinIsHomomorphism | src/path.cc:244-268 | for all names, the components of p + q are those of p and then those of q if and only if `JoinsWell`, which looks at empty and one-character names only |
| PathNames.Path.Append | src/path.cc:270-287 | `+=` gives what `+` gives if and only if the right-hand name is not empty, and otherwise the name with one separator at its end |
| PathNames.BaseNameIsLast | src/path.cc:188-205 | the base name is the last component |
| PathNames.DirAndBase | src/path.cc:170-205 | for all names, directory name, base name and the trailing separator, if any, make up the name if and only if it is not a lone separator |
| PathNames.Equal | src/path.cc:217-231 | two paths are equal exactly when their components before the first one called NULL are |
| PathNames.EqualityIsOfComponents | src/path.cc:217-231 | components are equal if and only if the paths compare equal and agree from the first component called NULL on; without such components the comparison is exact |
| PathNames.NullIsInvisible | src/path.cc:217-231 | every path compares equal to the different one with a component called NULL behind it |
| LineReaders.LineReader.ReadLine | include/ckcore/linereader.hh:96-139 | one line, with the pushed-back character in front, as the scan of the remaining text says |
| LineReaders.LineReader.End | include/ckcore/linereader.hh:86-89 | true exactly when neither a character nor any text is left |
| LineReaders.LineReader.ReadAll | include/ckcore/linereader.hh:86-139 | reading until the end gives the lines of the text if and only if no two carriage returns are adjacent in it |
| LineReaders.ReadsLinesExactly | include/ckcore/linereader.hh:96-139 | the same as a statement about texts: lines end at LF, CR LF or CR |
| LineReaders.DoubleCrIsRead | include/ckcore/linereader.hh:120-131 | with two adjacent carriage returns some line contains one |
| LineReaders.WrittenLinesReadBack | include/ckcore/linereader.hh:96-139 | lines written with LF, CR LF or CR, in any mixture without an empty line behind a CR, and a last one without a terminator are read back as they were |
| LineReaders.EmptyLineVanishes | include/ckcore/linereader.hh:120-131 | behind a CR an empty line that ends with LF is the same text as no line and CR LF |
| LineReaders.LineReader.DetectEncoding | include/ckcore/linereader.hh:146-231 | the encoding and the length of the longest mark that the bytes read begin with, and the stream behind that many bytes; four bytes are read if there are that many and the source gives them |
| LineReaders.MarksEncodeOneCodePoint | include/ckcore/linereader.hh:156-214 | the UTF-8, UTF-16 and UTF-32 marks are U+FEFF in those encodings |
| LineReaders.LineReader.constructor | include/ckcore/linereader.hh:66-70 | a reader with the encoding of the longest mark found in those bytes at the position of the stream, behind as many bytes from its beginning |
| Convert.DigitsParseBack | src/convert.cc:53-77 | the text of a number parses back to it and has no superfluous zero |
| Convert.NumeralsAreDigits | src/convert.cc:53-77 | every such text is the text of its value |
| Convert.TenDigits | src/convert.cc:67 | the characters printed are the ten digits in their order |
| Convert.NumeralsAreOrdered | src/convert.cc:53-77 | of two texts of one length, the first different digit decides which value is less |
| Convert.ReversedLowFirst | src/convert.cc:63-73 | the digits in the order of the loop, reversed, are the text of the number |
| Convert.ReverseRange | src/convert.cc:73 | reverses a part of the buffer in place |
| Convert.EmitDigits | src/convert.cc:63-71 | the loop writes the digits, lowest first |
| Convert.Ui64ToStr | src/convert.cc:53-77 | the buffer holds the text of every 64-bit number, of at most 20 digits, and a NUL |
| Convert.I64ToStr | include/ckcore/convert.hh:52-63 | the same with a sign |
| Convert.PrintedParsesBack | include/ckcore/convert.hh:52-63 | the text of a signed number parses back to it |

## Left out

- The order in which tasks leave the queue: it is a multiset, and any of its tasks may be on top.
- Worker threads as objects: they are values in a list, numbered in the order of their creation.
- Runs with calls of `start`, `start_now` or `reserve` while `wait` runs, and tasks that make such calls.
- ThreadPools.ThreadPool.StartTask: during `wait` only its own effect is stated, not that the pool stays consistent.
- ThreadPools.ThreadPool.StartTaskNow: the same during `wait`.
- ThreadPools.ThreadPool.ReserveThreads: the same during `wait`.
- The unlocked look at the counters in `start_now`: its answer is a parameter.
- Failing thread creation, and the window in which a retired thread is restarted before its last round is over: restarting always succeeds.
- The lifetime of tasks (`auto_delete`), exceptions thrown by tasks (swallowed, so a task always comes back), and the length of the retire timeout, which may strike at any moment.
- ThreadPools.ThreadPool.constructor: the maximum must be between 1 and 2^31 - 1, as a number of processors is.
- PoolDrain.WaitDrains: a timeout and locking the pool mutex again are one step, and nothing is reserved, because otherwise the statement is false (`PoolDefects`); `PoolWait.WaitDrainsExactly` has the condition for all pools.
- PoolProgress.WaitReturns: that the scheduler lets a worker go on that can go on is assumed, as is that a task ends.
- Failing sources and sinks, failing allocations, and the branches for missing buffers.
- BufferedStreams.BufferedInStream.Seek: only within the content; beyond it the loop of the original does not end.
- BufferedStreams.BufferedOutStream.Write: pending bytes and data together must be below 2^32, where the sum in the loop condition wraps.
- BufferedStreams.BufferedOutStream.WriteAll: the same at every call.
- CrcStreams.CrcStream.Write: the message is a value, since only its bytes are read.
- MemoryStreams.MemoryOutStream.Write: only while doubling stays within 32 bits, which `WrapsExactly` characterises; otherwise the capacity of the original wraps to a smaller one, or to zero.
- The source over a block of memory, the sink that discards everything, and the copies that report percentages.
- PathNames.Path.Append: the left-hand name must be non-empty; the original reads outside of an empty one.
- PathNames.Iterator.Advance: not at the end, and the text NULL that the end iterator gives is modelled in `Equal` only.
- Windows separators, root and extension names.
- LineReaders.LineReader.ReadLine: characters of one byte; wide characters are not modelled.
- LineReaders.LineReader.constructor: a source with short reads may give the constructor only a part of a mark, so the mark is the longest one of what was read.
- Convert.I64ToStr: not for -2^63, whose negation overflows.
- Endianness, DOS time and formatted printing in the conversion functions.
- Files, directories, processes, dynamic libraries, logging, strings and system information: calls into the operating system.
