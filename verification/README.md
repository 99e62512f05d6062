# Card Bluff: a verified model

Card Bluff is a bluffing game for two players. Each player sees only his own cards; in turn they claim
poker combinations about the union of both hands, each claim higher than the one before, until somebody
reveals (is the claim true?) or blocks (is it the best claim there is?). The server evaluates hands and runs
the game, brings its own SHA-256 and two small synchronisation primitives, and talks to a console client and a
web client that each decode its texts on their own. This project models seven parts of the system and proves
what each of them promises, for all inputs, all interleavings and all games.

* **Hand evaluator** (`Cards`, `RankLists`, `Claims`, `Hands`, `Ladder`, `ClaimText`, `Refusals`). `Claims` says what a
  claim means for a set of cards and when it is the greatest; `Hands.Hand` is the evaluator with its four
  redundant indexes, and every search over them is proved against that meaning. `ClaimText` is the parser and
  the printer, `Refusals` says what each refusal of the parser means, `Ladder` places every claim on one of 327 rungs.
* **SHA-256** (`Sha256Standard`, `Sha256Constants`, `Sha256Example`, `Sha256Stream`). The first module states FIPS
  180-4, the next two tie that statement to roots of primes and to the standard's example; the last is the streaming
  class with its in-place rotation, 128-byte buffer and padding.
* **Reader/writer spin lock** (`SharedMutex`, `LockProgress`) and **condition variable** (`CondVar`, `CallPaths`,
  `CleanNotify`, `NotifyOne`, `NotifyAll`, `NotifyAllReturns`, `Wakeups`), as state machines whose steps are the single
  accesses to shared memory, for any number of threads. Beside what never happens they say what can: threads that wait
  can get in, and calls can return. `NotifyOne`, `NotifyAll` and `NotifyAllReturns` find the exact conditions under
  which the two notifiers keep their promises.
* **Game engine** (`Shuffle`, `Rules`, `GameRuns`, `LongGames`, `TypedLines`, `Passes`, `GameEngine`). `Rules` gives
  each operation as a function on game states, `GameEngine.Game` is the object that is proved to follow it, `GameRuns`
  proves what holds in every game, `LongGames` shows that the bounds are reached, and `TypedLines` and `Passes` say what
  each typed line, each other event and the clock do to the whole state.
* **Web codec** (`Utf8Frames`): UTF-8 and 256-byte frames.
* **Text formats** (`Text`, `Markup`, `CardMessage`): escaping, highlighting and card messages, written by the
  server and read by two clients.

How the code is represented: an object whose methods update it is a class (`Hand`, `SHA256`, `Game`), a buffer
the code writes into is an array, a list it appends to is a sequence, and each loop is a loop. Exceptions and
error returns are values (`ParseOutcome`, `Outcome`, program points such as `Thrown` and `AllFailed` for failed
checks). Random numbers, the clock and the commands of the players are inputs. Machine arithmetic is written out
where it can wrap: 32-bit words and byte counts in the hash, the unsigned counter of the lock, the unsigned byte
that counts down in the shuffle. The game state carries three histories that the code does not store (accepted
claims of the round, losers of rounds, reported results); they are ghost fields of the class.

Where the code is not what its names or comments suggest, the model follows the code:

* `find_best_two_pairs` names the higher pair first, but the parser sorts two pairs upwards. `check_full_house` and
  the parser accept a full house of two equal ranks, but the search for the best one does not produce it. So blocking
  such a claim never succeeds, even if nothing true beats it, and for all other claims it does exactly if nothing true
  beats them (`Claims.BlockSucceedsExactly`, `LongGames.BestPairsLoseTheBlock`,
  `LongGames.EqualFullHouseLosesTheBlock`). Optimality is stated over the combinations of poker (`Claims.Canonical`).
* The assertions of `game_result` can fail (`LongGames.AssertionCanFail`); `GameRuns.AssertionBreaks` says exactly
  when. The model evaluates the rest of the function.
* SHA-256 stores only the low 32 bits of the bit count, so the padding is the standard padding exactly below 2^29
  bytes (`Sha256Stream.StoredPaddingIsStandard`).
* `notify_one` keeps its promise exactly if, when it gets the mutex, nobody waits, or no token is left over and
  everybody who waits does so without a timeout (`NotifyOne.NotifyOneKeepsPromiseExactly`). Otherwise a token can be
  left over (`NotifyOne.TokenIsLeft`) or the assertion can fail (`CondVar.TimeoutCanBreakAssertion`); and if the only
  waiter times out between the first look at the count and the reading of it, the call loops for ever with the mutex
  held (`NotifyOne.NotifierCanGetStuck`, `NotifyOne.StuckForever`).
* `notify_all` empties the semaphore only if it finds somebody registered. It leaves no token at whichever return
  follows exactly if, when it gets the mutex, there are no more tokens than threads waiting without a timeout
  (`NotifyAll.NotifyAllCleansUpExactly`); `NotifyAll.NotifyAllCanLeaveToken` is a run in which one is left.
* If the tokens that `notify_all` releases do not fit into the semaphore's count of 65535, none is released, and the
  call can wait for ever; `NotifyAllReturns.NotifyAllIsNeverStuckExactly` says exactly when that is possible.
* A card message without cards is read by neither client (`CardMessage.ClientsMissEmptyMessage`); the game never sends
  one.
* The comment on the format of card messages spells the keyword in lower case and puts a message behind the
  cards; the code writes `CARDS:` and no message.

## Model

| member | source | states |
|---|---|---|
| Hands.Hand.FromCards | CardBluffServer/combinations.cpp:164-189 | from any list of different cards the constructor builds four indexes that all agree with the set of those cards |
| Hands.Hand.FileCard | CardBluffServer/combinations.cpp:173-177 | filing one more card adds exactly that card and keeps counts, suit lists and the suit table in agreement |
| Hands.Hand.SortSuits | CardBluffServer/combinations.cpp:179-180 | each suit list becomes the strictly decreasing list of the ranks held in that suit |
| Hands.Hand.FillNumberRank | CardBluffServer/combinations.cpp:183-189 | list n becomes the strictly decreasing list of the ranks held more than n times |
| Hands.Hand.FindEveryStraightFlush | CardBluffServer/combinations.cpp:190-222 | the merge over four cursors terminates and lists exactly the straight flushes of the cards, each once, best first |
| Hands.Hand.Select | CardBluffServer/combinations.cpp:197-212 | one round of the merge: every cursor is moved to the next straight flush of its suit, and the chosen suit shows the best of them |
| Hands.Hand.Settle | CardBluffServer/combinations.cpp:200-205 | one cursor skips exactly the ranks that do not begin a straight flush of its suit, and stops inside or just past the list |
| Hands.Hand.FindBestStraightFlush | CardBluffServer/combinations.cpp:223-251 | the best straight flush of the cards, or that there is none |
| Hands.Hand.CheckStraightFlush | CardBluffServer/combinations.cpp:252-273 | for ranks from five-high up, true exactly when every card of the straight is held in the suit, the ace low for five-high |
| Hands.Hand.FindBestFullHouse | CardBluffServer/combinations.cpp:298-305 | the best full house of two different ranks, or that there is none |
| Hands.Hand.FindEveryFlush | CardBluffServer/combinations.cpp:310-338 | the merge from the ends of the suit lists lists exactly the flushes of the cards, each once, lowest first |
| Hands.Hand.SelectLowest | CardBluffServer/combinations.cpp:320-328 | among the cursors still in their lists, the last one that shows the lowest rank |
| Hands.Hand.FindBestFlush | CardBluffServer/combinations.cpp:339-352 | the best flush, which is the one with the lowest rank, or that there is none |
| Hands.Hand.CheckFlush | CardBluffServer/combinations.cpp:353-359 | true exactly when the named card is held with at least four lower ones of its suit |
| Hands.Hand.FindBestStraight | CardBluffServer/combinations.cpp:370-379 | the window test over the ranks held at all finds the highest straight, the ace-low one last, or that there is none |
| Hands.Hand.Front | CardBluffServer/combinations.cpp:278-284 | the highest rank held more than n times, or that there is none, for one, two, three and four of a kind |
| Hands.Hand.CheckStraight | CardBluffServer/combinations.cpp:380-396 | true exactly when every rank of the straight is held |
| Hands.Hand.FindBestTwoPairs | CardBluffServer/combinations.cpp:420-426 | the best two pairs, higher rank first, or that there are none |
| Hands.Hand.FindBestCombination | CardBluffServer/combinations.cpp:467-539 | the result is true of the cards, and no true combination of poker beats it in the order of claims |
| Hands.Hand.FindBestLowCombination | CardBluffServer/combinations.cpp:508-538 | the same below straights, once nothing higher is there |
| Hands.Hand.CheckCombination | CardBluffServer/combinations.cpp:540-564 | for every well-formed claim, true exactly when the claim holds of the cards; the final assertion is not reached |
| Hands.Hand.IsBestCombination | CardBluffServer/combinations.cpp:570-584 | for every well-formed claim, true exactly when the claim is a combination of poker, holds of the cards and is not beaten |
| Claims.LessIsStrictWeakOrder | CardBluffServer/combinations.cpp:679-693 | the comparison of claims is a strict weak order whose ties are exactly equality up to the suit |
| Claims.LessMeans | CardBluffServer/combinations.cpp:679-693 | type first, then ranks; among flushes the lower rank is the greater claim |
| Claims.GreatestUpToSuit | CardBluffServer/combinations.cpp:570-584 | among true claims the unbeaten ones are exactly those that equal an unbeaten one up to the suit |
| Claims.BestIsWritable | CardBluffServer/combinations.cpp:585-646 | a best combination is within the parser's limits; in particular a best flush is at least seven-high |
| Claims.BlockSucceedsExactly | CardBluffServer/combinations.cpp:570-578 | the evaluator accepts a playable claim as the best one if and only if it is true, no true combination beats it, its pairs named by the higher one, and it is neither two pairs nor a full house of equal ranks |
| Claims.BestTwoPairsCannotBeBlocked | CardBluffServer/combinations.cpp:654-655 | among ten cards that can be dealt in a first round, five pairs, the best claim, as the parser delivers it, is not accepted as the best |
| Claims.EqualFullHouseCannotBeBlocked | CardBluffServer/combinations.cpp:298-309 | among ten cards that can be dealt in a first round, three aces and seven other ranks, a full house of aces over aces is playable, true and above every true combination of poker, and is not accepted as the best |
| Ladder.RungFollowsOrder | CardBluffServer/combinations.cpp:679-693 | a claim that can be played is less than another exactly when it stands on a lower one of 327 rungs |
| Ladder.RoundIsBounded | CardBluffServer/game.cpp:437-451 | claims that each beat the one before are at most 327 in number |
| Ladder.LongestRoundExists | CardBluffServer/game.cpp:437-451 | there is a round of 327 claims |
| ClaimText.ParseMCommand | CardBluffServer/combinations.cpp:585-658 | the parser answers what `Parse` says, case by case, with no index outside the text |
| ClaimText.ParseAfterRanks | CardBluffServer/combinations.cpp:623-657 | the parser's answer once all rank symbols are read |
| ClaimText.CheckLimits | CardBluffServer/combinations.cpp:638-657 | of the claims a text can spell, exactly those within the limits on straights, flushes and pairs are accepted, and each is delivered with its two pairs sorted |
| ClaimText.FormatMCommand | CardBluffServer/combinations.cpp:660-677 | for every claim but NOTHING whose ranks and suit have symbols, the prefix and the symbols of the claim |
| ClaimText.ParseIsDenotation | CardBluffServer/combinations.cpp:585-658 | a text is accepted with a result exactly when it spells a claim within the limits and the result is that claim with its pairs sorted |
| ClaimText.ParsedIsPlayable | CardBluffServer/combinations.cpp:585-658 | every accepted text has exactly the length the tables fix, and its result is a claim the evaluator can check |
| Refusals.AnswersExplain | CardBluffServer/combinations.cpp:585-658 | whatever the parser answers says why: the first character with which the text stops being the beginning of a claim, what is missing behind a beginning, what is left over behind a claim, or the limit that a spelled claim breaks |
| Refusals.FitsCanBecome | CardBluffServer/combinations.cpp:594-637 | a text can still be completed to a claim exactly if each of its characters may stand at its place |
| ClaimText.PrintThenParse | CardBluffServer/combinations.cpp:585-677 | a printed claim is accepted exactly if it is within the parser's limits, and then the result is the claim with its two pairs sorted |
| ClaimText.ParseThenPrint | CardBluffServer/combinations.cpp:585-677 | printing what was read and reading it again changes nothing |
| ClaimText.AnnouncedBestParses | CardBluffServer/game.cpp:426-435 | the announced best combination of any hand, stripped as a move is stripped, is accepted and means the same claim |
| TypedLines.SymbolsAsShown | CardBluffServer/combinations.cpp:74-118 | the parser takes a character for a rank exactly if clients show it on the cards of that rank, or its small letter, and for a suit exactly if it is the number they show |
| TypedLines.TypesAreCounted | CardBluffServer/combinations.cpp:128-139 | the symbols of the types count them from nought, the weakest first |
| Sha256Standard.PackUnpackInverse | CardBluffServer/sha256/sha256.h:39-52 | storing and loading a word as four bytes, high byte first, are inverse in both directions |
| Sha256Constants.PackIsNumber | CardBluffServer/sha256/sha256.h:46-52 | a loaded word is the number that its four bytes make in base 256, the first one being the most significant |
| Sha256Constants.ChooseBitByBit | CardBluffServer/sha256/sha256.h:33 | at any set of bit positions the function takes its second argument where the first is one, and its third where it is zero |
| Sha256Constants.MajorityBitByBit | CardBluffServer/sha256/sha256.h:34 | at any set of bit positions it takes what two of its arguments agree on |
| Sha256Constants.ConstantsAreCubeRoots | CardBluffServer/sha256/sha256.cpp:5-21 | each of the 64 constants holds the first 32 bits of the fractional part of the cube root of its prime (section 4.2.2) |
| Sha256Constants.InitialIsSquareRoots | CardBluffServer/sha256/sha256.cpp:61-73 | the initial registers are those of the square roots of the first eight primes (section 5.3.3) |
| Sha256Example.DigestOfAbc | CardBluffServer/sha256/sha256.cpp:31-115 | the digest of the letters "abc" is the one that the standard's example gives |
| Sha256Stream.MacrosAreSigmas | CardBluffServer/sha256/sha256.h:30-38 | the shift-and-or rotations make the four macros the sigma functions of FIPS 180-4 section 4.1.2 |
| Sha256Stream.SHA256.RoundInPlace | CardBluffServer/sha256/sha256.cpp:42-54 | rotating the eight registers in place is one round of FIPS 180-4 section 6.2.2 |
| Sha256Stream.SHA256.FillSchedule | CardBluffServer/sha256/sha256.cpp:33-38 | the 64 words are the message schedule of the block |
| Sha256Stream.SHA256.RunRounds | CardBluffServer/sha256/sha256.cpp:42-54 | 64 rounds with the standard's constants and schedule |
| Sha256Stream.SHA256.CompressBlock | CardBluffServer/sha256/sha256.cpp:32-57 | one block is compressed as in section 6.2.2 |
| Sha256Stream.SHA256.Transform | CardBluffServer/sha256/sha256.cpp:23-59 | for any number of blocks, the registers become those of the standard's compression iterated over the blocks |
| Sha256Stream.SHA256.Init | CardBluffServer/sha256/sha256.cpp:61-73 | the registers are the initial value of section 5.3.3 and nothing is buffered |
| Sha256Stream.SHA256.Update | CardBluffServer/sha256/sha256.cpp:75-96 | the message is appended to what was absorbed; every write stays in the buffer |
| Sha256Stream.SHA256.UpdateBlocks | CardBluffServer/sha256/sha256.cpp:87-95 | a filled buffer and all whole blocks are hashed, the rest waits in the buffer, and the byte count wraps as the original's does |
| Sha256Stream.SHA256.Pad | CardBluffServer/sha256/sha256.cpp:104-110 | the buffer ends in the marker, zeros and the length, all within its 128 bytes |
| Sha256Stream.SHA256.StoreWords | CardBluffServer/sha256/sha256.cpp:112-114 | the digest is the registers in order, high byte first |
| Sha256Stream.SHA256.Final | CardBluffServer/sha256/sha256.cpp:98-115 | the digest is that of everything absorbed with the stored padding, in one or two blocks |
| Sha256Stream.StoredPaddingIsStandard | CardBluffServer/sha256/sha256.cpp:104-110 | the stored padding is that of section 5.1.1 exactly for messages below 2^29 bytes |
| Sha256Stream.HashPieces | CardBluffServer/sha256/sha256.cpp:61-115 | however a message below 2^29 bytes is split into updates, the digest is its SHA-256 |
| Sha256Stream.Sha256OneCall | CardBluffServer/sha256/sha256.cpp:117-125 | the one-call form computes the SHA-256 of its input |
| Sha256Standard.ZeroBytesIsLeast | CardBluffServer/sha256/sha256.cpp:104-110 | section 5.1.1 asks for the smallest number of zero bytes that fills a block, which is what one or two blocks leave room for |
| Sha256Standard.HashBlocksConcat | CardBluffServer/sha256/sha256.cpp:31-58 | hashing blocks in two portions is hashing them in one |
| SharedMutex.WriteBitOperations | CardBluffServer/include/mingw.shared_mutex.h:69-151 | on 16-bit counters testing, setting and masking the top bit are comparison with, addition and subtraction of the write bit |
| SharedMutex.StepKeepsInv | CardBluffServer/include/mingw.shared_mutex.h:97-191 | every step of every thread keeps: counter = readers + the write bit if a writer is pending or holding, at most one such writer, fewer readers than the write bit |
| SharedMutex.RunsKeepInv | CardBluffServer/include/mingw.shared_mutex.h:79-191 | the invariant holds in every state of every run |
| SharedMutex.MutualExclusion | CardBluffServer/include/mingw.shared_mutex.h:97-191 | in every state of every run: one writer at most, no readers beside it, the counter is exact, and no error check has fired |
| SharedMutex.TryLockIsExact | CardBluffServer/include/mingw.shared_mutex.h:164-178 | it succeeds exactly when nobody holds the lock and no writer waits for it |
| SharedMutex.TryLockSharedIsExact | CardBluffServer/include/mingw.shared_mutex.h:119-128 | its exchange lets the thread in exactly when no writer waits or holds, the readers are as many as were read, and one more can be counted |
| SharedMutex.UndisturbedTryLockShared | CardBluffServer/include/mingw.shared_mutex.h:119-128 | with no step between its load and its exchange it succeeds exactly when no writer waits or holds and one more reader can be counted, and otherwise changes nothing |
| SharedMutex.LockSharedIsExact | CardBluffServer/include/mingw.shared_mutex.h:97-117 | its exchange, unless it fails spuriously, lets the thread in exactly when no writer waits or holds and the readers are as many as were read |
| SharedMutex.LockIsExact | CardBluffServer/include/mingw.shared_mutex.h:142-158 | a writer gets the write bit exactly when no other has it, and sees the bare write bit exactly when no reader is left |
| SharedMutex.CallsEndWithTheLock | CardBluffServer/include/mingw.shared_mutex.h:97-191 | `lock_shared` is left only with a share of the lock and `lock` only with the lock |
| LockProgress.OthersLeave | CardBluffServer/include/mingw.shared_mutex.h:130-191 | from every state with the invariant, all other threads that hold the lock or have its write bit can leave |
| LockProgress.WaiterCanEnter | CardBluffServer/include/mingw.shared_mutex.h:97-158 | from every state with the invariant, a thread that waits in `lock_shared` can become a reader and one that waits in `lock` the writer |
| SharedMutex.ClaimKeepsReadersOut | CardBluffServer/include/mingw.shared_mutex.h:142-158 | while a writer waits or holds, no thread becomes a reader |
| SharedMutex.IdleLockIsFree | CardBluffServer/include/mingw.shared_mutex.h:91-95 | when every thread has left, the counter is zero, as the destructor asserts |
| SharedMutex.RefinesLock | CardBluffServer/include/mingw.shared_mutex.h:97-191 | every step is a step of a reader/writer lock without a counter, or changes nothing there |
| CondVar.StepKeepsInv | CardBluffServer/include/mingw.condition_variable.h:64-145 | every step keeps: the waiter count is the number of registered threads, and the mutex and the phase of its holder agree |
| CondVar.RunsKeepInv | CardBluffServer/include/mingw.condition_variable.h:58-145 | the invariant holds in every state of every run, timeouts included |
| CondVar.RunsKeepQuiet | CardBluffServer/include/mingw.condition_variable.h:64-145 | in every state of every run without timeouts, no release is outstanding while the mutex is free, and never more than the phase of the notifier allows |
| CondVar.NotifyAllReleasesEverybody | CardBluffServer/include/mingw.condition_variable.h:110-130 | in every run, timeouts included: when the call is about to return nobody is registered, its assertion never fails, and no token is left if it found somebody registered |
| CondVar.NotifyAllServesEverybody | CardBluffServer/include/mingw.condition_variable.h:116-122 | in every run without timeouts, while the call waits for its waiters there is exactly one release for each registered thread, if there are at most 65535 threads; with more, there may be none |
| CallPaths.WaitsTakeTheirCourse | CardBluffServer/include/mingw.condition_variable.h:65-77 | a wait is left only after it blocked, by a token that it takes or by its timeout |
| CallPaths.NotifiersBegin | CardBluffServer/include/mingw.condition_variable.h:110-133 | a call of a notifier begins by taking the free mutex |
| CallPaths.NotifiersEnd | CardBluffServer/include/mingw.condition_variable.h:110-145 | it ends only at one of its two ends, and changes nothing then but to free the mutex |
| Wakeups.NoWakeupIsLost | CardBluffServer/include/mingw.condition_variable.h:72-143 | in every run: while a notifier waits for the event although the count is where it wants it, the event is set or a thread that has left is about to set it |
| Wakeups.WakeupsArePaid | CardBluffServer/include/mingw.condition_variable.h:72-143 | in every run notifiers are woken by the event at most as often as waiters have left |
| CondVar.NotifyOneReleasesExactlyOne | CardBluffServer/include/mingw.condition_variable.h:131-145 | in every run without timeouts: the call lets exactly one registered thread go, its assertion never fails, and no token is left while the mutex is free |
| CondVar.TimeoutCanBreakAssertion | CardBluffServer/include/mingw.condition_variable.h:136-144 | a run with one timed wait in which the assertion of `notify_one` fails |
| CondVar.TimeoutCanLeaveToken | CardBluffServer/include/mingw.condition_variable.h:136-145 | a run with one timed wait after which a token is left although the mutex is free |
| NotifyOne.NotifyOneDeliversExactly | CardBluffServer/include/mingw.condition_variable.h:131-145 | when the count is about to be read, timeouts included: in all continuations the assertion holds, the call can always return, and on return exactly one registered thread has left and no release is outstanding, if and only if then no token is left, somebody waits, and all who wait do so without a timeout |
| NotifyOne.NotifyOneKeepsPromiseExactly | CardBluffServer/include/mingw.condition_variable.h:133-145 | the same from the moment the call gets the mutex, before it looks at anything: every continuation delivers, or returns early with nobody registered, if and only if nobody waits or the condition above holds |
| NotifyOne.NotifyOneCanReturnExactly | CardBluffServer/include/mingw.condition_variable.h:136-143 | from that moment the call can return at all if and only if the count is not zero |
| CleanNotify.CleanCallDelivers | CardBluffServer/include/mingw.condition_variable.h:64-94 | under that condition no timeout is possible until the call returns, and every continuation delivers |
| NotifyOne.TokenIsLeft | CardBluffServer/include/mingw.condition_variable.h:133-145 | whenever a registered thread may leave without using the call's own release, a continuation returns with the mutex free and a token left |
| NotifyOne.StuckForever | CardBluffServer/include/mingw.condition_variable.h:138-143 | once the count was read as zero, no step of any thread gets the call out of its loop, and the mutex stays held |
| NotifyOne.StuckInEveryRun | CardBluffServer/include/mingw.condition_variable.h:138-143 | so it stays in every continuation of every run |
| NotifyOne.NotifierCanGetStuck | CardBluffServer/include/mingw.condition_variable.h:134-138 | a run with one timed waiter and one notifier that leads there |
| NotifyAll.NotifyAllCleansUpExactly | CardBluffServer/include/mingw.condition_variable.h:112-130 | from the moment the call gets the mutex, timeouts included: at every return that can follow nobody is registered and the semaphore is zero, if and only if there are no more tokens than threads waiting without a timeout |
| NotifyAll.CoveredCallCleansUp | CardBluffServer/include/mingw.condition_variable.h:112-130 | under that condition other threads keep it until the call looks, so that finding nobody means finding no token |
| NotifyAll.SpilledTokenIsLeft | CardBluffServer/include/mingw.condition_variable.h:113-114 | otherwise all waiters can leave, by timeouts and tokens, before the call looks, and it returns early with a token left |
| NotifyAll.NotifyAllCanLeaveToken | CardBluffServer/include/mingw.condition_variable.h:113-114 | a run with two timed waiters, a `notify_one` and a `notify_all` in which that happens |
| NotifyAllReturns.NotifyAllCanReturnExactly | CardBluffServer/include/mingw.condition_variable.h:110-130 | at every point of the call, timeouts included: it can return if and only if the threads waiting without a timeout are no more than the tokens there are and those it will release, where a release that the semaphore cannot count is none |
| NotifyAllReturns.NotifyAllIsNeverStuckExactly | CardBluffServer/include/mingw.condition_variable.h:112-130 | from the moment the call gets the mutex: it can return from every state that may follow if and only if tokens and registered threads together are at most 65535, or nobody waits without a timeout, or there are tokens for all who wait |
| Shuffle.SwapDown | CardBluffServer/game.cpp:173-174 | the loop with the wrapping byte counter terminates for every length up to 255 and performs exactly the chosen swaps |
| Shuffle.GenerateShuffledArray | CardBluffServer/game.cpp:168-176 | the array is the deck shuffled by the choices made with the random numbers |
| Shuffle.DeckIsPermutation | CardBluffServer/game.cpp:168-176 | whatever the choices, the result is a permutation |
| Shuffle.ShuffleIsFair | CardBluffServer/game.cpp:168-176 | every permutation comes from exactly one list of choices |
| Shuffle.EveryChoiceIsPossible | CardBluffServer/game.cpp:174 | every list of choices is made with some random numbers |
| Shuffle.GenerateCards | CardBluffServer/game.cpp:178-190 | two disjoint hands of the required sizes from the front of the deck, and an evaluator that holds exactly their union |
| Shuffle.EveryDealIsPossible | CardBluffServer/game.cpp:168-190 | any list of different cards is dealt with some random numbers |
| Rules.LevelAfterLoss | CardBluffServer/game.cpp:193-225 | after a loss the game goes on exactly when the card numbers are level again, is tied exactly at 26 cards each, and can be lost only by the player who just lost the round |
| GameRuns.ProcessIsGood | CardBluffServer/game.cpp:67-138 | one pass with any command, any clock and any random numbers keeps the invariant of the game or ends it properly |
| GameRuns.GameKeepsInv | CardBluffServer/game.cpp:67-230 | every state of every game up to its end: hands of the right sizes without a common card, claims that rise, players who take turns within and between rounds, card numbers that count the losses, exactly one final result and that the last one |
| GameRuns.EveryUnfinishedStateIsReady | CardBluffServer/game.cpp:382-470 | in every unfinished state the claim can be checked and compared and the deal fits, so no assertion of the evaluator is reached |
| GameRuns.GameIsBounded | CardBluffServer/game.cpp:178-230 | in every game: card numbers from 5 to 26, both below 10 or at most one apart, 51 cards dealt at most, 42 lost rounds at most, 327 claims in a round at most |
| GameRuns.WhyGamesEnd | CardBluffServer/game.cpp:93-137 | a game ends by card numbers against the loser of the last round, by a player who leaves, by agreement, or by a timeout before the first loss; a player who leaves ends it at once |
| GameRuns.AssertionBreaks | CardBluffServer/game.cpp:257-262 | the assertions of `game_result` fail exactly when the player who already has 26 cards loses; the other one then has 25 |
| GameRuns.OutOfTurn | CardBluffServer/game.cpp:319-478 | a pass with a line of the player who is not on move: cards, claims and turns stay, his wish for a tie is noted, the game ends if he concedes or both then wish for a tie, and otherwise only the clock acts |
| GameRuns.RevealDecides | CardBluffServer/game.cpp:385-404 | a reveal is refused before the first claim; after it the round is lost by the player who reveals if the claim is true, and by the other one if not |
| GameRuns.BlockDecides | CardBluffServer/game.cpp:405-429 | a block ties the round exactly when the claim is the best one and not two pairs; otherwise the blocking player loses the round |
| TypedLines.EndingWords | CardBluffServer/game.cpp:317-330 | a line concedes or asks for a tie exactly if it reads "/concede", "/tie" or "/draw" letter by letter, in either case and with any blanks |
| TypedLines.AskingWords | CardBluffServer/game.cpp:346-374 | the same for the four questions |
| TypedLines.RoundWords | CardBluffServer/game.cpp:385-405 | the same for "/r" and "/b" |
| Passes.ConcedeLoses | CardBluffServer/game.cpp:317-329 | such a line of either player ends the game with his loss and changes nothing else |
| Passes.TieNeedsBoth | CardBluffServer/game.cpp:330-345 | it notes the wish of either player, and the game ends in a tie exactly if the other one has wished for it too |
| Passes.QuestionsChangeNothing | CardBluffServer/game.cpp:346-381 | a question of either player changes nothing |
| Passes.RevealTyped | CardBluffServer/game.cpp:385-404 | the whole state after "/r": unchanged out of turn or before the first claim, and otherwise the round is lost by the player whom the truth of the claim tells against |
| Passes.BlockTyped | CardBluffServer/game.cpp:405-429 | the whole state after "/b": unchanged out of turn or before the first claim, a new round if the claim is a best combination of poker, and otherwise the round is lost by the player who blocks |
| Passes.ClaimIsMade | CardBluffServer/game.cpp:430-455 | a claim of the player on move that beats the one on the table is made: both wishes are gone, the other one is on move, and the last move is the command, a blank and the claim as it was typed |
| Passes.ClaimIsRefused | CardBluffServer/game.cpp:430-470 | out of turn, or if the line denotes no claim that beats the one on the table, nothing changes |
| Passes.OtherLinesChangeNothing | CardBluffServer/game.cpp:471-478 | any other line changes nothing |
| Passes.EventsMean | CardBluffServer/game.cpp:79-114 | a disconnect loses the game; a reconnect and an empty queue change nothing |
| Passes.ClockDecides | CardBluffServer/game.cpp:119-133 | the clock is looked at after the command: if time is up and the game goes on, it is tied before the first lost round, and later the player on move loses the round |
| Passes.LossMeans | CardBluffServer/game.cpp:193-225 | the whole state after a lost round: one card more; a tie at 26 cards each; a new round with nothing on the table, no wishes and the other player to begin if both have fewer than 10 cards or they differ by at most one; otherwise the game is lost |
| LongGames.EveryLegalOrderHappens | CardBluffServer/game.cpp:67-230 | for every legal order of losses there is a game, from its first deal on, in which rounds are lost in that order |
| LongGames.OrdersOfLosses | CardBluffServer/game.cpp:193-225 | the orders in which rounds are lost are exactly those in which the card numbers are level before each loss |
| LongGames.LongestGame | CardBluffServer/game.cpp:193-225 | there is a game with 42 lost rounds; it ends in a tie at 26 cards each |
| LongGames.AssertionCanFail | CardBluffServer/game.cpp:257-262 | there is a game in which the assertions of `game_result` fail, at 27 against 25 cards |
| LongGames.BestPairsLoseTheBlock | CardBluffServer/game.cpp:405-429 | there is a game in which the claim on the table is, up to the order of its pairs, the best of the union, and yet the player who blocks it loses the round |
| LongGames.EqualFullHouseLosesTheBlock | CardBluffServer/game.cpp:405-429 | there is a game in which the claim on the table is a full house of equal ranks that no true combination beats, and yet the player who blocks it loses the round |
| LongGames.PrintedClaimIsOrder | CardBluffServer/game.cpp:306-312 | a printed claim entered as a command is the order to make that claim |
| GameEngine.Game.StartRound | CardBluffServer/game.cpp:150-166 | the whole new state of a round: no claim, no wish for a tie, the other player begins, new hands and their union |
| GameEngine.Game.DealCards | CardBluffServer/game.cpp:178-190 | both hands come from the front of the shuffled deck, and a new evaluator holds their union |
| GameEngine.Game.PlayerLosesRound | CardBluffServer/game.cpp:193-225 | the object does what the rules say about a lost round, and is ready for play again or finished |
| GameEngine.Game.TieInRound | CardBluffServer/game.cpp:226-230 | the object does what the rules say about a tied round |
| GameEngine.Game.AskForTie | CardBluffServer/game.cpp:327-345 | the wish is noted, and the game ends in a tie once both players wish it |
| GameEngine.Game.EnterClaim | CardBluffServer/game.cpp:430-470 | a claim is accepted exactly when it parses and beats the current one, and then the other player moves |
| GameEngine.Game.Reveal | CardBluffServer/game.cpp:385-404 | the claim is checked on the evaluator's indexes, which decides the round as the meaning of the claim does |
| GameEngine.Game.Block | CardBluffServer/game.cpp:405-429 | the same for blocking; a refused block announces a best combination, and nothing is announced otherwise |
| GameEngine.Game.AnnounceBest | CardBluffServer/game.cpp:426-427 | the union always has a best combination that can be printed |
| GameEngine.Game.MakeMove | CardBluffServer/game.cpp:306-478 | a typed line, without its spaces and compared in lower case, does to the object exactly what the rules say |
| GameEngine.Game.Process | CardBluffServer/game.cpp:67-138 | one pass follows the rules; it reports termination exactly when the command ended the game, not when the timeout did |
| GameEngine.PlayGame | CardBluffServer/main.cpp:86-95 | the states of a played object form a game, so all that is proved about games holds for it |
| Text.RemoveSpaceCharacters | CardBluffServer/util/util.cpp:56-63 | the text without spaces and tabs |
| Text.EscapeSpecialChars | CardBluffServer/util/util.cpp:65-75 | a backslash in front of every character that highlighting interprets |
| Markup.WinPrintWithHighlight | CardBluffClient/text_io.cpp:204-240 | the streaming console highlighter shows the characters and highlighting that the markup means |
| Markup.HighlightString | CardBluffClientWeb/js/textIO.js:57-112 | the buffering web highlighter shows the same |
| Markup.ClientsAgree | CardBluffClient/text_io.cpp:204-240 | both clients show a text alike if and only if it has no zero character |
| Markup.RenderEscaped | CardBluffServer/util/util.cpp:65-75 | an escaped text followed by any other shows itself, in the current highlighting, followed by what the other shows |
| Markup.RenderColored | CardBluffServer/util/util.cpp:77-79 | a coloured escaped text highlights exactly itself, whatever follows |
| Markup.MarksShow | CardBluffClient/text_io.cpp:207-233 | what a percent sign, a backslash in front of a percent sign, a backslash or another character, and a backslash at the end show |
| Utf8Frames.StringToUtf8Array | CardBluffClientWeb/js/main.js:182-219 | the encoding of the text, filled up with zeros to the required length |
| Utf8Frames.Utf8ArrayToString | CardBluffClientWeb/js/main.js:142-180 | the decoder reads what `DecodeFrom` says, up to the first zero or the end |
| Utf8Frames.DecodeEncode | CardBluffClientWeb/js/main.js:142-219 | a terminated encoding followed by anything is read back as the text exactly when the text has no zero unit |
| Utf8Frames.EncodeIsUtf8 | CardBluffClientWeb/js/main.js:187-202 | the encoding of a unit is one of section 3 of RFC 3629 exactly when the unit is not a surrogate |
| Utf8Frames.Utf8IsUnique | CardBluffClientWeb/js/main.js:187-202 | that section leaves no other choice of bytes |
| Utf8Frames.ServerMessageHandler | CardBluffClientWeb/js/main.js:221-249 | the frame loop reads one text from each 256 bytes |
| Utf8Frames.OneTextPerFrame | CardBluffClientWeb/js/main.js:221-249 | there is one text for each 256 bytes that have begun |
| Utf8Frames.FramesRoundTrip | CardBluffClientWeb/js/main.js:221-249 | any list of texts without zero units, each fitting its frame, is recovered exactly, whatever stands behind their terminators |
| CardMessage.CardsToString | CardBluffServer/game.cpp:547-579 | the message written for a list of cards |
| CardMessage.AddLineColored | CardBluffClientWeb/js/textIO.js:143-175 | the web client's loop over indexes reads what `WebParse` says, refusals included |
| CardMessage.WcstokR | CardBluffClient/text_io.cpp:13-41 | the tokenizer finds the next token, writes one zero behind it and nothing else |
| CardMessage.CutToken | CardBluffClient/text_io.cpp:13-41 | one call on a buffer whose rest is still the message gives the next token of the message and leaves the rest behind it untouched |
| CardMessage.OutputCardList | CardBluffClient/text_io.cpp:490-506 | the loop over the cards, the last of which is scanned out of the whole rest |
| CardMessage.OutputCards | CardBluffClient/text_io.cpp:471-506 | the console client's loop over tokens, with zeros written into its copy, reads what `ConsoleParse` says of the untouched text |
| CardMessage.ClientsReadMessage | CardBluffServer/game.cpp:547-579 | for any text behind the message, colons included, each client recovers exactly the cards and the text if and only if there is a card |
| CardMessage.ClientsMissEmptyMessage | CardBluffClient/text_io.cpp:484-506 | without cards neither client gives back the text, whatever it is |
| CardMessage.ViewsDetermineCards | CardBluffServer/game.cpp:553-574 | different cards look different to the clients |

## Left out

- CondVar.NotifyOneReleasesExactlyOne: speaks of whole runs in which no wait times out; what timeouts change is in the module `NotifyOne`.
- CondVar.RunsKeepQuiet: likewise.
- Sha256Stream.SHA256.Update: one piece is below 2^31 bytes, because the original counts blocks in a signed integer.
- Sha256Stream.Sha256OneCall: likewise.
- GameEngine.Game.Process: is called only while the game is unfinished; after a timeout has ended a game the original may handle one more queued command, and that pass is not modelled.
- GameEngine.Game.MakeMove: likewise asks for an unfinished game.
- GameEngine.PlayGame: likewise stops when the game has ended.
- CardMessage.CardsToString: asks that the message fits the server's buffer of 1000 characters, which holds for every hand.
- The other `find_every_...` functions: the engine does not call them; they list what the modelled searches look through, by double loops (full houses, two pairs), the window loop (straights) or a copy of an index.
- The single-rank checks as separate members; `find_best_...` for one rank is one function over the list number.
- The empty hand of the default constructor, which is the constructor from an empty list.
- Lower-casing of characters outside ASCII in commands.
- CardMessage.AddLineColored: no rounding of numbers beyond 2^53.
- CardMessage.OutputCards: only the blanks of the C locale, and no numbers of 2^32 or more, for which the conversion is undefined.
- CardMessage.OutputCardList: likewise.
- The hexadecimal print of the digest.
- Memory orders of the atomics, builds without assertions in the lock, and recursion checks; each access is one sequentially consistent step.
- That waiting threads are scheduled: what is proved is that they can go on, not that they will; failures of the operating system's wait calls, and the user's own lock that a wait releases and takes again.
- Messages to the players other than the announced best combination, the logger, the clock itself, ratings and the database.
- The command queue with its mutex, the mutual waking of threads, sockets, matching of players and reconnecting, beyond the fact that a reconnect changes nothing in the game.
- How evenly the random generator's remainders are distributed.
- Drawing: colours, windows, HTML escaping and line ends; a shown text is a sequence of characters with their highlighting.
- Surrogate pairs, which the web encoder writes as two three-byte sequences and the decoder reads back.
- Console editing, logins, the nickname rules and the copy of the hash in the client.
