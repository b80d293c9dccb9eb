# Simple DirectMedia Layer: proofs about its core

This project models nine parts of SDL in Dafny and proves what they promise.
Code that updates state is written as classes and methods on arrays, linked
objects and counters; each of these is proved against a specification
function, and the promises are lemmas about those functions over every input,
every run or every interleaving.

- **Subsystems** (`src/SDL.c`). `SubsystemModel` is the reference-counting
  protocol of init and quit, with any outcome of every backend init and a trace
  of backend calls. `SubsystemState` is the C code: a byte array of 32 counters,
  flag words, mutual recursion. `SubsystemLaws` has the counters in closed form,
  `SubsystemRollback` when a failed init restores them, `SubsystemRuns` what any
  run keeps, `SubsystemLedger` what runs keep in which clients return only what
  they took, `SubsystemLeaks` what becomes of the references failed inits leave
  behind, `SubsystemShutdown` the order of the quit calls in SDL_Quit. `BitWords`
  is the portable bit search.
- **Channel converters** (`build-scripts/gen_audio_channel_conversion.c`). A
  compiler from matrices to small programs that run in place on one buffer.
  `ConverterGenerator` is the compiler, `ConverterProgram` its target language
  with an in-place interpreter, `ConverterCorrectness` the proof, `ConverterTable`
  the 64 matrices, `ConverterSpeakers` what each of them promises the loudspeakers,
  `ConverterBalance` what follows for the converters.
- **Resampler filter** (`build-scripts/gen_audio_resampler_filter.c`). The Bessel
  series with its stopping test and the Kaiser window, over exact reals
  (`KaiserFilter`, `RealFacts`).
- **Hash table** (`src/SDL_hashtable.c`). Linked buckets that refine a map from
  keys to stacks, with both iterators (`HashTable`, `MapTable`).
- **Property store** (`src/SDL_properties.c`). A table of groups of typed values
  with cleanup callbacks and cached renderings, on two levels of that hash table
  (`PropertyValues`, `PropertyGroup`, `Properties`), whole runs of it up to
  shutdown (`PropertyRuns`), and what the getters say of one another
  (`PropertyReadings`).
- **Hints** (`src/SDL_hints.c`). `HintModel` is the state machine on values,
  `HintLaws` the laws over its runs, `HintAnswers` when calls succeed and what
  registering does, `HintNodes` and `HintState` the linked lists proved to follow
  it, `HintRuns` whole runs on the lists. Watchers may unregister themselves when
  called.
- **Old names** (`build-scripts/rename_api.py`, `build-scripts/rename_symbols.py`).
  The line editor, its reader, and the laws of both (`OldNames`, `OldNamesLaws`,
  `OldNamesReader`, `OldNamesOrder`, `OldNamesPlacement`, `OldNamesSections`,
  `OldNamesLayout`).
- **GUIDs** (`src/SDL_guid.c`): printing into a buffer and parsing (`Guid`).
- **Object ids** (`src/SDL.c`): the atomic counter under any interleaving
  (`ObjectIds`).

`Wrappers` and `Sequences` hold what several modules share.

`dafny verify dfyconfig.toml` checks everything.

## Where the promise does not hold

The code is modelled as it is. Where a promise fails, a lemma gives the exact
condition or a concrete case.

- A failed `SDL_InitSubSystem` keeps the reference that the failing step took on
  the subsystem it depends on (`SubsystemLaws.FailedInitLeaks`). The counters are
  sure to be restored if and only if every requested subsystem with a dependency
  is up before the call: `SubsystemRollback.RollsBackIffDependentsUp`.
  `SubsystemRollback.LeakExample` leaks, and in a run of balanced calls such a
  subsystem never goes down again: `SubsystemLeaks.LeakedStaysUp`.
- `SDL_Quit` calls a quit routine twice when JOYSTICK or EVENTS has several
  references and a dependent that is up: `SubsystemRuns.ShutdownStopsAll`. It quits
  EVENTS or JOYSTICK before a dependent of theirs unless JOYSTICK, AUDIO and VIDEO
  together get at most one quit call: `SubsystemShutdown.ShutdownOrdered` has the
  exact condition, `SubsystemShutdown.ShutdownExample` a run that shows both.
- A matrix that reads an input channel, not hoisted into a local, after it was
  overwritten gives a wrong converter: `ConverterCorrectness.ConvertsIffSafe`. All
  matrices of the table are free of this.
- Overriding an environment variable with no value, where nothing overrides it
  yet, changes what `SDL_GetHint` returns but calls no watcher:
  `HintLaws.StepKeeps` shows that this is the only such step, `HintLaws.StaleExample`
  that it happens.
- `SDL_GetNextObjectID` can return zero when the other threads draw one id less
  than a multiple of 2^32 between its two attempts: `ObjectIds.ZeroExactlyWhenOutrun`
  and `ObjectIds.ZeroHappens`.
- A define of the same old name that stands behind the new one wins when the list of
  old names is read: `OldNamesReader.ReaderSeesTheNewName` has the condition,
  `OldNamesPlacement.SortedReaderSeesTheNewName` gives it by the order of sections
  and lines when the list is sorted, `OldNamesReader.AnotherDefineWins` is an example.

## Model

| member | source | states |
|---|---|---|
| SubsystemLaws.InitCounts | src/SDL.c:210-378 | a successful init adds one reference per requested flag plus exactly the implied ones: one on JOYSTICK for a GAMEPAD that was down, one on EVENTS for each of VIDEO, AUDIO, JOYSTICK that was down |
| SubsystemLaws.QuitCounts | src/SDL.c:394-474 | a quit outside SDL_Quit takes back exactly the mirror image of that, never below zero, through all recursive quits |
| SubsystemLaws.InitThenQuitRestores | src/SDL.c:178-474 | init then quit of any flag set restores every counter from any starting counters and any backend results |
| SubsystemLaws.FailedInitLeaks | src/SDL.c:250-386 | a failed init leaves the counters of one successful init of the dependency of the backend that failed; that backend was down before the call, and requested or the dependency of a requested one that was down; the counters are restored if and only if it has no dependency |
| SubsystemRollback.RollsBackIffDependentsUp | src/SDL.c:178-387 | a failed init restores the counters under every outcome of the backends if and only if each requested subsystem that depends on another was up before the call |
| SubsystemRollback.LeakExample | src/SDL.c:244-264 | a first init of VIDEO whose backend fails leaves EVENTS up with one reference |
| SubsystemLaws.InitSingle | src/SDL.c:159-171 | initialising one subsystem through the recursive entry point is exactly its own block |
| SubsystemRuns.EveryRunAlternates | src/SDL.c:116-538 | in every run, balanced or not, a counter is positive exactly while the backend is up; a backend starts only when down and after its dependency; without SDL_Quit it stops only when up |
| SubsystemRuns.ShutdownStopsAll | src/SDL.c:506-538 | SDL_Quit clears all counters, calls the quit routine of exactly the subsystems that were up, and calls one twice if and only if JOYSTICK or EVENTS has several references and a dependent that is up |
| SubsystemRuns.RunKeeps | src/SDL.c:116-538 | the invariant behind it, from any sound state |
| SubsystemLedger.EveryBalancedRunOwes | src/SDL.c:247-473 | in runs that quit only what they initialised, the counters are exactly the clients' references, plus one per dependent that is up, plus those that failed inits left behind (none if no init failed), and every quit routine runs while its dependency is up |
| SubsystemLedger.OnlyLeaksLeftUp | src/SDL.c:178-474 | a client that returned everything leaves up exactly the dependencies that failed inits left behind, with exactly those references |
| SubsystemLedger.NothingLeftUp | src/SDL.c:394-474 | a client that returned everything leaves all counters at zero and every backend down if no init failed |
| SubsystemLeaks.LeakedStaysUp | src/SDL.c:178-474 | once a failed init has left a reference behind, JOYSTICK or EVENTS stays up and its quit routine is not called again in the rest of the balanced run |
| SubsystemShutdown.ShutdownOrdered | src/SDL.c:394-538 | SDL_Quit quits every dependent while its dependency is up if and only if nothing is up without its dependency and JOYSTICK, AUDIO and VIDEO together get at most one quit call |
| SubsystemShutdown.BalancedShutdownOrdered | src/SDL.c:394-538 | after a balanced run the number of those calls alone decides it |
| SubsystemShutdown.ShutdownExample | src/SDL.c:506-538 | after one init of GAMEPAD and VIDEO, SDL_Quit makes exactly the quit calls GAMEPAD, JOYSTICK, EVENTS, VIDEO, EVENTS |
| SubsystemState.Subsystems.Increment | src/SDL.c:117-124 | adds one at the highest set bit only, under the source's assertion |
| SubsystemState.Subsystems.Decrement | src/SDL.c:127-133 | takes one at the highest set bit only, stopping at zero |
| SubsystemState.Subsystems.ShouldInit | src/SDL.c:136-141 | true exactly when the counter is zero |
| SubsystemState.Subsystems.ShouldQuit | src/SDL.c:144-155 | true exactly for the last reference, or any reference during SDL_Quit |
| SubsystemState.Subsystems.InitOrIncrement | src/SDL.c:159-171 | follows the protocol's step on counters and trace |
| SubsystemState.Subsystems.InitBlock | src/SDL.c:221-378 | each block follows the protocol's block, the failure path giving its reference back |
| SubsystemState.Subsystems.InitSubSystem | src/SDL.c:178-387 | counters, backend calls and return value are those of the protocol for every flag word |
| SubsystemState.Subsystems.QuitBlock | src/SDL.c:400-473 | each quit block follows the protocol's block |
| SubsystemState.Subsystems.QuitSubSystem | src/SDL.c:394-474 | counters and backend calls are those of the protocol for every flag word, forced or not |
| SubsystemState.Subsystems.Quit | src/SDL.c:506-538 | SDL_Quit is the protocol's shutdown |
| SubsystemState.Subsystems.WasInit | src/SDL.c:476-504 | exactly the requested bits whose counter is positive, zero asking for everything |
| SubsystemState.Subsystems.CollectInitialized | src/SDL.c:490-502 | the shifting loop, stopped at the highest bit asked for, collects all of them |
| SubsystemState.OneBitCollected | src/SDL.c:484-488 | the one-bit fast path gives the loop's answer |
| SubsystemState.HeadroomLeft | src/SDL.c:117-124 | if the whole request fits in the byte counters, no single step overflows |
| BitWords.MostSignificantBitIndex32 | include/SDL3/SDL_bits.h:59-107 | the portable search finds the highest set bit, and all ones for zero |
| BitWords.MsbBounds | include/SDL3/SDL_bits.h:59-107 | 2^r <= x < 2^(r+1) |
| BitWords.MsbIsHighestBit | include/SDL3/SDL_bits.h:59-107 | r is the index found if and only if bit r is set and no higher one is |
| BitWords.OneBitIsPowerOfTwo | include/SDL3/SDL_bits.h:109-116 | the one-bit test holds if and only if exactly one bit is set |
| ConverterGenerator.CountUses | build-scripts/gen_audio_channel_conversion.c:248-262 | counts for each input channel the outputs that use it, stepping once through the matrix |
| ConverterGenerator.WriteConverter | build-scripts/gen_audio_channel_conversion.c:234-400 | the loops emit the specified program: direction, hoisted channels, terms in order, unit and scaled coefficients |
| ConverterProgram.Execute | build-scripts/gen_audio_channel_conversion.c:264-396 | the printed loop, run in place with stepping pointers, is the frame-by-frame meaning of the program |
| ConverterCorrectness.SafeConverts | build-scripts/gen_audio_channel_conversion.c:234-400 | for a safe matrix the in-place program leaves the matrix product of every original frame and touches nothing else, for every frame count |
| ConverterCorrectness.UnsafeFails | build-scripts/gen_audio_channel_conversion.c:298-302 | for any other matrix one frame with an impulse comes out wrong |
| ConverterCorrectness.ConvertsIffSafe | build-scripts/gen_audio_channel_conversion.c:234-400 | the generated program is right on all buffers if and only if the matrix is safe |
| ConverterCorrectness.GeneratedFits | build-scripts/gen_audio_channel_conversion.c:264-396 | a generated program reads only inputs of its frame and locals it declared |
| ConverterCorrectness.ConvertInPlace | build-scripts/gen_audio_channel_conversion.c:234-400 | generating and then running on a buffer gives the out-of-place matrix product |
| ConverterTable.TableIsSafe | build-scripts/gen_audio_channel_conversion.c:55-200 | every matrix of the table is safe and has the right shape |
| ConverterTable.EveryConverterConverts | build-scripts/gen_audio_channel_conversion.c:55-400 | all 56 printed converters compute their matrix product in place on every buffer |
| ConverterSpeakers.MirrorIs | build-scripts/gen_audio_channel_conversion.c:38-47 | in every layout the channels of a left and a right speaker can be exchanged, and twice changes nothing |
| ConverterSpeakers.RowsAreFair | build-scripts/gen_audio_channel_conversion.c:55-200 | in all 64 tables no coefficient is negative, each row sums to at most 1.002, every input is used with a positive coefficient, and exchanging left and right speakers in inputs and outputs changes nothing |
| ConverterBalance.SidesAreAlike | build-scripts/gen_audio_channel_conversion.c:55-400 | every printed converter turns the same sound with left and right exchanged into the same result with left and right exchanged |
| ConverterBalance.NothingGetsLouder | build-scripts/gen_audio_channel_conversion.c:55-400 | no printed converter gives a sample more than 1.002 times the loudest of its frame |
| ConverterBalance.NothingIsDropped | build-scripts/gen_audio_channel_conversion.c:55-200 | every input channel reaches some output with a positive coefficient |
| KaiserFilter.Bessel | build-scripts/gen_audio_resampler_filter.c:55-74 | the loop ends for every argument and returns the sum up to the first small term |
| KaiserFilter.TermClosed | build-scripts/gen_audio_resampler_filter.c:64-71 | the k-th term times (k!)^2 is the k-th power of the squared half argument |
| KaiserFilter.TermIsDiff | build-scripts/gen_audio_resampler_filter.c:64 | the quotient the loop computes is that term |
| KaiserFilter.BoundIsSmall | build-scripts/gen_audio_resampler_filter.c:64-67 | some term falls below the threshold, so the loop has an end |
| KaiserFilter.LaterTermsAreSmall | build-scripts/gen_audio_resampler_filter.c:64-67 | every term after the one that stopped the loop is below the threshold too, and none is larger |
| KaiserFilter.TruncationError | build-scripts/gen_audio_resampler_filter.c:55-74 | any longer partial sum exceeds the result by less than the threshold times (s+1)^2/(2s+1), s terms being kept |
| KaiserFilter.SeriesMono | build-scripts/gen_audio_resampler_filter.c:55-74 | a larger argument never stops earlier and never gives a smaller sum |
| KaiserFilter.WindowFalls | build-scripts/gen_audio_resampler_filter.c:77-90 | the window factor starts at 1, never increases along the table and stays above 1/bessel(beta) |
| KaiserFilter.WindowIs | build-scripts/gen_audio_resampler_filter.c:86 | the factor times bessel(beta) is bessel(beta * r) for the root r of 1 - (i/n)^2 |
| KaiserFilter.KaiserAndSinc | build-scripts/gen_audio_resampler_filter.c:77-90 | entry i of n times bessel(beta) is bessel(beta * sqrt(1 - (i/n)^2)) times sin(x)/x for x = i/512 * pi, for any square root and any sine; entry 0 is 1 |
| HashTable.HashTable.Create | src/SDL_hashtable.c:42-73 | refuses exactly the sizes that fail the bit test, otherwise an empty table |
| HashTable.AcceptsPowersOfTwo | src/SDL_hashtable.c:49-53 | the bit test passes exactly the powers of two |
| HashTable.MaskIsRemainder | src/SDL_hashtable.c:75-78 | masking with a power of two less one is the remainder, so every bucket is reached |
| HashTable.HashTable.Find | src/SDL_hashtable.c:104-120 | finds the newest value of the key, or nothing exactly when its stack is empty |
| HashTable.HashTable.Insert | src/SDL_hashtable.c:81-102 | pushes on the key's stack, refused exactly for a present key that may not stack; no other key changes |
| HashTable.HashTable.Remove | src/SDL_hashtable.c:122-146 | pops the key's newest value and hands it to the nuke callback; no other key changes |
| HashTable.HashTable.IterateKey | src/SDL_hashtable.c:148-165 | the next value of the same key |
| HashTable.HashTable.VisitKey | src/SDL_hashtable.c:148-165 | key iteration from a null iterator gives the whole stack, newest first |
| HashTable.HashTable.Iterate | src/SDL_hashtable.c:167-195 | resuming by rehashing the current key continues at the first entry not yet visited |
| HashTable.HashTable.VisitAll | src/SDL_hashtable.c:167-195 | iteration from a null iterator gives every entry in order, then reports the end |
| HashTable.HashTable.OrderIsEverything | src/SDL_hashtable.c:167-195 | that order holds every stored entry exactly once and, key by key, exactly the stacks |
| HashTable.HashTable.Empty | src/SDL_hashtable.c:197-210 | true exactly when nothing is stored |
| HashTable.HashTable.Destroy | src/SDL_hashtable.c:212-231 | hands every entry to the nuke callback once |
| MapTable.Put | src/SDL_hashtable.c:81-102 | a table that does not stack refuses exactly a present key and otherwise extends its map |
| MapTable.SpellsEachKeyOnce | src/SDL_hashtable.c:167-195 | an iteration of such a table meets every key of its map exactly once, with its value |
| PropertyValues.SumWithout | src/SDL_properties.c:86-100 | what a group or store owes is a sum from which any entry can be taken out first |
| PropertyValues.ClearOwes | src/SDL_properties.c:57-84 | clearing a name in one group releases exactly the cleanup that name owed |
| PropertyValues.SetOwes | src/SDL_properties.c:269-286 | setting a name in one group adds exactly the cleanup of its value |
| PropertyGroup.Group.GetString | src/SDL_properties.c:467-503 | returns the text form of the value; a filled cache is and stays the rendering of its own number or float |
| PropertyGroup.Group.Keys | src/SDL_properties.c:698-707 | each name is reported exactly once |
| PropertyGroup.Group.Destroy | src/SDL_properties.c:81-100 | makes exactly the cleanup calls the group owed |
| Properties.SetMovesCalls | src/SDL_properties.c:254-262 | replacing or clearing a name keeps stored cleanups equal to calls made plus cleanups still owed |
| Properties.DestroyMovesCalls | src/SDL_properties.c:713-722 | so does destroying a group |
| Properties.PropertyStore.CreateProperties | src/SDL_properties.c:143-189 | fails exactly when the next id, which skips zero on wrap-around, is still live; otherwise adds an empty group under an id that is neither zero nor live |
| Properties.PropertyStore.GetGlobalProperties | src/SDL_properties.c:135-141 | creates the global group once and returns it from then on |
| Properties.PropertyStore.FreeProperty | src/SDL_properties.c:57-84 | calls cleanup(userdata, pointer) exactly for a pointer that has a cleanup, when asked to |
| Properties.PropertyStore.PrivateSet | src/SDL_properties.c:230-267 | a refused set changes nothing and calls no cleanup; an accepted one changes one name in one group and calls the cleanup of the value it replaced |
| Properties.PropertyStore.SetPropertyWithCleanup | src/SDL_properties.c:269-286 | stores the pointer and its cleanup, or clears for the null pointer |
| Properties.PropertyStore.SetProperty | src/SDL_properties.c:288-303 | stores a pointer that owes no cleanup, or clears |
| Properties.PropertyStore.SetStringProperty | src/SDL_properties.c:306-325 | stores a string, or clears |
| Properties.PropertyStore.SetValue | src/SDL_properties.c:327-358 | numbers, floats and booleans are stored under their own type |
| Properties.PropertyStore.ClearProperty | src/SDL_properties.c:674-677 | clears one name |
| Properties.PropertyStore.GetPropertyType | src/SDL_properties.c:360-395 | the type of the stored value, invalid when there is none |
| Properties.PropertyStore.GetProperty | src/SDL_properties.c:397-440 | the pointer, or the default for other types and missing names |
| Properties.PropertyStore.GetStringProperty | src/SDL_properties.c:442-513 | the value as text; the abstract store is unchanged |
| Properties.PropertyStore.GetNumberProperty | src/SDL_properties.c:515-566 | the value as a number; see PropertyReadings for what that is |
| Properties.PropertyStore.GetFloatProperty | src/SDL_properties.c:568-619 | the value as a float; see PropertyReadings for what that is |
| Properties.PropertyStore.GetBooleanProperty | src/SDL_properties.c:621-672 | the value as a boolean; see PropertyReadings for what that is |
| Properties.PropertyStore.EnumerateProperties | src/SDL_properties.c:679-711 | reports each name of the group exactly once |
| Properties.PropertyStore.DestroyProperties | src/SDL_properties.c:713-722 | removes one group and calls exactly the cleanups it owed |
| Properties.PropertyStore.QuitProperties | src/SDL_properties.c:119-133 | nothing is left, and every cleanup ever stored has been called exactly once |
| PropertyRuns.Perform | src/SDL_properties.c:135-722 | each call does to the concrete store what it means for a map from live ids to maps from names to values; setting or clearing a name makes the cleanup call of the pointer stored there, if it has one, and no other |
| PropertyRuns.RunAndQuit | src/SDL_properties.c:57-722 | any sequence of calls followed by shutdown makes each cleanup call exactly as often as an accepted call stored that pointer with that cleanup and userdata |
| PropertyRuns.StoredCounts | src/SDL_properties.c:230-286 | the cleanups a run has accepted, counted by the calls that stored them |
| PropertyRuns.HoldsLastSet | src/SDL_properties.c:135-722 | after any run a name holds what the last accepted call that set it gave it, and nothing if that call cleared it, its group was destroyed since, or there is none |
| PropertyReadings.ReadAll | src/SDL_properties.c:360-672 | the getter of the value's own type gives it back, the others agree with that one: numbers, floats and booleans convert into each other, into text and from text, pointers and missing names give the defaults |
| PropertyReadings.SetAndRead | src/SDL_properties.c:230-672 | what is set is what is read |
| PropertyReadings.ThroughText | src/SDL_properties.c:306-672 | a number, float or boolean that is read as text and stored as text is read back unchanged if the library's routines invert each other |
| PropertyReadings.RunAndRead | src/SDL_properties.c:135-722 | after any run the getters give back what the last call that set the name gave it |
| HintLaws.GetHintIsTheWinner | src/SDL_hints.c:46-176 | after any run SDL_GetHint returns the value of the latest set call since the last reset that no other outranks, else the environment's value |
| HintLaws.WinnerIsStored | src/SDL_hints.c:46-154 | the hint stores that call's value and priority |
| HintLaws.StepKeeps | src/SDL_hints.c:46-292 | one call leaves watchers that were up to date up to date, if and only if it is not the override of a defined environment variable with no value |
| HintLaws.NeverStale | src/SDL_hints.c:46-292 | without an environment variable, in every run the value last passed to each watcher is what SDL_GetHint returns |
| HintLaws.NeverStaleWithEnvironment | src/SDL_hints.c:46-292 | with one, too, in runs without that override |
| HintLaws.StaleExample | src/SDL_hints.c:67-84 | a run in which the override leaves a watcher stale |
| HintLaws.SetTellsEachOnce | src/SDL_hints.c:67-84 | a set that changes the value calls each watcher once with the new value and leaves exactly those that did not unregister at their own call; any other set calls none |
| HintLaws.ResetTellsEachOnce | src/SDL_hints.c:100-130 | a reset does the same with the environment's value |
| HintLaws.StaysUnlessItQuits | src/SDL_hints.c:73-78 | a watcher survives a round exactly if it did not quit at its own call |
| HintLaws.NamesStayUnique | src/SDL_hints.c:86-97 | no name ever gets two hints |
| HintAnswers.SetSucceedsIffItWins | src/SDL_hints.c:46-98 | after any run a set call succeeds if and only if it becomes the winner |
| HintAnswers.ThereIffMade | src/SDL_hints.c:46-312 | a name has a hint if and only if a set call that the environment did not refuse, or a registration, came after the last clearing |
| HintAnswers.AnswersAreRight | src/SDL_hints.c:46-267 | the results of set, reset and registration calls in terms of the calls before them |
| HintAnswers.AddRegisters | src/SDL_hints.c:212-267 | a registration calls the new watcher once, with the current value as old and new value; it is then the newest watcher, once, unless it quit at that call; nothing else changes |
| HintAnswers.DelUnregisters | src/SDL_hints.c:269-292 | an unregistration takes out exactly that watcher of that name and calls nobody |
| HintNodes.Node.Unlink | src/SDL_hints.c:276-289 | takes out the first matching watch and keeps the others in order |
| HintState.HintStore.SetHintWithPriority | src/SDL_hints.c:46-98 | the linked lists, the calls made and the result follow the machine |
| HintState.HintStore.SetHint | src/SDL_hints.c:156-159 | the same with normal priority |
| HintState.HintStore.Notify | src/SDL_hints.c:73-78 | the loop that saves the next link tells every watch of the starting chain once, although watches are unlinked meanwhile |
| HintState.HintStore.ResetHint | src/SDL_hints.c:100-130 | follows the machine |
| HintState.HintStore.ResetHints | src/SDL_hints.c:132-154 | resets every hint in list order |
| HintState.HintStore.GetHint | src/SDL_hints.c:161-176 | follows the machine |
| HintState.HintStore.AddHintCallback | src/SDL_hints.c:212-267 | drops an earlier registration, registers in front, tells the current value |
| HintState.HintStore.DelHintCallback | src/SDL_hints.c:269-292 | follows the machine |
| HintState.HintStore.ClearHints | src/SDL_hints.c:294-312 | no hint is left and nobody is called |
| HintRuns.Perform | src/SDL_hints.c:46-312 | every call on the lists is one step of the machine, with the machine's result |
| HintRuns.PlayAndRead | src/SDL_hints.c:46-312 | after any calls the value read from the lists is the winner's or the environment's, each watcher was last called with the value read when the environment does not define the name, and each call returned success exactly when it should |
| OldNames.Editor.AddLine | build-scripts/rename_api.py:75-78 | inserts before the cursor and moves it on |
| OldNames.Editor.AddContent | build-scripts/rename_api.py:81-89 | overwrites a blank line before the cursor or inserts; called only where such a line exists |
| OldNames.Editor.AddSymbol | build-scripts/rename_api.py:126-189 | accepts a file exactly when its marker lines are a prefix of the three markers in order; ends for every file although the list grows, and writes the specified file, or leaves it alone when refused |
| OldNames.AcceptsMarkersInOrder | build-scripts/rename_api.py:129-165 | the pass gets through a file if and only if its marker lines, in order, are a prefix of the three markers |
| OldNamesSections.StandsInItsSection | build-scripts/rename_api.py:132-185 | after an addition each define stands in its own part under the entry's section line, and the markers are as before |
| OldNamesLayout.StaysNeat | build-scripts/rename_api.py:81-185 | if blank lines stand before section lines and markers and nowhere else, so they do after an addition |
| OldNamesLayout.FirstEntry | build-scripts/rename_api.py:126-189 | the whole file after an addition to an empty list |
| OldNamesLayout.LinesOfTheEntry | build-scripts/rename_api.py:135-152 | the text of the three lines of an entry, by example |
| OldNamesLaws.Idempotent | build-scripts/rename_api.py:126-189 | adding an entry a second time changes nothing, for every file the first addition accepts |
| OldNamesLaws.KeepsLines | build-scripts/rename_api.py:126-189 | every line that is not blank stays, in order |
| OldNamesLaws.AddsItsOwnLines | build-scripts/rename_api.py:126-189 | only the section line and the two defines are added, at most once per part, and a file with all markers then has all three |
| OldNamesOrder.StaysSorted | build-scripts/rename_api.py:167-185 | a file with sorted sections and sorted lines in them stays sorted |
| OldNamesReader.GetAllReplacements | build-scripts/rename_symbols.py:48-74 | succeeds exactly when the marker lines are in order and every define between the first two has a name and a meaning; the dictionary then maps exactly the names those lines define, each to the meaning in the last such line |
| OldNamesReader.ReadsMarkersInOrder | build-scripts/rename_symbols.py:53-69 | the condition on the lines under which the reader gets through |
| OldNamesReader.ReadMeansLast | build-scripts/rename_symbols.py:66-68 | each name means what its last define in the first part says |
| OldNamesReader.ReaderSeesTheNewName | build-scripts/rename_symbols.py:48-74 | after an addition the reader maps every other name as before, and the old name to the new one if and only if no define behind the place of the new one gives it another meaning |
| OldNamesPlacement.SortedReaderSeesTheNewName | build-scripts/rename_symbols.py:48-74 | in a sorted list, exactly when the defines in later sections, or with a greater line in the same section, give the old name no other meaning |
| OldNamesReader.NoOtherDefine | build-scripts/rename_symbols.py:48-74 | if no other define of the first part uses the old name, the dictionary is the old one with the new entry |
| OldNamesReader.AnotherDefineWins | build-scripts/rename_symbols.py:66-68 | a file where such a define wins instead |
| Guid.ToString | src/SDL_guid.c:24-46 | the text is the whole bytes that fit before the terminator; nothing behind it is written |
| Guid.FromString | src/SDL_guid.c:73-92 | pairs of digits, missing ones as zero, an odd last character ignored |
| Guid.HexAt | src/SDL_guid.c:36-42 | each byte is two digits, the high one first |
| Guid.DigitsInvert | src/SDL_guid.c:53-70 | digits and nibbles are inverse up to case, other characters count as zero |
| Guid.PrintThenParse | src/SDL_guid.c:24-92 | printing into any buffer and parsing gives the GUID with the bytes that did not fit zeroed; the identity from 33 characters on |
| Guid.ParseThenPrint | src/SDL_guid.c:24-92 | parsing and printing any text gives its digits in lower case and zeros elsewhere |
| Guid.HexDigitsSurvive | src/SDL_guid.c:24-92 | for 32 hex digits that is the lower-case text |
| ObjectIds.EveryRunIsGood | src/SDL.c:543-552 | in every interleaving each id is the counter value of its own atomic step |
| ObjectIds.NeverAmbiguous | src/SDL.c:543-552 | ids drawn less than 2^32 steps apart differ |
| ObjectIds.NeverZero | src/SDL.c:543-552 | no id is zero with fewer than 2^32 - 1 steps of others between two attempts |
| ObjectIds.ZeroExactlyWhenOutrun | src/SDL.c:543-552 | an id is zero if and only if a second attempt came after one less than a multiple of 2^32 steps of others |
| ObjectIds.ZeroHappens | src/SDL.c:543-552 | an interleaving in which it is |
| ObjectIds.Counter.GetNextObjectID | src/SDL.c:543-552 | the next id, skipping zero, with any interference between the attempts |

## Left out

- Subsystem inits and quits of the real backends: a backend is an event on a trace with an arbitrary result, and does not call init or quit itself.
- SubsystemState.Subsystems.InitBlock: the eight blocks of the source differ in the subsystem and in what it implies; they share one method here.
- SubsystemState.Subsystems.InitSubSystem: requires counters with room, which the source asserts; the check for a ready SDL_main, the Windows and D-Bus code and builds without a subsystem are not modelled.
- ConverterGenerator.WriteConverter: emits statements, not text; printf rounding of coefficients and loop unrolling by the C compiler are not modelled.
- ConverterProgram.Execute: samples are exact reals, so rounding, overflow and the order of additions do not matter.
- KaiserFilter.Bessel: exact reals; float overflow is not modelled.
- KaiserFilter.KaiserAndSinc: the sine is a parameter.
- HashTable.HashTable.Insert: allocation always succeeds; nuke callbacks do not change the table.
- HashTable: the hash functions are parameters, so the concrete string hash is not modelled.
- Properties.PropertyStore.PrivateSet: a call that gets as far as the look-up needs the table of groups to exist, which the source takes for granted; operations are sequential; the locks, and the time between finding a group and locking it, are not modelled.
- Properties.PropertyStore.GetNumberProperty: parsing, formatting and rounding are parameters, numbers are unbounded and floats are reals.
- HintState.HintStore.Notify: a watcher may unregister itself when called, and does nothing else to the hints; the environment is fixed.
- HintState.HintStore.ClearHints: freeing the watches one by one has no effect to be seen.
- OldNames.Editor.AddSymbol: works on the lines of the file; splitting and joining the text is not modelled.
- OldNamesReader.GetAllReplacements: the characters that count as white space are a parameter.
- ObjectIds.Counter.GetNextObjectID: atomic additions are single steps; weaker memory orders are not modelled.
- The migration guide, the semantic patch and the regular expressions of the renaming scripts.
- SDL_GetStringInteger and the typed hint readers, lists, logs, assertions and error strings: they would add only easy members.
