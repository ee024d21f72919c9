# Verified models of the cxy core

cxy is a compiler written in C. This project models the parts of its runtime whose
correctness rests on an argument over many steps, and proves that argument in Dafny:

- **Exceptions** (`ExceptionTypes`, `E4cSemantics`, `E4cMachine`, `E4cCorrectness`, `E4cMonitor`, `E4cContext`,
  `E4cThrown`, `E4cLeave`): the try/catch/finally macros run as a machine over frames, stages, an `uncaught` mark and
  jumps. A small language of throws and try blocks gets a direct semantics, and the machine implements it for every
  program; every error that is seen is one that was thrown; what leaving a block by `return` or `break` costs is proved
  apart from it.
- **Robin Hood map** (`Ring`, `HmapSize`, `RobinHood`, `RobinHoodSteps`, `RobinHoodPut`, `RobinHoodFound`,
  `RobinHoodMap`, `RobinHoodCopies`): the slot array with backward shift refines a finite map, in every state; what a
  second copy of a key does to later calls is proved exactly.
- **Linear-probing table and string pool** (`Primes`, `LinearProbing`, `ProbeLayout`, `Removal`, `HashTable`,
  `StrPool`, `StrPoolWitness`): the table is a multiset of elements that all stay reachable, and interning is exact in
  all orders of a set of strings if and only if no two of them collide in a certain way.
- **JSON** (`JsonTree`, `JsonText`, `JsonParse`, `JsonRoundTrip`, `JsonMinify`, `JsonUnclosed`, `JsonDecode` and the
  methods in `JsonPrintString`, `JsonPrintBuffer`, `JsonPrintNode`, `JsonParseString`, `JsonParser`,
  `JsonMinifyInPlace`, `JsonChildren`): two printers, two layouts, a parser and a minifier agree on ordered trees, and
  strings keep their UTF-8 (RFC 8259 sections 2 and 7, RFC 3629 section 3, RFC 2781 section 2.2). `JsonSpelling` is the
  grammar of RFC 8259 with what its texts mean: every such text is parsed to its meaning (`JsonReads`, `JsonNumbers`,
  `JsonTexts`) and minified to itself without blanks and comments (`JsonMinifyTexts`); `JsonLayout` describes printed
  text without the printers.
- **Memory pool** (`MemBlocks`, `PoolModel`, `MemPool`): chunks handed out are aligned, inside one block and pairwise
  disjoint, over every run and with the exact condition for runs with a reset.
- **TOML reader** (`TomlTokens`, `TomlDoc`, `TomlRead`, `TomlSteps`, `TomlKept`, `TomlHeaders`, `TomlGiven` and the
  classes in `TomlTables`, `TomlDocument`, `TomlParser`): the parser updates linked tables and arrays in place and
  refines a recursive reader on values, whose tables stay sound, which loses nothing, and whose headers select what
  they name. `TomlSpelling` and `TomlLines` are a grammar of tokens, nested values and whole documents, and `TomlBuild`
  and `TomlHolds` what such texts stand for; every one of them is read as that (`TomlWords`, `TomlReads`, `TomlValues`,
  `TomlTexts`, `TomlSections`).
- **Codecs** (`Uint128`, `Uint128Parse`, `Uint128Numerals`, `Utf8Codecs`, `Utf8Escapes`, `TomlUtf8`, `FormatBuffer`):
  text forms of 128-bit integers and of characters, and the chunked output buffer. `Numerals` defines what a numeral
  denotes by its place in a written list of digits.
- **Profiling** (`Profiling`, `ProfilingFlags`, `ProfilingTimes`, `ProfilingRuns`, `ProfilingTimings`,
  `ProfilingExact`, `ProfilingWitnesses`, `ProfilingTotals`, `ProfilingContext`, `ProfilingSession`): for exactly
  which shapes of nested imports no instant is ever charged twice, with imports that end by an error or a throw, and
  what the totals are.

Code that updates state in place is a class or a method over arrays here, proved against functions on values; the
properties of those functions are lemmas. `dafny verify dfyconfig.toml` checks everything.

Where the code does less than it promises, the code is modelled as it is and the exact condition is proved:

- Putting a key that is present into the Robin Hood map can leave two copies (`RobinHoodMap.Hmap.PutInternal`,
  `RobinHood.SecondOfHomeIsNotOverwritten`). Then removing the key brings the old value back
  (`RobinHoodCopies.PutThenRemove`), and if the same put makes the table grow, the new value is lost: for exactly which
  tables is proved by `RobinHoodCopies.PutThenGet`.
- Removal from the linear-probing table moves elements across the array end without looking at their homes, and
  can lose one (`Removal.Unlink`, `Removal.WrapAroundWitness`).
- The string pool takes a stored string for the one asked for if it only begins with it and has the same stored hash
  (`StrPools.FoundMeansPrefix`, `StrPools.ExactlyIfClear`), and growing can change its answer for a string that it
  returned before (`StrPools.OwnUnlessOvertaken`, `StrPoolWitness.AnswerChanges`).
- Resetting the memory pool while memory waits in a cache lets later calls hand that memory out twice
  (`PoolModel.ApartExactlyIfEmpty`, `MemPool.ReturnedThenReset`); freeing it leaves its statistics as they were
  (`MemBlocks.BlockList.Free`).
- An import that the parser leaves by a throw does not make the importing file active again
  (`ProfilingFlags.ImporterActive`, `ProfilingWitnesses.ThrownImportWitness`). A file that is imported by its own
  import, and an import whose stage throws, can be charged twice (`ProfilingExact.FitsExactly`,
  `ProfilingWitnesses.CircularImportWitness`).
- `return` and `break` out of a try block leave its frame open (`E4cLeave.FramesLeak`).
- Minifying a text with an unclosed literal or block comment goes on behind its terminator
  (`JsonUnclosed.MinifyUnlessUnclosed`).
- A header adds to an inline table that was closed to modification (`TomlHeaders.HeaderChanges`,
  `TomlHeaders.ReadOnlyWitness`).
- A 128-bit number that is cut off by a small buffer need not show its first digits (`Uint128.FormatIsCut`,
  `Uint128.WrongCutWitness`).
- A NUL printed in front of two octal digits is read back as something else (`Utf8Codecs.ReadUndoesPrint`).

## Model

| member | source | states |
|---|---|---|
| ExceptionTypes.Extends | src/cxy/core/e4c.c:86-97 | true exactly if the second type is a proper ancestor of the first on the chain of supertypes |
| ExceptionTypes.InstanceIsPartialOrder | src/cxy/core/e4c.h:64-65 | the instance test is reflexive, antisymmetric and transitive over the types |
| E4cSemantics.FirstMatch | src/cxy/core/e4c.h:72-74 | the handler that runs is the first one whose type the error is an instance of, and none if there is none |
| E4cSemantics.PendingErrorSurvives | src/cxy/core/e4c.c:56-84 | an unhandled error leaves the block unchanged if the finally part throws nothing |
| E4cSemantics.PendingErrorReplaced | src/cxy/core/e4c.c:113-116 | a throw that is handled inside a finally part replaces the pending error, because there is one global error |
| E4cMachine.Step | src/cxy/core/e4c.c:19-84 | every step keeps the frame count within 0 to 32 and frames and pending blocks in correspondence |
| E4cCorrectness.MachineImplementsSemantics | src/cxy/core/e4c.c:19-84 | for every program of throws, sequences and try blocks the frame machine halts with the trace, the outcome and the error of the direct semantics, also at the 32-frame limit |
| E4cMonitor.EvalIsOrderly | src/cxy/core/e4c.h:68-75 | in every run the events of blocks nest: entry, at most one handler, one finally part, exit |
| E4cMonitor.EveryRunIsOrderly | src/cxy/core/e4c.h:68-75 | on the machine, every entered block runs its finally part exactly once and at most one handler |
| E4cThrown.InstanceOfSupertypes | src/cxy/core/e4c.c:86-97 | an error is an instance of exactly the types in the list of its type and all supertypes of that |
| E4cThrown.ThrownIsSeen | src/cxy/core/e4c.c:107-124 | a handler of the type that is thrown, or of a supertype of it, and what it does see the type, at most 127 characters of the message, and the context of the throw; without a message it is the one of the type |
| E4cThrown.UntypedIsSeen | src/cxy/core/e4c.c:113-122 | a throw without a type is seen as a `NullPointerException`, with its message if none is given |
| E4cThrown.OtherIsNotCaught | src/cxy/core/e4c.h:72-74 | a handler of any other type does not run, and the error leaves the block as it was thrown, behind the finally part |
| E4cThrown.EveryRunSees | src/cxy/core/e4c.c:107-124 | for every program, run on the machine: each error that a handler or an action sees, and the one that is left, is the initial one, the one of the frame limit, or has type, cut message and context of a throw in the program |
| E4cLeave.StepKeepsSurplus | src/cxy/core/e4c.c:19-84 | no step adds a frame that belongs to no block; without a throw none goes away either, and a throw leaves no more of them than before |
| E4cLeave.FramesLeak | src/cxy/lang/frontend/parser.c:4209-4234 | every block that is left by `return` or `break` from inside costs one frame: without a throw exactly that many are open at the end of the program, with throws no more than that |
| E4cLeave.NoFrameIsLeft | src/cxy/core/e4c.c:43-46 | after 32 such blocks the next block cannot be entered, although no block is open |
| E4cLeave.FinallyRunsAgain | src/cxy/lang/frontend/parser.c:1599-1606 | a block in a finally part whose handler is left by `break` makes the outer block run its finally part once more |
| E4cContext.Context.MarkAndJump | src/cxy/core/e4c.c:19-38 | marks the frame and jumps to the enclosing block, or ends the program, within the bounds of both arrays |
| E4cContext.Context.Raise | src/cxy/core/e4c.c:107-124 | sets the global error and propagates it |
| E4cContext.Context.BeginTry | src/cxy/core/e4c.c:40-54 | opens a frame, or throws when 32 are open |
| E4cContext.Context.Hook | src/cxy/core/e4c.c:56-84 | advances the stage, closes the frame when it is done and passes an uncaught error on |
| E4cContext.Context.SelectHandler | src/cxy/core/e4c.h:72-74 | the chain of catch tests finds the first matching handler |
| E4cContext.Context.Turn | src/cxy/core/e4c.h:68-75 | one turn of the loop over a try block does one step of the machine |
| E4cContext.Execute | src/cxy/core/e4c.h:68-75 | the mutable context runs every program to the end with the result of the direct semantics |
| Ring.NextIsFurther | src/cxy/core/hmap.c:48-55 | going on by one slot makes the probe distance one larger until it wraps |
| HmapSize.IdealSize | src/cxy/core/hmap.c:19-31 | the loop over the listed sizes and doublings finds the specified size |
| HmapSize.IdealLeavesRoom | src/cxy/core/hmap.c:19-31 | the ideal size is larger than the number of items |
| HmapSize.IdealIsLeast | src/cxy/core/hmap.c:19-31 | the least listed size of which nine tenths hold one more item, and beyond the list the largest listed size doubled as often as necessary and no more |
| HmapSize.IdealMonotone | src/cxy/core/hmap.c:19-31 | more items never have a smaller ideal size |
| RobinHood.OnPath | src/cxy/core/hmap.c:106-153 | every slot between the home of an element and the element is full and at least as far from its own home |
| RobinHood.StopMeansAbsent | src/cxy/core/hmap.c:248-275 | where a search stops, the key cannot come any more |
| RobinHood.FindsOne | src/cxy/core/hmap.c:248-275 | what searches find in a table, with or without copies of a key, is one finite map |
| RobinHood.DistinctFinds | src/cxy/core/hmap.c:248-275 | without copies, the stored items are exactly the pairs that are found |
| RobinHood.SecondOfHomeIsNotOverwritten | src/cxy/core/hmap.c:138-143 | a table of two elements in which putting a present key leaves two copies |
| RobinHoodSteps.PlaceKeepsOrder | src/cxy/core/hmap.c:106-153 | placing a carried element that is due keeps the distance order of the table |
| RobinHoodSteps.DisplacedIsPending | src/cxy/core/hmap.c:138-143 | the element that was swapped out is due in the next slot |
| RobinHoodSteps.ShiftMovesHole | src/cxy/core/hmap.c:194-238 | shifting one element back moves the hole and keeps the order of all others |
| RobinHoodSteps.HoleCloses | src/cxy/core/hmap.c:194-238 | where shifting stops, the table with the empty slot is ordered again |
| RobinHoodSteps.DistinctByMultiset | src/cxy/core/hmap.c:106-153 | no key is twice in the table exactly if no two slots of the multiset share one |
| RobinHoodPut.HeadsSwaps | src/cxy/core/hmap.c:138-148 | swapping the carried element in never changes which element of a key is met first |
| RobinHoodPut.ScanSwaps | src/cxy/core/hmap.c:106-153 | a swap keeps the contents together with the carried element and moves every element behind the new one on by exactly one slot |
| RobinHoodPut.ScanPasses | src/cxy/core/hmap.c:106-153 | an element is passed only before the new one has a slot |
| RobinHoodPut.ScanEnds | src/cxy/core/hmap.c:106-153 | at a free slot or at the same key the put is complete, in any table: the new pair is met before other pairs of its key, for other keys the same pair is met as before, and copies that were there lie one slot further on |
| RobinHoodFound.PutFinds | src/cxy/core/hmap.c:106-153 | after a put into any table, searches find the updated map |
| RobinHoodFound.CopyIsLeft | src/cxy/core/hmap.c:106-153 | in a table without copies, a put leaves a second copy exactly if the key is present and not the first element of its home, and adds an element exactly if it does not overwrite |
| RobinHoodFound.ShiftKeepsLeaders | src/cxy/core/hmap.c:207-229 | shifting one element back never changes which element of a key is met first |
| RobinHoodFound.Uncovered | src/cxy/core/hmap.c:203-229 | what is found once the first copy of a key is gone: the next copy, and all other pairs as before |
| RobinHoodFound.LastSlotRemains | src/cxy/core/hmap.c:76-82 | of several copies of a key, a rehash keeps the one in the last slot |
| RobinHoodFound.CollectedIsFound | src/cxy/core/hmap.c:76-82 | without copies, a rehash puts exactly the pairs that are found |
| RobinHoodFound.RehashKeepsOld | src/cxy/core/hmap.c:67-95 | of the two copies that a put has left, a rehash keeps the old one, exactly if the slot behind the old one is not before the first slot of the home |
| RobinHoodMap.Hmap.Probe | src/cxy/core/hmap.c:248-275 | a search ends and finds the first slot with the key that is met, exactly if there is one |
| RobinHoodMap.Hmap.Get | src/cxy/core/hmap.c:248-275 | lookup in the finite map, in every state |
| RobinHoodMap.Hmap.PutInternal | src/cxy/core/hmap.c:106-153 | in any table with a free slot, the map that is found is the updated one; a table without copies stays so exactly if the key is new or the first element of its home that is met |
| RobinHoodMap.Hmap.Put | src/cxy/core/hmap.c:240-246 | updates the map in every state; grows to the ideal size exactly if that is exceeded, and then leaves what a rehash collects from the updated table, which is the updated map if there are no copies |
| RobinHoodMap.Hmap.ResizeMore | src/cxy/core/hmap.c:88-95 | rehashes exactly if the capacity is below the ideal size, and otherwise changes nothing |
| RobinHoodMap.Hmap.ResizeLess | src/cxy/core/hmap.c:97-104 | afterwards the capacity is the ideal size; rehashes exactly if it was above that |
| RobinHoodMap.Hmap.Rehash | src/cxy/core/hmap.c:67-86 | from any table, the map of the pairs in slot order, in a table of the new capacity; without copies this is the same map; no put during it rehashes again |
| RobinHoodMap.Hmap.Remove | src/cxy/core/hmap.c:194-238 | exactly the element with the key that is met first goes, the next copy is found from then on, and all other pairs as before; nothing changes if the key is absent; without copies it is deletion from the map |
| RobinHoodCopies.PutThenGet | src/cxy/core/hmap.c:88-95 | in a table without copies, what was put is found, exactly unless the put leaves a second copy, makes the table grow and the elements of the home do not wrap around, and then the old value is found |
| RobinHoodCopies.PutThenRemove | src/cxy/core/hmap.c:194-246 | what a second copy costs without growth: the new value is found, and removing the key brings the old one back |
| RobinHoodCopies.GrowthWitnesses | src/cxy/core/hmap.c:88-95 | a table of four elements that loses the value that is put, and one that keeps it |
| RobinHoodMap.ShiftBack | src/cxy/core/hmap.c:194-238 | the backward shift ends, keeps all other elements and which of a key is met first, and restores the order |
| Primes.NextPrime | src/cxy/core/primes.h:27-39 | the binary search finds the smallest listed prime that is larger, or the last one |
| Primes.GrowthLeavesRoom | src/cxy/core/htable.c:82-109 | growth strictly increases the capacity, also past the largest listed prime, and ends the overload |
| LinearProbing.FreeEndsProbe | src/cxy/core/htable.c:133-148 | in a table where every element is reachable, a probe may stop at a free bucket |
| LinearProbing.FillKeepsReachable | src/cxy/core/htable.c:111-131 | filling the first free bucket of a probe keeps every element reachable |
| LinearProbing.MoveTestExact | src/cxy/core/htable.c:198-220 | before the array end the move test holds exactly for the elements whose path leads through the hole |
| LinearProbing.MoveTestWrapped | src/cxy/core/htable.c:209-209 | behind the array end the move test always holds, whether the path leads through the hole or not |
| LinearProbing.LostElement | src/cxy/core/htable.c:198-220 | an element that was moved in front of its home without cause is no longer reachable |
| Removal.StepBeforeWrap | src/cxy/core/htable.c:198-220 | one turn of the removal loop before the array end |
| Removal.StepAfterWrap | src/cxy/core/htable.c:198-220 | one turn behind the array end, with the damage it may do |
| Removal.RemovingStep | src/cxy/core/htable.c:198-220 | every turn keeps the invariant of the removal loop and comes closer to its end |
| Removal.RemovingEnds | src/cxy/core/htable.c:198-220 | at the end every element is reachable exactly if the removal was harmless |
| Removal.Unlink | src/cxy/core/htable.c:198-220 | removes one element and no other, with every bucket afterwards as the loop leaves it; all remaining ones are reachable exactly if the used run ends before the array does, or the first bucket behind the wrap is free or has to move |
| Removal.WrapAroundWitness | src/cxy/core/htable.c:198-220 | a table of capacity 7 in which removing one element moves another one in front of its home, and a search for that one stops at a free bucket |
| HashTables.HashTable.constructor | src/cxy/core/htable.c:49-59 | an empty table of the next prime capacity |
| HashTables.HashTable.Locate | src/cxy/core/htable.c:111-148 | a probe ends at the first bucket that is free or matches; if it is free, nothing in the table matches |
| HashTables.HashTable.Find | src/cxy/core/htable.c:133-148 | finds an element exactly if one with the hash compares equal, namely the first one of the probe |
| HashTables.HashTable.Insert | src/cxy/core/htable.c:111-131 | adds the element in the first free bucket exactly if none matches, keeps the others, and the load stays below 70 percent |
| HashTables.HashTable.Rehash | src/cxy/core/htable.c:82-109 | the same elements in a larger table, inserted in the order of their buckets |
| HashTables.HashTable.Remove | src/cxy/core/htable.c:198-220 | removes exactly the one element; the table stays valid exactly if the removal was harmless |
| StrPools.SameUpToIsPrefix | src/cxy/core/strpool.c:25-35 | the comparison over the length of the second string is the prefix test |
| StrPools.FoundMeansPrefix | src/cxy/core/strpool.c:25-35 | a string is found exactly if it is stored or hidden behind a longer one with the same stored hash |
| StrPools.StrPool.MakeString | src/cxy/core/strpool.c:70-89 | returns the first match of the probe, or stores the string in the first free bucket of the table, which may grow |
| StrPools.OwnUnlessOvertaken | src/cxy/core/strpool.c:70-89 | a stored string gets its own pointer exactly if the probe meets no longer string with the same stored hash before it |
| StrPools.InternedIsExact | src/cxy/core/strpool.c:70-89 | among strings of which none shares its stored hash with a proper extension, the answer is the string itself |
| StrPools.ClearIsExact | src/cxy/core/strpool.c:70-89 | over every run of calls on such strings, two answers are the same exactly if the strings are equal |
| StrPools.ExactlyIfClear | src/cxy/core/strpool.c:70-89 | for every set of strings: all runs on it, in any order, are exact in that sense, if and only if no string of it shares its stored hash with a proper extension in it |
| StrPools.AnswerStays | src/cxy/core/strpool.c:70-89 | on such strings a later call returns the pointer of the earlier one and stores nothing |
| StrPools.InternAll | src/cxy/core/strpool.c:70-89 | every sequence of calls has the specified effect, and is exact if no string of it is a proper extension of another with its stored hash |
| StrPoolWitness.AnswerChanges | src/cxy/core/htable.c:82-109 | a run of six calls in which "ab" first gets its own pointer and, after the table has grown, the pointer of "abc" |
| Digits.DecimalIsDigits | src/3rdParty/cJSON.c:273-329 | the printed integer consists of digits, denotes the number and has no leading zero |
| JsonPrintString.NeedsEscape | src/3rdParty/cJSON.c:601-607 | the scan finds out whether anything has to be escaped |
| JsonPrintString.EscapedLength | src/3rdParty/cJSON.c:631-642 | the counted space is the length of the escaped text |
| JsonPrintString.WriteLiteral | src/3rdParty/cJSON.c:609-699 | the quoted and escaped string, within the counted space |
| JsonPrintBuffer.PrintBuffer.Ensure | src/3rdParty/cJSON.c:229-258 | room for what is needed: the same buffer, or one of the next power of two with the old contents |
| JsonPrintBuffer.PrintBuffer.Update | src/3rdParty/cJSON.c:261-270 | moves the offset to the end of the C string that was written last |
| JsonPrintBuffer.PrintBuffer.PrintValue | src/3rdParty/cJSON.c:843-881 | writes the text of the value behind what is there and leaves the offset inside it |
| JsonPrintBuffer.PrintBuffer.PrintArray | src/3rdParty/cJSON.c:1007-1044 | the same for arrays, element by element with measured offsets |
| JsonPrintBuffer.PrintBuffer.PrintObject | src/3rdParty/cJSON.c:1247-1327 | the same for objects, including the pointer it returns |
| JsonPrintBuffer.PrintBuffered | src/3rdParty/cJSON.c:789-801 | for every tree, layout and initial size the buffer ends up with the printed text from its first character |
| Pow2.Pow2GtIsLeast | src/3rdParty/cJSON.c:202-222 | the shift-and-or trick gives the least power of two that is large enough |
| Pow2.SmearFills | src/3rdParty/cJSON.c:202-222 | the five lines set all bits below the highest one |
| JsonPrintNode.ItemsFit | src/3rdParty/cJSON.c:1045-1108 | the text of the elements fits in the space counted for an array |
| JsonPrintNode.ObjectFits | src/3rdParty/cJSON.c:1328-1429 | the text of an object fits in the space counted for it |
| JsonPrintNode.PrintArray | src/3rdParty/cJSON.c:1045-1111 | joins the strings of the elements to the text of the array |
| JsonPrintNode.PrintObject | src/3rdParty/cJSON.c:1328-1429 | joins the strings of keys and values to the text of the object |
| JsonPrintNode.Print | src/3rdParty/cJSON.c:782-787 | the per-node printer returns the same text as the buffered one |
| JsonCText.RenderIsText | src/3rdParty/cJSON.c:576-699 | the printed text of a tree holds no NUL |
| JsonText.RenderToAppends | src/3rdParty/cJSON.c:973-1429 | the text in front of a rest is the printed text followed by the rest |
| JsonRoundTrip.StringRoundTrip | src/3rdParty/cJSON.c:416-573 | reading a printed string literal gives the string back |
| JsonRoundTrip.NumberRoundTrip | src/3rdParty/cJSON.c:143-200 | reading a printed 32-bit integer gives the number back |
| JsonRoundTrip.ValueRoundTrip | src/3rdParty/cJSON.c:803-970 | reading a printed value in any context gives the tree back and stops behind the text |
| JsonRoundTrip.RoundTrip | src/3rdParty/cJSON.c:737-801 | for every tree and both layouts, parsing the printed text gives back the tree and reads all of it |
| JsonPrintAndParse.PrintThenParse | src/3rdParty/cJSON.c:737-801 | printing into memory and parsing what is there gives the tree back |
| JsonPrintAndParse.PrintBufferedThenParse | src/3rdParty/cJSON.c:737-801 | the same with the buffered printer, for every initial size |
| JsonDecode.DecodeFits | src/3rdParty/cJSON.c:416-573 | decoding stops exactly where the literal ends and never outgrows the length counted in the first pass |
| JsonDecode.ParseStringStopsAtQuote | src/3rdParty/cJSON.c:416-573 | a literal is left right behind its closing quote |
| JsonDecode.DecodeKeepsUtf8 | src/3rdParty/cJSON.c:416-573 | the decoded string is valid UTF-8 exactly if the literal is, and holds no NUL; see section 4 of RFC 3629 |
| JsonDecode.Utf8IsOneChar | src/3rdParty/cJSON.c:522-559 | a code point other than a surrogate is written as one well-formed character |
| Utf8Text.KeepsUtf8 | src/3rdParty/cJSON.c:416-573 | copying bytes and replacing ASCII runs by whole characters keeps UTF-8 valid and invalid |
| JsonParseString.ScanLiteral | src/3rdParty/cJSON.c:432-446 | the first pass finds the end and counts the space |
| JsonParseString.WriteUtf8 | src/3rdParty/cJSON.c:522-559 | the bytes of a code point written from the last to the first |
| JsonParseString.ReadUnit | src/3rdParty/cJSON.c:484-520 | accepts exactly the escapes that denote a code point, so unpaired surrogates and NUL are refused |
| JsonReads.CodePointIsRead | src/3rdParty/cJSON.c:416-573 | every code point but NUL and the surrogates, written as one `\u` escape or as the surrogate pair of RFC 2781 section 2.1, with digits in either case, is read as bytes that an independent decoder turns back into it |
| JsonReads.LiteralIsRead | src/3rdParty/cJSON.c:416-573 | a literal of any spelling of characters (RFC 8259 section 7) is read as the bytes of the characters in order |
| JsonReads.NoCharacterIsRefused | src/3rdParty/cJSON.c:488-490 | the escapes of NUL and of the second half of a surrogate pair are refused |
| JsonReads.FirstHalfIsRefused | src/3rdParty/cJSON.c:495-515 | so is that of a first half in front of the closing quote |
| JsonReads.OtherHalfIsRefused | src/3rdParty/cJSON.c:508-516 | and that of a first half in front of the escape of anything but a second half |
| JsonParseString.DecodeLiteral | src/3rdParty/cJSON.c:448-573 | the second pass fills the counted buffer with the decoded C string |
| JsonParseString.ParseLiteral | src/3rdParty/cJSON.c:416-573 | both passes together read what the parse function reads |
| JsonParser.ReadNumber | src/3rdParty/cJSON.c:143-200 | the loops over the digits compute the exact value of the numeral |
| JsonParser.ReadArray | src/3rdParty/cJSON.c:914-970 | the loop over the commas reads the elements that the recursive definition reads |
| JsonParser.ReadObject | src/3rdParty/cJSON.c:1114-1194 | the loop over the commas reads the members that the recursive definition reads |
| JsonParser.ParseText | src/3rdParty/cJSON.c:737-779 | the whole parser computes the parse function and ends on every text |
| JsonNumbers.NumIsRead | src/3rdParty/cJSON.c:143-195 | a numeral with any digits, fraction and exponent is read completely, as the number that it denotes |
| JsonTexts.ValueIsRead | src/3rdParty/cJSON.c:803-970 | a value of any spelling is read in every context, as what it means, up to its end |
| JsonTexts.TextIsRead | src/3rdParty/cJSON.c:737-779 | every text of RFC 8259, with any blanks between tokens and any spelling of strings and numbers, is parsed to the tree that it denotes |
| JsonMinify.MinifyString | src/3rdParty/cJSON.c:1953-1963 | string literals are copied as they are, with escaped quotes, blanks and comment-like text |
| JsonMinify.MinifyFormatted | src/3rdParty/cJSON.c:1923-1972 | minifying the formatted text gives the unformatted text, byte for byte |
| JsonMinifyTexts.TextIsKept | src/3rdParty/cJSON.c:1923-1972 | for every text of RFC 8259 with any blanks, line comments and block comments between tokens, what remains is the same text without them |
| JsonLayout.FormattedIsPretty | src/3rdParty/cJSON.c:1197-1435 | the formatted text is the unformatted one with line breaks, indentation and blanks put in by one scan that knows the brackets only |
| JsonLayout.PrintedIsShortest | src/3rdParty/cJSON.c:576-699 | of all spellings of a character that RFC 8259 section 7 allows, none is shorter than the one printed |
| JsonLayout.PrintedDigits | src/3rdParty/cJSON.c:688-692 | control characters without a letter are printed with four lower-case hexadecimal digits |
| JsonUnclosed.MinifyUnlessUnclosed | src/3rdParty/cJSON.c:1923-1972 | minifying leaves the text exactly if the text ends inside a string literal or a block comment |
| JsonUnclosed.UnclosedWitnesses | src/3rdParty/cJSON.c:1946-1963 | two such texts: an open quote with one character, and the opening of a comment |
| JsonMinifyInPlace.MinifyInPlace | src/3rdParty/cJSON.c:1923-1972 | for every text: the two cursors in one array never cross, and they leave the minified text with its terminator unless the cursor passes the terminator, which is exactly if the text ends inside a literal or a block comment |
| JsonMinifyInPlace.SkipComment | src/3rdParty/cJSON.c:1946-1952 | the loop over a block comment stops behind it, or one character beyond the terminator if it is not closed |
| JsonChildren.BypassedIsRemoved | src/3rdParty/cJSON.c:1550-1575 | links that pass by a node are the links of the shorter list |
| JsonChildren.ThroughIsInserted | src/3rdParty/cJSON.c:1603-1623 | links through a new node are the links of the longer list |
| JsonChildren.Container.Size | src/3rdParty/cJSON.c:986-990 | following next visits every child once and ends |
| JsonChildren.Container.Add | src/3rdParty/cJSON.c:1490-1507 | appends to the sequence of children; next and prev stay inverse |
| JsonChildren.Container.Detach | src/3rdParty/cJSON.c:1550-1575 | takes out the child at the position, which then points nowhere |
| JsonChildren.Container.Insert | src/3rdParty/cJSON.c:1603-1623 | inserts in front of the position, or appends |
| JsonChildren.Container.Replace | src/3rdParty/cJSON.c:1625-1648 | replaces the child at the position, if there is one |
| JsonChildren.Container.InsertAndDetach | src/3rdParty/cJSON.c:1550-1623 | detaching the child that was inserted restores the children and every link of them |
| JsonChildren.Container.DetachAndInsert | src/3rdParty/cJSON.c:1550-1623 | inserting the child that was detached restores the children and every link of them |
| JsonChildren.Container.DetachAndInsertOther | src/3rdParty/cJSON.c:1550-1648 | detaching a child and inserting another one at its position leaves what replacing it leaves |
| MemBlocks.AlignTo | src/cxy/core/mempool.c:46-50 | the next multiple of the alignment |
| MemBlocks.BlockList.AddBlock | src/cxy/core/mempool.c:31-44 | an empty block behind the last one; the totals stay the sums over the list |
| MemBlocks.BlockList.Advance | src/cxy/core/mempool.c:57-69 | the first block from the current one on that has enough room, or a new one at the end, and no other block changes |
| MemBlocks.FitIsFirst | src/cxy/core/mempool.c:57-69 | the block that is chosen has room, and none between the current one and it has |
| MemBlocks.BlockList.Take | src/cxy/core/mempool.c:52-77 | the bytes behind those in use in that block, aligned and inside it |
| MemBlocks.BlockList.Reset | src/cxy/core/mempool.c:149-157 | all blocks are empty and the first is current; the running total of used bytes is not taken back |
| MemBlocks.BlockList.Free | src/cxy/core/mempool.c:159-178 | no blocks are left; the running totals are the sums again exactly if there were none |
| MemPool.Cache.Dequeue | src/cxy/core/mempool.c:117-127 | takes the first of the queue; the length stays the count |
| MemPool.Cache.Enqueue | src/cxy/core/mempool.c:129-147 | appends to the queue; the length stays the count; any size that holds the link is enough |
| PoolModel.NewIsApart | src/cxy/core/mempool.c:52-77 | memory behind what a block has used overlaps no range handed out before |
| PoolModel.RunKeeps | src/cxy/core/mempool.c:52-147 | every run of allocations and returns keeps all memory aligned and inside one block, and keeps what is in use or waiting pairwise disjoint if it was so |
| PoolModel.LiveStaysApart | src/cxy/core/mempool.c:52-147 | over every run without a reset, no byte is in use by two callers |
| PoolModel.UsedIsHandedOut | src/cxy/core/mempool.c:52-147 | over every run without a reset, the bytes that blocks have used are exactly those in use and in the caches, each in one range only |
| PoolModel.ResetOverlaps | src/cxy/core/mempool.c:149-157 | if memory waits in a cache during a reset, some later calls hand it out twice |
| PoolModel.ApartExactlyIfEmpty | src/cxy/core/mempool.c:149-157 | after a reset, what is in use stays disjoint in all later calls if and only if every cache was empty at the reset |
| PoolModel.OverlapWitness | src/cxy/core/mempool.c:117-157 | one chunk of 16 bytes that is returned before a reset: two callers then get the same 16 bytes |
| MemPool.MemPool.constructor | src/cxy/core/mempool.c:18-23 | a pool without memory |
| MemPool.MemPool.Alloc | src/cxy/core/mempool.c:52-77 | a new chunk of the aligned size, where the model of the pool puts it |
| MemPool.MemPool.AllocCached | src/cxy/core/mempool.c:117-127 | the chunk that was returned first, whatever its size, or a new one, in every state that a pool can be in, also after a reset |
| MemPool.MemPool.Free | src/cxy/core/mempool.c:129-147 | moves a chunk in use to the end of the queue of its cache |
| MemPool.MemPool.Reset | src/cxy/core/mempool.c:149-157 | no chunk is in use any more and all blocks are empty, but the caches keep what waits in them |
| MemPool.ReturnedThenReset | src/cxy/core/mempool.c:117-157 | the calls of the witness on a real pool: two different live chunks of the same bytes |
| Uint128.DecimalSplits | src/cxy/core/utils.c:155-165 | the digits of a number are those of the quotient and the padded ones of the remainder |
| Uint128.ZeroFilled | src/cxy/core/utils.c:143-149 | the zero-filled chunk has exactly its 19 digits |
| Uint128.ChunksAreDecimal | src/cxy/core/utils.c:151-165 | the chunks together are the decimal text |
| Uint128.FormatU128 | src/cxy/core/utils.c:155-165 | the decimal text and its length if it fits with its terminator; if not, what the chunk writers leave, with the number of characters that they count |
| Uint128.FormatIsCut | src/cxy/core/utils.c:135-149 | a text that does not fit fills the buffer, and what is there is its beginning exactly if the first chunk that does not fit is the last one, or takes up all that is left, or begins with what the last one begins with |
| Uint128.WrongCutWitness | src/cxy/core/utils.c:135-165 | in a buffer of two characters 123 * 10^19 is shown as 0 |
| Uint128.FormatI128 | src/cxy/core/utils.c:167-187 | the same with a sign, including the most negative value and buffers without room for a digit |
| Uint128Parse.CutoffIsExact | src/cxy/core/utils.c:115-120 | the test before the multiplication is the overflow of its result |
| Uint128Parse.StrToU128 | src/cxy/core/utils.c:41-133 | overflow is reported exactly if the run of digits exceeds the largest value; otherwise its exact value and end |
| Uint128Numerals.SpelledValue | src/cxy/core/utils.c:88-133 | a numeral in any base up to 36, with letters of either case, has the value that its digits denote |
| Uint128Numerals.ReadNumeral | src/cxy/core/utils.c:41-133 | with blanks and a plus sign in front, the prefixes of its base, and any text behind it that does not go on with the numeral: its value and end, or the largest value with an error if it is too large |
| Uint128Numerals.ReadNumber | src/cxy/core/utils.c:41-133 | every 128-bit number, written in any base from 2 to 36, is read back |
| Uint128Parse.ParseDecimal | src/cxy/core/utils.c:41-133 | a decimal numeral is read exactly up to the largest value, and as that value with an error beyond |
| Uint128Parse.RoundTrip | src/cxy/core/utils.c:88-165 | every 128-bit value is read back from its formatted text |
| Utf8Codecs.DecodeUndoesPrint | src/cxy/core/format.c:419-518 | decoding what was printed gives the character back, for all below 0x200000 |
| Utf8Codecs.PrintUndoesDecode | src/cxy/core/format.c:419-518 | printing what was decoded gives the bytes back exactly if they are the shortest form |
| Utf8Codecs.ReadUndoesPrint | src/cxy/core/utils.c:253-336 | reading an escaped character gives it back, except a NUL with two octal digits behind it |
| Utf8Escapes.EscapedIsRead | src/cxy/core/utils.c:226-251 | every code point written with `\u` and four or `\U` and eight hexadecimal digits of either case is read back |
| Utf8Escapes.LettersAreRead | src/cxy/core/utils.c:253-326 | each letter behind a backslash gives the character of the C standard, and `\$` a dollar sign |
| Utf8Escapes.NumbersAreRead | src/cxy/core/utils.c:294-318 | `\x` and the octal escapes give what `strtoul` reads in base 16 and 8 up to 255, and a zero without two octal digits behind it is NUL |
| TomlUtf8.UcsToUtf8 | src/3rdParty/toml/toml.c:203-282 | refuses exactly negative codes, codes above 0x7FFFFFFF, surrogates, 0xFFFE and 0xFFFF; otherwise writes the shortest form |
| TomlUtf8.SameEncoding | src/3rdParty/toml/toml.c:203-282 | up to four bytes it is the form that the printer of characters uses |
| TomlUtf8.LongForms | src/3rdParty/toml/toml.c:203-282 | the first and the last code of five and of six bytes |
| TomlUtf8.Utf8ToUcs | src/3rdParty/toml/toml.c:101-197 | the loops over the continuation bytes compute the decoded code |
| TomlUtf8.DecodeUndoesEncode | src/3rdParty/toml/toml.c:101-282 | the decoder undoes the encoder on every code |
| TomlUtf8.EncodeUndoesDecode | src/3rdParty/toml/toml.c:101-282 | the encoder undoes the decoder exactly on the shortest forms |
| FormatBuffer.FormatState.Reserve | src/cxy/core/format.c:26-42 | room in the current chunk or in a new one, with the contents unchanged |
| FormatBuffer.FormatState.Write | src/cxy/core/format.c:50-54 | appends to what was written before |
| FormatBuffer.FormatState.ToString | src/cxy/core/format.c:526-540 | one C string with everything that was written, in order |
| Profiling.DisabledFile | src/cxy/driver/profiling.c:128-131 | nothing but the clock moves while profiling is off |
| ProfilingFlags.FileAgrees | src/cxy/driver/driver.c:607-675 | for every run, which file is active and whose timers are paused afterwards depends on the order of starts, ends and throws only, not on any time |
| ProfilingFlags.ImporterActive | src/cxy/driver/driver.c:620-657 | after an import the importing file is active again if and only if the import was not left by a throw, or the throw left it active |
| ProfilingFlags.ImporterActiveUnlessThrown | src/cxy/driver/driver.c:620-657 | for an import that does not compile the importing file again, it is active afterwards if and only if the import was not left by a throw |
| ProfilingFlags.ProperMeansAcyclic | src/cxy/driver/driver.c:620-657 | without throws, every resumed timer was paused exactly if no file is started while it is being compiled |
| ProfilingTimes.TotalsAreCharged | src/cxy/driver/profiling.c:196-314 | after every run, whatever its outcomes, the totals of all files and the C import time are at most what was charged |
| ProfilingRuns.ParsePauseClaims | src/cxy/driver/profiling.c:236-252 | pausing charges the time since the timer was started or resumed, so that all is charged up to now |
| ProfilingRuns.StepsClaim | src/cxy/driver/driver.c:620-672 | imports and C headers during parsing charge no instant twice, also when an import is left by a throw of its parser |
| ProfilingRuns.FileClaims | src/cxy/driver/driver.c:607-675 | the same for a whole file; one that its parser leaves by a throw goes on being charged where the charges end |
| ProfilingRuns.NothingChargedTwice | src/cxy/driver/profiling.c:511-515 | after a run in which every resumed timer was paused and no stage throws, all totals and the C import time together are at most what was charged, and that is at most the time since profiling was enabled |
| ProfilingTimings.FlagsOfShape | src/cxy/driver/driver.c:607-675 | that condition depends on the shape of a run only, not on its times |
| ProfilingExact.FitsExactly | src/cxy/driver/driver.c:607-675 | for every shape of a main file that ends: no more is charged than the time that passes, whatever times the parts take, if and only if every resumed timer was paused and no stage of an import throws |
| ProfilingExact.FileOverlaps | src/cxy/driver/driver.c:607-675 | for every other shape, times in which one instant is charged twice |
| ProfilingWitnesses.ThrownImportLeavesTimer | src/cxy/lang/frontend/parser.c:4190-4234 | after an import whose parser threw, its file is active and the timer of the importing file stays paused |
| ProfilingWitnesses.ThrownImportWitness | src/cxy/lang/frontend/parser.c:4190-4234 | for all times: the rest of the importing file is charged to the file that was left, and the importing file gets nothing |
| ProfilingWitnesses.CircularImportWitness | src/cxy/driver/profiling.c:181-194 | a file that is imported again by its own import, for all times: by how much its totals exceed the elapsed time or fall short of it |
| ProfilingContext.Context.Start | src/cxy/driver/profiling.c:137-194 | finds or creates the data of a file and makes it active |
| ProfilingContext.Context.End | src/cxy/driver/profiling.c:196-213 | sums up the parse time and the stages, and no file is active |
| ProfilingContext.Context.CompileModule | src/cxy/driver/driver.c:607-657 | the calls have the effect of one import step; whenever the function returns the importing file is active again, and a throw that goes through it restores nothing |
| ProfilingContext.Context.CompileFile | src/cxy/driver/driver.c:717-733 | a main file in any context: no file is active afterwards unless it was left by a throw, and after a proper run the totals fit in the elapsed time |
| ProfilingSession.SessionFits | src/cxy/driver/main.c:47-53 | over all source files of one run of the compiler, if each is proper with the timers as the files before have left them, all totals and the C import time are at most the time since profiling was enabled |
| ProfilingTotals.FileTotals | src/cxy/driver/profiling.c:181-285 | for a run in which no file is started twice and nothing throws, exactly the files that it compiles are listed, in the order in which they are started, each with the time of its parsing outside imports and headers, the time of each stage, and their sum |
| ProfilingTotals.TotalsAreExact | src/cxy/driver/profiling.c:181-285 | for such a run from any context with profiling on, the totals grow by exactly the times of these files and the C import time by those of the headers, which together is exactly what is charged |
| ProfilingSession.SessionTotals | src/cxy/driver/main.c:47-53 | the same over all source files of one run of the compiler |
| ProfilingSession.CompileSources | src/cxy/driver/main.c:47-53 | the loop over the source files, which a throw out of one ends |
| ProfilingSession.Profile | src/cxy/driver/driver.c:310-316 | a context that is initialised and enabled and then used for all source files satisfies that |
| TomlTokens.NextToken | src/3rdParty/toml/toml.c:1871-1932 | the next token begins behind blanks and comments with the character of its kind, and lies inside the text |
| TomlTokens.ScanLiteral | src/3rdParty/toml/toml.c:1854-1868 | a bare literal is empty exactly if its first character cannot be part of one |
| TomlTokens.ScanString | src/3rdParty/toml/toml.c:1704-1868 | the length of a string token, decided in one pass; a quoted one ends with its quote |
| TomlWords.WordIsFound | src/3rdParty/toml/toml.c:1704-1868 | every bare word, number, date, time and quoted string, also over several lines, is found with its length, whatever may follow it |
| TomlSteps.InsertKeepsNoRepeats | src/3rdParty/toml/toml.c:769-900 | a new key keeps the keys of a table unique |
| TomlSteps.KeyStays | src/3rdParty/toml/toml.c:769-900 | a key that is in a table stays in it in every later state |
| TomlSteps.ExtendsTwice | src/3rdParty/toml/toml.c:1456-1525 | that nothing read earlier is lost holds over any number of steps |
| TomlSteps.MakeExplicitKeeps | src/3rdParty/toml/toml.c:825-835 | an implicit table becomes explicit for the first time, and all tables stay sound |
| TomlKept.CreateValKeeps | src/3rdParty/toml/toml.c:769-807 | a value is added exactly if its key is new in all three lists of the table, and then the key is in it |
| TomlKept.CreateTableKeeps | src/3rdParty/toml/toml.c:812-857 | a table is given under a new key, or for an implicit table, which is explicit then; never an explicit one again; read-only tables stay as they are |
| TomlKept.CreateArrayKeeps | src/3rdParty/toml/toml.c:862-902 | an array is added exactly if its key is new in all three lists of the table |
| TomlKept.ReadKeyValKeeps | src/3rdParty/toml/toml.c:1154-1239 | a key-value line, however nested: all tables and arrays stay sound, nothing is lost, every read-only table and every array that was there stays exactly as it was, and on success the key is in the table |
| TomlKept.ReadInlineKeeps | src/3rdParty/toml/toml.c:990-1029 | the same for inline tables, which are read-only once they were read to their closing brace |
| TomlGiven.KeyIsGiven | src/3rdParty/toml/toml.c:1192-1239 | what an accepted `key = value` line leaves under its key: that value, a new array, or a table that is read-only |
| TomlGiven.DottedKeyIsGiven | src/3rdParty/toml/toml.c:1166-1190 | for an accepted `key.rest = value` there is a table under the key, and the rest of the line is read in it |
| TomlBuild.PutItemsGrow | src/3rdParty/toml/toml.c:1053-1147 | what the elements of an array stand for adds as many elements behind those of that array, and else only new tables and arrays |
| TomlHolds.PutItemsHold | src/3rdParty/toml/toml.c:1053-1147 | and these are, in order, the raw tokens with their types, arrays with their elements, and closed tables with exactly their entries, at any depth |
| TomlHolds.PutEntriesHold | src/3rdParty/toml/toml.c:990-1023 | entries that were put into a table are there under their names, each kind in the order of the text |
| TomlSteps.PushedOk | src/3rdParty/toml/toml.c:1067-1119 | the kind of an array always tells whether its elements are all values, all arrays, all tables or mixed, and its value type is that of the first element exactly if all raw values have it |
| TomlValues.ListIsRead | src/3rdParty/toml/toml.c:1053-1147 | every array with any blanks, line breaks and comments between its elements, nested at any depth, with or without a last comma, is read from bracket to bracket as what it stands for |
| TomlValues.InlineIsRead | src/3rdParty/toml/toml.c:990-1023 | so is every inline table in which no key is twice |
| TomlValues.EntryIsRead | src/3rdParty/toml/toml.c:1154-1239 | and every `key = value` whose key is new in an open table |
| TomlSections.ArrayHolds | src/3rdParty/toml/toml.c:1053-1147 | such an array is accepted, and then has all its elements in order and nothing else has changed |
| TomlSections.TokensHold | src/3rdParty/toml/toml.c:1067-1098 | for elements that are tokens, they are exactly these tokens with their types |
| TomlHeaders.HasLastTable | src/3rdParty/toml/toml.c:1318-1328 | in a sound document an array of tables is never empty, and its last element is a table |
| TomlHeaders.WalkKeeps | src/3rdParty/toml/toml.c:1301-1362 | a path can be followed exactly if no key of it belongs to a value or to an array that is not one of tables; nothing is lost and no array changes |
| TomlHeaders.WalkInTwo | src/3rdParty/toml/toml.c:1301-1362 | a path is followed in steps: the whole path leads where its last key leads from the end of the rest |
| TomlHeaders.WalkAgain | src/3rdParty/toml/toml.c:1301-1362 | a path that was followed once leads to the same table in every later state with the same arrays, and creates nothing |
| TomlHeaders.SelectNames | src/3rdParty/toml/toml.c:1364-1454 | a header is accepted exactly if its path can be followed and its last key is new or an implicit table, for `[[` new or an array of tables; the last key then leads to the table that becomes current, and so does the whole path of a `[` header |
| TomlHeaders.NotTwice | src/3rdParty/toml/toml.c:1364-1454 | the same `[` header is refused the second time |
| TomlHeaders.HeaderChanges | src/3rdParty/toml/toml.c:1301-1358 | a header changes a read-only table exactly if its path passes through the table or ends in it with a key that the table lacks |
| TomlHeaders.ReadOnlyWitness | src/3rdParty/toml/toml.c:838-857 | the header `[x.y]` adds a table to the closed inline table of `x = {a = 1}` |
| TomlHeaders.DocumentSound | src/3rdParty/toml/toml.c:1456-1525 | whatever is read of a text: in every table the keys are unique, in every array of tables there are only tables, and no table was made explicit twice |
| TomlTexts.PathIsRead | src/3rdParty/toml/toml.c:1251-1292 | the keys of a header with points and blanks between them, at most ten, are collected in order |
| TomlTexts.HeaderIsRead | src/3rdParty/toml/toml.c:1364-1441 | a header with one bracket or two and a comment behind it makes the table current that its keys select |
| TomlTexts.DocumentIsRead | src/3rdParty/toml/toml.c:1456-1525 | every document of lines `a.b.key = value`, `[a.b]` and `[[a.b]]`, with blank lines and comments, each of which may stand where it stands, is accepted and read as what its lines stand for, each in the table that is current there |
| TomlSections.DocumentIsHeld | src/3rdParty/toml/toml.c:1456-1525 | every document of entries and sections `[name]` in which no name is given twice is accepted: the root holds its entries and then the sections in order, and each section exactly its entries |
| TomlTables.Arr.Push | src/3rdParty/toml/toml.c:1069-1127 | the element is last, and the kind stays that of all elements or becomes mixed |
| TomlDocument.Document.CheckKey | src/3rdParty/toml/toml.c:721-760 | the loops over the three lists find the value, the array or the table with the key, or nothing |
| TomlParser.Parser.CreateKeyVal | src/3rdParty/toml/toml.c:769-807 | does in place what the lemma on values says: added exactly for a new key |
| TomlParser.Parser.CreateKeyTable | src/3rdParty/toml/toml.c:812-857 | gives the object of the new table, or of the implicit one that is explicit from then on |
| TomlDocument.Document.MakeExplicit | src/3rdParty/toml/toml.c:825-835 | the table changes in place and every other table and array is as it was |
| TomlParser.Parser.CreateKeyArray | src/3rdParty/toml/toml.c:862-902 | gives the object of the new array, exactly for a new key |
| TomlDocument.Document.Push | src/3rdParty/toml/toml.c:1069-1127 | the array gets the element in place and every other table and array is as it was |
| TomlParser.Parser.ParseArray | src/3rdParty/toml/toml.c:1053-1147 | the loop over the elements ends on every text and reads what the recursive definition reads |
| TomlParser.Parser.ParseInlineTable | src/3rdParty/toml/toml.c:990-1029 | the loop over the entries ends on every text and reads what the recursive definition reads |
| TomlParser.Parser.ParseKeyVal | src/3rdParty/toml/toml.c:1154-1239 | a key-value line, which may be dotted and nested, read in place as the definition says |
| TomlParser.Parser.SubTable | src/3rdParty/toml/toml.c:1176-1190 | the table behind a dotted key, the existing one or the one that is created |
| TomlParser.Parser.FillTabPath | src/3rdParty/toml/toml.c:1251-1299 | the loop collects up to ten normalised keys up to the closing bracket, and the text of the last one |
| TomlParser.Parser.WalkOne | src/3rdParty/toml/toml.c:1301-1358 | one step of a header path: to the table under the key, to the last table of the array of tables under it, or to a new implicit table that is the next one of the document; fails exactly for a value and for another array |
| TomlParser.Parser.WalkTabPath | src/3rdParty/toml/toml.c:1301-1362 | the loop from the root composes these steps for the whole path, and the table it arrives at is current |
| TomlParser.Parser.AppendTable | src/3rdParty/toml/toml.c:1402-1437 | `[[x.y.z]]` adds a table to the array `z`, which is created if there is none |
| TomlParser.Parser.ParseSelect | src/3rdParty/toml/toml.c:1364-1454 | a header is accepted if its brackets match, its keys can be read and the table they name is selectable; that table is current from then on |
| TomlParser.Parser.Parse | src/3rdParty/toml/toml.c:1456-1525 | ends on every text, accepts exactly what the recursive definition accepts, and leaves the document that it defines, which is sound |
| TomlParser.Parser.ParseLine | src/3rdParty/toml/toml.c:1487-1520 | one line: accepted, refused and with the current table as the definition says, and all tables stay sound |

## Left out

- E4cCorrectness.MachineImplementsSemantics: for structured control only; leaving a block by `return` or `break` is the subject of `E4cLeave`, in which a throw back to a function that has returned simply resumes it. The file and line of an error are left out.
- Out-of-memory branches and null-pointer guards: allocation succeeds.
- Floating-point numbers: JSON numbers are printed for 32-bit integers only and parsed in exact arithmetic; the rounding of `pow` and of `double` is not modelled.
- HmapSize.IdealSize: the quotient of two doubles is replaced by the exact quotient, so rounding near a table size is not modelled.
- RobinHoodMap.Hmap.Get: returns the value, not the pointer into the table or the shortcut that reads the table through it; `hmapClear` and the iterator are easy members.
- JsonParser.ReadNumber: computes in exact reals and without the limits of `int`.
- Hash functions: a hash is any function of the key.
- HashTables.HashTable.Remove: takes the index of a bucket, not a pointer into the element array; clearing and iterating are easy members.
- Random names, concatenation and formatting in the string pool only call the interning function.
- The error position that the JSON parser reports, and item access by name.
- JSON children: the parser and printers work on trees as values; the links between siblings are modelled for the editing operations only, on nodes that are not references.
- JsonChildren.Container.Replace: the replaced node is detached but not freed.
- JsonPrintBuffer.PrintBuffered: the text must be shorter than the largest `int` power of two, as the size arithmetic is done in `int`.
- JsonMinifyInPlace.MinifyInPlace: stops where the cursor passes the terminator; what the original does then depends on the memory behind the text.
- Tracked allocations of the memory pool, and the bytes inside a chunk except for the link and the size of a cached one.
- MemPool.MemPool.AllocCached: nothing is said about the size of memory that comes from a cache, because the code does not look at it.
- TOML: normalising keys and classifying raw values are parameters (any functions); line numbers, error messages and the typed accessors are not modelled.
- TomlParser.Parser.Parse: documents of the grammar in `TomlSpelling` and `TomlLines` are read as what they stand for; which other texts are accepted, among them dotted keys in inline tables, is described by a recursive definition over tokens with the branches of the code only.
- Utf8Codecs.ReadUndoesPrint: `strtoul` is a parameter that reads at least the octal digits in front of it.
- Profiling output, microsecond formatting, 64-bit overflow of nanosecond counters, and parse times that worker threads record directly.
- The builtins, which are compiled before the source files without an active file.
- The cache of compiled modules: a run lists the imports that are really compiled; that a file which is read again has the same imports is not modelled.
- ProfilingExact.FitsExactly: what a restart of a file discards counts as charged, so that for some shapes only the charges, not the totals, exceed the elapsed time (for one file that is imported by its own import, `ProfilingWitnesses.CircularImportWitness` gives the totals); a main file that is left by a throw ends the program and is not counted.
- Command line, terminal, registry, plugin, Git and process code: foreign calls and user interface.
