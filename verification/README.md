# Verified model of the data engine

A Dafny model of four cores of the data engine, with proofs of what they are for. `dafny verify dfyconfig.toml`
checks all of it.

1. **Formulas** (`Arith`, `Lexer`, `TokenStream`, `Grammar`, `OperatorValues`, `ExpParser`, `Formula`, `Printing`,
   `Tool`, `ReplaceRange`, `Substitution`, `Template`, `Points`, `StoredFormula`, `DataStorage`). The parser object is
   a class whose methods move a read position; each is tied to a grammar with derivations and eager values. On that
   rest the round trip with a printer that uses the fewest parentheses, and the theorem that substituting stored
   values as decimal text, negative ones included, and then parsing gives the eager value of the template. A double is
   a real number; number text, `std::to_string`, `std::stod` and `std::stoi` are modelled character by character.
2. **Point store** (`Points`, `DataStorage`). The vectors of values keep the shape of the point tables; updates by
   index and by condition are exact and touch nothing else.
3. **Message queue and thread pool** (`PriorityQueue`, `MsgQue`, `MsgQueThreads`, `MsgQueLinked`, `MsgQueAtomic`,
   `MsgQueReturns`, `ThreadPool`, `ThreadPoolTasks`, `ThreadPoolThreads`, `ThreadPoolReturns`). The list with its
   boundary iterators is a class and refines a stable priority queue. Any number of threads is a state machine whose
   steps are the semaphore operations and the work under the mutex; `MsgQueLinked` runs it on the list and the
   iterators, `MsgQueAtomic` shows that each call acts at instants of its own, one for a send or a finished receive.
   `stop` is a counting argument over a pool with atomic queue steps, carried over to the pool's threads on the queue
   with its mutex, in both directions.
4. **Channel handshake and protocol start-up** (`Channel`, `ChannelRuns`, `ChannelOrder`, `ChannelAnswers`,
   `IChannel`, `ChannelStream`, `TwoRequesters`, `MapOrder`, `TaskCenter`, `ProtocolManager`, `Requesters`). Byte
   source, worker and requester are a state machine with explicit program counters and timeouts anywhere; the methods
   of the class `ReceiveSide` are runs of it. Grouping the devices and pairing instances with configurations by
   position are classes with the loops of the original, proved against functions.

What the proofs brought to light about the code, each stated as an exact condition or a lemma:

- `initData` writes a member name it does not know over the SIGNAL vector; the shape is right exactly when the last
  member so written has as many rows as `signal` (`FilledShapedIff`, `Init`). Members come in ascending order,
  so one unknown member spoils the shape exactly when it sorts after `signal` and has another number of rows
  (`UnknownMemberIff`).
- `clean` and `setParam` repair no boundary iterator; `clean` is right exactly when every dropped message has the
  priority of the one before it (`CleanIff`), `setParam` exactly on an empty queue. No run of the threads is undefined
  exactly when there is one priority level (`DefinedIff`); with more, one message and a `clean` are enough (`Strand`).
  While clean drops nothing the iterators are right at any number of levels (`IteratorsKeptWithoutClean`).
- `ThreadPool::stop` is sure to return exactly when the queue has a place for each worker and a level to send at, and
  that is so of the threads on the mutexed queue, not only of atomic steps (`ThreadPoolReturns.StopExact`); otherwise
  some run leaves a worker blocked for ever (`ShortRun`, `ShortForever`).
- With a timeout a frame can be lost and a later one returned twice (`TimeoutRepeatsAFrame`), though never a frame of
  another device, and never out of order (`ReturnsOwnFrames`, `NeverReordered`). From an idle state on the frames cut
  come back in order, whatever was lost before, exactly when the worker is about to clear the name or at the top of its
  loop with no name published (`RecoversIff`, `LossRecovers`).
- One requester at a time per channel is what these results assume. The lock of `sendSyncRecv` belongs to a protocol
  thread, so a task's channel has one requesting thread exactly when the task's configurations name one plugin
  (`OneRequesterIff`). With two, `recvFrame` can return the other device's frame (`OthersFrame`).
- The name clear that follows a post can wipe the next request even without a timeout (`LateClearWipes`); which pending
  requests can still be answered is decided by `AnsweredIff`.
- A number and `!=` are the same token, so `1 2 3` compares 1 with 3 (`NumberActsAsNotEqual`).
- A `<` with a `>` behind it is taken for the start of a reference (`SubstitutionIff`, `LessSwallowed`).
- A point that is not stored becomes empty text (`AnyStoreText`), and the rest can still be a formula, or another one
  (`MissingPointStillParses`, `MissingPointChangesOperator`).
- `splitStr` yields nothing for text without the separator (`SplitJoinIff`).

## Model

| member | source | states |
|---|---|---|
| Arith.BitOrBits | Src/Tool/ExpParser.cpp:187-196 | the result of `\|` has exactly the bits that either operand has, in two's complement of any width |
| Arith.BitAndBits | Src/Tool/ExpParser.cpp:198-207 | the same for `&`: the bits both operands have |
| Arith.BitwiseFits | Src/Tool/ExpParser.cpp:187-207 | operands of int width give a result of int width, so the casts lose nothing more |
| Arith.MagnitudeTextValue | Src/Data/DataStorage.cpp:351-360 | reading back what `std::to_string` printed for a double gives it to within half a millionth |
| Arith.WholeTextValue | Src/Data/DataStorage.cpp:351-360 | a whole number printed as a double is read back without loss |
| Arith.FixedTextShape | Src/Data/DataStorage.cpp:351-360 | what `std::to_string` prints for a double: a sign for negative values only, a whole part, a dot and six digits |
| Arith.IntTextLead | Src/Data/DataStorage.cpp:368-369 | and a natural number without leading zeros |
| Arith.IntTextValue | Src/Data/DataStorage.cpp:368-369 | the decimal text of a natural number denotes that number |
| Arith.StoiText | Src/Data/DataStorage.cpp:212-213 | `std::stoi` reads back the decimal text of every point number below the int limit |
| TokenStream.StoiReads | Src/Data/DataStorage.cpp:213 | `std::stoi` on any of the six blanks, an optional sign, digits and whatever follows: the number within the limits of int, otherwise an exception |
| TokenStream.StodWhole | Src/Tool/ExpParser.cpp:51-59 | `std::stod` on digits, whatever follows |
| TokenStream.StodFraction | Src/Tool/ExpParser.cpp:51-59 | and on a decimal fraction, with digits before the dot or after it |
| TokenStream.DecValueJoin | Src/Tool/ExpParser.cpp:58 | digits denote numbers in the decimal system |
| TokenStream.DecValueDigit | Src/Tool/ExpParser.cpp:58 | each of `0` to `9` its place in that row |
| TokenStream.NumeralIff | Src/Tool/ExpParser.cpp:51-59 | a text is a number exactly if it is made of digits and dots and starts with a digit or a dot and a digit |
| TokenStream.BlankSkipped | Src/Tool/ExpParser.cpp:37-40 | each of space, tab, newline, vertical tab, form feed and carriage return is skipped |
| TokenStream.NumberTaken | Src/Tool/ExpParser.cpp:51-60 | the longest run of digits and dots is one number token, or an exception |
| TokenStream.TwoCharacters | Src/Tool/ExpParser.cpp:65-130 | `&&`, `\|\|`, `<=`, `>=`, `==`, `!=` are the tokens `&`, `\|`, `l`, `g`, `e` and the number token |
| TokenStream.OneOfTwo | Src/Tool/ExpParser.cpp:65-135 | their first characters alone are `a`, `o`, `<`, `>`, `!`, and a lone `=` throws |
| TokenStream.OtherCharacter | Src/Tool/ExpParser.cpp:136-138 | every other character is its own token, so `a`, `o`, `l`, `g`, `e` act as operators and `n` as a number or `!=` |
| TokenStream.NulEnds | Src/Tool/ExpParser.cpp:42-46 | a NUL acts as the end |
| Grammar.ParseSound | Src/Tool/ExpParser.cpp:143-326 | at each of the nine levels, what the recursive descent accepts is a derivation from that level and yields exactly the tokens consumed |
| Grammar.ParseComplete | Src/Tool/ExpParser.cpp:143-326 | every derivation of a level is found again from its tokens, whatever follows that cannot continue the level; covers left association and right-nested `?:` |
| Grammar.CalculatedIff | Src/Tool/ExpParser.cpp:17-33 | `calculate` ends normally with v if and only if the whole token stream derives from the grammar and the eager value of the derivation is v |
| Grammar.CalculatedDerivation | Src/Tool/ExpParser.cpp:17-33 | on a derivable stream `calculate` has the eager value of the derivation, or the exception of a zero divisor |
| Grammar.DerivationUnique | Src/Tool/ExpParser.cpp:143-326 | the grammar, with a number and `!=` as one terminal, is unambiguous |
| Grammar.EvalNoneIff | Src/Tool/ExpParser.cpp:272-294 | the eager value is missing if and only if some divisor anywhere, in a branch that counts or not, is zero |
| Grammar.NumberActsAsNotEqual | Src/Tool/ExpParser.cpp:59-116 | three numbers in a row are read as a `!=` between the outer two |
| OperatorValues.TruncTowardZero | Src/Tool/ExpParser.cpp:193 | `static_cast<int>` drops the fraction toward zero |
| OperatorValues.BitIs | Src/Tool/ExpParser.cpp:187-207 | the bits of BitOrBits and BitAndBits are those of two's complement |
| OperatorValues.OperatorWorth | Src/Tool/ExpParser.cpp:162-294 | the worth of the texts of two signed decimals with each of the fourteen operators between them, in plain arithmetic |
| OperatorValues.OperandWorth | Src/Tool/ExpParser.cpp:143-159 | of a decimal, one in parentheses, one after `!`, and a conditional of three |
| OperatorValues.Grouping | Src/Tool/ExpParser.cpp:162-294 | two operators in a row group as with parentheses around the tighter one, or the left one of two equally tight, in the order of C |
| OperatorValues.NotGrouping | Src/Tool/ExpParser.cpp:319-323 | `!` binds tighter than every operator |
| OperatorValues.ConditionalGrouping | Src/Tool/ExpParser.cpp:143-159 | `?:` is looser than every operator and nests to the right |
| ExpParser.BadFails | Src/Tool/ExpParser.cpp:125-135 | no parse function gets past a token that `nextToken` threw on |
| ExpParser.OutcomeLevel | Src/Tool/ExpParser.cpp:162-294 | a left-associative level computes the fold of its operator over the operands of the next level, and fails with them; ties the value-computing loop to the derivation |
| ExpParser.ConditionalOutcomeIs | Src/Tool/ExpParser.cpp:143-159 | the value-computing conditional, with both branches always evaluated, is the value of the derivation |
| ExpParser.FactorOutcomeIs | Src/Tool/ExpParser.cpp:296-326 | the value-computing factor is the value of the derivation |
| ExpParser.ExpParser.Create | Src/Tool/ExpParser.cpp:7-13 | the constructor throws exactly when the first token is bad; otherwise all tokens of the text are left to read |
| ExpParser.ExpParser.NextToken | Src/Tool/ExpParser.cpp:35-140 | advances to the next token of the maximal-munch token stream, throws exactly on a bad one, never reads past the end, and uses up text unless at the end |
| ExpParser.ExpParser.Calculate | Src/Tool/ExpParser.cpp:17-33 | returns the value the grammar gives the unread tokens, 0 where there is none |
| ExpParser.ExpParser.ParseConditional | Src/Tool/ExpParser.cpp:143-159 | returns the value and leaves the tokens that level 0 of the grammar prescribes, throws exactly when it prescribes none, and has read something |
| ExpParser.ExpParser.ParseLogicalOr | Src/Tool/ExpParser.cpp:162-172 | the same for level 1 |
| ExpParser.ExpParser.ParseLogicalAnd | Src/Tool/ExpParser.cpp:175-185 | the same for level 2 |
| ExpParser.ExpParser.ParseBitOr | Src/Tool/ExpParser.cpp:187-196 | the same for level 3 |
| ExpParser.ExpParser.ParseBitAnd | Src/Tool/ExpParser.cpp:198-207 | the same for level 4 |
| ExpParser.ExpParser.ParseComparison | Src/Tool/ExpParser.cpp:210-257 | the same for level 5, whose operators share one loop |
| ExpParser.ExpParser.ParseAddSub | Src/Tool/ExpParser.cpp:259-270 | the same for level 6 |
| ExpParser.ExpParser.ParseTerm | Src/Tool/ExpParser.cpp:272-294 | the same for level 7, with the exception on a zero divisor |
| ExpParser.ExpParser.ParseFactor | Src/Tool/ExpParser.cpp:296-326 | the same for level 8 |
| Formula.ConcreteDerives | Src/Tool/ExpParser.cpp:143-326 | the printed form derives from the level wanted, and not one pair of its parentheses could be dropped |
| Formula.DenotesValue | Src/Tool/ExpParser.cpp:143-326 | a derivation that is the formula but for parentheses has the formula's eager value |
| Printing.SpellTokens | Src/Tool/ExpParser.cpp:35-140 | lexemes that may follow one another are lexed into their own tokens with any blanks, or none, between them |
| Printing.PrintedTokens | Src/Tool/ExpParser.cpp:35-140 | a printed formula is lexed into the tokens of its derivation, the shared `!=` token carrying the number read last |
| Printing.RoundTrip | Src/Tool/ExpParser.cpp:7-326 | for every formula and every layout: the constructor does not throw, the parser finds the formula's own derivation, and `calculate` gives its eager value |
| Tool.FieldsJoin | Src/Tool/Tool.cpp:58-86 | the fields of a text hold no separator and joined give the text back |
| Tool.JoinFields | Src/Tool/Tool.cpp:58-86 | and are the only such fields |
| Tool.SplitJoinIff | Src/Tool/Tool.cpp:58-86 | splitting inverts joining separator-free parts if and only if there are two or more and none is empty |
| Tool.SplitStr | Src/Tool/Tool.cpp:58-86 | the position-advancing loop appends exactly the non-empty fields, nothing when the separator is absent |
| ReplaceRange.PassStep | Src/Tool/ExpParser.cpp:344-347 | one replacement and a fresh start do not change the result of the single left-to-right pass, and the count of opening marks falls |
| ReplaceRange.PassIdempotent | Src/Tool/ExpParser.cpp:328-349 | a second substitution over the result changes nothing |
| ReplaceRange.SearchesFirstRange | Src/Tool/ExpParser.cpp:334-344 | the two searches cut out the first range, or there is none |
| ReplaceRange.ReplaceRangeStr | Src/Tool/ExpParser.cpp:328-349 | the restarting loop ends and equals one left-to-right pass when no replacement holds the opening mark |
| Substitution.SubstituteText | Src/Tool/ExpParser.cpp:328-349 | the pass over the text of a template replaces each reference and nothing else when no `<` of an operator has a `>` behind it, whatever texts the callback gives |
| Substitution.SubstitutionIff | Src/Tool/ExpParser.cpp:328-349 | and only then: with a `>` behind an operator's `<` the result is another text, for every template, layout and clean callback |
| Template.LexemesBind | Src/Data/DataStorage.cpp:227-229 | replacing the points of a printed template, a negative value becoming a sign and a number, is printing the template with the values in place |
| Template.FillDecimals | Src/Data/DataStorage.cpp:227-229 | the template's text with the values in place is the text of the bound formula |
| Template.NoLessSeparable | Src/Data/DataStorage.cpp:227-228 | a template without `<` and `<=` never has a `>` behind one |
| Template.SubstituteThenParse | Src/Data/DataStorage.cpp:227-237 | substitute, then parse: for every template in which no `<` has a `>` behind it and every layout, the eager value under the substituted numbers; a negative number never changes the parse |
| StoredFormula.MeasureNumber | Src/Data/DataStorage.cpp:312-360 | the number substituted for a measure: an integer of any type exactly, a float or double to within half a millionth, 0 for a bool |
| StoredFormula.SignalNumber | Src/Data/DataStorage.cpp:361-370 | for a signal: the low byte of an integer, 0 or 1 for a bool |
| StoredFormula.WrittenIff | Src/Data/DataStorage.cpp:335-376 | which values have a text at all: any but string and empty as a measure, bool and three integer types as a signal; the others leave nothing |
| StoredFormula.ResolveRef | Src/Data/DataStorage.cpp:210-226 | splitting and reading `device#id` finds the text of what any store holds for that device and point, nothing for a missing one |
| StoredFormula.ResolveParts | Src/Data/DataStorage.cpp:211-226 | of any number of `#`-separated parts the first is the device and the second the point |
| StoredFormula.ResolveClean | Src/Data/DataStorage.cpp:210-226 | no callback result holds the opening mark, so the substitution of getExprValue ends on every text |
| StoredFormula.AnyStoreText | Src/Data/DataStorage.cpp:208-228 | in any store, points missing or not: the template's text with each point replaced by its text, a missing one by nothing, if and only if no `<` has a `>` behind it |
| StoredFormula.StoredFormulaValue | Src/Data/DataStorage.cpp:208-244 | getExprValue on the text of a formula over stored points is its eager value under the stored numbers, 0 if any divisor is zero |
| StoredFormula.PointPlusNumber | Src/Data/DataStorage.cpp:208-237 | in particular, over a stored integer n, `<d#i>+a` is n plus the number a |
| StoredFormula.ConvertedIs | Src/Data/DataStorage.cpp:235-242 | a measure gets the value, a signal the low byte of its whole part, other types nothing |
| StoredFormula.BadStartThrows | Src/Tool/ExpParser.cpp:7-13 | a formula that starts with a lone `=` makes getExprValue throw, since the constructor reads the first token outside the try |
| StoredFormula.BadLaterIsZero | Src/Tool/ExpParser.cpp:17-33 | behind a number the same character is caught, and the result is 0 |
| StoredFormula.CompositeFormulasAre | Src/Data/DataStorage.cpp:383-391 | the formulas of the composite table under the member of the data type |
| StoredFormula.MissingPointStillParses | Src/Data/DataStorage.cpp:215-219 | with a point that is not stored, `1-<d#i>-2` is worth 3 |
| StoredFormula.MissingPointChangesOperator | Src/Data/DataStorage.cpp:215-219 | with a point that is not stored, `a\|<d#i>\|b` has the value of `a\|\|b`, for all numerals |
| StoredFormula.LessSwallowed | Src/Tool/ExpParser.cpp:334-346 | in `2<<d#i>` the operator opens the range: the result is 2 whatever the point holds |
| Points.FilledShapedIff | Src/Data/DataStorage.cpp:246-259 | initData gives a device the shape of its table if and only if the member written last to SIGNAL has as many rows as `signal` |
| Points.UnknownMemberIff | Src/Data/DataStorage.cpp:249-257 | a table with `signal` and one unknown member gets its shape if and only if that member sorts before `signal` or has as many rows |
| Points.KnownMembersKept | Src/Data/DataStorage.cpp:249-257 | which holds whenever every member name is one the code knows |
| Points.KnownMembersAre | Src/Data/DataStorage.cpp:249-250 | the five names known |
| Points.TypeRowsAre | Src/Data/DataStorage.cpp:249-257 | the member of the point table that belongs to each data type |
| Points.FilledLengths | Src/Data/DataStorage.cpp:246-259 | after filling, each vector is as long as the member of that name, SIGNAL under the condition of FilledShapedIff |
| Points.InitialisedShaped | Src/Data/DataStorage.cpp:246-259 | filling one device settles by that condition alone whether the device is shaped, also when it is filled again, and changes no other device |
| Points.FirstMatchIs | Src/Data/DataStorage.cpp:300-308 | the search finds the first row whose field has the wanted value, and -1 only when there is none |
| DataStorage.DataStorage.InitData | Src/Data/DataStorage.cpp:246-259 | the member loop fills the vectors of one device as specified, leaving other devices alone |
| DataStorage.DataStorage.Init | Src/Data/DataStorage.cpp:15-40 | afterwards everything has the shape of the tables if and only if each table filled meets the condition of FilledShapedIff; every device with rows is held and no other, and every value is the INT32 0 |
| DataStorage.DataStorage.UpdateValue | Src/Data/DataStorage.cpp:42-56 | succeeds exactly for a stored point, changes that point to the data and no other point of any device, keeps the shape |
| DataStorage.DataStorage.GetValue | Src/Data/DataStorage.cpp:98-112 | returns the stored value if there is one and changes no point, though it may create an empty vector |
| DataStorage.DataStorage.GetIndex | Src/Data/DataStorage.cpp:261-310 | the least row whose field equals the condition converted by the declared type of the field (0 if undeclared), -1 if there is none, or for an unknown type, device or declared type |
| DataStorage.DataStorage.IndexSelects | Src/Data/DataStorage.cpp:261-310 | that row and no other is what the index function of the conditional operations gives |
| DataStorage.DataStorage.IndexInRange | Src/Data/DataStorage.cpp:261-310 | an index found by condition is in range of the stored vector in every valid state |
| DataStorage.DataStorage.UpdateValueBy | Src/Data/DataStorage.cpp:78-86 | succeeds exactly when the condition selects a row, reads back under the same condition, changes nothing else |
| DataStorage.DataStorage.GetValueBy | Src/Data/DataStorage.cpp:134-142 | the value of the row the condition selects, no point changed |
| DataStorage.DataStorage.GetExprValue | Src/Data/DataStorage.cpp:208-244 | substitution, parser object and conversion together give the function ExprValue of the stored values |
| DataStorage.DataStorage.GetCompositeValue | Src/Data/DataStorage.cpp:378-421 | the same for the composite table's formula, refused outside the table |
| PriorityQueue.EnqueueLine | Include/BaseInc/MsgQue/MsgQue.h:77-78 | a message joins the end of its own priority's line and no other line changes |
| PriorityQueue.BoundaryEnqueue | Include/BaseInc/MsgQue/MsgQue.h:77-89 | an insertion moves the boundaries at or below its priority by one and the others not at all |
| MsgQue.SendIter | Include/BaseInc/MsgQue/MsgQue.h:77-89 | an iterator equal to the insertion point must become the new node, any other already sits at its new boundary |
| MsgQue.SendBreak | Include/BaseInc/MsgQue/MsgQue.h:79-88 | once a level's iterator differs from the insertion point, every higher level's does: the early break is sound |
| MsgQue.TakeIter | Include/BaseInc/MsgQue/MsgQue.h:142-153 | an iterator at the front must advance, any other stays at its boundary |
| MsgQue.TakeBreak | Include/BaseInc/MsgQue/MsgQue.h:142-152 | once a level's iterator is past the front, every lower level's is: the early break is sound |
| MsgQue.InsertSound | Include/BaseInc/MsgQue/MsgQue.h:77-89 | insertion and the loop with its early break keep every iterator just after the messages of its priority or more |
| MsgQue.PopFrontSound | Include/BaseInc/MsgQue/MsgQue.h:140-154 | so do taking the front and its loop |
| MsgQue.CleanIff | Include/BaseInc/MsgQue/MsgQue.h:162-176 | dropping from the back keeps every iterator at its boundary if and only if each dropped message has the priority of the one before it |
| MsgQue.CleanStrands | Include/BaseInc/MsgQue/MsgQue.h:162-176 | a two-level queue, one message of the lower level, clean: the queue is not valid any more |
| MsgQue.MsgQue.SetParam | Include/BaseInc/MsgQue/MsgQue.h:49-58 | the iterators are right if and only if the queue is empty |
| MsgQue.MsgQue.SendMessage | Include/BaseInc/MsgQue/MsgQue.h:62-92 | accepted exactly for a priority in range and a queue not full; the content becomes the stable priority enqueue, list and iterators the step of MsgQueLinked, every iterator at its boundary again, one token more |
| MsgQue.MsgQue.TakeFront | Include/BaseInc/MsgQue/MsgQue.h:138-159 | delivers the front message; dequeuing drops it and repairs the iterators, peeking gives the token back |
| MsgQue.MsgQue.RecvMessage | Include/BaseInc/MsgQue/MsgQue.h:102-160 | with no other thread: succeeds exactly with a token and a valid wait time, returns the first message, and tokens and content agree afterwards |
| MsgQue.MsgQue.Clean | Include/BaseInc/MsgQue/MsgQue.h:162-176 | drops one message from the back for each token; the queue is valid afterwards exactly under the condition of CleanIff |
| MsgQueThreads.StepInv | Include/BaseInc/MsgQue/MsgQue.h:62-176 | every step of any thread keeps the mutex, token, capacity, level and line invariants, and takes no front or back of an empty list |
| MsgQueThreads.TokensAgree | Include/BaseInc/MsgQue/MsgQue.h:70-176 | in every run with any senders, receivers, peekers and cleaners: front is never taken of an empty list; while the mutex is free, tokens plus tokens in flight equal the length; the length never exceeds the capacity |
| MsgQueThreads.DeliveredPrefix | Include/BaseInc/MsgQue/MsgQue.h:62-160 | in every run without clean, the messages delivered of each priority are a prefix of those accepted of it and the rest is queued |
| MsgQueThreads.DeliversGreatest | Include/BaseInc/MsgQue/MsgQue.h:138-153 | every dequeue in every run delivers a message of the greatest priority present |
| MsgQueReturns.CallReturnsIff | Include/BaseInc/MsgQue/MsgQue.h:62-176 | in every reachable state any call, peeking or timed too, can come to its end, except that a receive without a limit of time does exactly if the queue has room and a level |
| MsgQueReturns.TimeEnds | Include/BaseInc/MsgQue/MsgQue.h:123-128 | a timed wait can give up, changing nothing |
| MsgQueReturns.Release | Include/BaseInc/MsgQue/MsgQue.h:62-176 | the thread that holds the mutex can always give it back by its own steps |
| MsgQueReturns.SendDoes | Include/BaseInc/MsgQue/MsgQue.h:62-92 | a send that is not disturbed is accepted exactly when there is room |
| MsgQueReturns.RecvDoes | Include/BaseInc/MsgQue/MsgQue.h:102-160 | a receive that is not disturbed gets the front and dequeues it unless it peeks, fails, or waits |
| MsgQueLinked.StepInv | Include/BaseInc/MsgQue/MsgQue.h:62-176 | on the real list and iterators: every step of any thread, a drop by clean only if it is safe, keeps every iterator at its boundary and inserts at no erased node |
| MsgQueLinked.IteratorsKept | Include/BaseInc/MsgQue/MsgQue.h:62-176 | so in every run of any threads with safe drops, and the messages are those of MsgQueThreads |
| MsgQueLinked.IteratorsKeptWithoutClean | Include/BaseInc/MsgQue/MsgQue.h:62-160 | and, with nothing else to check, in every run in which clean drops nothing, at any number of levels |
| MsgQueLinked.DefinedIff | Include/BaseInc/MsgQue/MsgQue.h:62-176 | no run of any threads inserts at an erased node if and only if there is one priority level (or no room for a message) |
| MsgQueLinked.Strand | Include/BaseInc/MsgQue/MsgQue.h:77-176 | for every queue with more levels and room, a run that does: send, clean, send one level higher |
| MsgQueAtomic.RunRefines | Include/BaseInc/MsgQue/MsgQue.h:62-176 | the instants of any run of any threads are, in order, a run of atomic sends, takes, waits and drops that accepts and delivers the same messages and hands each thread the same ones |
| MsgQueAtomic.InstantInside | Include/BaseInc/MsgQue/MsgQue.h:62-176 | an instant is a step of its own thread and lies inside that thread's call |
| MsgQueAtomic.EffectHasInstant | Include/BaseInc/MsgQue/MsgQue.h:62-160 | no send or receive that gets through, is refused or gives up is without an instant |
| MsgQueAtomic.Linearizable | Include/BaseInc/MsgQue/MsgQue.h:62-176 | from the empty queue on: whenever the mutex is free, queue, tokens, messages accepted, delivered and handed to each thread are those of the atomic run of the instants |
| MsgQueAtomic.StepMeans | Include/BaseInc/MsgQue/MsgQue.h:62-176 | and the atomic queue does no more than it should: what each of its steps needs and hands out |
| ThreadPool.StepEnough | Include/BaseInc/Thread/Thread.h:349-357 | with no more workers than places, a refused send still leaves tokens enough for the workers that need one |
| ThreadPool.WorkerStepsBounded | Include/BaseInc/Thread/Thread.h:370-389 | once the flag is cleared, the worker steps of any run are bounded by a rank that nothing gives back |
| ThreadPool.WorkerEventsCount | Include/BaseInc/Thread/Thread.h:370-389 | the count of worker steps that is bounded |
| ThreadPool.StopProgress | Include/BaseInc/Thread/Thread.h:349-363 | in every run that reached the joins, with no more workers than places, each worker that has not exited can step |
| ThreadPool.Finishes | Include/BaseInc/Thread/Thread.h:349-389 | from there the workers' steps lead to stop's end |
| ThreadPool.StopExact | Include/BaseInc/Thread/Thread.h:349-363 | with atomic queue steps: from every point of every run in stop's joins, stop can come to its end, if and only if the queue has a place for each worker and a level to send at |
| ThreadPool.ShortRun | Include/BaseInc/Thread/Thread.h:349-363 | a run that leaves too few tokens, for every configuration with more workers than places |
| ThreadPool.ShortForever | Include/BaseInc/Thread/Thread.h:349-363 | from such a state stop never gets past its joins, in any run |
| ThreadPoolTasks.QueuedTaskRuns | Include/BaseInc/Thread/Thread.h:370-417 | after any run that leaves the flag set, every queued task can still get to a worker, those before it first |
| ThreadPoolTasks.AddQueues | Include/BaseInc/Thread/Thread.h:391-407 | addTask queues a task of a level exactly when there is room |
| ThreadPoolThreads.StepInv | Include/BaseInc/Thread/Thread.h:349-417 | workers, stop and callers of addTask on the queue with its mutex: every step keeps the queue's invariant and each thread inside the calls that its own code makes |
| ThreadPoolThreads.StepSimulates | Include/BaseInc/Thread/Thread.h:349-417 | every such step is one step of the pool with atomic queue steps, or none |
| ThreadPoolReturns.RunSimulates | Include/BaseInc/Thread/Thread.h:349-417 | so every run of the threads is a run of the pool |
| ThreadPoolReturns.Quieten | Include/BaseInc/MsgQue/MsgQue.h:62-176 | from every state the steps of the thread that holds the mutex lead to one in which nobody does |
| ThreadPoolReturns.RunRealizes | Include/BaseInc/Thread/Thread.h:349-417 | every run of the pool is one that the threads can take |
| ThreadPoolReturns.StopExact | Include/BaseInc/Thread/Thread.h:349-363 | on the queue with its mutex and semaphore: from every point of every run in stop's joins, stop can come to its end, if and only if the queue has a place for each worker and a level to send at |
| Channel.BytesConserved | Src/Channel/ChannelManager.cpp:169-188 | so at every point of every run, whatever length and verdict the plugin answers |
| Channel.StepSlot | Src/Channel/IChannel.cpp:74-100 | each step keeps: while a token is out for the current request, the frame slot is that device's and only its frames can be written over it |
| Channel.ReturnsOwnFrames | Src/Channel/IChannel.cpp:45-100 | in every interleaving, timeouts included: no semaphore is used before it exists, and what recvFrame(n) returned is a frame fixFrame accepted for n |
| ChannelOrder.DeliveredInOrder | Src/Channel/IChannel.cpp:45-100 | in every run without a timeout the frames returned are the frames cut, in order and under their names, but for at most one still on its way |
| ChannelOrder.RecoversIff | Src/Channel/IChannel.cpp:45-100 | after any run, timeouts included, that leaves the requester idle: the frames cut from there on come back in order with at most one under way, whatever follows without a timeout, if and only if the worker is about to clear the name or at the top of its loop with no name published |
| ChannelOrder.SeeingBreaks | Src/Channel/IChannel.cpp:45-100 | from any other idle state, a continuation without a timeout that breaks that order |
| ChannelOrder.LossRecovers | Src/Channel/IChannel.cpp:86-100 | for every device and frame, a run with a timeout that loses the frame and after which all that follows is in order |
| ChannelOrder.OrderIff | Src/Channel/IChannel.cpp:45-100 | counted from the start of the run, a loss or repetition before stays for ever: the whole order holds from an idle state on if and only if the condition of RecoversIff does and the frames returned so far are those cut |
| ChannelOrder.NeverReordered | Src/Channel/IChannel.cpp:74-100 | in every run, timeouts included, the frames returned are frames cut at non-decreasing positions |
| ChannelOrder.TimeoutRepeatsAFrame | Src/Channel/IChannel.cpp:86-99 | for every device and two frames, a run with one timeout that loses the first and returns the second twice |
| ChannelAnswers.AnsweredIff | Src/Channel/IChannel.cpp:45-100 | in every reachable state with a request pending, timeouts before or not: it can be answered without a timeout of its own if and only if it is not doomed, that is unless no token is there and the worker is about to clear the name, is busy with another device's frame, or carries another name or none while the name is wiped |
| ChannelAnswers.DoomedWaits | Src/Channel/IChannel.cpp:85-99 | a doomed request stays pending in every run without a timeout |
| ChannelAnswers.LateClearWipes | Src/Channel/IChannel.cpp:98-99 | the name clear after a post can doom the next request, with no timeout before |
| TwoRequesters.OthersFrame | DataEngine.cpp:84-99 | for every two devices and frames, a run of two requesters without a timeout in which recvFrame for the first returns the frame of the second |
| ChannelRuns.RequestRun | Src/Channel/IChannel.cpp:76-85 | entering recvFrame, with any number of left-over tokens, is the machine's drain and leaves no token and the name published |
| IChannel.ReceiveSide.HandleMessage | Src/Channel/IChannel.cpp:36-43 | is the machine's step: the bytes are appended to the shared buffer |
| IChannel.ReceiveSide.RecvComplete | Src/Channel/IChannel.cpp:95-100 | slot, post and name clear are the worker's last three steps |
| IChannel.ReceiveSide.DealMsg | Src/Channel/ChannelManager.cpp:162-189 | COMPLETE delivers the first validLen bytes and keeps the others, all of them for a length out of range; INVALID clears the buffer and posts nothing; INCOMPLETE and an unknown device change nothing; a run of the machine in each case |
| ChannelStream.FramesReturned | Src/Channel/ChannelManager.cpp:162-189 | with a fixFrame that finds the frame at the front, k requests on a stream of k frames return these frames, in order and unchanged, and leave the rest |
| ChannelStream.PartsDoNotMatter | Src/Channel/IChannel.cpp:36-67 | however the bytes of a frame arrive, with a pass after each part that fixFrame calls incomplete, the same frame is cut and the same rest kept |
| IChannel.ReceiveSide.DealMessage | Src/Channel/IChannel.cpp:45-67 | one pass of the worker's loop is a run of the machine |
| IChannel.ReceiveSide.BeginRecv | Src/Channel/IChannel.cpp:74-85 | the draining loop and setName are a run of the machine |
| IChannel.ReceiveSide.EndRecv | Src/Channel/IChannel.cpp:86-93 | succeeds exactly with a token and then returns the slot, otherwise clears the name; a run of the machine |
| MapOrder.AscendingWalk | Src/Task/TaskCenter.cpp:279-282 | a walk over a std::map visits every key once, in ascending order |
| MapOrder.LeIff | Src/Task/TaskCenter.cpp:279-282 | the order is that of `std::string`: the first difference decides, then the length |
| TaskCenter.CollGroup | Src/Task/TaskCenter.cpp:287-315 | a device type's configuration is its first device's table with the names of all configured devices of the type in order and the plugin listed for the last one's template, "" if none is; a type is missing if and only if no device of it has a table |
| TaskCenter.TransGroup | Src/Task/TaskCenter.cpp:317-338 | a transfer has a configuration if and only if it is listed and has a table; it is that table, naming the transfer once, with the plugin listed for its template or "", however often it is listed |
| TaskCenter.GroupNamesEntry | Src/Task/TaskCenter.cpp:287-338 | every device or transfer with a protocol table is named by its group's configuration |
| TaskCenter.NamedByGroup | Src/Task/TaskCenter.cpp:287-338 | and a configuration names no one else |
| TaskCenter.NamedOnce | Src/Task/TaskCenter.cpp:248-338 | with every device listed once, no name is in two configurations of any tasks |
| TaskCenter.TaskCenter.ArrangeCollCfg | Src/Task/TaskCenter.cpp:287-315 | the loop computes the grouping by device type |
| TaskCenter.TaskCenter.ArrangeTransCfg | Src/Task/TaskCenter.cpp:317-338 | the loop computes one configuration per transfer name |
| TaskCenter.ServedByOneChannel | Src/Task/TaskCenter.cpp:256-267 | with every entry listed once, each is named by its own task's channel configuration and by no other |
| TaskCenter.TaskCenter.ArrangeCfg | Src/Task/TaskCenter.cpp:248-285 | each task's list holds its groups' configurations in map order, a task without any has no list, and each task has a channel configuration with the names of its entries |
| ProtocolManager.RightLast | Src/Protocol/ProtocolManager.cpp:25-37 | if all instances of a key stand beside their own configurations, the last load registered one instance and the earlier ones stand right too |
| ProtocolManager.RightIff | Src/Protocol/ProtocolManager.cpp:25-57 | pairing by position gives every instance its own configuration, with none left over, if and only if every load registers exactly one instance, whatever keys coincide |
| ProtocolManager.OneEachIs | Src/Protocol/ProtocolManager.cpp:25-37 | which is that every configuration names a plugin that can be loaded and registers one |
| ProtocolManager.UnloadableBreaks | Src/Protocol/ProtocolManager.cpp:25-37 | so a plugin that cannot be loaded leaves some instance beside a wrong configuration, or a configuration over |
| ProtocolManager.NamedByOneLoad | Src/Protocol/ProtocolManager.cpp:25-37 | each configured device is named by one load, of its own task and group, and by no other |
| ProtocolManager.EachDeviceAttachedOnce | Src/Task/TaskCenter.cpp:248-315 | with one instance per load and every device listed once: each configured device is attached to one instance, made for and initialised with its group's configuration, and no other instance is initialised with a configuration that names it |
| ProtocolManager.PtrHas | Src/Protocol/ProtocolManager.cpp:50-55 | a name that only one instance's configurations hold is attached to that instance |
| ProtocolManager.ProtocolManager.RegisterProtocol | Src/Protocol/ProtocolManager.cpp:18-23 | appends the instance to its key's list |
| ProtocolManager.ProtocolManager.CreateProtocol | Src/Protocol/ProtocolManager.cpp:25-37 | the nested loops load every task's configurations in map order, both lists of each key growing together |
| ProtocolManager.ThreadsServePairs | Src/Protocol/ProtocolManager.cpp:39-61 | the threads together serve exactly the instances that are initialised, in order |
| ProtocolManager.EachInstanceOnce | Src/Protocol/ProtocolManager.cpp:39-61 | no instance is initialised twice, and none is in two threads or twice in one |
| Requesters.OneRequesterIff | Src/Protocol/ProtocolManager.cpp:185-204 | with one instance per load and every device listed once: one protocol thread serves devices of a task's channel if and only if the task's configurations all name the same plugin |
| ProtocolManager.ProtocolManager.Start | Src/Protocol/ProtocolManager.cpp:39-61 | reads no vector beyond its end if and only if no key has more instances than configurations; then initialises the i-th instance of each key with its i-th configuration, attaches the names, and gives each key's thread its instances |

## Left out

- Floating point: rounding, infinities, NaN, and double-to-int casts out of range; a double is a real, casts truncate exactly, and `std::stod` never overflows.
- Text: a NUL character in a formula reads as the end token, as in the code; only the C locale's blanks and digits.
- The number member the parser's constructor leaves uninitialised is a parameter of the model.
- Arith.Stod: does not model exponents, signs or hexadecimal, because the lexer hands it only digits and dots.
- Template.SubstituteThenParse: leaves out templates with a `>` behind the `<` of an operator, because the substitution swallows that operator (Substitution.SubstitutionIff, StoredFormula.LessSwallowed).
- ReplaceRange.ReplaceRangeStr: does not model replacements that hold the opening mark, because the original need not end on them (ReplaceRange.ReplacementReproduces), nor marks of more than one character, which its callers do not use.
- Tool.SplitStr: one-character separators only, as its callers use; for a longer one the original skips one character after a match.
- StoredFormula.StoredFormulaValue: asks that every point referred to is stored, because a missing one becomes empty text (StoredFormula.AnyStoreText says what is left then), and the same of `<` as SubstituteThenParse.
- A reference without a `#` part reads a vector beyond its end; the model lets it end in an exception like the failures of `std::stoi`.
- DataStorage.DataStorage.GetExprValue: reads the values as one snapshot, and so does DataStorage.DataStorage.GetCompositeValue; the original locks for each point and may create an empty vector, which changes no value.
- `ValueWrap` is known by its header only: conversions follow the names of its functions, and the conversion of a condition's value is a parameter.
- `updateMultiValue`, `getMultiValue` and `getTransMultiValue`: their loops count the start index twice or add up the offsets, and no property is claimed of them; `getTransValue`, a table lookup before calls that are modelled.
- The default constructor of `TMsgQue`, which allocates no iterators; `size`, `getMaxSize`, `getPktVec`.
- The threads of the queue: calls refused before the mutex is taken, and what happens after an insertion at an erased node, which is undefined. Semaphore is an abstract counting semaphore.
- MsgQue.MsgQue.RecvMessage: leaves out the pend without a limit on an empty queue, because a sequential call would not return; MsgQueThreads has it.
- The thread pool as an object: naming, `looping()`, time limits, a restart after stop, and the destruction of `m_vecThread` while workers index it.
- Channel: the assignments of the frame slot and of the result are atomic steps, so the data race between them after a timeout is not captured; `cleanRecvBuffer`, and the real-time length of a timeout.
- More than one requester at a time on a channel, beyond the run of TwoRequesters.OthersFrame: the lock at DataEngine.cpp:91 is the mutex of one protocol thread (ProtocolManager.cpp:187-190) and `CDataEngine::recvFrame` takes none; Requesters.OneRequesterIff says when one thread requests.
- IChannel.ReceiveSide: its methods run to the end undisturbed; what other threads do in between is in Channel.
- Fairness: which steps are possible is modelled, not that the scheduler takes them.
- JSON values are records and maps; a protocol table with a member called `names` of its own is modelled, but EachDeviceAttachedOnce asks that there is none.
- Plugin loading is a table of how many instances each plugin registers; what the protocol threads do, `process` and the control and parameter calls, is left out.
- Serial, TCP and UDP channels, file and directory reading, printing, logging, singletons, the timer heap, the configuration and event managers and third-party libraries.
