# Verified models of lighttpd internals

This project models the algorithmic core of lighttpd in Dafny and proves properties of it:

- the LALR(1) parser generator that builds its configuration parsers (`src/lemon.c`) and the
  table-driven parser it emits (`src/lempar.c`), from grammar to parse in one chain of proofs;
- the byte queues of connections (`src/chunk.c`), the incremental decoder of chunked request bodies
  (`src/connections-glue.c`) and the encoder of chunked responses (`src/http_chunk.c`);
- the cache of condition results of a connection (`src/configfile-glue.c`);
- the pool of backend processes and the choice of a backend host (`src/gw_backend.c`);
- the sorted index of arrays (`src/array.c`) and the alias table that relies on it
  (`src/mod_alias.c`);
- the in-place path normaliser (`src/buffer.c`), streaming SHA-1 (`src/algo_sha1.c`) and MD5
  (`src/md5.c`).

`dafny verify dfyconfig.toml` checks everything. Code that changes things step by step is a method
over class fields, arrays or loops, proved against a mathematical description; what the source
promises is then a theorem about that description.

## How the parser generator hangs together

`Grammar` defines grammars and derivations. `FirstSets` computes exactly the symbols that vanish and
the terminals a symbol can begin with. `Msort` is the stable sort used for lists. `Configs` closes
item sets, `Lr0` builds the automaton, `FollowSets` and `Pipeline.FindLookaheads` propagate
lookaheads, `Actions` collects actions and resolves conflicts, `Compress` makes defaults, `Acttab`
and `Tables` pack and print the tables. `Pipeline.Generate` runs all of it, and `Driver` is the
machine that reads the tables. `Driver.GenerateAndParse` ends the chain of code: for every grammar the
generator accepts, if the generated parser accepts a sequence of tokens then the start symbol derives
exactly these tokens.

`Recognizer` adds the other direction. If no state has two actions on one symbol, which is to say
that conflict resolution changed nothing, then every non-empty input the start symbol derives is
accepted, given enough stack and steps. So the generated parser of a grammar without conflicts
recognises its language (`Recognizer.Recognizes`): default reductions, packing, lookaheads that are
merged and first sets with everything they rest on are all exact enough for that.

`Decider` and `Halting` say that it also stops. Without cycles and hidden left recursion every call of
any generated parser ends, within bounds on steps and stack that are known beforehand
(`Decider.DriveEnds`). A grammar without conflicts all of whose rules derive some tokens has neither
(`Halting.HasRanks`), because the parser, which on every input the grammar derives comes to an end,
could otherwise be kept reducing. So the generated parser of such a grammar decides its language
(`Halting.DecidesAll`).

Findings about the code, each stated by a member below:

- `msort` keeps its input exactly when the list is shorter than 2^30 nodes; longer lists lose nodes.
- After a syntax error the driver looks for a state that shifts the error symbol, but looks it up
  among terminals, where it never is. So the stack is emptied, which is not what the comments in
  `src/lempar.c` describe, unless the error symbol is on top of it; then only the token is thrown
  away. The error symbol gets on the stack only if a rule defines it, which the generator permits:
  with s ::= error B | error D and error ::= A, the input A C loses the C and keeps the stack
  (`ErrorRule.StackKept`).
- The empty input is never accepted, even if the start symbol derives it: the end marker alone is
  ignored while nothing is stacked.
- The branch of the chunked decoder for "no trailers" (`src/connections-glue.c` lines 170-173) cannot
  be taken (`ChunkedReader.EndsInLf`); the search for a blank line does all the work. That search has
  no defined behaviour when a read ends in trailers of `max_request_field_size` bytes or more, so
  dividing the same bytes differently can matter; `SplitsAgreeIff` says exactly when it does not.
- A size line without any digit counts as the last chunk (`ChunkedMessage.LineIff`).
- While it waits for trailers the decoder looks at the length of the chunk that was first before the
  last joining. If that only dropped an empty last chunk, the one looked at is gone: it counts as
  empty, so that any length of trailers is waited for, or is freed already (`ChunkedReader.ReadHeader`
  says exactly when, `ChunkedReader.GoneMatters` when it matters).
- An empty chunk that has come to the front of the read queue hides the CRLF behind it from the
  decoder, which answers 400. Reading into the last chunk never leaves an empty chunk before another.
- A nested condition can be true although the condition around it is false: the code falls through
  from "skip", and every way on overwrites it (`ConditionCache.NestedWithoutParent`,
  `ConditionCache.HoldsIff`).
- `num_procs` of a host counts spawns that failed; with `max_procs` 1, one failed spawn leaves the
  host without a process for good (`PoolRuns.OneFailure`). In general a host without a process stays
  without one whatever happens, or gets one by the next trigger or request, and the counters tell
  which (`PoolRuns.Play`, `PoolRuns.Revive`).
- A request that waits for a file descriptor after it was given a process forgets that process
  without giving it back: the load of the process stays one too high.
- The startup check of alias tables can miss a shadowed entry when keys have upper-case letters. It is
  right for every order of the entries exactly if no key is missing from a run of keys that another
  one is a prefix of (`Alias.CheckRightIff`).

## Model

| member | source | states |
|---|---|---|
| Grammar.DerivesConcat | src/lemon.c:163-182 | derivations of neighbouring parts are derivations of the whole: the meaning of the rules everything else is measured against |
| FirstSets.FindLambdas | src/lemon.c:636-650 | the loop ends, and a nonterminal is marked if and only if it derives the empty string |
| FirstSets.FindFirsts | src/lemon.c:652-672 | the loop ends, and a terminal is in the first set of a nonterminal if and only if the nonterminal derives a form that begins with it |
| FirstSets.ScanRule | src/lemon.c:656-670 | one rule adds to the set of its left-hand side exactly the heads of its right-hand side as known so far, and the count is 0 only if that was nothing new |
| FirstSets.LambdaComplete | src/lemon.c:636-650 | marks closed under the rules miss no vanishing form |
| FirstSets.FirstComplete | src/lemon.c:652-672 | first sets closed under the rules miss no terminal a derivation of any length begins with |
| Msort.Merge | src/lemon.c:1520-1551 | the loop over two lists is the recursive merge that takes from the second list on a tie |
| Msort.MergedSorted | src/lemon.c:1520-1551 | merging two sorted lists gives a sorted list |
| Msort.MergedAlike | src/lemon.c:1520-1551 | merging keeps all elements, and of equal ones those of the second list come first, in their order |
| Msort.Sort | src/lemon.c:1572-1593 | the result is a stable sort of the list, hence a permutation, if and only if the list has fewer than 2^30 nodes |
| Msort.SortWithBins | src/lemon.c:1572-1593 | the same for any number of bins |
| Msort.AddOne | src/lemon.c:1580-1588 | the bins are a binary counter: bin i below the last is empty or holds 2^i nodes, older than those in lower bins, and one more node counts it up |
| Msort.CapacityValue | src/lemon.c:1567-1593 | thirty bins hold 2^30 - 1 nodes |
| Msort.SortedDistinct | src/lemon.c:1572-1593 | a stable sort of pairwise different elements is strictly increasing |
| Configs.SortConfigs | src/lemon.c:1209-1220 | configurations come out strictly increasing by rule and dot, the same set as went in |
| Configs.IncreasingUnique | src/lemon.c:4096-4104 | two strictly increasing lists of the same configurations are equal, so comparing sorted bases compares sets |
| Configs.Closure | src/lemon.c:1169-1206 | the result has no duplicates and is the least set that has the basis and is closed under prediction; lookaheads and propagation links are exactly those of the predictions made |
| Configs.Expand | src/lemon.c:1178-1203 | one configuration predicts the rules of the nonterminal after its dot, gives each what can begin the rest, and links to it if and only if the rest vanishes |
| Configs.ScanAfter | src/lemon.c:1191-1201 | the loop over what follows gives exactly the heads of that string and says if it vanishes |
| Lr0.Lemon.constructor | src/lemon.c:680-733 | an empty machine for a grammar the generator accepts |
| Lr0.Lemon.FindStates | src/lemon.c:680-733 | the recursion ends; the states are the LR(0) automaton: distinct bases, closed item sets, every state reached from the first, and on each symbol after a dot a transition to the state whose basis is exactly the advanced items |
| Lr0.Lemon.GetState | src/lemon.c:739-780 | the state with the given basis, found or made together with all states that are reached from it, each complete; the invariant of construction is kept |
| Lr0.Lemon.BuildShifts | src/lemon.c:784-826 | the state gets one transition for each symbol after a dot; everything made before keeps its meaning |
| Lr0.Lemon.FindState | src/lemon.c:4251-4265 | the state with that basis, if there is one |
| Lr0.NewBasisIsProgress | src/lemon.c:4190-4265 | each new state takes one from the finitely many possible bases: the measure of the recursion |
| FollowSets.Propagate | src/lemon.c:868-902 | the loop ends with the least solution: a terminal is in the follow set of a configuration if and only if a configuration seeded with it reaches this one along the links |
| FollowSets.Visit | src/lemon.c:886-898 | visiting one configuration unites its set into exactly its successors and marks incomplete exactly those that grew |
| FollowSets.SettledIsExact | src/lemon.c:881-901 | when every configuration is marked complete nothing is missing and nothing is there without a path |
| Actions.FindActions | src/lemon.c:908-966 | the list of a state has a shift for each terminal transition, a reduce for each lookahead of each finished configuration, accept on the start symbol in state 0, and of the actions on a symbol exactly the winner is live; every other one is marked with how it lost, and the conflicts are counted |
| Actions.ResolveAll | src/lemon.c:952-966 | for every symbol exactly one action stays live, the champion of the list, every other one is marked as resolved or as a conflict by what it met, and the conflicts counted are those that precedence does not settle |
| Actions.ResolveKillsTheLoser | src/lemon.c:996-1051 | of two actions exactly one stays live: the later wins only with a higher precedence, or an equal one and left associativity against a shift |
| Actions.FindRulePrecedence | src/lemon.c:599-617 | the loop gives the symbol from which the rule has its precedence |
| Actions.RulePrecedenceIs | src/lemon.c:599-617 | a rule has the precedence of the symbol given for it; without one, that of the first symbol on its right that has one, and none if and only if no symbol there has one |
| Actions.ShiftOrReduce | src/lemon.c:1009-1032 | a shift against a reduce, by levels and associativity: the higher level stays, on equal levels left associativity reduces, right associativity shifts and no associativity is a conflict, as is a missing precedence on either side |
| Actions.ReduceOrReduce | src/lemon.c:1033-1044 | two reduces: the higher level stays; on equal levels or without a precedence the earlier rule stays and it is a conflict |
| Actions.ListOrder | src/lemon.c:367-381 | on one symbol a shift comes before the reduces, and these come in the order of their rules |
| Actions.ChampionsAreOne | src/lemon.c:952-966 | after resolution no symbol has two live actions and every symbol that had an action has one |
| Actions.ActionCmpIsTotal | src/lemon.c:367-381 | the order of actions is a total preorder, as sorting needs |
| Compress.MostFrequent | src/lemon.c:3640-3660 | the rule most often reduced in the list, the first of several, and how often |
| Compress.CompressState | src/lemon.c:3636-3672 | if some rule is reduced at least twice, the most frequent one, the first of several, becomes the default and its entries leave the list; everything else live stays |
| Pipeline.CompressedMeaning | src/lemon.c:3626-3673 | looking a terminal up in the compressed list gives its live action, and where there was none the default reduce instead of an error; nothing else differs |
| Acttab.Acttab.Action | src/lemon.c:464-488 | the pending set gains the entry and its least lookahead and action stay right |
| Acttab.Acttab.Insert | src/lemon.c:497-572 | the returned offset holds exactly the pending set, no row packed before reads any differently, and every write is inside the allocation |
| Acttab.Acttab.FindPlace | src/lemon.c:524-560 | a place is found whose slots are free or hold this very set |
| Acttab.StoringIsLossless | src/lemon.c:524-570 | writing a set where no row has its offset leaves the reading of every other row as it was |
| Acttab.InsertIsLossless | src/lemon.c:497-572 | for every offset ever returned and every symbol, the slot has that lookahead if and only if the symbol is in the set, with the set's action |
| Acttab.SameCountSameRow | src/lemon.c:551-558 | as an entry belongs to one offset only, as many entries as the set has, all with its lookaheads, mean the same row |
| Tables.ReportTable | src/lemon.c:3310-3465 | whatever order the rows are packed in, largest first, the printed tables give for each state and symbol the live action or the default |
| Tables.AddRow | src/lemon.c:3346-3372 | the terminals or nonterminals of one state become one packed row |
| Tables.PackRows | src/lemon.c:3346-3372 | all rows are packed, and the first empty set ends the loop without losing one |
| Tables.EmitOffsets | src/lemon.c:3408-3448 | offsets come out as they are, and one below the least stands for no row |
| Tables.RowReads | src/lempar.c:328-392 | the lookup in the printed arrays, with its bounds, gives the packed entry if and only if the row has one |
| Pipeline.FindLinks | src/lemon.c:832-858 | backward links become the same links forward |
| Pipeline.FindLookaheads | src/lemon.c:832-902 | the lookaheads of the automaton are the least solution of its seeds and links |
| Pipeline.Generate | src/lemon.c:680-966 | the whole chain: automaton, lookaheads, resolved and compressed actions, and tables that say of every state and symbol what these say |
| Driver.GeneratedIsSound | src/lemon.c:908-950 | in generated tables a shift is along a transition, a reduce is by a finished rule of the state, a start rule is reduced on the end marker only, and nonterminals lead where the automaton goes |
| Driver.OnlyEndFollowsStart | src/lemon.c:722-727 | no lookahead but the end marker ever reaches a start rule |
| Driver.HandleOnTop | src/lempar.c:452-495 | if the top state has a rule with the dot at d, the top d stacked symbols are the rule's first d, and the state below them has the rule with the dot at the left |
| Driver.ReduceOk | src/lempar.c:452-495 | at every reduce the right-hand side is on top, and below it the tables give the transition on the left-hand side, or the parser accepts at the bottom |
| Driver.ReduceDerives | src/lempar.c:452-495 | a left-hand side derives what the symbols it replaces derive |
| Driver.Parser.constructor | src/lempar.c:240-247 | an empty parser |
| Driver.Parser.YyShift | src/lempar.c:397-434 | the symbol is pushed with its state, or the stack is emptied when it is full |
| Driver.Parser.YyReduce | src/lempar.c:452-495 | the stack is what the tables make of it, still spells a path of the automaton and still derives the tokens; it accepts if and only if the rule is one of the start symbol, which then derives all tokens |
| Driver.Parser.Parse | src/lempar.c:570-699 | for every accepted grammar, also with rules for the error symbol, every call ends as the tables say, with the stack they say; the stack spells a path from state 0, its symbols derive the tokens shifted since the parser was last empty, and accept means the start symbol derives exactly these; tokens are thrown away only if a rule defines the error symbol |
| Driver.Parser.Round | src/lempar.c:603-698 | one round of the loop: shifts, reduces, accepts, throws the token away or fails as the tables say, and keeps what the symbols on the stack derive |
| Driver.Parser.SyntaxError | src/lempar.c:629-690 | a syntax error keeps the stack if and only if the error symbol is on top, which takes a rule that defines it; otherwise it empties the stack |
| Driver.GenerateAndParse | src/lempar.c:570-699 | from grammar to verdict: the generated parser accepts as its tables, which are sound, say, and if it accepts the input without a syntax error, the start symbol derives it |
| Driver.ParseThrough | src/lempar.c:629-699 | in a run that goes on after syntax errors, accept means that the start symbol derives the tokens that were not thrown away; without a rule for the error symbol it derives the input |
| ErrorRule.StackKept | src/lempar.c:644-652 | a grammar with a rule for the error symbol, and an input after which a syntax error leaves the stack as it is |
| Recognizer.Recognizes | src/lempar.c:570-699 | if the grammar has no conflicts, an input is accepted, given stack and steps enough, if and only if it is not empty and the start symbol derives it |
| Recognizer.DerivedIsParsed | src/lempar.c:570-699 | completeness: without conflicts every non-empty input the start symbol derives is accepted by every parser with enough stack and steps |
| Recognizer.ParsedIsDerived | src/lempar.c:570-699 | soundness: what is accepted, with whatever stack and steps and whatever conflicts, is derived, and is not empty |
| Decider.Decides | src/lempar.c:570-699 | if the grammar has no conflicts, no cycle and no hidden left recursion, the parser with a known number of stack entries and of steps for each token accepts exactly the non-empty inputs that the start symbol derives, and every call ends |
| Decider.DriveEnds | src/lempar.c:602-698 | for every grammar without cycles and hidden left recursion, with or without conflicts, every call ends in as many steps as the stack has weight, with a verdict that no more steps and no more stack would change |
| Decider.ReduceLowers | src/lempar.c:452-495 | every reduction lowers the weight of the stack and does not raise the part of it that stands for tokens |
| Decider.TailDescends | src/lempar.c:452-495 | on top of the symbols that stand for tokens there is only a bounded number of symbols that stand for nothing |
| Halting.DecidesAll | src/lempar.c:570-699 | for every grammar without conflicts all of whose rules derive some tokens, the parser with a stack and a number of steps that depend on the grammar and the length of the input only accepts exactly the non-empty inputs that the start symbol derives, and every call ends |
| Halting.HasRanks | src/lemon.c:680-966 | a grammar without conflicts all of whose rules derive some tokens has neither a cycle nor hidden left recursion in the rules that are in the automaton |
| Halting.NoHiddenRecursion | src/lempar.c:570-699 | around a cycle of rules with symbols that vanish in front, the stack would grow without a token being shifted, on an input whose run ends |
| Halting.NoUnitCycle | src/lempar.c:452-495 | around a cycle of rules that leave one symbol, the parser would come back to the same stack before the same token, in a run that ends |
| Halting.Context | src/lemon.c:680-733 | every configuration of every state is on top of some stack from which the run ends, whatever tokens the rest of its rule derives |
| Recognizer.ConflictFreeIffUnresolved | src/lemon.c:952-966 | a grammar has no conflicts if and only if resolution left every action list as it was |
| Recognizer.ReadsRest | src/lempar.c:603-616 | with a rule in the top state, dot at d, and on the input what the rest of the rule derives and then one of its lookaheads, the parser gets the rest of the rule on the stack, finished and with that lookahead next |
| Recognizer.ReadsSymbol | src/lempar.c:603-616 | with the symbol after a dot deriving the next tokens, the parser replaces these tokens by that symbol on the stack |
| Recognizer.Predicted | src/lemon.c:1169-1206 | a rule of the nonterminal after a dot is in the state, with what comes after that nonterminal as lookahead: the first token the rest derives, or the old lookahead if the rest vanishes |
| Recognizer.ShiftOver | src/lemon.c:784-826 | over the symbol after a dot there is a transition to a state with the advanced configuration, which has all lookaheads of the old one |
| Recognizer.HeadOfForm | src/lemon.c:652-672 | the first terminal of anything a form derives is among the heads computed from the first sets |
| Recognizer.OnlyAction | src/lemon.c:908-966 | without conflicts the tables give every action of the state, whatever was compressed |
| Recognizer.SplitDerivation | src/lemon.c:163-182 | what two neighbouring forms derive divides into what each derives, in as many steps together |
| Recognizer.DeepEnough | src/lempar.c:397-434 | a step pushes at most one symbol and, if that fits, does not depend on the depth of the stack |
| ChunkQueue.Queue.constructor | src/chunk.c:38-53 | an empty queue |
| ChunkQueue.Queue.Ends | src/chunk.h:42-58 | in every queue `last` is the end of the list of `first`, both are null if it is empty, and `unused_chunks` is the length of the list of `unused`, at most 5 |
| ChunkQueue.Queue.PushUnused | src/chunk.c:151-163 | a chunk is reset and becomes the first unused one if there are at most 4, and is freed otherwise; the list of the queue stays as it is |
| ChunkQueue.Queue.GetUnused | src/chunk.c:165-182 | the first unused chunk, or a new one, reset and in no list |
| ChunkQueue.Queue.LinkLast | src/chunk.c:194-205 | the links spell the list with the chunk behind the others |
| ChunkQueue.Queue.LinkFirst | src/chunk.c:184-192 | the links spell the list with the chunk before the others |
| ChunkQueue.Queue.UnlinkFirst | src/chunk.c:430-447 | the links spell the list without its first chunk, and `last` is null if that was all |
| ChunkQueue.Queue.UnlinkNext | src/chunk.c:744-752 | the links spell the list without the chunk after the given one, and `last` moves if that was the last |
| ChunkQueue.Queue.Hang | src/chunk.c:301-315 | the links spell the list with another one behind it |
| ChunkQueue.Queue.AppendMem | src/chunk.c:288-298 | the bytes come after those queued; nothing is queued for no bytes |
| ChunkQueue.Queue.AppendFile | src/chunk.c:244-259 | the stretch of the file comes after what is queued |
| ChunkQueue.Queue.PrependBuffer | src/chunk.c:274-285 | the bytes come before what is queued, in a chunk linked first |
| ChunkQueue.Queue.AppendQueue | src/chunk.c:301-315 | all chunks of the other queue are spliced behind the last, it is empty, and its counters meet; the queues share no chunk before or after |
| ChunkQueue.Queue.GetMemory | src/chunk.c:318-376 | the queued bytes are the same and the last chunk is memory; an empty buffer is used again, so that no empty chunk gets behind the last |
| ChunkQueue.Queue.UseMemory | src/chunk.c:378-394 | what was read comes after what is queued, and still only the last chunk may be empty |
| ChunkQueue.Queue.Length | src/chunk.c:686-695 | the sum over the chunks is the number of queued bytes and the difference of the counters |
| ChunkQueue.Queue.MarkWritten | src/chunk.c:697-724 | exactly the first n bytes are gone, for any mix of memory and file chunks, and no empty chunk is first |
| ChunkQueue.Queue.RemoveFinished | src/chunk.c:726-737 | only used-up chunks at the front go, and the bytes stay |
| ChunkQueue.Queue.RemoveEmpty | src/chunk.c:739-753 | the bytes stay; used-up chunks at the front go, and inside exactly those the loop looks at: after an empty chunk that goes the next one is passed over |
| ChunkQueue.SecondEmptyStays | src/chunk.c:744-752 | of two empty chunks in a row inside a list the second stays |
| ChunkQueue.Queue.Steal | src/chunk.c:416-460 | the first min(n, length) bytes move in order from one queue to the end of the other, whole chunks as they are and a part of one as a chunk of its own, empty chunks are dropped, and both counters follow; the queues share no chunk before or after |
| ChunkQueue.Queue.AppendMemToTempfile | src/chunk.c:529-623 | for any partial writes and failures the bytes, or on failure a beginning of them, come after what is queued; it succeeds if and only if all bytes are stored, and the list of chunks is what the attempts make of it |
| ChunkQueue.Queue.StealWithTempfiles | src/chunk.c:625-684 | success moves the first min(n, length) bytes in order; on failure no byte is lost; it fails if and only if not all of them were stored, and both lists of chunks are what the attempts make of them |
| ChunkQueue.StoringEnds | src/chunk.c:529-623 | storing fails if and only if not all bytes are stored, and only when the attempts are used up or in the last one opening or closing failed, or a write failed for good |
| ChunkQueue.MovingEnds | src/chunk.c:625-684 | moving fails only when the attempts are used up or in the last one opening or closing failed, or a write failed for good |
| Storage.GivesUpIff | src/chunk.c:544-618 | an attempt gives up if and only if a full file cannot be closed, a file is needed and cannot be opened, or the write fails for good and no other directory is left or a file with bytes cannot be closed |
| Storage.StoresAccepted | src/chunk.c:577-590 | otherwise as many bytes are stored as the write accepts, and it is the last attempt if that is all of them |
| Storage.StoredWhere | src/chunk.c:544-590 | they go to the end of the last file if that is open, unread and below the size limit, and else to a new file |
| Storage.StoresIff | src/chunk.c:533-622 | all bytes are stored if and only if some attempt does not fail, with those before it accepts them all, and none of these gives up |
| Storage.HarmlessStores | src/chunk.c:533-622 | if no call fails for good, all bytes are stored if and only if enough are accepted |
| Storage.GoodMoves | src/chunk.c:625-684 | with one good attempt for each chunk everything is moved |
| Storage.HopelessMoves | src/chunk.c:625-684 | if no file can be opened and none is open, moving from memory succeeds if and only if there is nothing to move |
| ChunkQueue.Queue.Reset | src/chunk.c:207-221 | nothing is queued, the counters are zero, and the chunks went one by one to the unused ones until these were five |
| ChunkQueue.BytesAdvance | src/chunk.c:697-724 | consuming part of the first chunk drops that many queued bytes |
| ChunkedCoding.Hex2IntIsHexValue | src/buffer.c:404-414 | in unsigned char arithmetic exactly the hexadecimal digits have values, the right ones, and everything else gives 0xFF |
| ChunkedCoding.HexIsPairs | src/buffer.c:404-414 | the digits are 0 to 9 and a to f in both cases, and their values are their places |
| ChunkedCoding.LineEndIs | src/connections-glue.c:137 | the first line feed is found if and only if no NUL is before it |
| ChunkedCoding.BlankLineIs | src/connections-glue.c:179 | the first blank line is found if and only if no NUL is before it |
| ChunkedCoding.SplitInvariance | src/connections-glue.c:122-271 | any division of the same bytes into reads gives the same delivered body, leftover bytes and verdict as one read, whatever it is, unless these bytes have a long end: a last size line that with its trailers and blank line exceeds max_request_field_size |
| ChunkedCoding.SplitsAgreeIff | src/connections-glue.c:122-271 | for all bytes, complete or not, well formed or not: every division into reads agrees with one read if and only if they have no long end |
| ChunkedCoding.StepAppend | src/connections-glue.c:128-271 | a step taken on some bytes can as well be taken when more have arrived |
| ChunkedCoding.RunAllWithin | src/connections-glue.c:213-223 | a non-zero max_request_size is never exceeded by what is delivered and what the chunk being read will add |
| ChunkedMessage.Decodes | src/connections-glue.c:122-271 | a well-formed message of section 4.1 of RFC 7230 is decoded to the data of its chunks, without extensions and trailers, and what follows it is left alone |
| ChunkedMessage.DecodesInPieces | src/connections-glue.c:122-271 | a well-formed message is decoded to its data in every division into reads if and only if its last part fits into max_request_field_size |
| ChunkedMessage.LineRead | src/connections-glue.c:139-167 | a size line of hexadecimal digits and an extension is read as its value |
| ChunkedMessage.LineIff | src/connections-glue.c:139-167 | a line is taken for a size line if and only if it is shorter than 1024 bytes and has digits, however few, then blanks and a rest that begins with CR or a semicolon, and no digit follows a number of 2^59 or more; its size is what the digits stand for |
| ChunkedMessage.NoLineRead | src/connections-glue.c:226-236 | 1024 bytes without a line feed end in 400, fewer are waited on |
| ChunkedMessage.TooLargeRead | src/connections-glue.c:208-220 | a chunk that makes the body longer than max_request_size ends in 413 before any of it is delivered |
| ChunkedMessage.MissingEndRead | src/connections-glue.c:256-265 | data that is not followed by CRLF is delivered and ends in 400 |
| ChunkedMessage.TrailersRead | src/connections-glue.c:176-205 | after the last size line the search ends right behind the trailers |
| ChunkedReader.Compact | src/connections-glue.c:57-76 | joining chunks keeps the bytes; the first chunk grows by the next that has bytes, or it is all there is; if there was another chunk, the one that was first is among the unused ones, or freed if these are five |
| ChunkedReader.Crlf | src/connections-glue.c:78-106 | for any queue of memory chunks, the answer of the source, which looks at the first chunk even if it is empty |
| ChunkedReader.CrlfAnswerIff | src/connections-glue.c:78-106 | that answer, 1, 0 or -1, is the right one for the queued bytes if and only if the first chunk is not empty or -1 is right anyway |
| ChunkedReader.EmptyHidesCrlf | src/connections-glue.c:78-106 | an empty chunk in front of a CRLF makes the answer -1 |
| ChunkedReader.ParseSize | src/connections-glue.c:138-167 | the loops over digits and blanks read the line as the flat decoder does |
| ChunkedReader.ReadHeader | src/connections-glue.c:130-240 | in any queue what is consumed is a step of the flat decoder; if the first chunk has bytes everything is, except that a wait for trailers looks at a chunk that is gone, if and only if the last chunk is empty |
| ChunkedReader.GoneMatters | src/connections-glue.c:181-193 | when looking at a chunk that is gone changes the end of a wait for trailers |
| ChunkedReader.EndsInLf | src/connections-glue.c:170-173 | the byte that the branch for no trailers looks at is the line feed that ends the line, never a carriage return |
| ChunkedReader.Request.MoveData | src/connections-glue.c:243-254 | the data of the chunk moves to the other queue: in memory, without fail, if the body with it stays within 64 kB, and else by temporary files, which succeeds if and only if the attempts store it |
| ChunkedReader.ExtentGrows | src/connections-glue.c:241-254 | the body with all of the chunk being read never becomes less |
| ChunkedReader.Request.ReadPostChunked | src/connections-glue.c:122-271 | in a queue without empty chunks outcome, delivered bytes, leftover bytes, counters and content length are those of the flat decoder; if only the last chunk is empty the same, but for a wait for trailers; in any queue, and if storage fails, a beginning of its body is delivered; storage fails only when the attempts came to an end and the body with the chunk being read is larger than 64 kB |
| ChunkedReader.Request.ReadAll | src/connections-glue.c:122-271 | a whole request body, read piece by piece into the room at the end of the queue and decoded after each read: the outcome, the body and what is left over are those of the decoder on these reads and, unless they have a long end, on all their bytes at once; only a read of no bytes during a wait for trailers may end otherwise; storage fails only when the attempts came to an end and the body with the chunk being read is larger than 64 kB |
| ChunkedWriter.AppendUintHex | src/buffer.c:276-295 | the printed digits are two for each byte of the value |
| ChunkedWriter.HexInverse | src/buffer.c:276-295 | the parser undoes the printer, and the number of digits is even and at most 16 |
| ChunkedWriter.RoundTrip | src/http_chunk.c:125-182 | any appends and a close, read in any pieces, decode to exactly the concatenated data, and what follows is left alone |
| ChunkedWriter.Response.AppendData | src/http_chunk.c:125-160 | the same bytes are queued in memory or in a temporary file: one chunk, nothing for nothing, or a beginning of them on failure; in memory, without fail, if the queue does not end in a temporary file and stays within 64 kB or 128 kB; it fails if and only if not all bytes are stored |
| ChunkedWriter.Response.AppendToTempfile | src/http_chunk.c:96-123 | the three writes queue one chunk, or a beginning of it; they fail if and only if not all bytes are stored, and only when the attempts came to an end |
| ChunkedWriter.Response.Close | src/http_chunk.c:175-182 | the last chunk is queued |
| ChunkedWriter.Response.WriteAll | src/http_chunk.c:25-182 | if all appends succeed, the queued bytes read back as the data, however they arrive; they fail only when the attempts came to an end |
| ConditionCache.Connection.CheckCond | src/configfile-glue.c:637-642 | the answer is that of evaluation from an empty cache |
| ConditionCache.Connection.CheckCached | src/configfile-glue.c:536-566 | the cached result equals evaluation, and results that were set stay |
| ConditionCache.Connection.CheckNocache | src/configfile-glue.c:280-534 | the result equals evaluation, and if it is set so are the results of parent and earlier branch |
| ConditionCache.Connection.ClearNode | src/configfile-glue.c:570-597 | the node is forgotten and with it everything set that depends on it, although the walk stops at nodes that are not set |
| ConditionCache.Connection.ResetItem | src/configfile-glue.c:604-617 | after the values of an item changed, what is still cached is right for the new values |
| ConditionCache.Connection.Reset | src/configfile-glue.c:622-635 | nothing is cached and nothing is known |
| ConditionCache.Connection.MakeAvailable | src/configfile-glue.c:348-357 | an item that becomes known makes no cached result wrong |
| ConditionCache.Connection.Play | src/configfile-glue.c:280-642 | in any run of checks, items becoming known, changes with resets, and new requests, every answer is the one evaluation without a cache gives |
| ConditionCache.ChainsUnset | src/configfile-glue.c:588-596 | if the first branches in a node are not set, no branch is: the early stop is safe |
| ConditionCache.RulesAreOpposite | src/configfile-glue.c:484-527 | equality and match hold if and only if the value is the same, their negations are the opposite if it can be compared, all four fail if it cannot, and else always holds |
| ConditionCache.EvalChanged | src/configfile-glue.c:604-617 | a set node none of whose dependencies looks at an item does not see it change |
| ConditionCache.OneBranch | src/configfile-glue.c:325-346 | of an if/else chain at most one branch holds and the later ones are skipped |
| ConditionCache.HoldsIff | src/configfile-glue.c:289-366 | a node holds, or fails, if and only if its parent is decided, every earlier branch of its chain has its item known and its own rules false, and its own item is known and its own rules say so: whether the parent holds does not matter |
| ConditionCache.NestedWithoutParent | src/configfile-glue.c:314-322 | a configuration where a nested condition holds and the one around it does not |
| PathSimplify.Simplify | src/buffer.c:923-1017 | also in place, the pass writes what a stack of segments would spell |
| PathSimplify.EndToken | src/buffer.c:984-1012 | at the end of a token the output is the spelled stack: a dot segment goes, ".." takes the segment before it along, a slash at the end of the path stays |
| PathSimplify.NothingLost | src/buffer.c:965-982 | the write position never passes the read position |
| PathSimplify.SimplifiedIsSimple | src/buffer.c:902-920 | the result starts with a slash, has no empty, "." or ".." segment before its end, and simplifying it again changes nothing |
| PathLaws.UpGoesBack | src/buffer.c:991-1001 | for all p and q and every plain segment t, p/t/../q is simplified as p/q |
| PathLaws.UpStaysAtRoot | src/buffer.c:991-1001 | /../q is simplified as /q |
| PathLaws.DotIsNothing | src/buffer.c:1003-1008 | p/./q and p//q are simplified as p/q |
| PathLaws.DotsAtEnd | src/buffer.c:999-1007 | p/.. is simplified as p/../ and p/. as p/ |
| PathLaws.PlainStays | src/buffer.c:974-1013 | a path stays as it is if no segment is "." or ".." and none but the last is empty |
| PathLaws.FrontIsSlash | src/buffer.c:960-971 | blanks in front are dropped, and a slash is put in front of what has none |
| SortedArray.CaselessCompare | src/buffer.c:452-469 | the sign of the lexicographic order of the lower-case strings |
| SortedArray.FoldIsPairs | src/buffer.c:460-462 | each of the letters A to Z becomes the one of a to z, and nothing else changes |
| SortedArray.OrderIs | src/buffer.c:452-469 | a string is smaller than its continuations, and otherwise the first difference decides |
| SortedArray.OrderChain | src/buffer.c:452-469 | the order is transitive |
| SortedArray.OrderZero | src/buffer.c:452-469 | only equal strings compare equal |
| SortedArray.Array.GetIndex | src/array.c:93-123 | binary search in the index finds exactly what a linear scan finds, or the place where the key belongs |
| SortedArray.Array.Get | src/array.c:125-135 | the entry under the key, case-insensitively, if there is one |
| SortedArray.Array.FindOrInsert | src/array.c:213-266 | an entry with that key is found, or the entry is added to the map; the index stays a sorted permutation |
| SortedArray.Array.Replace | src/array.c:269-278 | the map has the entry under its key, and nothing else changes |
| SortedArray.Array.Extract | src/array.c:137-174 | the entry leaves the map, the last one takes its place, and the index stays a sorted permutation |
| SortedArray.Array.Pop | src/array.c:76-87 | the last entry leaves the map |
| SortedArray.IndexedDistinct | src/array.c:93-123 | a strictly ordered index that covers all entries has each once, and no two keys are equal but for case |
| Alias.Accept | src/mod_alias.c:97-119 | the table is accepted if and only if no key has a later entry in the run of keys it is a prefix of; if no key is missing from such a run, as without upper-case letters, that means if and only if no entry shadows another |
| Alias.CheckRightIff | src/mod_alias.c:97-119 | for given keys in index order: the check finds exactly the tables with a shadowed entry, in whatever order the entries were made, if and only if no key is missing from a run, that is, what lies between a key and a continuation of it continues it too |
| Alias.NoGapChecks | src/mod_alias.c:97-119 | where no key is missing from a run, a table passes the check if and only if no entry shadows another |
| Alias.AcceptedIff | src/mod_alias.c:97-119 | without upper-case letters no key is missing from a run |
| Alias.CheckedIsLongest | src/mod_alias.c:97-192 | where no key is missing from a run, a table passes the check if and only if the first match is the longest one for every URL |
| Alias.UpperCaseSlips | src/mod_alias.c:97-119 | a table with a shadowed entry that is accepted |
| Alias.FirstIsLongestIff | src/mod_alias.c:173-192 | for any table of different keys, matching with or without case: the first match is the longest for every URL if and only if no entry hides a later one, being a prefix of it in the same sense |
| Alias.HandlePhysical | src/mod_alias.c:156-197 | the first matching key gives way to its path, or nothing changes |
| Pool.Host.Remote | src/gw_backend.c:1507-1534 | a host with one process that runs, whatever min_procs and max_procs were |
| Pool.Host.Local | src/gw_backend.c:1453-1460 | a local host without processes yet, min_procs at most max_procs, and equal to it with several workers |
| Pool.Host.SpawnMin | src/gw_backend.c:1457-1505 | the server starts if and only if every one of the first min_procs processes has an address and, unless only the configuration is checked, comes up; then exactly these are listed, the last one in front, with numbers 0 to min_procs - 1, and the invariant holds |
| Pool.Host.Begin | src/gw_backend.c:1458-1504 | one of these processes is numbered, started and put in front of the others |
| Pool.Host.Meaning | src/gw_backend.c:92-100 | in every reachable state active_procs counts the running processes of both lists, which are disjoint, numbers are distinct and below max_id, the host's load counts its requests, and a process's load those bound to it and those that forgot it |
| Pool.Host.SetState | src/gw_backend.c:92-100 | the state is set and active_procs follows |
| Pool.Host.WaitPid | src/gw_backend.c:348-376 | a child that exited leaves its process dead |
| Pool.Host.SpawnConnection | src/gw_backend.c:457-633 | the process runs if and only if a server is there or a child was started and lives; which of its fields change in each case |
| Pool.Host.Spawn | src/gw_backend.c:635-692 | the first unused process without a child, or a new one, is started and goes to the front of the list, to the unused ones if it does not start, or is freed if it has no address; nothing happens if one exited just now; num_procs counts also the spawns that failed |
| Pool.Host.FindUnused | src/gw_backend.c:637-643 | the first unused process without a child, and whether it exited too recently |
| Pool.Host.Kill | src/gw_backend.c:694-714 | an idle process goes from anywhere in the list to the front of the unused ones |
| Pool.Host.CheckEnable | src/gw_backend.c:318-327 | a paused process runs again when its time has come |
| Pool.Host.ConnectError | src/gw_backend.c:244-304 | a remote process, or the running local one that the request had, is paused; any other is left alone |
| Pool.Host.RestartDead | src/gw_backend.c:994-1054 | of the listed processes exactly these change: a dead one of a local host is started again if and only if no request is bound to it and its pause is over, with what comes of the start field by field; an overloaded one runs again if and only if its pause is over; one whose exit is found out now is dead; the invariant is kept |
| Pool.Host.EnableAll | src/gw_backend.c:2489-2505 | of the listed processes exactly the paused ones whose time has come run again |
| Pool.Host.Restart | src/gw_backend.c:1002-1052 | one process has its turn and no other changes |
| Pool.TurnIs | src/gw_backend.c:1002-1052 | what a turn makes of a process in each state, field by field |
| Pool.StartIs | src/gw_backend.c:437-633 | what each way a start can end makes of a process, field by field |
| Pool.Host.ReapList | src/gw_backend.c:2433-2435 | of a list exactly the local processes whose child exited are dead, and nothing else changes |
| Pool.Host.Overload | src/gw_backend.c:2443-2448 | whether every listed process has more load than allowed |
| Pool.Host.KillIdle | src/gw_backend.c:2460-2478 | the first process that is idle, has a child and was not used for long is killed if there are more than min_procs; otherwise nothing changes |
| Pool.Host.Trigger | src/gw_backend.c:2415-2483 | children are reaped and dead processes have their turn, as RestartDead and ReapList say field by field; then a process is spawned if and only if adaptive spawning is on, all have too much load and num_procs is neither 0 nor used up, and the first idle one ends if and only if there may be fewer; listed processes that stay are otherwise as after their turn; then the children of the unused ones are reaped; nothing else changes |
| Pool.Host.ChildExited | src/gw_backend.c:2524-2574 | the process with that child is dead, and started again if it is listed and was not disabled just now, field by field; without such a process nothing changes |
| Pool.Host.Reaped | src/gw_backend.c:2542-2556 | a listed process whose child exited is dead, and started again if and only if it was not disabled just now, field by field |
| Pool.Host.Demand | src/gw_backend.c:929-937 | with one worker, a local host with min_procs 0 and no process counted is given one, and no other host |
| PoolRuns.Play | src/gw_backend.c:1893-1905 | any run of triggers of the server and of workers, exits, requests, connect errors and restarts after failed requests keeps the invariant, and a host that is lost, without a process and without a way to start one, is lost after it |
| PoolRuns.Revive | src/gw_backend.c:2450-2458 | a host without a process gets one by a single trigger or request if and only if it is not lost |
| PoolRuns.OneFailure | src/gw_backend.c:661-685 | with max_procs 1, one start that fails leaves the host without a process in every later run |
| PoolRuns.ServesAgain | src/gw_backend.c:1026-1046 | a host all of whose processes are dead, without requests and not disabled any more, has all of them running after one trigger whose starts succeed, and a request is given one |
| Pool.Host.Assign | src/gw_backend.c:67-70 | the request counts for the host |
| Pool.Host.Choose | src/gw_backend.c:1722-1739 | the first of the running processes with the least load, if one runs |
| Pool.Host.InitRequest | src/gw_backend.c:1719-1741 | the request is bound to that process, whose load goes up; a process it had before keeps a load that nobody will give back |
| Pool.Host.Close | src/gw_backend.c:1659-1677 | the request gives its process back and leaves the host |
| Pool.UnlinkedChain | src/gw_backend.c:694-699 | taking a node out of a doubly linked list leaves the list of the others |
| Pool.PushedChain | src/gw_backend.c:679-691 | a node put in front of a doubly linked list makes the longer list |
| Balancer.Extension.GetHost | src/gw_backend.c:797-925 | each policy gives what it promises: the next active host in turn, or the first of the best |
| Dispatch.GetHost | src/gw_backend.c:797-943 | the host that the policy chooses; if none is up, the first that starts processes on demand and could be given one, even if that one did not come up; hosts that could not are passed over and all others left alone |
| Balancer.Extension.TakeTurn | src/gw_backend.c:861-893 | the first active host cyclically after the last one |
| Balancer.EachOnce | src/gw_backend.c:861-893 | with a fixed set of active hosts, as many calls as there are visit each of them exactly once |
| Balancer.NextIs | src/gw_backend.c:861-893 | the next active host after the last one, or else the first of all; none if and only if none is active |
| Balancer.ElectedByHash | src/gw_backend.c:810-842 | the first active host whose checksum with those of path and authority is the highest 32-bit sum |
| Balancer.ElectedByClient | src/gw_backend.c:894-921 | the first active host whose checksum with that of the client's address and its port is the highest 32-bit sum |
| Balancer.ElectedByLoad | src/gw_backend.c:843-860 | the first active host with the fewest requests, fewer than INT_MAX |
| Balancer.Extension.ElectByHash | src/gw_backend.c:810-842 | the first active host with the highest hash, in 32-bit arithmetic |
| Balancer.Extension.LeastLoaded | src/gw_backend.c:843-860 | the first active host with the least load |
| Balancer.OthersLeaving | src/gw_backend.c:810-925 | taking out a host that is not chosen does not change the choice |
| Balancer.OthersJoining | src/gw_backend.c:810-925 | a host that comes back takes requests only for itself |
| Sha1.Transform | src/algo_sha1.c:72-115 | the eighty unrolled rounds with moving roles and the circular schedule of 16 words compute the hash of section 6.1.2 of FIPS 180-4 |
| Sha1.Step | src/algo_sha1.c:44-63 | a macro with the roles of its registers moved on is one round of the standard, and the block holds the last 16 words of the schedule |
| Sha1.SchedNext | src/algo_sha1.c:55-56 | the word made in place in the circle is the next word of the 80-word schedule |
| Sha1.ChooseIsCh | src/algo_sha1.c:59-60 | the shortened choice function is the standard's |
| Sha1.MajorityIsMaj | src/algo_sha1.c:62 | the shortened majority function is the standard's |
| Sha1.Rotl1IsArithmetic | src/algo_sha1.c:44 | rotating by 1 is multiplying by 2 modulo 2^32 and adding what was lost at the end |
| Sha1.Rotl5IsArithmetic | src/algo_sha1.c:44 | the same for 5 |
| Sha1.Rotl30IsArithmetic | src/algo_sha1.c:44 | the same for 30 |
| Sha1.RotationsMoveBits | src/algo_sha1.c:44 | every bit is found as many places further on, around the end of the word |
| Sha1.ConstantsAreRoots | src/algo_sha1.c:59-63 | the constants are 2^30 times the square roots of 2, 3, 5 and 10, rounded down |
| Sha1.ChOfBits | src/algo_sha1.c:59 | bit by bit the first word chooses between the other two |
| Sha1.MajOfBits | src/algo_sha1.c:62 | bit by bit two words decide where they agree, and the third does elsewhere |
| Sha1.InitialBytes | src/algo_sha1.c:118-127 | the initial hash value by the pattern of its bytes |
| Sha1Example.DigestOfAbc | src/algo_sha1.c:72-182 | the digest of "abc" is the one given in appendix A.1 of FIPS 180-2 |
| Sha1.CountUp | src/algo_sha1.c:133-135 | two 32-bit words with a carry count the bits |
| Sha1.Context.Update | src/algo_sha1.c:130-146 | the context stands for the bytes so far and these |
| Sha1.Context.Final | src/algo_sha1.c:150-174 | the digest of everything fed, padded as section 5.1.1 of FIPS 180-4 says, and a context wiped clean |
| Sha1.HashPieces | src/algo_sha1.c:130-182 | in whatever pieces a message comes, its digest is the standard's |
| Md5.Transform | src/md5.c:201-289 | the 64 unrolled operations with moving roles compute the block operation of section 3.4 of RFC 1321 |
| Md5.Step | src/md5.c:95-114 | a macro with the roles of its registers moved on is one operation of the standard, whose registers change places |
| Md5.Order2 | src/md5.c:225-242 | the words and rotations written out in round 2 are those of the rule for the round |
| Md5.RotlBelow | src/md5.c:90 | rotating by s, the last s bits are the first s bits of the word |
| Md5.RotlAbove | src/md5.c:90 | the others are the other bits of the word |
| Md5.FOfBits | src/md5.c:83 | bit by bit the first word chooses between the other two |
| Md5.GOfBits | src/md5.c:84 | bit by bit the third word chooses between the other two |
| Md5.IOfBits | src/md5.c:86 | bit by bit the second word differs from the first or not the third |
| Md5.InitialBytes | src/md5.c:118-128 | the buffer at first by the pattern of its bytes |
| Md5Example.DigestOfAbc | src/md5.c:118-289 | the digest of "abc" is the one given in section A.5 of RFC 1321 |
| Md5.Decode | src/md5.c:309-316 | the words of a block, low byte first |
| Md5.Encode | src/md5.c:294-304 | the bytes of the words, low byte first |
| Md5.Context.Update | src/md5.c:133-168 | the context stands for the bytes so far and these |
| Md5.Context.Final | src/md5.c:174-197 | the digest of everything fed, padded as sections 3.1 and 3.2 of RFC 1321 say, and a context wiped clean |
| Md5.HashPieces | src/md5.c:118-197 | in whatever pieces a message comes, its digest is the standard's |

## Left out

- Pipeline.Generate: requires the lists of a grammar to be shorter than the 2^30 nodes that `msort` can keep.
- Driver.Parser.Parse: takes a bound on its steps, because a cyclic grammar makes the driver reduce forever; the contract covers every bound, so every finite part of every run. `%fallback` tokens, semantic values, destructors, tracing and the widths of the emitted integer types are not modelled.
- Driver.Parser.SyntaxError: models the search for a state that shifts the error symbol; since none is ever found, the part after a successful search is not there.
- Halting.DecidesAll: does not cover grammars with rules that derive no tokens at all; for these `Decider.Decides` holds if they have no cycles and no hidden left recursion.
- Lr0.Lemon.FindState: the hash table of states is a search in the list of states; the hash table of configurations is a search in the list, too.
- Tables.ReportTable: holds for any order that puts larger rows first; which one qsort picks is left open.
- ChunkQueue.Queue.AppendMemToTempfile: how writes, closes and opening files end is an input, one entry for each turn of the loop, used up in order; a file is the byte string it holds.
- ChunkedReader.Request.ReadPostChunked: requires a queue of memory chunks, as the source asserts. With an empty chunk before the last only the delivered bytes are described. Sizes above 2^63 - 3 overflow a signed integer in the source and count as undefined here. Setting up the error response is not modelled.
- ChunkedWriter.RoundTrip: is about a decoder without a size limit and pieces of at most 2^63 - 3 bytes.
- ConditionCache.Connection.CheckNocache: comparing a value with a string, network or pattern is an input, one result per node and value; the lock around evaluation is not modelled.
- PathSimplify.Simplify: a string ends at its first NUL, and the variant for Windows is left out.
- SortedArray.Array.FindOrInsert: the room behind the used entries, re-use of entries there, and merging of duplicates by type are left out.
- Alias.HandlePhysical: strings have no NUL in them.
- Pool.Host.Kill: sets the state before the process is linked to the unused list, not after it. Processes are records in a table under their addresses, links are addresses.
- Pool.Host.InitRequest: covers waiting for a file descriptor; sockets, connecting and the rest of a request are not modelled. A request that moves to another host is a close and an assignment.
- Pool.Host.SpawnMin: ports and socket names of the processes are left out; when a process does not come up the server does not start, and what is left behind is not described.
- Balancer.Extension.ElectByHash: checksums are inputs below 2^32; an unsigned long has 64 bits.
- Sha1.Context.Update: requires less than 2^32 - 63 bytes a call; with more the loop test of the source wraps around. The machine is little-endian.
- Md5.Context.Update: requires less than 2^32 - 63 bytes a call, as for SHA-1. The table of sines is given by its values.
- crc32, base64, URL decoding, integer printing and the event backends: easier, or plumbing.
- Reading grammar files, reporting errors and copying the parser template: the text side of the parser generator.
- The header search in `src/connections.c`, the tokenizer of configuration files and the semantic actions of its parser.
