# Clive: a verified model

Clive is a toolkit of file systems, editors and shell commands that talk over channels. This
project models the algorithms and protocols it rests on, and proves what they promise.

| files | what they model |
|---|---|
| `SreRegex`, `SreGrammar`, `SreShunting`, `SreProgram`, `SreCompiler`, `SreMachine` | structural regular expressions: an operator-precedence compiler that emits code as it reads, and the machine that runs the code over a text |
| `MuxStream`, `Mux` | streams multiplexed over one device, with credit given back by the reader |
| `Diffs` | the difference of two files as the shortest script of lines kept, deleted and added |
| `Pieces`, `TxtPieces`, `Txt` | editable text in pieces, with marks, undo and redo |
| `Mblk` | buffers made of blocks and holes, descriptors on them, and transfers by messages |
| `Paths`, `Ns` | paths, their order, and the table of mounted prefixes of a name space |
| `ReplDiff`, `ReplAdd`, `ReplMerge`, `ReplDb` | replicated trees: finding changes, applying them, merging the changes of two replicas, and the metadata database |
| `Predicates`, `Finder` | predicates on files, their printer and parser, and the walk that prunes with them |
| `Zxc`, `ZxcTree` | the write-back cache of a remote tree, entry by entry and over runs of the whole tree |

## How it is modelled

Objects that the code updates in place are classes with the same fields (`ReProg`, `XFiles`,
`Text`, `Buffer`, `BufferFd`, `NS`, `Replica`, `DB`, `Lexer`, `MFile`), and loops are loops.
Each method is proved against a function of the old state, and the lemmas are about those
functions. Slices of records with places of their own (regexp code, database nodes) are
sequences indexed by pointer values, and so are the arrays that slices of children share. The mux is a step system: two peers, each with its table
of streams and the processes that serve them, and a FIFO wire in each direction; a run is any
interleaving of their steps. A channel that one process writes and another reads to its end is
the sequence of what is sent.

The main results are stated over all inputs, all runs, or all texts:

* `SreMachine.Match`: an expression compiles exactly when its tokens are in the grammar, a
  search then fails exactly when no part of the text is in the language of its tree, and what it
  returns is in that language.
* `Mux.FlowControl`, `Mux.Delivery`, `Mux.Progress`, `Mux.StalledStays`: in every reachable state
  buffers stay within bounds and the demultiplexer waits for nothing but a user that does not accept
  new streams; users read a prefix of what the other side's user wrote; a sender with no ticket is
  stuck exactly when more than half a buffer was discarded, and then it is for good.
* `ReplDiff.TreeReplays` and `ReplDiff.NothingLeft`: replaying the changes between two trees over
  the old one gives the new one, and comparing again finds nothing.
* `Diffs.DiffFiles`: the report makes both files, and no common subsequence of the two files is
  longer than what it keeps.
* `Txt.Text.UndoThenRedo`, `Txt.DeleteKeepsChain`: undo and redo move along a sequence of texts, for
  as long as no delete was merged with one that it does not commute with.
* `Mblk`: every operation on blocks is the same operation on a flat sequence of bytes.
* `Predicates.SentMeansTheSame`, `Predicates.ReadBackIffNormal`: what is printed is read back with the
  same value, prune flag and error on every entry at every depth, but for the exceptions below; and
  as the very same predicate exactly when it is in normal form.
* `ReplMerge.SyncChoice`, `ReplMerge.DiffOrdered`, `ReplDb.SavedIsRebuilt`, `ReplDb.DB.Add`,
  `Ns.NS.Resolve`, `Finder.PrunedWalkFindsAll`, `Zxc.ServerHolds`, `ZxcTree.RunSettles` for the rest.

## What the code does and a reader may not expect

The model follows the code in all of these.

* Stacked postfix operators are compiled by precedence and not by position: `a*+` is compiled as
  `(a+)*`. `SreRegex.PostfixCommute` is why the language is the same (sre/sre.go:187-245).
* A message that cannot be packed is discarded, but it has used its turn, and the reader never
  gives that credit back. With more discards than half a buffer and nothing in flight, the
  stream stops for good: `Mux.Progress` is the exact condition, `Mux.StalledStays` says that no
  step ends it, and `Mux.DiscardsStall` is a run that gets there, for a buffer of any size
  (ch/mux.go:183-187).
* The end of a stream that sent nothing carries the flag of a first message, so it arrives as
  data and is never seen as an end: `Mux.EmptyDelivery` (ch/mux.go:206, 263-273).
* Consecutive deletes that continue each other are merged in the log as if their runes had been
  together. `Txt.MergedDelete` says when undo is still right, which is when the runes left between
  the two deletes commute with the second part; `Txt.MergedDeleteLosesOrder` is a text that undo does not restore (txt/txt.go:218-224).
* With the flag for common prefixes and suffixes, files that differ are reported with the status
  of equal files exactly when what follows their common prefix ends, in both, with the same line:
  `Diffs.DiffFiles`; `Diffs.EndingHidesTheStatus` has two such files (cmd/diffs/diffs.go:117-207).
* The names of a directory are not sorted before comparing, although the code means to, so
  changes may come out of order, and a conflict can be missed: `ReplMerge.DiffOrdered` says exactly
  when they are in order, and `ReplMerge.ConflictMissed` is what may follow if they are not
  (zx/repl/cmp.go:181). `ReplMerge.SyncChoice` is what sorted streams guarantee.
* The rule of `resolve` for changes below a removed directory only logs: every path with a change is
  sent, so a removal wins over what is below it exactly when there was nothing. `ReplMerge.TreesWinIff`
  is exact, and `ReplMerge.RemovalDoesNotWin` has two replicas (zx/repl/tree.go:209-214).
* Adding the root again to a database while it is the cached parent leaves a stale parent, whose
  children are in the array that the new root has too. What is added at the root next goes to the
  stale parent; if there is room in that array, it is put there in its place by name, and the last
  name falls out of the new root; if there is none, it is not in the new root at all.
  `ReplDb.DB.Add` says what every add does then, and that it is right exactly when the new root has a
  child with that name already; `ReplDb.FirstNamesStay` what is left after many, and
  `ReplDb.OldChildLost` and `ReplDb.NewChildLost` are two short runs (zx/repl/db.go:254-290).
* `!==` on numbers is evaluated as `>`, which is right exactly when the number is not less:
  `Predicates.NotEqualIsMore`, and `Predicates.OneIsNotTwo` for an input (zx/pred/pred.go:221-260).
* An `and`, or an `or`, of one term is printed, and read back, as that term. It means the same, but
  under a negation when the term comes to a test of a name or a path: what is sent prunes where
  the test does, and what is read prunes where it holds. `Predicates.SentUnderNot` is exact, and
  `Predicates.SingleIsLost` is an input for both (zx/pred/pred.go:198-204, zx/pred/parse.go:168-193).
* An `and`, or an `or`, of nothing is printed as nothing. Alone, it is read as no predicate, which is
  always true, although the `or` is false; within anything else the text is refused:
  `Predicates.CompiledIs`, `Predicates.BlankIsAll`, `Predicates.EmptyOrIsLost` (zx/pred/parse.go:181-193,
  zx/pred/pred.go:115-121).
* A comment says that an entry with dirty attributes is clean after a sync; the code makes it new
  (zx/zxc/cache.go:639-642).
* A removal in the cache is undone by a put that starts or ends, or a size that is set, after it,
  and by news that the server has something else there, or nothing: `Zxc.RemovalLasts` is exact.
  `Zxc.RemovedWhileWritten` and `Zxc.RemovedWhenMade` are removals that clients can make in the
  middle of a put, with the file at the server in the end (zx/zxc/cache.go:526-528,
  zx/zxc/zxc.go:982-999).
* Attributes to be updated are left behind, in a status that never sends them, by news of an entry
  that had gone away or of another type, and by reading again a directory when the cache always
  does: `Zxc.RunNotes` is exact, and `Zxc.ForgettingRuns` has three runs (zx/zxc/cache.go:283-296,
  390-398).
* A put that ends, or a size that is set, below a directory that was removed, and whose removal was
  sent, is never sent: `ZxcTree.LateStep` is exact, and `ZxcTree.LateStepIsLost` has the runs
  (zx/zxc/cache.go:565-583).
* A quote in the wrong place keeps a directory that is created again from being removed first
  (`Zxc.RecreatedDirKeepsOldFiles`, zx/zxc/cache.go:485).

## Model

| member | source | states |
|---|---|---|
| SreRegex.PostfixCommute | sre/sre.go:221-240 | two postfix operators may be applied in either order: the language of the expression is the same |
| SreRegex.ClassMeaning | sre/sre.go:477-509 | a class, encoded with its marks, holds exactly the runes of its items: single runes, ranges, \w and \s; every mark has its two ends |
| SreGrammar.ParseYield | sre/sre.go:276-288 | every tree of the grammar is read back from its own tokens |
| SreGrammar.ParseSound | sre/sre.go:322-355 | a token string that is read is the one its tree is written as |
| SreGrammar.ParseIsTheGrammar | sre/sre.go:322-355 | the reader accepts exactly the token strings of the grammar, each with the only tree it has |
| SreShunting.EvalBalance | sre/sre.go:187-245 | evaluation spends one node per binary operator and closes at most one parenthesis |
| SreShunting.ReadSame | sre/sre.go:250-288 | each token leaves the operator stacks standing for a tree equivalent to the one read so far, or is refused by both |
| SreShunting.ShuntIsParse | sre/sre.go:322-355 | the stack machine, with its operators applied by precedence, succeeds exactly on the grammar, and its tree has the same language as the grammar's, followed by END |
| SreProgram.PathMatches | sre/sre.go:203-241 | a path through the code of a tree crosses a match of the tree, and goes on from its exit in fewer steps |
| SreProgram.MatchHasPath | sre/sre.go:203-241 | a match of the tree, followed by a path from the exit of its code, is a path from its entry |
| SreProgram.ProgramMatches | sre/sre.go:203-241 | the code of a tree followed by END accepts from i to j exactly when the tree matches from i to j |
| SreProgram.LaidLeftStops | sre/sre.go:187-245 | left edges within the code of a tree lead to its exit, so they make no cycle |
| SreProgram.SkipRanked | sre/sre.go:291-300 | after nops are skipped left edges still make no cycle, and none leads to a nop |
| SreProgram.SkippingPreserves | sre/sre.go:291-300 | skipping nops changes neither what is accepted nor from where to where |
| SreCompiler.ReProg.constructor | sre/sre.go:322-332 | a new program is in order, with the start mark on the operator stack |
| SreCompiler.ReProg.Emit | sre/sre.go:129-142 | the instruction is appended, with its pc returned; pc 0 is never used |
| SreCompiler.ReProg.PushOp | sre/sre.go:144-150 | pushes the operator with the current sub-expression |
| SreCompiler.ReProg.PopOp | sre/sre.go:152-163 | pops the last operator pushed, with its sub-expression; the start mark keeps the evaluator from the empty stack, where the code panics |
| SreCompiler.ReProg.PushNd | sre/sre.go:165-170 | pushes the ends of the code of a node |
| SreCompiler.ReProg.PopNd | sre/sre.go:173-182 | pops the node on top, and fails exactly when there is none |
| SreCompiler.ReProg.ReduceGroup | sre/sre.go:193-202 | compiles a parenthesized node: it fails if there is no node, and else its code is in place for the grouped tree |
| SreCompiler.ReProg.ReduceOr | sre/sre.go:203-213 | compiles an alternative of the two nodes on top, first the one below |
| SreCompiler.ReProg.ReduceCat | sre/sre.go:214-220 | compiles a catenation of the two nodes on top, first the one below |
| SreCompiler.ReProg.ReduceStar | sre/sre.go:221-226 | compiles the node on top repeated any number of times |
| SreCompiler.ReProg.ReducePlus | sre/sre.go:227-232 | compiles the node on top repeated once or more |
| SreCompiler.ReProg.ReduceQuest | sre/sre.go:233-240 | compiles the node on top as optional |
| SreCompiler.ReProg.EvalUntil | sre/sre.go:187-245 | operators down to a priority are compiled as the stack machine evaluates them; it fails when that does, and code and trees agree |
| SreCompiler.ReProg.Operator | sre/sre.go:250-271 | an operator that is no parenthesis takes the step of the stack machine |
| SreCompiler.ReProg.ImplicitCat | sre/sre.go:277-279 | two operands in a row are catenated |
| SreCompiler.ReProg.OpenParen | sre/sre.go:258-265 | an open parenthesis starts a sub-expression, catenated if it follows an operand |
| SreCompiler.ReProg.CloseParen | sre/sre.go:251-257 | a closing parenthesis compiles up to the open one, and fails if there is none |
| SreCompiler.ReProg.Operand | sre/sre.go:276-288 | an operand is compiled as a node of its own |
| SreCompiler.ReProg.Token | sre/sre.go:333-344 | each token takes one step of the stack machine, and fails when it fails |
| SreCompiler.ReProg.EatNops | sre/sre.go:291-300 | every left edge goes to the first instruction that is not a nop; the loop ends because edges are ranked |
| SreCompiler.ReProg.Finish | sre/sre.go:345-350 | all that is pending is compiled, with END after it; fails on an open parenthesis or a missing operand |
| SreCompiler.ReProg.Link | sre/sre.go:351-354 | the entry is set; the program does what the expression says, stays within its code until END, and has no nops and no left cycles |
| SreCompiler.Compile | sre/sre.go:322-355 | compiles exactly the token strings of the grammar, and the program accepts in any text, from anywhere, what the tree matches |
| SreMachine.ClassMatch | sre/exec.go:71-93 | the scan of an encoded class finds a rune exactly when it is in the class |
| SreMachine.Add | sre/exec.go:37-51 | a state not in the list is appended; one that is there gets the new selections only if they start further left; no state is listed twice |
| SreMachine.NewMatch | sre/exec.go:61-66 | a match replaces the best one if there was none, if it is further left, or if it is as far left and longer |
| SreMachine.OperandTakes | sre/exec.go:193-222 | says whether an operand takes the rune |
| SreMachine.FollowOperand | sre/exec.go:193-243 | what takes the rune goes to the next list, a test that holds goes on, and END is noted as a match |
| SreMachine.Follow | sre/exec.go:168-244 | after following a state nothing it can reach at this rune is missing from the lists; instruction 0, which would end the round, is never met |
| SreMachine.Round | sre/exec.go:166-245 | every state is followed, also those added on the way; the round ends because no pc is listed twice |
| SreMachine.Turn | sre/exec.go:141-249 | one rune: until something is found, whatever started before can still be accepted from the next list |
| SreMachine.Drive | sre/exec.go:136-250 | the search ends with nothing exactly when nothing is accepted, and otherwise with something accepted |
| SreMachine.Exec | sre/exec.go:123-250 | none exactly when no part of the range searched is accepted, and a range returned is accepted and within it |
| SreMachine.Search | sre/sre.go:385-395 | searching with the program of an expression finds none exactly when nothing matches it |
| SreMachine.Match | sre/sre.go:369-382 | an error exactly for malformed expressions, none exactly when nothing in the text matches, and otherwise a part that matches |
| MuxStream.InFlightBound | ch/mux.go:86-94 | what a stream has sent and not delivered is covered by the two tickets it started with |
| MuxStream.RoomForNext | ch/mux.go:322-326 | there is room in the buffer for every data message on the wire |
| MuxStream.CreditBalance | ch/mux.go:163-184 | with no credit left, what is undelivered, what was posted since the last grant and what was discarded add up to the whole buffer |
| MuxStream.StallsIffDiscards | ch/mux.go:141-248 | a sender with no ticket is stuck exactly when no grant is coming, all has been delivered and more than half a buffer was discarded |
| MuxStream.DeliveredInOrder | ch/mux.go:156-248 | the user has read a prefix of what its peer's user wrote that could be sent, and all of it once it sees the end |
| MuxStream.EmptyStreamNeverEnds | ch/mux.go:263-281 | the end of a stream to which nothing was written that could be sent is read as a message, and no end is ever seen |
| MuxStream.KeepAsk | ch/mux.go:156-160 | a message the user writes is the last of those still to be sent |
| MuxStream.WriteAsked | ch/mux.go:174-187 | what the user wrote is, in order, what was sent or discarded, the message held, and what is still in the channel: writing keeps that |
| MuxStream.KeepWrite | ch/mux.go:174-187 | writing a message, or discarding it, keeps the stream in order |
| MuxStream.KeepEnd | ch/mux.go:197-218 | writing the end and closing the stream keeps it in order |
| MuxStream.KeepJoin | ch/mux.go:263-281 | the first message of a tag, whatever it is, makes a reader that has it in its buffer |
| MuxStream.KeepArrive | ch/mux.go:298-334 | messages of a known tag go to its buffer, or close it |
| MuxStream.NothingToDiscard | ch/mux.go:264-268 | a message that is not the first always finds its tag in the table |
| MuxStream.KeepGrantArrive | ch/mux.go:301-307 | a grant is a ticket if the stream is open, and nothing if it is not |
| MuxStream.KeepGrant | ch/mux.go:236-246 | a grant is sent for each half buffer posted |
| Mux.NthTagValue | ch/mux.go:106-112 | the tag of the n-th stream of a side, with its wrap-around |
| Mux.TagsApart | ch/mux.go:79-81 | the two sides never generate the same tag, and one repeats it exactly after a whole period |
| Mux.ViewChangeKeeps | ch/mux.go:86-94 | a step on one tag leaves all other streams as they were |
| Mux.DemuxNeverBlocks | ch/mux.go:250-335 | with streams in order the demultiplexer can handle the next message at once, exactly when it is not waiting for its user to accept a new stream |
| Mux.StepKeeps | ch/mux.go:106-335 | every step of every process of both peers keeps all streams in order |
| Mux.Reachable | ch/mux.go:106-335 | every state reached by any interleaving is in order |
| Mux.FlowControl | ch/mux.go:153-172 | in every reachable state no buffer has more than nbuf messages, no sender may send more than half of that without a ticket, and the demultiplexer waits exactly when its user has not accepted the new streams it has room for |
| Mux.Delivery | ch/mux.go:156-334 | in every reachable state what a user got of a stream is a prefix, in order, of the messages that the other side's user wrote to it and that can be sent at all, and all of them at the end |
| Mux.EmptyDelivery | ch/mux.go:206-281 | in every reachable state a stream whose user wrote nothing that can be sent has delivered a single empty message and stays open |
| Mux.Progress | ch/mux.go:141-248 | in every reachable state a sender without tickets is stuck exactly when no grant is under way, nothing is undelivered and more than half a buffer was discarded |
| Mux.StalledStays | ch/mux.go:106-335 | a sender that is stuck stays so whatever both peers, and their users, do |
| Mux.DiscardsStall | ch/mux.go:169-187 | for a buffer of any size there is a run in which discarded messages stop a stream, and no run that follows it ever starts it again |
| Mux.NoReuse | ch/mux.go:106-112 | no tag in use is generated again while each side opens no more streams than there are tags |
| Mux.MovesAreRuns | ch/mux.go:106-112 | hence all that is said of runs is said of any moves, up to the first repeated tag |
| Diffs.Prefix | cmd/diffs/diffs.go:56-67 | the common prefix is split off, and no line more could be |
| Diffs.Suffix | cmd/diffs/diffs.go:69-80 | the common suffix is split off, and no line more could be |
| Diffs.XFiles.AddLine | cmd/diffs/diffs.go:82-100 | the line is added to its file, and ids still name lines one to one |
| Diffs.FillCell | cmd/diffs/diffs.go:226-238 | one more cell of the table has the length of a longest common subsequence |
| Diffs.FillTable | cmd/diffs/diffs.go:215-239 | every cell of the table has it |
| Diffs.XFiles.Report | cmd/diffs/diffs.go:102-115 | walking the table back appends the script for the lines before it |
| Diffs.XFiles.Trim | cmd/diffs/diffs.go:210-213 | the common prefix, as long as can be, and then the common suffix are set apart; what is left of both starts, and ends, with different lines |
| Diffs.XFiles.ReportAll | cmd/diffs/diffs.go:215-246 | the script mentions every line of both files once, in order, and keeps as many as the table says |
| Diffs.XFiles.Diff | cmd/diffs/diffs.go:209-250 | the ends and the script make both files, and no common subsequence is longer than what they keep; the status says whether files differ, but with -l it does not exactly when what follows the common prefix ends alike in both |
| Diffs.XFiles.ShowReport | cmd/diffs/diffs.go:117-207 | the status of a report says whether any line is added or deleted |
| Diffs.LcsBounds | cmd/diffs/diffs.go:226-238 | no matching of two prefixes is longer than the cell of the table for them |
| Diffs.ScriptIsDiff | cmd/diffs/diffs.go:102-115 | the script keeps equal lines only, makes both prefixes, and keeps as many lines as the cell says |
| Diffs.TrimmedMatching | cmd/diffs/diffs.go:56-80 | what a matching of whole files loses when the ends are trimmed is no more than the ends |
| Diffs.Optimal | cmd/diffs/diffs.go:209-249 | the ends and the corner of the table bound every common subsequence of the whole files |
| Diffs.SameMatchings | cmd/diffs/diffs.go:82-100 | comparing ids is comparing lines, also for common subsequences |
| Diffs.SameTexts | cmd/diffs/diffs.go:82-100 | two files have the same ids exactly when they have the same lines |
| Diffs.DiffFiles | cmd/diffs/diffs.go:209-250 | for any two files the report makes both, and keeps as many lines as any common subsequence; they are told to differ exactly when they do, but with -l when what follows their common prefix ends alike |
| Diffs.EndsAre | cmd/diffs/diffs.go:56-80 | trimmed as far as can be, two files have a common suffix set apart exactly when what follows their common prefix ends alike |
| Diffs.SameEndings | cmd/diffs/diffs.go:82-100 | lines have the common prefix that their ids have, and end alike when they do |
| Diffs.EndingHidesTheStatus | cmd/diffs/diffs.go:117-207 | two files with different first lines and the same last line are reported as equal with -l |
| TxtPieces.InsPieces | txt/txt.go:292-336 | inserting in pieces is inserting in the text, and leaves no empty piece |
| TxtPieces.FindPiece | txt/txt.go:338-350 | finds the piece and the place in it of an offset |
| TxtPieces.DelPieces | txt/txt.go:338-384 | deleting from pieces is deleting from the text, and what was deleted is returned |
| Txt.MarkTracksIns | txt/txt.go:106-111 | a mark away from an insertion stays between the same runes |
| Txt.MarkTracksDel | txt/txt.go:113-121 | a mark outside the runes deleted stays by the same runes, and one within them goes to their place |
| Txt.Text.New | txt/txt.go:165-193 | a text with its first insertion in the log, if it can be undone |
| Txt.Text.InsAt | txt/txt.go:292-336 | inserts at an offset within the text, fails past its end, and forgets the cached position |
| Txt.Text.DelAt | txt/txt.go:338-384 | deletes up to n runes that are there and returns them |
| Txt.Text.MarkEdit | txt/txt.go:123-143 | every mark moves with the text, the one of the edit after it, and marks in range stay in range |
| Txt.Text.AddEdit | txt/txt.go:204-232 | the edits after this one are dropped, and this one is merged with the last one or added to the log |
| Txt.Text.Ins | txt/txt.go:406-425 | inserts, notes the edit and moves the marks; the log still leads from each text to the next, and inserts nothing that is empty; nothing changes if it fails |
| Txt.Text.DelRunes | txt/txt.go:532-552 | deletes, notes the edit and moves the marks; the log stays true exactly when the delete was not merged with one it does not commute with |
| Txt.Text.Del | txt/txt.go:532-552 | the same, and deleting nothing does nothing |
| Txt.Text.Undo | txt/txt.go:250-272 | the last edit is undone, and its inverse returned: with a true log the text is the one before it; no piece is left empty; nothing changes if there is none |
| Txt.Text.Redo | txt/txt.go:274-290 | the next edit is done again, and returned: with a true log the text is the one after it; no piece is left empty; nothing changes if there is none |
| Txt.Text.Apply | txt/txt.go:234-248 | an edit of the log is applied to the text; one past the end does nothing |
| Txt.Text.UndoThenRedo | txt/txt.go:250-290 | k undos and k redos leave the text and the log as they were |
| Txt.InverseUndoes | txt/txt.go:250-272 | the inverse of an edit gives back the text before it |
| Txt.MergedInsert | txt/txt.go:211-217 | an insertion merged with the last one is one insertion of both |
| Txt.MergedDelete | txt/txt.go:218-224 | two deletes merged are one delete exactly when the runes between them and the second part commute |
| Txt.MergedDeleteLosesOrder | txt/txt.go:218-224 | a text whose runes a merged delete puts back in another order |
| Txt.InsertKeepsChain | txt/txt.go:204-232 | an insertion noted, merged or not, keeps the log leading from each text to the next |
| Txt.DeleteKeepsChain | txt/txt.go:204-232 | a delete noted keeps it exactly when it was not merged with one it does not commute with |
| Txt.Text.MarkIns | txt/txt.go:480-502 | inserts at a mark that is there, and the mark ends after what was inserted; the log still inserts nothing that is empty |
| Txt.Text.MarkDel | txt/txt.go:504-530 | deletes at most n runes before a mark, which ends where they started; the log has no empty edit if anything was deleted |
| Txt.Text.StepBack | txt/txt.go:604-614 | the cached position goes to the rune before |
| Txt.Text.StepForward | txt/txt.go:615-629 | the cached position goes to the rune after, if there is one |
| Txt.Text.Getc | txt/txt.go:597-650 | the rune at an offset, 0 past the end, whatever the cached position was |
| Mblk.Buffer.constructor | mblk/mblk.go:34-37 | a new buffer is empty |
| Mblk.Buffer.Len | mblk/mblk.go:108-122 | the length is that of the flat sequence |
| Mblk.Buffer.Seek | mblk/mblk.go:130-145 | the search, bounded by the position, finds the only block and offset that hold it, or the end |
| Mblk.FoundPlace | mblk/mblk.go:137-144 | where the bounded search stops is the block that holds the position |
| Mblk.PlaceIs | mblk/mblk.go:130-145 | a block and an offset in it are the place of one position only |
| Mblk.Buffer.GrowLast | mblk/mblk.go:160-182 | the last block grows with zeros, to the size of a block |
| Mblk.Buffer.Grow | mblk/mblk.go:159-195 | exactly nz zeros are added |
| Mblk.Buffer.Truncate | mblk/mblk.go:206-235 | the buffer is cut, or filled with zeros, to n bytes, and spare room is cleared |
| Mblk.Buffer.FillLast | mblk/mblk.go:267-283 | the spare room of the last block is written first |
| Mblk.Buffer.WriteBlocks | mblk/mblk.go:284-298 | the rest is written to new blocks |
| Mblk.Buffer.Write | mblk/mblk.go:258-299 | p is appended |
| Mblk.Buffer.OverwriteBlock | mblk/mblk.go:330-339 | p is written over part of a block; a hole gets data |
| Mblk.Buffer.OverwriteNext | mblk/mblk.go:329-344 | one more block is written over, and the next place is known |
| Mblk.Buffer.Overwrite | mblk/mblk.go:320-345 | p is written over bytes that are there, across blocks and holes |
| Mblk.Buffer.WriteAt | mblk/mblk.go:304-347 | p is written at any offset: over what is there, after it, or past a gap of zeros; writing nothing past the end still grows the buffer |
| Mblk.OverlayTwice | mblk/mblk.go:304-347 | writes one after another are one write of it all |
| Mblk.DropBlocks | mblk/mblk.go:221-224 | any first blocks hold the first bytes |
| Mblk.ReplaceBlock | mblk/mblk.go:330-339 | replacing a block by one of its place and length changes those bytes and no others |
| Mblk.BufferFd.constructor | mblk/mblk.go:356-364 | a descriptor starts at 0 |
| Mblk.BufferFd.Seek | mblk/mblk.go:388-408 | moves from the start, the position or the end, never before the start; the cached block is that of the new position |
| Mblk.BufferFd.Write | mblk/mblk.go:410-420 | writes at the position and moves past what was written |
| Mblk.BufferFd.FillBlock | mblk/mblk.go:439-442 | reading a hole gives it data, and changes no byte |
| Mblk.BufferFd.ReadBlock | mblk/mblk.go:433-454 | reads what the block at the position has of what is wanted, and moves past it |
| Mblk.BufferFd.Read | mblk/mblk.go:422-459 | reads the bytes there are at the position; the end is told exactly when there are none, or no more |
| Mblk.BufferFd.ReadAt | mblk/mblk.go:467-497 | the same at an offset; the position moves unless the offset is past the end |
| Mblk.SendTo | mblk/mblk.go:528-569 | the messages are the bytes asked for, in order, none empty, each but the last as large as a block |
| Mblk.SendRest | mblk/mblk.go:545-568 | the same from the position of a descriptor |
| Mblk.RecvFrom | mblk/mblk.go:578-602 | messages are written one after another from an offset, or after the end |
| Mblk.SentIsCopied | mblk/mblk.go:528-602 | receiving what was sent copies it, and changes nothing else |
| Paths.CleanedOnce | zx/util.go:10-16 | an absolute path is cleaned to one without empty elements or dots, and cleaning it again changes nothing |
| Paths.ElemsOfJoin | zx/util.go:18-27 | the elements of a cleaned path are those it was made of |
| Paths.PrefixIsElems | zx/util.go:29-43 | a cleaned path has another as prefix exactly when its elements do |
| Paths.SuffixIsElems | zx/util.go:53-87 | the suffix is the path of the elements left, so prefix and suffix make the path |
| Paths.PathCmp | zx/util.go:89-109 | paths are compared element by element, and a shorter one comes first |
| Paths.CmpEq | zx/util.go:89-109 | only equal paths compare equal, and the order is antisymmetric |
| Paths.CmpTrans | zx/util.go:89-109 | the order is transitive |
| Paths.BelowIsAfter | zx/util.go:89-109 | a directory comes before what is below it, with nothing else between |
| Ns.NS.constructor | ns/ns.go:72-81 | a new name space has the root and nothing mounted |
| Ns.NS.Mount | ns/ns.go:334-346 | mounts at the cleaned path, before, after or instead of what is there, and leaves all other prefixes alone; fails exactly for a path that is not absolute |
| Ns.NS.MountAt | ns/ns.go:316-332 | the same for a cleaned path; the table stays sorted |
| Ns.InsertOk | ns/ns.go:302-331 | sorting after one prefix is added puts it in its place |
| Ns.NS.UnmountPrefix | ns/ns.go:348-359 | exactly the entries that match leave a prefix, and it is told whether any did |
| Ns.NS.UnmountAt | ns/ns.go:361-382 | prefixes left without entries go, but for the root; fails exactly when nothing changes |
| Ns.NS.Unmount | ns/ns.go:384-398 | the same for any path, or for all prefixes if there is none |
| Ns.KeptOk | ns/ns.go:361-382 | what is left is sorted, and is the table without the entries that matched |
| Ns.LaterIsLonger | ns/ns.go:412-420 | in a sorted table the prefixes of a path come from the shortest to the longest |
| Ns.LastIsLongest | ns/ns.go:412-420 | so the last prefix found is the longest one mounted |
| Ns.OneLongest | ns/ns.go:400-405 | there is one longest prefix at most |
| Ns.NS.FindPrefix | ns/ns.go:411-424 | the scan that keeps the last match finds the longest prefix, and always finds one |
| Ns.NS.MoveAll | ns/ns.go:425-446 | only finders lead below their mount, with their address moved to what is left of the path |
| Ns.NS.Resolve | ns/ns.go:400-452 | the longest mounted prefix and the entries that lead to the path, in order; fails exactly if there are none |
| Ns.MountedIsFound | ns/ns.go:334-346 | what is mounted alone, or before the rest, is the first that is found at its path |
| ReplDiff.NamesOk | zx/repl/cmp.go:164-181 | every name of a child, old or new, is compared once |
| ReplDiff.Changes | zx/repl/cmp.go:121-227 | the recursion emits the changes in order and notes removals in the new tree, at any depth |
| ReplDiff.ChangesBelow | zx/repl/cmp.go:160-226 | the same for the children of two directories |
| ReplDiff.ReplayUnder | zx/repl/apply.go:13-81 | changes below a name are changes to that child and to nothing else |
| ReplDiff.TreeReplays | zx/repl/cmp.go:121-227 | replaying the changes over the old tree, in the order they are found, makes the new tree up to ignored attributes, and to those of the root |
| ReplDiff.NothingLeft | zx/repl/cmp.go:121-227 | comparing what was replayed with the new tree finds no change |
| ReplDiff.ErrorsAreLeftAlone | zx/repl/cmp.go:142-149 | no change is reported at or below an entry with an error in either tree |
| ReplDiff.MarkedWalk | zx/repl/cmp.go:205-226 | in the new tree a removed child is a tombstone with the time of its directory, and all others are where they were |
| ReplDiff.MarkedHolds | zx/repl/cmp.go:205-226 | tombstones do not change what files the new tree describes |
| ReplDiff.GraftCopies | zx/repl/apply.go:183-228 | adding a tree where there is nothing copies it |
| ReplDiff.Replica.Apply1 | zx/repl/apply.go:43-81 | applies a change to the files; one with an error does nothing, and the root is never removed |
| ReplDiff.Replica.ApplyAll | zx/repl/apply.go:13-39 | applies, in order, the changes found at one replica, or at both |
| ReplDiff.AppliedIsReplay | zx/repl/apply.go:13-81 | for changes below the root applying is replaying |
| ReplDiff.Replica.Sync | zx/repl/tree.go:254-264 | pulling every change makes the files the same as those at the other replica |
| ReplAdd.ItemsAreGraft | zx/repl/apply.go:185-227 | putting what a find returns, one file after another, puts one tree over the other |
| ReplAdd.PutsAreAdd | zx/repl/apply.go:185-227 | at the path of a change, that is what adding it does |
| ReplAdd.AddAll | zx/repl/apply.go:185-227 | the loop of puts does it, and a file that fails does not stop the others |
| ReplMerge.Merge | zx/repl/tree.go:144-188 | the loop over two streams sends what merging by path order says, also when either ends first |
| ReplMerge.MergeForwards | zx/repl/tree.go:133-188 | each stream is forwarded in its own order, whatever the order of its paths |
| ReplMerge.MergeOnce | zx/repl/tree.go:133-188 | every change of both streams is sent exactly once |
| ReplMerge.MergeInOrder | zx/repl/tree.go:144-188 | sorted streams merge sorted, with changes to the same path together |
| ReplMerge.RunsOk | zx/repl/tree.go:193-224 | any stream is a series of runs of changes, each to one path that differs from the one before |
| ReplMerge.Resolve | zx/repl/tree.go:193-224 | the loop sends the later change of each run when the run ends |
| ReplMerge.ResolvedWins | zx/repl/tree.go:193-224 | one change is sent for each run: the latest, and the last of those as late |
| ReplMerge.SyncChoice | zx/repl/tree.go:113-224 | sorted streams of two replicas give one change per path, in order: the only one or the later one, and the pushed one if both are as late |
| ReplMerge.EveryPathSent | zx/repl/tree.go:193-224 | every path with a change, and no other, has one that is sent |
| ReplMerge.TreesWinIff | zx/repl/tree.go:190-214 | nothing is sent below a tree that is added or removed exactly when nothing changed there |
| ReplMerge.RemovalDoesNotWin | zx/repl/tree.go:209-214 | a directory removed at one replica, with a file in it changed at the other: both changes are sent |
| ReplMerge.DiffOrdered | zx/repl/cmp.go:164-204 | changes are found in strict path order exactly when, in every directory compared, the names with something to change come in order |
| ReplMerge.SortedNamesDo | zx/repl/cmp.go:164-204 | they are if the names of every directory come in order |
| ReplMerge.ConflictMissed | zx/repl/cmp.go:181 | two trees whose changes come out of order, so that both versions of a file are sent |
| ReplDb.DB.FindChild | zx/repl/db.go:144-151 | finds the first child with a name |
| ReplDb.DB.Walk | zx/repl/db.go:223-234 | finds the file at a path exactly when there is one |
| ReplDb.DB.Add | zx/repl/db.go:244-291 | the entry is added or updated where its path says, and fails exactly if its directory is not there; at the root, when the cached parent is a root that was replaced, the new root gets what arrays shared with the old one give it, which is right exactly when it has a child with that name; when that is the case, before and after |
| ReplDb.DB.AddRoot | zx/repl/db.go:254-260 | a new root keeps the children of the old one, in the same array; the old one stays cached if it was |
| ReplDb.DB.CacheParent | zx/repl/db.go:261-272 | the parent is walked to unless it is the cached one; the cached one is then what walking finds, unless it is a root that was replaced |
| ReplDb.DB.AddBelow | zx/repl/db.go:273-291 | with the parent at hand the entry is added below it |
| ReplDb.DB.AddChild | zx/repl/db.go:274-290 | the child is updated if it is there, and added if it is not; no other file and no other array changes |
| ReplDb.DB.UpdateChild | zx/repl/db.go:275-282 | files, and entries removed or with errors, lose their children |
| ReplDb.DB.NewChild | zx/repl/db.go:285-289 | a new child goes to its place by name, in the same array if there is room, and in a new one if there is not |
| ReplDb.DB.Append | zx/repl/db.go:285 | one more is appended to a slice: in place if its array has room, in a new array if not |
| ReplDb.DB.AddStale | zx/repl/db.go:273-291 | by way of a root that was replaced, children both roots have are updated; a new one goes to the old root, and the tree has the first of the children that the array has now |
| ReplDb.FirstNamesStay | zx/repl/db.go:254-290 | of new files added that way the first ones, as many as there was room for, are put among the children by name, and the tree has the first n of all, if it had n |
| ReplDb.AddAfterRoot | zx/repl/db.go:254-290 | a root added again after one of its children was, and then any new children: which of the old and the new ones the tree has |
| ReplDb.OldChildLost | zx/repl/db.go:254-290 | after a, c, d and the root again, adding b loses d |
| ReplDb.NewChildLost | zx/repl/db.go:254-290 | after a, b and the root again, adding c loses c |
| ReplDb.OthersStay | zx/repl/db.go:254-290 | only roots share arrays, so appending to a file changes the children of no other but those |
| ReplDb.AddedSorted | zx/repl/db.go:236-291 | after any add children are sorted by name, each name once, at every depth |
| ReplDb.SavedIsRebuilt | zx/repl/db.go:174-184 | adding the entries of a tree one by one in preorder gives back the tree |
| ReplDb.Load | zx/repl/db.go:354-437 | receiving what was sent of a database makes the same tree, with the cached parent right all along |
| Predicates.FlatEval | zx/pred/pred.go:205-220 | making one of nested ands, and of nested ors, changes neither value, prune flag nor error, whatever the predicate |
| Predicates.LexString | zx/pred/parse.go:168-331 | what is printed is scanned as the tokens meant, whatever follows |
| Predicates.ReadOrs | zx/pred/parse.go:344-463 | those tokens are read as the predicate, flattened and without lone terms, exactly when no and, and no or, is empty |
| Predicates.PrintedIsRead | zx/pred/parse.go:168-463 | a predicate of plain words is printed and read back flattened and without lone terms, and is refused exactly when an and, or an or, is empty |
| Predicates.CompiledIs | zx/pred/pred.go:115-121 | what any text printed for a predicate of plain words compiles to: no predicate if it is empty, the predicate read, or an error, and exactly when |
| Predicates.ReadBackIffNormal | zx/pred/parse.go:167-210 | a predicate of plain words is read back as it was exactly when its ands and ors have two terms or more, and no term of the same kind |
| Predicates.FlatIsReadIff | zx/pred/parse.go:167-210 | it is read back as it was, flattened, exactly when flattened its ands and ors have two terms or more, and none was empty |
| Predicates.ReadFlat | zx/pred/parse.go:344-399 | flattening first does not change what is read |
| Predicates.LoneEval | zx/pred/pred.go:205-220 | an and, or an or, of one term evaluates as the term |
| Predicates.LoneUnderNot | zx/pred/pred.go:198-204 | its negation evaluates as that of the term exactly when the term is no test of a name or a path, or prunes just where it holds |
| Predicates.ReadEval | zx/pred/pred.go:190-260 | what is read has the same value, prune flag and error everywhere, when no negation is over lone terms that come to a test of a name or a path |
| Predicates.SentMeansTheSame | ns/find.go:106 | what a server reads of a predicate sent as text has the same value, prune flag and error on every entry at every depth, unless a negation is over lone terms that come to a test of a name or a path |
| Predicates.SentUnderNot | zx/pred/pred.go:198-204 | a negation that is sent means the same for an entry exactly when it is not over lone terms that come to a test of a name or a path, or the test prunes there just when it holds |
| Predicates.ReadBackIffPlain | zx/pred/parse.go:168-210 | a comparison is read back exactly when its name and value are plain words that are not short for anything |
| Predicates.SingleIsLost | zx/pred/pred.go:198-204 | not (and of one test of the name), and the same with or, are read back without the and, or the or: the entry with that name is then pruned, and it was not |
| Predicates.EmptyOrIsLost | zx/pred/parse.go:181-193 | an or of nothing, and an or of that, are false and are read as no predicate, which is true; as a term of an and, it is refused |
| Predicates.BlankIsAll | zx/pred/pred.go:115-121 | what is printed as the empty text means what is read of it exactly when it comes to an empty and |
| Predicates.NotEqualIsMore | zx/pred/pred.go:221-260 | not equal, for the number of an attribute or the depth, is evaluated as more than, which is right exactly when the number is not less |
| Predicates.OneIsNotTwo | zx/pred/pred.go:221-260 | a file of size 1 does not match a size not equal to 2 |
| Predicates.Lexer.Scan | zx/pred/parse.go:240-331 | scans the next token; tells the end from a token that is not complete |
| Predicates.Lexer.Word | zx/pred/parse.go:309-330 | a word goes up to a space or punctuation |
| Predicates.Lexer.Quoted | zx/pred/parse.go:284-308 | a quoted word goes up to the same quote, and fails if there is none |
| Predicates.Lexer.Special | zx/pred/parse.go:248-283 | operators of one, two and three characters, the longest first |
| Predicates.Lexer.Peek | zx/pred/parse.go:225-230 | looks at the next token and takes nothing |
| Predicates.Lexer.Ors | zx/pred/parse.go:344-370 | reads alternatives as the grammar does, and leaves what follows them |
| Predicates.Lexer.Ands | zx/pred/parse.go:372-399 | reads terms as the grammar does, and leaves what follows them |
| Predicates.Lexer.Prim | zx/pred/parse.go:401-463 | reads negations, parentheses, constants and comparisons as the grammar does |
| Predicates.Lexer.Comparison | zx/pred/parse.go:423-442 | a word is short for a type or a depth, or starts a comparison |
| Predicates.Lexer.Unary | zx/pred/parse.go:410-422 | an operator alone compares the path, or the name |
| Predicates.New | zx/pred/pred.go:115-121 | the empty text stands for no predicate; any other is read whole, or fails |
| Finder.Findr | zx/zux/zux.go:756-806 | sends what the pruned walk of a tree finds, in order, with its error |
| Finder.FindrAll | zx/zux/zux.go:787-804 | the same for the entries of a directory, up to the first error |
| Finder.ValuesAreQuiet | zx/pred/pred.go:289-315 | tests of the value of an attribute never prune nor fail, but for those that a name or a path is not something |
| Finder.NotIsQuiet | zx/pred/pred.go:198-204 | nor do their opposites, unless it is that a name or a path is not something |
| Finder.ManyAreQuiet | zx/pred/pred.go:205-220 | nor do ands and ors of such tests |
| Finder.BoundedSays | zx/pred/pred.go:205-260 | tests ended by a bound of the depth prune only where all below is too deep, and never fail |
| Finder.PrunedWalkFindsAll | zx/zux/zux.go:756-806 | for such predicates the entries sent because they match are those an exhaustive walk of what can be read matches, in the same order, directories that cannot be read included |
| Zxc.MFile.Inval | zx/zxc/cache.go:240-255 | clean data is dropped, and nothing that is to be sent |
| Zxc.MFile.SetDirtyMeta | zx/zxc/cache.go:257-268 | the attributes are to be sent, unless all of the entry already is, or it is gone |
| Zxc.MFile.SetDirtyData | zx/zxc/cache.go:270-275 | the data is to be sent |
| Zxc.MFile.GotMeta | zx/zxc/cache.go:277-311 | news of the same type invalidate only what is not to be sent, and attributes to be updated win; another type starts anew; an entry that was gone is new |
| Zxc.MFile.Fetch | zx/zxc/cache.go:205-223 | data that is not good is replaced by what the server has, and the entry is clean but for attributes that were dirty without data; directories are read again when the cache always does |
| Zxc.MFile.Gone | zx/zxc/cache.go:434-443 | an entry that is not at the server has no data |
| Zxc.MFile.Remove | zx/zxc/cache.go:446-471 | a removed entry has nothing to be sent but its removal |
| Zxc.MFile.Wstat | zx/zxc/cache.go:355-388 | attributes that change are set and noted, and a size cuts or extends the data |
| Zxc.MFile.PutStart | zx/zxc/cache.go:518-521 | a put makes the data dirty before it receives anything |
| Zxc.MFile.PutEnd | zx/zxc/cache.go:522-541 | what was received is written from the offset on, and the time is noted |
| Zxc.ServerKeeps | zx/zxc/cache.go:240-353 | news of the same type, invalidation and reading leave bytes to be sent and attributes to be updated as they were |
| Zxc.StepKeeps | zx/zxc/cache.go:240-542 | a step keeps what is pending of an entry exactly when it is not its removal, the server not having it or having another type, or a directory being read again |
| Zxc.RunKeeps | zx/zxc/cache.go:240-542 | in any run with no such step an entry with dirty data stays so, and no attribute to be updated is dropped |
| Zxc.RunNotes | zx/zxc/cache.go:257-456 | in any run attributes to be updated are always in a status that sends them exactly when no step, met with some pending, is news of another type or of an entry that had gone away, or reads a directory again |
| Zxc.NotedIsSent | zx/zxc/cache.go:608-670 | with that status a sync gives the server every attribute to be updated, and without it nothing |
| Zxc.ForgettingRuns | zx/zxc/cache.go:277-398 | a directory whose attribute is set, and that then goes away and is listed again, is of another type, or is read twice by a cache that always does: the server is not told |
| Zxc.RemovalLasts | zx/zxc/cache.go:277-542 | in any run without another removal a removed entry is still to be removed exactly when no put started or ended, no size was set on a file, and the server was not found to have another type there, or nothing |
| Zxc.RemovedWhileWritten | zx/zxc/cache.go:518-541 | a file removed while a client writes to it is at the server after the next sync, with what was written |
| Zxc.RemovedWhenMade | zx/zxc/zxc.go:982-999 | a file removed between being made and having its attributes set is at the server after the next sync |
| Zxc.Sync | zx/zxc/cache.go:596-711 | the recursion leaves the cache and the server as the sync of a tree says |
| Zxc.SyncPass | zx/zxc/cache.go:671-709 | files first, and then directories |
| Zxc.SyncSettles | zx/zxc/cache.go:596-711 | after a sync every entry is new, clean or gone, exactly when nothing was to be sent below what is gone |
| Zxc.SyncFrame | zx/zxc/cache.go:596-711 | nothing changes at the server but at the path of the tree and below |
| Zxc.SyncIs | zx/zxc/cache.go:596-711 | at each path the server has what the one entry there had to send |
| Zxc.ServerHolds | zx/zxc/cache.go:608-670 | the server has the bytes and attributes of what was written, the attributes that were set, and nothing that was removed; all else is as it was |
| Zxc.AnyOrder | zx/zxc/cache.go:679-709 | in whatever order children are sent the server ends up the same |
| Zxc.InvalKeeps | zx/zxc/cache.go:585-594 | invalidating a whole tree keeps every entry that is to be sent, as it was |
| Zxc.RemovedIsGone | zx/zxc/cache.go:446-471 | nothing that was cached of a removed tree is at the server after a sync |
| Zxc.RecreatedAsOther | zx/zxc/cache.go:473-501 | when a file takes the place of a removed directory, or the reverse, nothing that was below is left at the server |
| Zxc.RecreatedDirKeepsOldFiles | zx/zxc/cache.go:484-489 | when a directory takes the place of a removed one, what was below it stays at the server |
| ZxcTree.EntrySound | zx/zxc/cache.go:240-542 | what happens to an entry leaves the tree below it sound: names once, and nothing to be sent below what is gone |
| ZxcTree.NodeSound | zx/zxc/cache.go:390-432 | and so do reading a directory, making a file in one that is not gone, and forgetting a child that is |
| ZxcTree.StepSound | zx/zxc/cache.go:240-542 | the same for what happens anywhere in the tree, but below a directory that is gone |
| ZxcTree.SyncSound | zx/zxc/cache.go:596-711 | and for a sync of a sound tree, after which nothing is to be sent |
| ZxcTree.RunSettles | zx/zxc/cache.go:240-711 | after any run in which nothing happens below a directory that is gone, with syncs anywhere in it, a sync leaves nothing to be sent |
| ZxcTree.LateStep | zx/zxc/cache.go:355-541 | what leaves something to be sent anywhere in a sound tree leaves nothing behind at the next sync exactly when that sync goes to its directory |
| ZxcTree.LateStepIsLost | zx/zxc/cache.go:565-583 | a directory removed, its removal sent, and then anything that leaves a file in it to be sent: the cache has it and no sync sends it |
| ZxcTree.LateWritesUnsettle | zx/zxc/cache.go:355-541 | the end of a put does, and so does a size that is set, exactly on what is not a directory |

## Left out

Weaker or narrower than the code promises:

- ReplDb.DB.Append: how many elements a new array holds is a parameter, as the language does not say; any number not less than what is needed is allowed.
- ReplDiff.TreeReplays: the data of a file is taken to be fixed by its size and the second it was written, which is all that the code compares.
- Predicates.PrintedIsRead: for predicates whose comparisons are of plain words, where it is exact; which comparisons are read back, one by one, is `Predicates.ReadBackIffPlain`.
- Predicates.SentMeansTheSame: one way for whole predicates, as what is under such a negation may never be evaluated; for the negation itself `Predicates.SentUnderNot` is exact.
- Mux.StepKeeps: a stream is not opened on a tag that is still in use; `Mux.NoReuse` says that this needs as many streams as there are tags.
- Zxc.MFile.PutEnd: all that a put receives is written when it ends, so a removal is never between two of its messages.
- Mblk.Buffer.WriteAt: offsets and lengths are natural numbers, so the panic for lengths that do not fit an int is not modelled.

Parts of the repository that are not modelled:

- Regular expressions: backward search, which match is the longest, the ranges of sub-expressions, and the scanning of classes and escapes; the letters, numbers and spaces of Unicode are given as sets.
- Mux: errors and closing by the reader, credit for the replies of requests, locks, and the bytes of a message.
- Diffs: reading the files, the text of the report and its addresses.
- Text: locks, line numbers, `Get`, setting and deleting marks, dropping edits, and slices that share storage.
- Block buffers: blocks are values of the buffer, so no two share data; nil buffers, negative offsets, locks, `WriteTo` and `Bytes`.
- Name spaces: reading and printing tables, copies of a table, locks, and the text of errors. `path.Clean` is modelled by what it is documented to do with absolute paths.
- Replicas: exclusion patterns, changes to the databases while applying, errors returned by applying, a reader that stops early, the times of directories that change when their files do, and the scan of a file system.
- Databases: the control entries skipped when receiving, packing of entries, names and addresses.
- Predicates: matching of globs and regular expressions and the reading of numbers are parameters; nil arguments and the debug form of printing.
- Pruned walks: rewriting of paths from one prefix to another, and permissions.
- Write-back cache: time-outs, which only decide when the server is asked, locks other than those around the two halves of a put, servers that fail, moves and links, and the directory of control files, which a sync only marks as clean.
- All else: operating system services, authentication, web and document tools, and small filters would add only easy members.
