# Criterion: glob engine, runner protocol, byte-level helpers

A Dafny model of three parts of the Criterion test framework, with proofs.

**The extended-glob engine** decides which tests a pattern selects. `Patterns` gives the grammar of
patterns and what a pattern means, piece by piece and group by group; `Globs` gives the trees of the
derivative matcher and the language of each; `GlobHeap` is the C code's heap of nodes, with its
constructors, copies, derivatives and frees; `Fragments` and `Compiler` are the stack machine that
reads a pattern into a tree; `Parser` is the state those stacks encode, tied to the grammar; `Filter`
puts it together, from the text of a pattern to the tests left enabled.

**The runner protocol.** `Phases` is the packed phase stack; `Stats` the statistics and their events;
`Client` and `Server` the message handlers and the client tables; `Protocol` what a whole run of
messages of one client amounts to, and `Passing` which verdict it gives; `Books` many clients interleaved;
`History`, `Conservation` and `Accounts` the accounts that every step keeps, and the statistics objects
in the heap as an instance of them;
`Theories`, `Worker` and `Lives` the sender's side, up to every way a worker can end, and `Results` what
a test comes to on the server in terms of the asserts its author wrote; `Coroutine` the
resumable enumeration of tests; `Pool` the bounded pool of workers.

**Byte-level helpers.** `MockFile` is the in-memory file behind mock streams; `Xxd` the hex dump.

Code that updates state is modelled by classes and methods with the loops of the original, proved
against functions; the theorems are about those functions. Some recursive functions are written with
their step two calls down (`...Sealed`, `...Step`), so that proofs unfold them only where a lemma
says so; the value is that of the step.

The main results:

- Compiling a pattern gives a tree exactly when the pattern is a non-empty word of the grammar, that
  tree is the one the grammar assigns, and matching it decides the pattern's meaning on every
  identifier (`Compiler.Compile`, `Parser.ParseDecidesGrammar`, `Filter.MatchDecidesMeaning`,
  `Filter.DisableUnmatching`). Texts of at most 200 bytes without a lone trailing backslash never meet
  the two undefined behaviours of the code, and a word of the grammar does exactly when it needs more
  than 100 fragments at once (`Parser.ShortPatternsDefined`, `Parser.SpelledDefinedExactly`).
- A bracket set accepts what it says, byte by byte and range by range; every set text is covered
  (`CharSets.SetMeans`, `CharSets.DanglingDash`, `CharSets.EverySet`).
- Matching by simplified derivatives is membership, for every tree and every string
  (`Globs.MatchesCorrect`), and leaves the set of live nodes as it was (`GlobHeap.MatchGlob`).
- Each client gets exactly one verdict, under a condition on its messages that is also necessary
  (`Protocol.OneVerdictExactly`); whether it is a pass, a failure or a skip is decided by the messages
  (`Passing.VerdictByMessageExactly`, `Passing.VerdictByDeathExactly`). Over any interleaving the
  counters add up (`Books.InterleavingAddsUp`, `Books.Conservation`, `Books.EveryTestJudgedOnce`), in
  the server's own objects too, from its start on (`Accounts.Audit.Process`, `Accounts.PlayServer`).
- Every worker's trace is acknowledged throughout (`Lives.WorkerAndServerAgree`), and however and
  wherever a worker ends, the number of verdicts it gets is known exactly (`Lives.LifeVerdicts`).
- The record and the verdict of a test that ran to its end follow from the asserts its functions made
  (`Results.JobRecorded`, `Results.JobJudged`), and the verdict of one that ended early from what it sent
  and how it ended (`Results.LifeJudged`).
- The pool starts every enabled instance once, in order of suite, test and parameter, under what the
  author of its test declared, and reaps it once; what a run adds to the counters is
  the sum over its suites; and where every client's own messages were orderly, the run counts every
  instance, every disabled test and every external client once, with one verdict each
  (`Pool.RunTestsAsync`, `Coroutine.AllExact`, `History.ToldOrderly`).
- The memory file refines a bounded byte file, and reads back what was written
  (`MockFile.ReadBack`); the hex dump fits its buffer, tightly, and its addresses, its hexadecimal
  columns and its text read back as they should (`Xxd.StringXxd`, `Xxd.DumpLength`, `Xxd.DumpShows`).

Where the code and its documentation differ, the model follows the code, and says exactly where:

- `doc/env.rst:59-75` has `?` match any character and `*` everything. `?` also matches the empty
  string, and `*` only strings with no `*` byte before the last position (`Globs.WildcardsExactly`).
- A backslash does not make a wildcard a literal (`Patterns.BytesMean`).
- A group applies its operator to each alternative by itself. For `?`, `@` and `!` that is what the
  manual says; for `*` and `+` it accepts less, and is as documented if and only if the alternatives
  absorb one another (`Patterns.RepeatGroupsByAlternatives`): a single alternative always does, and
  single bytes only when they are all the same (`Patterns.ByteGroupsAsDocumentedExactly`). `*(a|b)`
  does not accept `ab` (`Patterns.RepeatGroupShortfall`).
- `SKIP` or `TIMEOUT` in a test's teardown counts a second verdict (`Protocol.LateEndsCountTwice`).
- A normal death inside an open theory round counts none (`Protocol.NormalDeathInSubtestUncounted`),
  and a timeout there passes unnoticed (`Protocol.TimeoutInSubtestUnnoticed`): timeouts are recorded
  exactly at top level, before the end (`Protocol.TimeoutRecordedExactly`).
- An abort in teardown fails a test after its verdict was counted
  (`Protocol.LateAbortsCountNothing`, `Protocol.PassedThenFailed`); the verdict counted is the final
  status exactly without one, or when the test had failed already (`Protocol.OneVerdictExactly`).
- An assert that fails in teardown leaves a test that was counted as passed a passed test, with a failed
  assert on its record (`Passing.LateFailureUnjudged`). A test that runs to its teardown passes only if
  no signal and no exit code was declared for it (`Passing.PassedByMessageExactly`).
- Without full statistics, asserts that pass in a teardown function are counted nowhere: the count is
  sent at the end of main (`Results.JobRecorded`). The number of all asserts kept by suites and run counts
  only those reported in bulk (`Results.RecordTells`).
- A write that fails because memory cannot grow leaves a file whose size its memory does not hold
  (`MockFile.MemFile.Write`).
- The addresses of a hex dump do not always line up: the width is chosen by the size alone, and can
  be one digit short even from 0. They do exactly when start plus the last offset fits the width
  (`Xxd.AddressesLineUpExactly`, `Xxd.FromZeroBySize`, `Xxd.LastAddressSticksOut`).

## Model

| member | source | states |
|---|---|---|
| `CharSets.ScanSet` | src/string/brz.c:488-527 | the set scan consumes a byte exactly when the set accepts it: some listed span holds it, or, for an inverted set, the set is well formed and none does |
| `CharSets.SpanRange` | src/string/brz.c:506-519 | on bytes up to 127 a span is the range between its ends, in either order; bytes above are in no span |
| `CharSets.HighBytes` | src/string/brz.c:488-527 | a byte above 127 is accepted exactly by the well-formed inverted sets |
| `CharSets.SetMeans` | src/string/brz.c:488-527 | a set written as single bytes and ranges, their ends in either order, accepts exactly the seven-bit bytes listed; with `!` and at least one element, exactly the others |
| `CharSets.DanglingDash` | src/string/brz.c:503-512 | with a byte and a dash left over at the end, the elements before still count, and nothing else; inverted, such a set accepts nothing |
| `CharSets.EverySet` | src/string/brz.c:488-527 | every set text is one or the other |
| `Globs.NullableCorrect` | src/string/brz.c:412-461 | a tree is nullable exactly when its language holds the empty string |
| `Globs.Simplifies` | src/string/brz.c:219-269 | the simplifying constructors do not change the language |
| `Globs.DeriveCorrect` | src/string/brz.c:463-618 | the derivative by a byte holds exactly the tails of the strings that start with it, complement, intersection and repetition included |
| `Globs.MatchesCorrect` | src/string/brz.c:107-125 | matching is membership in the denoted language, for every tree and every string |
| `Globs.PlainDeriveCorrect` | src/string/brz.c:529-618 | the unsimplified textbook derivatives hold the same tails |
| `Globs.SimplificationSound` | src/string/brz.c:219-410 | after any string of bytes, simplified and textbook derivatives of trees with one language still have one language |
| `Globs.WildcardsExactly` | src/string/brz.c:424-486 | exactly which strings `*` and `?` match |
| `Globs.LiteralsExactly` | src/string/brz.c:463-486 | every other byte matches itself alone |
| `GlobHeap.FreeGlob` | src/string/brz.c:75-87 | every node of a tree is live when freed, is freed once, and nothing else is |
| `GlobHeap.CopyGlob` | src/string/brz.c:620-653 | a copy is a new tree of the same shape that shares no node with anything |
| `GlobHeap.GlobCset` | src/string/brz.c:195-217 | a new set node with its own copy of the string |
| `GlobHeap.GlobOr` | src/string/brz.c:219-248 | a new tree that shares no node with its operands, for the simplified union |
| `GlobHeap.GlobAnd` | src/string/brz.c:250-269 | the same for the intersection |
| `GlobHeap.GlobStar` | src/string/brz.c:271-293 | the same for repetition |
| `GlobHeap.GlobPlus` | src/string/brz.c:295-312 | the same for non-empty repetition, made by changing a star node in place |
| `GlobHeap.GlobAt` | src/string/brz.c:314-337 | the same for one occurrence, an empty or blank operand being simplified away |
| `GlobHeap.GlobOpt` | src/string/brz.c:339-361 | the same for an optional occurrence |
| `GlobHeap.GlobNot` | src/string/brz.c:363-388 | the same for the complement |
| `GlobHeap.GlobSeq` | src/string/brz.c:390-410 | the same for the sequence |
| `GlobHeap.IsNullable` | src/string/brz.c:412-461 | the function a node carries for it computes whether the node's tree is nullable |
| `GlobHeap.DeriveGlob` | src/string/brz.c:463-618 | the function a node carries for it returns the derivative as a new tree, frees every tree built on the way, and leaves the node's own tree alone |
| `GlobHeap.DeriveSequence` | src/string/brz.c:573-595 | the same for sequences, where two or three trees are built and all but the answer freed |
| `GlobHeap.MatchGlob` | src/string/brz.c:107-125 | the answer is membership in the tree's language, and the set of live nodes is unchanged on every input |
| `Patterns.BuildMeans` | src/string/extglobmatch.c:95-233 | the tree of a well-formed pattern denotes the pattern's meaning, atoms concatenated and groups joined |
| `Patterns.GroupMeans` | src/string/extglobmatch.c:144-173 | a group denotes its operator applied to each alternative: the union, or the intersection for `!` |
| `Patterns.GroupSays` | src/string/extglobmatch.c:71-89 | what each of the five operators does: any number of strings of one alternative, at least one, at most one, exactly one, or a string of none of them |
| `Patterns.GroupsAndLiterals` | src/string/extglobmatch.c:112-220 | the operators are the five bytes before a parenthesis, alternatives are not empty, and five bytes never stand for themselves |
| `Patterns.BytesMean` | src/string/extglobmatch.c:212-220 | what single bytes mean; an escape does not make a wildcard a literal |
| `Patterns.TextsSpelled` | src/string/extglobmatch.c:112-220 | how literals, escapes, sets, and groups of one and two alternatives are written |
| `Patterns.OnceGroupsAsDocumented` | src/string/extglobmatch.c:193-210 | for `?`, `@` and `!` that is the operator applied to the union of the alternatives, for any number of them |
| `Patterns.RepeatGroupsWithinDocumented` | src/string/extglobmatch.c:193-210 | for `*` and `+` it never accepts more than repetition over the union |
| `Patterns.RepeatGroupsAsDocumentedExactly` | src/string/extglobmatch.c:193-210 | for `*` and `+` it is repetition over the union if and only if the group's language is closed under concatenation |
| `Patterns.RepeatGroupsByAlternatives` | src/string/extglobmatch.c:193-210 | the same, decided on the alternatives: if and only if a string of one of them followed by any repetition of their strings is in some alternative's own repetition |
| `Patterns.DominatedGroupsAsDocumented` | src/string/extglobmatch.c:193-210 | one alternative whose own repetition takes in all the others is enough |
| `Patterns.ByteGroupsAsDocumentedExactly` | src/string/extglobmatch.c:193-210 | a `*` or `+` group of single bytes, wildcards aside, is as documented if and only if all its bytes are the same, which the text shows |
| `Patterns.SingleAlternativeAsDocumented` | src/string/extglobmatch.c:144-173 | with one alternative every operator is as documented |
| `Patterns.RepeatGroupShortfall` | src/string/extglobmatch.c:144-173 | the `*` group of `a` and `b` rejects `ab`, which repetition over the union accepts |
| `Parser.StepText` | src/string/extglobmatch.c:112-220 | each token moves its bytes from what is left to what has been read, and what has been read stays well formed |
| `Parser.DepthBound` | src/string/extglobmatch.c:92-136 | the fragments in use never outnumber the bytes consumed, with two atoms at most on a level, and in a group each costs two bytes |
| `Parser.ParseSound` | src/string/extglobmatch.c:112-228 | what is accepted is a non-empty well-formed pattern whose text is the input |
| `Parser.ParseDecidesGrammar` | src/string/extglobmatch.c:112-228 | wherever the code is defined, it accepts exactly the non-empty words of the grammar, groups nested at most 100 deep, and reads them back |
| `Parser.ShortPatternsDefined` | src/string/extglobmatch.c:91-97 | a text of at most 200 bytes that does not end in a lone backslash neither overruns the fragment array nor reads past the terminator |
| `Parser.SpelledDefinedExactly` | src/string/extglobmatch.c:91-220 | on the words of the grammar the code is undefined if and only if the word needs more than 100 fragments at once, a number computed from its structure |
| `Parser.LongPatternOverruns` | src/string/extglobmatch.c:91-97 | a word of 202 bytes that overruns the array |
| `Parser.Unambiguous` | src/string/extglobmatch.c:112-228 | no text of any length spells two patterns, and none that spells one ends in a lone backslash |
| `Fragments.FragStack.HandleOperator` | src/string/extglobmatch.c:71-89 | a new tree for the operator applied to a fragment |
| `Fragments.FragStack.CatOne` | src/string/extglobmatch.c:33-43 | the top two atoms become one, if there are two |
| `Fragments.FragStack.CatAll` | src/string/extglobmatch.c:45-54 | the atoms of the level become one |
| `Fragments.FragStack.EndAlternative` | src/string/extglobmatch.c:193-210 | the alternative's atoms become one fragment under the operator |
| `Fragments.FragStack.EndGroup` | src/string/extglobmatch.c:144-173 | the group's alternatives become one fragment, the old ones freed |
| `Fragments.FragStack.Cleanup` | src/string/extglobmatch.c:58-64 | every fragment is freed, and nothing else |
| `Compiler.FragsDepth` | src/string/extglobmatch.c:105-173 | the fragment count is the sum, over the open levels and the current one, of alternatives and atoms, at most one atom saved on a level |
| `Compiler.FragsAfterClose` | src/string/extglobmatch.c:144-173 | collapsing the fragments of a group gives the fragments of the state in which the group is an atom |
| `Compiler.Compiler.Turn` | src/string/extglobmatch.c:112-220 | each turn of the loop keeps the stacks an encoding of the reading state, and fails exactly where reading rejects |
| `Compiler.Compile` | src/string/extglobmatch.c:95-233 | the answer is the pattern's own tree and nothing else is left live, or null with every fragment freed, as reading the pattern decides |
| `Filter.Engine.CompilePattern` | src/string/extglobmatch.c:235-239 | true exactly when some pattern of the grammar is spelled by the text |
| `Filter.Engine.Match` | src/string/extglobmatch.c:241-244 | whether the string is in the language of the compiled tree |
| `Filter.MatchDecidesMeaning` | src/string/extglobmatch.c:235-244 | for every spelled pattern and every string, the matcher's answer is the pattern's meaning |
| `Filter.DisableUnmatching` | src/core/runner.c:189-205 | exactly the tests of enabled suites whose identifier the pattern does not mean become disabled; no node is leaked; a bad pattern disables nothing |
| `Phases.PackedRefinesStack` | src/core/client.c:387-449 | the packed state refuses and moves exactly as a stack of phases does, and the depth guard is never taken |
| `Phases.PackedRunRefinesStack` | src/core/client.c:387-449 | over every run of phase messages the packed state is that of the stack, stays within 0 to 6 with one subtest open at most, and never leaves the end state |
| `Stats.PushPreInit` | src/core/stats.c:181-195 | a test is announced in suite and run, and its record linked in front of the last one announced; announced twice in a row, it is linked to itself |
| `Stats.PushAssert` | src/core/stats.c:197-227 | an assert is counted by outcome in test, suite and run, and put in front of the test's list |
| `Stats.PushPostTest` | src/core/stats.c:229-257 | the test gets its status, failed if anything was unexpected, and one verdict, in suite and run alike; `Passing.VerdictByMessageExactly` says which from the messages |
| `Stats.PushTestCrash` | src/core/stats.c:259-270 | a crash is one failure and one crash, in suite and run alike |
| `Stats.StatPushEvent` | src/core/stats.c:146-169 | every event of a test adds the same to suite and run; the start of a suite links it and counts nothing |
| `Client.ClientCtx.Advance` | src/core/client.c:437-446 | shifting out, shifting in and stepping the packed state are popping, pushing and moving on the stack of phases it packs |
| `Client.ClientCtx.CheckPhase` | src/core/client.c:387-428 | a phase message is refused, with one negative answer, exactly when the stack of phases has no move for it |
| `Client.ClientCtx.HandleAbort` | src/core/client.c:323-353 | what an abort records and pushes in each phase |
| `Client.ClientCtx.HandleTimeout` | src/core/client.c:355-368 | what a timeout records and pushes |
| `Client.ClientCtx.HandleSkip` | src/core/client.c:370-384 | what a skip records and pushes |
| `Client.ClientCtx.HandlePhase` | src/core/client.c:387-449 | a phase message moves context, record and all statistics as the reaction says, and changes nothing when refused |
| `Client.ClientCtx.JudgeDeath` | src/core/client.c:451-508 | what a death records and pushes, by its kind and the phase it finds |
| `Client.ClientCtx.HandleStatistic` | src/core/client.c:580-593 | passed asserts reported in bulk are added to test, suite and run |
| `Client.ClientCtx.ProcessClientMessageImpl` | src/core/client.c:187-197 | one message, one answer; everything it changes is what the reaction says |
| `Server.ServerCtx.AddExternalClient` | src/core/client.c:163-185 | a new context with a fresh record in the external suite, under its name |
| `Server.ServerCtx.ProcessClientMessage` | src/core/client.c:205-242 | exactly one answer for every message and every table, negative exactly when version, identity or phase check rejects; a rejected message changes no client and no statistic |
| `Protocol.OneVerdictExactly` | src/core/client.c:270-508 | over any messages and then a death, the test gets exactly one verdict if and only if no skip or timeout was taken in teardown and the death settles the phases it finds; it was announced as often as setup was taken at top level; the verdict counted is the final status if and only if no abort was taken in teardown or the test had failed already |
| `Protocol.LateEndsCountTwice` | src/core/client.c:355-384 | a skip or timeout in teardown always counts a second verdict |
| `Protocol.LateAbortsCountNothing` | src/core/client.c:323-353 | an abort in teardown always fails the test without counting anything |
| `Protocol.PassedThenFailed` | src/core/client.c:323-353 | setup, main, teardown, abort: counted as passed, and failed in the end |
| `Protocol.NormalDeathInSubtestUncounted` | src/core/client.c:485-504 | a normal death inside an open subtest counts no verdict, from every such run |
| `Protocol.TimeoutInSubtestUnnoticed` | src/core/client.c:355-368 | a timeout inside an open subtest is not recorded, and a test without failed asserts is counted as passed |
| `Protocol.TimeoutRecordedExactly` | src/core/client.c:355-368 | a timeout is recorded if and only if it finds the test at top level and not over |
| `Protocol.LedgerStep` | src/core/client.c:270-449 | every message keeps the account of announcements, verdicts and late ends |
| `Protocol.AcksExactly` | src/core/client.c:187-197 | only a phase message that is no move of the phases is answered negatively |
| `Passing.FailedExactly` | src/core/stats.c:197-227 | a record has failed asserts if and only if a failed assert was among the messages |
| `Passing.JudgedOnce` | src/core/client.c:270-449 | the test is over if and only if some message was the first after which it was |
| `Passing.VerdictByMessageExactly` | src/core/stats.c:229-260 | judged by a message, whatever follows, up to and with the death, a test is counted once: failed, if an assert had failed or a signal or an exit code was declared, else passed by its teardown, skipped by a skip, failed by an abort or a timeout; and once more, by the same rule, if a skip or a timeout comes in teardown |
| `Passing.PassedByMessageExactly` | src/core/stats.c:229-260 | so it passes if and only if that message is its own teardown, no failed assert came before, and neither a signal nor an exit code was declared |
| `Passing.VerdictByDeathExactly` | src/core/client.c:451-508 | judged by its death, a test is never skipped; it passes if and only if no failed assert was reported and it ended in main as declared: with the exit code, where no signal was declared, or by the signal, in the main of a subtest too, where no exit code was; it fails if and only if the death settles the phases it finds otherwise, and has crashed exactly where nobody declared that |
| `Passing.DeathRecorded` | src/core/client.c:451-508 | the signal of a crash in main and the exit code of a normal end before teardown are recorded, and no others |
| `Passing.LateFailureUnjudged` | src/core/stats.c:197-227 | an assert that fails in teardown is recorded and counted, and changes neither status nor verdict, from every such run |
| `Books.InterleavingAddsUp` | src/core/client.c:205-242 | however messages interleave, each client ends as if alone, and suite and run counters grow by the sums over their clients |
| `Books.RecordedAlways` | src/core/stats.c:197-270 | a test's assert counts are those its messages added, failed ones as many as on its list, and crashes never exceed failures, over any messages |
| `Books.Conservation` | src/core/stats.c:146-270 | after any messages to any clients, a suite's assert totals are the sums over its tests, and crashes never exceed failures |
| `Books.SuitesSum` | src/core/stats.c:146-270 | the run's counters stay the sums over all suites |
| `Books.EveryTestJudgedOnce` | src/core/client.c:270-508 | when every client's messages are orderly, the run counts each test once and the verdicts add up to the number of tests |
| `History.DeliverTold` | src/core/client.c:205-242 | a delivery keeps every client what its own messages alone make of it, and the run the sum of what they added and of the tests passed over |
| `History.JoinTold` | src/core/client.c:140-185 | so does a client that joins |
| `History.ToldRecords` | src/core/stats.c:197-227 | in such a world a record has as many failed asserts as its list shows |
| `History.ToldOrderly` | src/core/client.c:270-508 | in such a world where every client's messages were orderly, the run counted every client and every test passed over once, with as many verdicts |
| `Conservation.ReactAdds` | src/core/client.c:187-197 | a message adds to the counters what it adds to its test's record, and a crash only with a failure |
| `Conservation.DeliverConserves` | src/core/client.c:205-242 | every delivery keeps the run the sum of the suites, each suite's assert totals those of its tests, and every client what its messages made it |
| `Conservation.JoinConserves` | src/core/client.c:140-185 | so does a client that joins |
| `Conservation.OpenConserves` | src/core/stats.c:171-179 | so does a suite that opens |
| `Conservation.PassingOverConserves` | src/core/runner_coroutine.c:389-403 | so does a disabled test passed over |
| `Conservation.RejectedDelivery` | src/core/client.c:387-428 | a rejected message is a delivery that changes no client and no counter |
| `Accounts.Audit.Process` | src/core/client.c:205-242 | on the server's own objects, with suites shared and clients leaving the tables: any message takes them from an instance of one world to an instance of the next, moving no other client's context or record and no other suite |
| `Accounts.Audit.AddWorker` | src/core/client.c:140-151 | registering a worker is a client joining the world |
| `Accounts.Audit.SpawnOne` | src/core/runner_coroutine.c:372-378 | a spawned worker has a fresh record with the signal and the exit code given, in the suite given, and so it enters the world |
| `Accounts.Audit.OpenSuite` | src/core/stats.c:171-179 | starting a suite is a suite opening in the world |
| `Accounts.Audit.SkipTest` | src/core/runner_coroutine.c:389-403 | passing over a disabled test is the same in the world |
| `Accounts.Audit.StatisticsAddUp` | src/core/stats.c:146-270 | where the objects are an instance of a conserved world, the counters in the heap add up: the run over all suite objects, the external one included, and each suite's assert totals over its tests' records |
| `Accounts.Audit.Play` | src/core/stats.c:146-270 | any sequence of messages, workers spawned and removed, suites started and tests passed over keeps the objects an instance of a conserved world |
| `Accounts.Audit.HearOne` | src/core/client.c:205-242 | a message is noted under the client it is from and answered once, and everything conserved is conserved |
| `Accounts.Audit.AllAddUp` | src/core/stats.c:146-270 | the sums hold of all suites, and every record has as many failed asserts as its list shows |
| `Accounts.PlayServer` | src/core/stats.c:146-270 | so they do from the start of a server on, after any operations |
| `Conservation.MovesConserve` | src/core/runner_coroutine.c:421-433 | any suites started and tests passed over on the way to the next instance conserve the sums, and add to the run what was passed over |
| `Theories.EveryTupleOnce` | src/core/theories.c:216-306 | each tuple of datapoints is the digits of exactly one round number below the product of the lengths |
| `Theories.TickCounts` | src/core/theories.c:295-304 | one odometer step counts up by one, digit 0 least significant, and only the last round finds every digit at its end |
| `Theories.FirstRunsFastest` | src/core/theories.c:295-304 | the first index runs fastest |
| `Worker.Advance` | src/core/theories.c:295-304 | the index array is stepped as the odometer is, and a next round announced exactly when there is one |
| `Worker.TheoryMain` | src/core/theories.c:212-306 | the loop ends after as many rounds as the product of the lengths, each with the messages of its outcome |
| `Worker.Link.Assert` | include/criterion/internal/assert.h:116-136 | an assert is reported with its outcome if it failed or under full statistics, and counted if it passed |
| `Worker.RoundSays` | src/core/theories.c:222-294 | the messages of a round, by its ending |
| `Worker.RunTestChild` | src/core/test.c:46-126 | the messages of a worker, from birth to end, asserts of the setup and teardown functions included, and the bulk count; of a process that lives to send only so many, the first so many |
| `Worker.RoundReaches` | src/core/theories.c:222-294 | every round, whatever its outcome, is acknowledged throughout and leaves the phases at main |
| `Lives.WorkerAndServerAgree` | src/core/test.c:46-126 | every message of a worker is acknowledged positively, any mix of theory outcomes and asserts in setup and teardown included; the phases end at the end, and the test was announced once |
| `Lives.Live` | src/core/runner_coroutine.c:185-270 | everything the server hears of a worker: its messages up to any point, a skip or a fatal error there, a timeout, and its death |
| `Lives.DeathCallback` | src/core/runner_coroutine.c:241-270 | of the signal, the exit code and the timeout flag of a process the last overrides the others: it is reported as timed out, and then as a normal death with status 0; else a signal is a crash |
| `Lives.WorkerCut` | src/core/test.c:46-126 | where a worker that sent any number of its messages left the test: computed from the number alone, inside setup, teardown and the rounds of theories too |
| `Lives.LifeVerdicts` | src/core/client.c:270-508 | for every such life, exactly when the test gets no, one or two verdicts, and when it is announced: none when the process just ends inside a round, unless by a signal in the round's main; two for a skip or a timeout in teardown; else one |
| `Lives.LifeOrderlyExactly` | src/core/client.c:270-508 | so a life is orderly if and only if it was announced and gets one verdict |
| `Results.RecordTells` | src/core/client.c:580-593 | after any messages, deaths included, the record lists every assert reported, newest first, and the counts of record, suite and run are those of the asserts reported one by one and in bulk |
| `Results.JobRecorded` | src/core/test.c:46-126 | the record of a test that ran to its end, from the asserts of its setup, of its function, round by round, and of its teardown: all that failed; under full statistics all, newest first, and the count of all that passed; else the count of those that passed before teardown |
| `Results.JobJudged` | src/core/test.c:46-126 | and its verdict: counted once, as passed if no assert failed before teardown and neither a signal nor an exit code was declared, else as failed, whatever its process then dies of |
| `Results.LifeJudged` | src/core/runner_coroutine.c:185-270 | the verdict of a process that ends before its test is over, outside theory rounds: skipped exactly if it skips with no failed assert and nothing declared; passed exactly if it ends by itself in main, as declared, with no failed assert; else failed |
| `Results.LogsCounted` | src/core/client.c:595-607 | each warning logged counts as a warning, each error as an error, and no other message as either |
| `Results.CrashWarns` | src/core/client.c:451-484 | but a crash outside main, which is a warning |
| `Coroutine.AllExact` | src/core/runner_coroutine.c:418-456 | the planned instances are exactly the enabled tests with each of their parameters, in order of suite, test and parameter, each once |
| `Coroutine.RestExact` | src/core/runner_coroutine.c:418-456 | the same from any position in the nested loops on |
| `Coroutine.AllSkips` | src/core/runner_coroutine.c:383-403 | the tests passed over are those disabled by themselves or with their suite |
| `Coroutine.RunNext.Init` | src/core/runner_coroutine.c:413-419 | the first call only takes in the set |
| `Coroutine.RunNext.SkipDisabled` | src/core/runner_coroutine.c:389-403 | a disabled test adds one to tests and to skipped, in suite and run, and starts nothing |
| `Coroutine.RunNext.Next` | src/core/runner_coroutine.c:405-462 | each call starts the next planned instance and no other, counting the disabled tests passed over; with none left it returns nothing, then and ever after; the suites started are those with a test set, in order |
| `Pool.StartBalances` | src/core/runner.c:276-282 | a free slot that takes the next instance keeps the books of the pool balanced |
| `Pool.ReplaceBalances` | src/core/runner.c:297-311 | replacing a worker keeps the books balanced, takes one from unstarted instances plus active workers, and leaves slots empty only when nothing is left to start |
| `Pool.EmptyPoolIsDone` | src/core/runner.c:313-314 | no active worker and nothing left means everything was started and reaped |
| `Pool.Progress` | src/core/runner.c:291-318 | unstarted instances plus active workers are what has not been reaped |
| `Pool.Runner.SpawnNextClient` | src/core/runner.c:246-256 | the next instance is registered under a pid no worker has, its client unheard of, with the signal and exit code of the test of that instance, in the record of its suite; or nothing is left to start and to pass over |
| `Pool.Runner.Fill` | src/core/runner.c:275-282 | the pool is filled to its slots or until nothing is left |
| `Pool.Runner.HandleMessage` | src/core/runner.c:291-318 | a message is answered once, and noted under the client it is from; the books move exactly by the replacement of a worker it ends, and otherwise not at all |
| `Pool.Runner.EndsExactly` | src/core/runner.c:297-311 | a message ends a worker exactly when it is its death, or anything but a birth before its birth |
| `Pool.Runner.ValidOutcome` | src/core/runner.c:258-322 | what holds whenever the loop stands still: the workers of the world are, in order, those of the instances started, each with what its test declares and in the record of its suite; if no worker is active, exactly the enabled tests with each of their parameters were started, each once and in order, and each reaped once, and a record started for every suite with a test set; if moreover every client's messages were orderly, the tests counted are these, the disabled tests and the external clients, and the verdicts as many; and the statistics add up |
| `Pool.RunTestsAsync` | src/core/runner.c:258-322 | a whole run on any messages ends with the last worker, the messages, or a message that makes the code read a process that does not exist; then all of the above holds, and the messages it speaks of are those of the inbox, in order, the ones from nobody left out |
| `MockFile.SafeAdds` | src/compat/mockfile.c:54-67 | the saturating additions are plain sums clamped to the file |
| `MockFile.MemFile.Read` | src/compat/mockfile.c:75-91 | a read gives the bytes at the position, as many as there are, and leaves the rest of the buffer alone |
| `MockFile.MemFile.Grow` | src/compat/mockfile.c:112-119 | whenever its arithmetic does not wrap around, the growth loop ends with room for the file, less than half again as much as it needs, and keeps the bytes |
| `MockFile.GrowableUpToAThird` | src/compat/mockfile.c:113-114 | it does not wrap for files up to a third of the address space, and a larger region cannot grow |
| `MockFile.MemFile.Write` | src/compat/mockfile.c:93-123 | a write puts what fits below the bound and nothing else, or fails; a failed growth leaves an invalid file |
| `MockFile.MemFile.Seek` | src/compat/mockfile.c:140-151 | positions as in the abstract file, clamped for relative seeks |
| `MockFile.MemFile.Play` | src/compat/mockfile.c:75-151 | any sequence of reads, writes and seeks of the code is a run of the abstract file with the same answers, so the two next rows hold of the code |
| `MockFile.BoundKept` | src/compat/mockfile.c:75-151 | over any run the size never shrinks and stays within the bound |
| `MockFile.ReadBack` | src/compat/mockfile.c:75-151 | what a write put, a read from its start gives back, after any run whose other writes spare those bytes |
| `MockFile.SeeksExactly` | src/compat/mockfile.c:140-151 | a seek from the start, from the position and from the end leads there, or to the nearer end of the file; seeking back from the end, a read gives the last bytes |
| `MockFile.WritesExactly` | src/compat/mockfile.c:93-123 | a write that fits puts every byte; one that does not stops at the bound |
| `Xxd.Ulog2` | src/string/xxd.c:32-37 | the floor of the base-2 logarithm of every positive 64-bit number, and -1 for 0 |
| `Xxd.AlignsToLines` | src/common.h:34 | rounding up in 64-bit arithmetic gives 16 times the number of lines, for 0 too |
| `Xxd.OffsetWidth` | src/string/xxd.c:51-53 | the one even width that its bounds allow |
| `Xxd.FitsOneWidth` | src/string/xxd.c:51-53 | no other width is within those bounds |
| `Xxd.AddressesLineUpExactly` | src/string/xxd.c:51-56 | the addresses all have the width chosen for the size if and only if start plus the offset of the last line fits it, or the width is 16; addresses that wrap included |
| `Xxd.FromZeroBySize` | src/string/xxd.c:51-56 | from 0 that is so if and only if the last offset, the size less one, has one hexadecimal digit or an even number of them |
| `Xxd.LastAddressSticksOut` | src/string/xxd.c:51-56 | two inputs where it is not: 257 bytes from 0, and 16 bytes from 0x10000 |
| `Xxd.LineBodyLength` | src/string/xxd.c:56-71 | a line is its address and 56 characters, however many bytes it holds |
| `Xxd.AddressLength` | src/string/xxd.c:56 | an address has at most 16 digits, and the width asked for exactly when it fits |
| `Xxd.DumpLength` | src/string/xxd.c:41-47 | the text never exceeds 72 characters a line, and reaches that exactly when all addresses have 16 digits |
| `Xxd.DumpReadsBack` | src/string/xxd.c:55-73 | decoding the hexadecimal columns gives back the bytes, for every start |
| `Xxd.DumpShows` | src/string/xxd.c:51-76 | read off the text, each line gives its address, counted on from the start, its sixteen bytes or what is left, and beside them the printable characters and a dot for any other byte |
| `Xxd.StringXxd` | src/string/xxd.c:39-76 | the loops write that text within the allocation, end it, and it decodes to the input |

## Left out

- Sockets, message encoding, process spawning, sandboxing, foreign calls and the allocator: messages are values, a spawned process is a pid that no live child has, and `malloc` of nodes always succeeds.
- `setjmp`/`longjmp`: the ways a test or theory body can end are the values of a datatype.
- Reports, logging, output formats, translations, option parsing, and the text of error answers. For one such text, when `MAIN` or `TEARDOWN` is refused in the teardown of an open subtest, src/core/client.c:417-419 reads the table at src/core/client.c:56-64 past its end; the refusal itself is modelled.
- The lifetime of names: src/core/client.c:167 keeps the name of an external client where its first message has it, and src/core/runner.c:314 frees that message; names are values here.
- Elapsed times, and the message texts kept with asserts and failures.
- Reference counts of statistics objects: objects stay as long as they are referred to.
- Integer widths of the counters, of `passed_asserts` and of the pid key of the client table: these are unbounded here.
- `Server.ServerCtx.ProcessClientMessage`: leaves out a timeout that an external client sends for its own test before its end, for which the code reads the running time of a process that does not exist.
- `Pool.RunTestsAsync`: ends at such a message; leaves out stopping at the first failure, and waiting for external clients with no worker left.
- `Worker.TheoryMain`: needs at least one datapoint set and no empty one; otherwise the code does not stop, or reads outside the set.
- `Compiler.Compile`: leaves out the texts on which the code is undefined: a lone backslash at the end, and more than 100 fragments at once.
- `Stats.StatPushEvent`: does not model the source locations and texts kept with assert events.
- `MockFile.MemFile.Write`: leaves out writes for which growing the region wraps around; the bytes of a gap left by seeking past the end are arbitrary.
- `MockFile.MemFile.Grow`: leaves out the same growth.
- `Xxd.StringXxd`: leaves out sizes whose allocation would wrap around, and characters that a locale other than C would print.
- Rehashing of the client tables, which moves contexts: the tables are maps here.
- The sorted sets of suites and tests: the enumeration takes them as sequences.
- Printing of trees and patterns, the path helpers, and the variants of the memory file for systems without `fopencookie`.
