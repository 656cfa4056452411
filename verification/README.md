# OS/2 Lab: proofs about the loader, the soft386 kernel and the command processor

The repository runs OS/2 2.x programs on another host: a loader maps LE/LX images and
relocates them, small compilers emit x86 stubs between 16-bit Pascal callers and cdecl host
functions, an emulator vessel (soft386) gives guests threads, semaphores and memory, and a
command processor parses, runs and re-renders command lines. This project models that code
in Dafny and proves what it is for.

Each component has functions that say what an operation computes, classes or methods in the
source's own imperative form that are proved to compute it, and lemmas about those functions,
which are the results.

* **Bridge compiler and EMX dispatcher** (`Words`, `Machine`, `Far16Bridge`, `StubEmitter`,
  `EmxDispatcher`, `EmxEmitter`, `Far16Tables`). A step semantics of the few 80386 instructions
  that the stubs use, over an arbitrary memory. The emitted bytes are decoded and executed;
  compiler correctness is about those executions.
* **Command parser and renderer** (`CmdLexer`, `CmdTree`, `CmdParser`, `CmdGrammar`, `CmdTokens`,
  `CmdPrinted`, `CmdBalance`, `CmdTargets`, `CmdRoundTrip`, `CmdLexState`, `CmdParserState`,
  `CmdRenderer`).
  Lexing and recursive descent as functions of the buffer, then with the pushed-back byte and
  the lookahead token as mutable state; a grammar over the token stream, independent of the
  parser, that the parser decides; rendering into a bounded buffer; the round trip through a
  worker shell.
* **soft386 kernel** (`KernelTypes`, `KernelCalls`, `KernelInvariant`, `KernelSteps`,
  `KernelRuns`, `KernelScheduling`, `KernelHistories`, `KernelMutexOrder`, `KernelMutexRuns`,
  `KernelOwnerDeath`, `KernelWakeups`, `KernelRuntime`). Every kernel call, the scheduler and the
  modal yield as moves of one state machine, an invariant, and theorems over histories of any
  length; `KernelRuntime` is the fixed tables rewritten in place. `GuestArena` is the memory arena
  beside it.
* **Fixups** (`FixupRecords`, `FixupPasses`, `FixupAgreement`, `FixupMeaning`, `FixupLoader`,
  `FixupApplier`). The validating pass and the almost unchecked pass over the same bytes, why
  they agree, and what memory means afterwards.
* **C/386 bridges** (`BridgeRecords`, `BridgePairing`, `BridgeOrder`, `BridgeSites`,
  `BridgeDetector`, `BridgeSample`, `FixupBridged`). The walk that collects far calls, returns and selectors from
  the same fixup records, the structural pairing of them into bridges, and the second pass over
  an image that has them.
* **Module graph** (`ModuleGraph`, `ModuleRefs`, `ModuleConservation`, `ModuleLifecycle`,
  `ModuleHistory`, `ModuleTable`). Guest DLLs loaded with their imports, counted and released
  recursively; `ModuleTable` is the table rewritten in place. A name stands for all spellings
  that compare equal; imports are acyclic, which a rank on the files expresses; each file says
  which of its import modules its fixups refer to, in order.
* **Pages, paths and the fingerprint** (`IteratedPages`; `CmdPaths`, `CmdPathBuffer`; `Sha256`,
  `Fingerprint`). The three decoders of iterated pages, lexical path normalisation in one
  buffer, and SHA-256 block by block against its definition in FIPS 180-4.
* **Environment store** (`EnvBlock`, `EnvStore`, `EnvSession`). The flat byte block as a
  case-insensitive map, SETLOCAL snapshots, and the PATH mirror.

Host calls, the clock and the memory of a guest enter as parameters. Clock readings are any
non-decreasing numbers; a host function returns any result that keeps the cdecl rules; text
copied from guest memory, words read from it and addresses returned by an allocator are
arguments of the calls that read them, and words stored into it are part of their results.
Failures that end the program are values of a result type. Shifts and masks of the source are
written as the arithmetic they are on 32-bit words, except the rotations of SHA-256.

Where the code does not keep a promise, the exact condition is proved instead:

* A rendered command is read back except when a redirection duplicates onto descriptor 0, a
  group's first redirection names its descriptor, a group ends in a SET command, or a target that
  has a blank and quotes of its own has a metacharacter outside its quotes once it is quoted again
  (`CmdRoundTrip.RoundTrip`). The parser accepts `x 0<&1` and `(a)>&2`, and their renderings are
  refused (`DupOntoZeroLost`, `GroupDupLost`); a SET before a closing parenthesis swallows it
  (`SetSwallowsParen`, `CmdBalance.UnclosedFails`). The last case need not be refused:
  `dir > "a & b"` comes back as two commands (`QuotedTargetRuns`).
* What is read back means the same unless a target with a blank is quoted already or begins with
  a blank: `dir > "a b.txt"` comes back as another file (`CmdRoundTrip.QuotedTargetLost`).
* The round robin is fair as long as no modal yield starts or ends (`KernelScheduling.FairRun`).
  At each yield it starts behind the owner again, so a modal loop that yields any number of times
  may run one thread only, beside others that are runnable (`KernelHistories.YieldsStartOver`).
* PATH and OS2PATH diverge exactly when a new value still fits under one name and no longer under
  the other (`EnvSession.SyncedUnlessSplit`); `EnvSession.PathsSplit` is such an environment.
* The text beside the pairing says that the alias selector can be paired without assuming thunk
  ordering, and that holds (`BridgePairing.OnlyPairing`). It does not say so of the stack
  selectors, which are chosen greedily: `BridgeSample.ImageOrderDecides` is an image where the
  order decides. `BridgeOrder.OrderIrrelevant` says for exactly which images it does not, and
  `BridgePairing.BridgesFound` which ones are recognised in the order they have.
* The fingerprint is SHA-256 for every file below 2^32 - 8 bytes; above, positions wrap and the
  last block repeats the start of the file (`Fingerprint.PaddingExact`).

`Options` and `Letters` hold what several components share.

## Model

| member | source | states |
|---|---|---|
| Far16Bridge.ArgCodeRuns | loader/os2host32.c:3883-3899 | The emitted argument loop, run from any packed Pascal frame, pushes every argument zero-extended, last frame word first, and touches no other memory |
| Far16Bridge.HostSeesArguments | loader/os2host32.c:174-191 | After the pushes the stack holds the arguments of the frame in cdecl order, the return address below them |
| Far16Bridge.StubReachesHost | loader/os2host32.c:3879-3902 | Running the whole stub from its entry ends at the host address with the cdecl frame built |
| Far16Bridge.StubReturns | loader/os2host32.c:3902-3912 | From the host's return, the rest of the stub pops exactly what it pushed and exactly the packed frame, and resumes the caller with the host's result register |
| Far16Bridge.BridgeCorrect | loader/os2host32.c:3879-3912 | Compiler correctness: for every descriptor of 2- and 4-byte arguments and every caller frame, the stub calls the host with the frame's arguments, writes nothing outside its own stack window, and returns to the caller with the frame removed |
| Far16Bridge.HelperEntersStub | loader/os2host32.c:3914-3919 | The five patched bytes at the helper entry transfer control to the stub with the machine otherwise unchanged |
| StubEmitter.EncodableIff | loader/os2host32.c:3883-3899 | The 8-bit frame displacements suffice for a descriptor of at most eight arguments exactly when every width is 2 or 4 |
| StubEmitter.ArgCodeSize | loader/os2host32.c:3874-3899 | Four or five bytes of code per argument, so a stub never outgrows its 128-byte buffer |
| StubEmitter.Wr32 | loader/os2host32.c:430-436 | Storing a word in the code buffer changes those four bytes and no others |
| StubEmitter.EmitLoadPush | loader/os2host32.c:3884-3896 | One argument: the exact load and push, or a refusal for any other width |
| StubEmitter.EmitArguments | loader/os2host32.c:3880-3899 | The argument loop emits the code of the whole descriptor, tracks both stack offsets, and refuses exactly the unknown widths |
| StubEmitter.EmitCall | loader/os2host32.c:3901-3902 | The call sequence, byte for byte |
| StubEmitter.EmitCleanup | loader/os2host32.c:3903-3907 | The cdecl clean-up, in its short form when it fits |
| StubEmitter.EmitBridgeStub | loader/os2host32.c:3874-3912 | The buffer holds exactly the code that `BridgeCorrect` is about, in at most 128 bytes |
| StubEmitter.EmitSignalAdapter | loader/os2host32.c:3652-3705 | The adapter for 32-bit slots is the bridge for a descriptor of 4-byte arguments, for the two ordinals it exists for and no other |
| EmxDispatcher.TableRuns | loader/os2host32.c:4026-4042 | The chain of compares and forward jumps falls through to the end or lands on the first entry whose address equals the target |
| EmxDispatcher.CaseAt | loader/os2host32.c:4052-4055 | Where each case lies in the emitted dispatcher |
| EmxDispatcher.CaseReachesHost | loader/os2host32.c:4054-4084 | A case widens its own arguments and reaches its own host address |
| EmxDispatcher.CaseReturns | loader/os2host32.c:4084-4088 | A case returns to the caller with the stack balanced |
| EmxDispatcher.UnknownReachesHandler | loader/os2host32.c:4044-4050 | The fall-through pushes the target and reaches the unknown-target handler |
| EmxDispatcher.DispatchCorrect | loader/os2host32.c:4018-4094 | For every target: control arrives at exactly the case of the first entry with that host address, or at the unknown-target code if there is none |
| EmxDispatcher.KnownTargetCorrect | loader/os2host32.c:4018-4094 | A known target's function receives the widened arguments of its own descriptor and its caller is resumed with a balanced stack |
| EmxDispatcher.UnknownTargetCorrect | loader/os2host32.c:4044-4050 | An unknown target reaches the handler with the target as its argument |
| EmxEmitter.FindImportIndex | loader/os2host32.c:4028-4035 | The first import with this module and ordinal, or none |
| EmxEmitter.EmitTable | loader/os2host32.c:4026-4042 | Emits the compare chain with placeholder displacements |
| EmxEmitter.EmitCases | loader/os2host32.c:4052-4089 | Emits the cases and records where each one starts |
| EmxEmitter.PatchTable | loader/os2host32.c:4091-4094 | Filling in the forward displacements turns the placeholder table into the table of `DispatchCorrect` |
| EmxEmitter.PatchBranches | loader/os2host32.c:4091-4094 | The patch loop fills exactly the displacement fields |
| EmxEmitter.EmitDispatcher | loader/os2host32.c:4018-4094 | The finished buffer is the dispatcher code that the theorems above are about |
| Far16Tables.TablesCompile | loader/os2host32.c:193-262 | Every row of both function tables has a descriptor that its emitter accepts |
| CmdLexState.LexState.GetByte | shell/cmdparse.c:327-338 | Reads the pushed-back byte first; the logical position advances by one unless the input is exhausted |
| CmdLexState.LexState.UnGetByte | shell/cmdparse.c:340-346 | One byte goes back; the end of input never does |
| CmdLexState.LexState.LexText | shell/cmdparse.c:472-507 | The TEXT span ends at the first unquoted metacharacter, newline or end; SET keeps parentheses |
| CmdLexState.LexState.Lex | shell/cmdparse.c:408-508 | One token: the state after it is the lexing function's, pushback included |
| CmdParserState.ParserState.TakeNodeRedirFd | shell/cmdparse.c:653-678 | A descriptor digit directly before the arrow is peeled off the command text |
| CmdParserState.ParserState.SplitPendingRedirFd | shell/cmdparse.c:685-710 | A digit of the next redirection is peeled off the current target |
| CmdParserState.ParserState.ParseRedir | shell/cmdparse.c:712-833 | The redirection loop returns the node with the redirections in order, or the first error at its offset |
| CmdParserState.ParserState.ParseRem | shell/cmdparse.c:849-862 | REM swallows everything up to a closing parenthesis or the end |
| CmdParserState.ParserState.ParseFor | shell/cmdparse.c:907-932 | FOR takes the rest of the line as it stands |
| CmdParserState.ParserState.ParseCmd | shell/cmdparse.c:864-903 | Adjacent text is joined by one blank, within the text limit |
| CmdParserState.ParserState.ParseS5 | shell/cmdparse.c:944-997 | A group or a command, with its leading @ signs |
| CmdParserState.ParserState.ParseS | shell/cmdparse.c:616-634 | Each level of the precedence ladder |
| CmdParserState.ParserState.BinaryOperator | shell/cmdparse.c:580-613 | The operator loop builds the left-associative tree of its level, or reports the first error |
| CmdParserState.ParserState.Parser | shell/cmdparse.c:1004-1019 | The whole line: empty, one tree, or the first error and its offset, as the parsing function says |
| CmdParser.SkipRem | shell/cmdparse.c:856-861 | The skip ends on a closing parenthesis or the end and never gives input back |
| CmdParser.ParseLevel | shell/cmdparse.c:580-634 | A parse at any level never gives back input, which is why the recursive descent terminates |
| CmdPrinted.RedirsRead | shell/cmdparse.c:712-833 | A printed redirection list is read back as that list, with every digit attributed to the arrow it belongs to |
| CmdGrammar.LevelExact | shell/cmdparse.c:580-634 | At every level and from every token: the parser returns a tree and a place exactly if the tokens up to there are a phrase of that level, spelled by that tree, and no operator of that level or tighter goes on |
| CmdGrammar.PhraseUnique | shell/cmdparse.c:580-634 | The grammar is unambiguous: from one place there is one maximal phrase and one tree of it, operators associating to the left |
| CmdGrammar.ParseExact | shell/cmdparse.c:1004-1019 | For every line: the parser returns the tree of the sentence, there is at most one, and it fails exactly on lines that are neither empty nor a sentence of the grammar |
| CmdGrammar.DerivedLadder | shell/cmdparse.c:580-634 | Every tree of a sentence obeys the precedence of &, ||, && and | |
| CmdPrinted.ClosedReads | shell/cmdparse.c:944-1019 | A well-formed tree whose groups are closed is parsed back from its printed text exactly, or rejected if it has an unreadable descriptor |
| CmdBalance.PhraseEven | shell/cmdparse.c:944-972 | Whatever the parser accepts without REM or FOR has as many opening as closing parentheses |
| CmdBalance.UnclosedFails | shell/cmdparse.c:372-384 | A tree in which some group, at any depth, ends in a SET command prints as a line that is rejected |
| CmdRoundTrip.ParsePrinted | shell/cmdparse.c:944-1019 | Every well-formed derivation tree that fits the buffer is parsed back from its printed text exactly if its descriptors are readable and no group ends in a SET; otherwise the text is rejected |
| CmdRoundTrip.PrintUnambiguous | shell/cmdparse.c:580-634 | Two readable trees with the same printed text are equal |
| CmdRoundTrip.RenderIsPrint | shell/cmd32os2.c:453-498 | Rendering is printing of the tree in which every binary node is wrapped in a plain group |
| CmdRoundTrip.CanonMeans | shell/cmd32os2.c:404-498 | The wrapping and quoting that rendering adds leave what the tree asks for exactly if no target with a blank was quoted already or begins with a blank |
| CmdRoundTrip.QuotedName | shell/cmd32os2.c:144-163 | A target quoted for its blanks names, after unquoting, the text that was quoted |
| CmdRoundTrip.RoundTrip | shell/cmd32os2.c:404-498 | A worker parses a rendered command into the tree that rendering denotes exactly if nothing duplicates onto descriptor 0, no group starts with an explicit descriptor and none ends in a SET, and every target with a blank still closes its quotes and has no metacharacter outside them with another pair of quotes around it; where only the first three fail it refuses the text; the meaning is kept exactly if no target with a blank is quoted already or begins with a blank |
| CmdTargets.ParsedKempt | shell/cmdparse.c:472-507 | No line is parsed into a tree with a target that opens with a quote and has a metacharacter outside its quotes |
| CmdTargets.CanonQuoted | shell/cmd32os2.c:429-434 | The tree that rendering denotes is well formed if every target stands another pair of quotes, and the tree of no line if one does not |
| CmdRoundTrip.DupOntoZeroLost | shell/cmd32os2.c:410-415 | x 0<&1 is accepted, and its rendering is refused |
| CmdRoundTrip.GroupDupLost | shell/cmd32os2.c:410-415 | (a)>&2 is accepted, and its rendering is refused |
| CmdRoundTrip.QuotedTargetLost | shell/cmd32os2.c:429-434 | dir > "a b.txt" is rendered to a command that opens another file |
| CmdRoundTrip.QuotedTargetRuns | shell/cmd32os2.c:429-434 | dir > "a & b" is rendered to a line that a worker accepts as two commands |
| CmdRoundTrip.SetSwallowsParen | shell/cmdparse.c:355-384 | A SET command directly before a closing parenthesis swallows it, for every SET text: the group is rejected |
| CmdRenderer.TextBuffer.TextAppend | shell/cmd32os2.c:340-350 | Appends in full when text and terminator fit, otherwise changes nothing |
| CmdRenderer.TextBuffer.TextAppendChar | shell/cmd32os2.c:352-361 | The same for one character |
| CmdRenderer.TextBuffer.RenderRedirs | shell/cmd32os2.c:404-450 | The list of redirections, or a beginning of it when there is no room |
| CmdRenderer.TextBuffer.RenderNodeCommand | shell/cmd32os2.c:453-498 | Appends exactly the rendering of the tree, and fails exactly when it does not fit |
| KernelTypes.ResolveEventIff | soft386/soft386_os2.c:1881-1893 | An event slot's handle is the only 32-bit word that resolves to it |
| KernelTypes.ResolveMutexIff | soft386/soft386_os2.c:1895-1908 | A mutex slot's handle is the only 32-bit word that resolves to it |
| KernelCalls.FirstWaiter | soft386/soft386_os2.c:1910-1921 | The waiter with the least blocking order, or none |
| KernelInvariant.CreateKeeps | soft386/soft386_os2.c:2039-2048 | Creating a mutex keeps the kernel invariant |
| KernelInvariant.OpenKeeps | soft386/soft386_os2.c:2039-2045 | So does opening one, by name or by handle |
| KernelInvariant.CloseKeeps | soft386/soft386_os2.c:2051-2051 | Closing keeps it: a mutex with an owner or a waiter is never destroyed |
| KernelInvariant.RequestKeeps | soft386/soft386_os2.c:2052-2055 | Requesting keeps it, whether it nests, acquires, fails or blocks |
| KernelInvariant.HandoffKeeps | soft386/soft386_os2.c:1958-1965 | When an owner gives a mutex up, the first waiter owns it at once or it becomes free, and the invariant holds |
| KernelInvariant.ReleaseKeeps | soft386/soft386_os2.c:2056-2056 | Releasing keeps the invariant |
| KernelInvariant.EventPostKeeps | soft386/soft386_os2.c:2017-2019 | Posting keeps it: nobody is left waiting for a posted event |
| KernelInvariant.EventWaitKeeps | soft386/soft386_os2.c:2020-2023 | Waiting keeps it |
| KernelInvariant.EventCloseKeeps | soft386/soft386_os2.c:2008-2012 | Closing an event keeps it |
| KernelInvariant.OwnerExitKeeps | soft386/soft386_os2.c:1967-1976 | The sweep over the mutexes of an exiting thread leaves it owning none of the slots swept |
| KernelInvariant.ExitKeeps | soft386/soft386_os2.c:2075-2087 | A thread exit keeps the invariant: no dead thread owns a mutex or is joined |
| KernelInvariant.ThreadCreateKeeps | soft386/soft386_os2.c:2089-2118 | Creating a thread keeps it: only a free or dead slot is overwritten |
| KernelInvariant.ThreadWaitKeeps | soft386/soft386_os2.c:2120-2138 | Joining keeps it |
| KernelSteps.PerformKeeps | soft386/soft386_os2.c:1978-2145 | Every kernel call keeps the whole invariant |
| KernelSteps.PerformFrame | soft386/soft386_os2.c:1978-2145 | A call leaves every other thread alone, wakes it, creates it in a dead slot or reaps it; the caller lives on unless it exits |
| KernelRuns.BootRuns | soft386/soft386_os2.c:3867-3868 | The state in which the first thread starts satisfies the invariant |
| KernelRuns.StepKeeps | soft386/soft386_os2.c:2493-2588 | One guest step (call, then scheduler) keeps the invariant, and if the guest goes on exactly one thread runs |
| KernelHistories.NextKeeps | soft386/soft386_os2.c:2223-2251 | Every move, a guest step or the start or the end of a modal yield, keeps the kernel sound: one thread runs, and the owner of a modal yield is set aside as it was |
| KernelHistories.SafeRun | soft386/soft386_os2.c:2161-2251 | Over any history from boot, modal yields included, exactly one thread is running, it is the current one, every invariant holds, and inside a modal yield the owner can be resumed at any time exactly as it was |
| KernelHistories.YieldsStartOver | soft386/soft386_os2.c:2227-2251 | At each yield the round robin starts behind the owner again: a modal loop that yields any number of times runs the same thread, if that asks for no switch, and no other |
| KernelScheduling.DecisionCloser | soft386/soft386_os2.c:2161-2166 | Every decision picks a given runnable thread or comes strictly closer to it around the table |
| KernelScheduling.FairRun | soft386/soft386_os2.c:2161-2203 | Between the ends of modal yields, a thread that stays runnable is passed over by fewer than its distance, so at most 31, decisions |
| KernelScheduling.RunLeavesAside | soft386/soft386_os2.c:2227-2251 | Nothing that runs during a modal yield changes the record of the thread that yielded |
| KernelScheduling.ModalYield | soft386/soft386_os2.c:2227-2251 | However long others run, the owner of a modal loop comes back with its record, processor state and pending flags exactly as they were, and alone runs |
| KernelMutexOrder.HeirMeans | soft386/soft386_os2.c:1910-1921 | The first in line for a mutex waits for it and blocked before every other waiter |
| KernelMutexOrder.SweepMeans | soft386/soft386_os2.c:1967-1976 | The exit sweep, slot by slot: each mutex of the exiting thread goes to its first waiter, who is told of the death, or is abandoned |
| KernelMutexOrder.CallOwners | soft386/soft386_os2.c:2031-2060 | An owned mutex stays with its owner or goes from the caller to the first in line; a free one can only go to the caller |
| KernelMutexOrder.CallWaiter | soft386/soft386_os2.c:1958-1976 | A call changes a mutex waiter only by making it the owner |
| KernelMutexRuns.WaitEnds | soft386/soft386_os2.c:2147-2159 | In any move a mutex wait goes on, ends with the mutex for the first in line, or ends by timeout with the timeout code |
| KernelMutexRuns.StepOrder | soft386/soft386_os2.c:1958-1976 | While a wait goes on nobody joins those ahead of it, and an owner that gives the mutex up leaves them |
| KernelMutexRuns.MoveOrder | soft386/soft386_os2.c:1958-1976 | The same for every move, starts and ends of modal yields included |
| KernelMutexRuns.NoOvertaking | soft386/soft386_os2.c:2052-2056 | Over any history, as long as a thread waits, through modal yields and all, every owner was ahead of it from the start and owns the mutex at most once |
| KernelMutexRuns.FirstComeFirstServed | soft386/soft386_os2.c:2052-2056 | Over any history, of two waiters the later one never owns the mutex while the earlier one still waits |
| KernelOwnerDeath.CallBalance | soft386/soft386_os2.c:1967-1976 | One call: deaths of owners, deaths told, deaths closed away and the abandoned flag balance |
| KernelOwnerDeath.ToldMeans | soft386/soft386_os2.c:1958-1965 | Being told means owning the mutex and finding the owner-died code in the result |
| KernelOwnerDeath.OnlyTold | soft386/soft386_os2.c:2054-2054 | A request returns that code only for a free, abandoned mutex |
| KernelOwnerDeath.DeathsAccounted | soft386/soft386_os2.c:1958-1976 | Over any history, modal yields included, each death of an owner is told to exactly one acquirer, was closed away, or is still pending as the abandoned flag |
| KernelWakeups.NoLostWakeups | soft386/soft386_os2.c:1946-1956 | In every reachable state, inside a modal yield or not, an event waiter's event is in use and unposted, a mutex waiter's mutex has another live owner, a joined thread is alive, and a join on any thread coexists with no dead one |
| KernelWakeups.PostReachesAll | soft386/soft386_os2.c:1946-1956 | A post makes every waiter of the event runnable with a success code |
| KernelWakeups.ExitReachesJoiners | soft386/soft386_os2.c:2062-2073 | An exit makes every joiner runnable and stores the thread's identity where it asked |
| KernelRuntime.Runtime.MutexFromHandle | soft386/soft386_os2.c:1900-1908 | Decodes a handle in place |
| KernelRuntime.Runtime.EventFromHandle | soft386/soft386_os2.c:1886-1893 | Decodes a handle in place |
| KernelRuntime.Runtime.SyncFirstWaiter | soft386/soft386_os2.c:1910-1921 | The scan finds the first waiter |
| KernelRuntime.Runtime.SyncReady | soft386/soft386_os2.c:1924-1931 | A woken thread is runnable with its result set and its wait cleared |
| KernelRuntime.Runtime.SyncBlock | soft386/soft386_os2.c:1933-1944 | The caller waits behind everybody else |
| KernelRuntime.Runtime.WakeEventWaiters | soft386/soft386_os2.c:1946-1956 | Every waiter of the event wakes, nobody else changes |
| KernelRuntime.Runtime.HandOff | soft386/soft386_os2.c:1958-1965 | Direct hand-off to the first waiter |
| KernelRuntime.Runtime.MutexOwnerExit | soft386/soft386_os2.c:1967-1976 | The sweep over all mutexes |
| KernelRuntime.Runtime.CreateMutexSem | soft386/soft386_os2.c:2038-2048 | The whole new state, result and stored handle |
| KernelRuntime.Runtime.OpenMutexSem | soft386/soft386_os2.c:2038-2045 | The whole new state and result |
| KernelRuntime.Runtime.CloseMutexSem | soft386/soft386_os2.c:2051-2051 | The whole new state and result |
| KernelRuntime.Runtime.RequestMutexSem | soft386/soft386_os2.c:2052-2055 | The whole new state and result |
| KernelRuntime.Runtime.ReleaseMutexSem | soft386/soft386_os2.c:2056-2056 | The whole new state and result |
| KernelRuntime.Runtime.QueryMutexSem | soft386/soft386_os2.c:2057-2057 | The three stored words |
| KernelRuntime.Runtime.CreateEventSem | soft386/soft386_os2.c:1986-1999 | The whole new state, result and stored handle |
| KernelRuntime.Runtime.OpenEventSem | soft386/soft386_os2.c:2000-2007 | The whole new state and result |
| KernelRuntime.Runtime.CloseEventSem | soft386/soft386_os2.c:2008-2012 | The whole new state and result |
| KernelRuntime.Runtime.ResetEventSem | soft386/soft386_os2.c:2013-2016 | The whole new state, result and stored count |
| KernelRuntime.Runtime.PostEventSem | soft386/soft386_os2.c:2017-2019 | The whole new state and result |
| KernelRuntime.Runtime.WaitEventSem | soft386/soft386_os2.c:2020-2023 | The whole new state and result |
| KernelRuntime.Runtime.QueryEventSem | soft386/soft386_os2.c:2024-2026 | The stored count |
| KernelRuntime.Runtime.CreateGuestThread | soft386/soft386_os2.c:2089-2118 | The whole new state, with the new thread's start image and stack words |
| KernelRuntime.Runtime.WakeThreadWaiters | soft386/soft386_os2.c:2062-2073 | Every joiner wakes; the stores in slot order |
| KernelRuntime.Runtime.FinishGuestThread | soft386/soft386_os2.c:2075-2087 | The whole new state and the joiners' stores |
| KernelRuntime.Runtime.GuestWaitThread | soft386/soft386_os2.c:2120-2138 | The whole new state, result and store |
| KernelRuntime.Runtime.GuestSleep | soft386/soft386_os2.c:2140-2145 | The whole new state |
| KernelRuntime.Runtime.ExitGuestProcess | soft386/soft386_os2.c:2319-2322 | The process has exited, and nothing else has changed |
| KernelRuntime.Runtime.WakeExpiredWaiters | soft386/soft386_os2.c:2147-2159 | Exactly the waits whose deadline has passed end |
| KernelRuntime.Runtime.NextRunnableThread | soft386/soft386_os2.c:2161-2166 | The next runnable slot around the table |
| KernelRuntime.Runtime.ScheduleNextThread | soft386/soft386_os2.c:2168-2189 | Terminates; dispatches the next runnable thread, or reports that none can ever run, or that none can run inside a modal pump |
| KernelRuntime.Runtime.SwitchAfterHypercall | soft386/soft386_os2.c:2191-2203 | Saves the caller, then schedules |
| KernelRuntime.Runtime.EnterModal | soft386/soft386_os2.c:2227-2243 | Sets the owner aside and starts another thread, if there is one |
| KernelRuntime.Runtime.LeaveModal | soft386/soft386_os2.c:2214-2251 | Gives the owner everything back |
| KernelRuntime.Runtime.Serve | soft386/soft386_os2.c:2313-2361 | Dispatch by ordinal: the state and result are the call's |
| KernelRuntime.Runtime.HostCallStep | soft386/soft386_os2.c:2516-2577 | One host call of the run loop is one step of the runs above |
| FixupRecords.DecodersAgree | loader/os2host32.c:4834-4893 | A record the scanner accepts as flat is decoded identically by the second pass, without a read outside the record range |
| FixupAgreement.TwoPasses | loader/os2host32.c:4819-5016 | For every image the scan accepts for direct use, the second pass never fails, finds every import, and patches exactly the scanned sites in the same order |
| FixupAgreement.PagesAgree | loader/os2host32.c:989-1184 | The same, page by page, from any point of the scan |
| FixupMeaning.WriteByte | loader/os2host32.c:4908-4988 | After the second pass every byte of every object is its old value or comes from the last site over it |
| FixupMeaning.WriteFrame | loader/os2host32.c:4908-4988 | A byte that no site lies over keeps its value, whatever the sites |
| FixupMeaning.RelocationMeaning | loader/os2host32.c:4908-4988 | With disjoint sites: an OFF32 site holds its target's base plus offset modulo 2^32, biased constants included; a REL32 site plus its own end is its import's address, or the adapter's behind a CALL of a bridged image; all other bytes are unchanged |
| FixupMeaning.ApplyTwice | loader/os2host32.c:4908-4988 | Applying the fixups again changes nothing, even where sites overlap, unless a bridged image has a site over the byte that tells a CALL |
| FixupMeaning.ImageRelocated | loader/os2host32.c:4819-5016 | Both passes together: every accepted image ends up relocated, and stays so |
| FixupLoader.Scanner.FindOrAdd | loader/os2host32.c:834-850 | The import table gains the entry unless it has it, within its limit |
| FixupLoader.Scanner.SourceObjectOffset | loader/os2host32.c:955-966 | Object and offset of a source, inside the object |
| FixupLoader.Scanner.DecodeRecord | loader/os2host32.c:1024-1139 | Field by field with every bound checked first, the record of the decoding function or a refusal |
| FixupLoader.Scanner.VisitSources | loader/os2host32.c:1137-1158 | All sites of a source list, in order, or a refusal |
| FixupLoader.Scanner.ScanAll | loader/os2host32.c:989-1184 | The import tables, the direct-use flag and the sites are the scanning function's, for every image |
| FixupApplier.Applier.DirectImportTarget | loader/os2host32.c:3708-3728 | The import, or its adapter for the operand of a CALL in 32-bit code |
| FixupApplier.Applier.Wr32 | loader/os2host32.c:430-436 | Four bytes of one object change, nothing else |
| FixupApplier.Applier.ReadRecord | loader/os2host32.c:4834-4893 | Decoding without looking where the record ends, where that is safe |
| FixupApplier.Applier.PatchSources | loader/os2host32.c:4895-4988 | The patch loop of one record |
| FixupApplier.Applier.ApplyAll | loader/os2host32.c:4819-5016 | The memory after all pages is the applying function's |
| EnvBlock.FlatUnique | shell/cmdos2_env.c:74-90 | A terminated block holds one list of entries and no other |
| EnvBlock.GetAfterSet | shell/cmdos2_env.c:171-250 | The block is a case-insensitive map: a set gives its name the value, or none if it is empty, and every other name keeps what it had |
| EnvStore.Copy | shell/cmdos2_env.c:28-36 | A byte copy |
| EnvStore.Store.NameEq | shell/cmdos2_env.c:45-58 | An entry defines a name when it starts with it, in any case, and goes on with = |
| EnvStore.Store.BlockSize | shell/cmdos2_env.c:74-90 | The measured size of a terminated block, or 0 when it is too large |
| EnvStore.Store.EnvGet | shell/cmdos2_env.c:171-200 | The value of the first definition, or the exact error, in the caller's buffer |
| EnvStore.Store.EnvSet | shell/cmdos2_env.c:202-250 | The new block is the old one without the name and with the definition at its end; it fails exactly for lack of room and then changes nothing |
| EnvStore.Store.EnvExport | shell/cmdos2_env.c:252-262 | The whole block, byte for byte, when it fits |
| EnvStore.Store.EnvImport | shell/cmdos2_env.c:264-277 | The entries of the imported block, unless it is too large |
| EnvSession.SetKeepsSynced | shell/cmd32os2.c:1312-1328 | PATH equals OS2PATH after every successful set of any variable |
| EnvSession.SyncedUnlessSplit | shell/cmd32os2.c:1312-1328 | After any set, successful or not, PATH equals OS2PATH unless the definition of one fits the block, that of the other does not fit any more, and the value is new |
| EnvSession.PathsSplit | shell/cmd32os2.c:1312-1328 | An environment in which setting PATH to C sets it and leaves OS2PATH undefined |
| EnvSession.EndLocalRestores | shell/cmd32os2.c:1229-1256 | ENDLOCAL restores the environment of its SETLOCAL, whatever ran between, and the outer snapshots are untouched |
| EnvSession.BatchDepth | shell/cmd32os2.c:1275-1285 | A batch never leaves the snapshot stack deeper, and goes back to the environment of the outermost snapshot it left open |
| EnvSession.RunSynced | shell/cmd32os2.c:1312-1328 | In any run in which every set succeeds PATH equals OS2PATH at its end and in every open snapshot |
| EnvSession.RunFits | shell/cmdos2_env.c:202-277 | No run makes the environment or a snapshot larger than a block |
| EnvSession.ShellEnv.Push | shell/cmd32os2.c:1229-1243 | SETLOCAL |
| EnvSession.ShellEnv.Pop | shell/cmd32os2.c:1245-1256 | ENDLOCAL |
| EnvSession.ShellEnv.UnwindTo | shell/cmd32os2.c:1258-1262 | Drops snapshots down to a depth |
| EnvSession.ShellEnv.SetGuestEnvironment | shell/cmd32os2.c:1312-1328 | The mirrored set |
| EnvSession.ShellEnv.RunBatch | shell/cmd32os2.c:1275-1285 | A batch file around its commands |
| EnvSession.SeededMeans | shell/cmdos2_env.c:132-150 | Seeding gives PATH and OS2PATH one value, that of OS2PATH or a dot, and changes no other name; before PATH is set only a missing OS2PATH has been defined |
| EnvSession.ShellEnv.ApplyOs2Path | shell/cmdos2_env.c:132-150 | It fails exactly if the definition of OS2PATH or that of PATH does not fit; the block is then as it was, or has OS2PATH only |
| GuestArena.AllocTiles | soft386/soft386_os2.c:1290-1317 | Allocation keeps the tiling; the block returned was free or untouched, is page-aligned and large enough, and is in use afterwards |
| GuestArena.FreeTiles | soft386/soft386_os2.c:1430-1437 | Freeing keeps the tiling |
| GuestArena.BlocksDisjoint | soft386/soft386_os2.c:1290-1317 | Blocks never overlap and never leave the arena |
| GuestArena.AllocIff | soft386/soft386_os2.c:1533-1560 | An allocation succeeds exactly when its size is positive and its page-rounded size is at most the reported largest block |
| GuestArena.BytesConserved | soft386/soft386_os2.c:1533-1560 | Used bytes, reported free bytes and a tail without a table entry add up to the arena |
| GuestArena.HistoryFromEmpty | soft386/soft386_os2.c:1290-1317 | After any history of allocations and frees the table tiles the arena |
| GuestArena.Table.AllocGuest | soft386/soft386_os2.c:1290-1317 | First fit, then growth: the whole new table and the address |
| GuestArena.Table.FreeGuest | soft386/soft386_os2.c:1430-1437 | The whole new table and whether the address was a block in use |
| GuestArena.Table.QueryStatus | soft386/soft386_os2.c:1533-1560 | The reported totals |
| ModuleConservation.ReleaseCounts | loader/os2host32.c:3248-3286 | Releasing a module gives back exactly one reference; whatever dies gives up its own, recursively, and every remaining count equals outstanding loads plus import slots that hold the module |
| ModuleConservation.LoadCounts | loader/os2host32.c:3076-3174 | Loading takes exactly one reference when it succeeds and none when initialisation fails, imports included |
| ModuleConservation.CountsConserved | loader/os2host32.c:3076-3286 | Over any sequence of loads, failed initialisations and matched frees, each count equals outstanding loads plus import edges, no module is left half dead, and the modules loaded are exactly those with some |
| ModuleConservation.AllReclaimed | loader/os2host32.c:3248-3286 | When every load has been freed, nothing is loaded |
| ModuleConservation.CountsFromEmpty | loader/os2host32.c:3076-3286 | From the empty table: a module is loaded exactly as long as a load or another module needs it, and once all loads are freed the table is empty |
| ModuleHistory.ReleaseHist | loader/os2host32.c:3248-3286 | Recursive release keeps the lifecycle law: a module ends before the modules it imports, and once |
| ModuleHistory.LoadHist | loader/os2host32.c:3076-3174 | Loading keeps the lifecycle law, failed initialisations included |
| ModuleHistory.ExitOrdered | loader/os2host32.c:3437-3465 | Process exit ends every initialised module and keeps the lifecycle law |
| ModuleHistory.LifecycleOrder | loader/os2host32.c:3024-3465 | After any loads and matched frees, and through process exit after them: no module ends twice, every module that was ever initialised has ended, and a module ends only after every initialised module that imported it |
| ModuleTable.Loader.FindGuestModule | loader/os2host32.c:2860-2868 | The first module of that name |
| ModuleTable.Loader.UnregisterGuestModule | loader/os2host32.c:3062-3074 | The module leaves the table, the order of the others stays |
| ModuleTable.Loader.TerminateGuestModule | loader/os2host32.c:3039-3060 | A module ends at most once, and only if it was initialised |
| ModuleTable.Loader.DropImport | loader/os2host32.c:3266-3274 | One slot is cleared before its module is released |
| ModuleTable.Loader.ReleaseImports | loader/os2host32.c:3266-3274 | All slots of a dying module |
| ModuleTable.Loader.ReleaseGuestModule | loader/os2host32.c:3248-3286 | The whole table and history after a release are the releasing function's, recursion included |
| ModuleTable.Loader.LoadGuestModule | loader/os2host32.c:3076-3174 | The whole table and history after a load, a refusal, or the end of the process |
| ModuleTable.Loader.ResolveImports | loader/os2host32.c:3730-3770 | Every import loads its module at its first use |
| ModuleTable.Loader.HoldImport | loader/os2host32.c:3467-3496 | The slot takes over the reference of the load |
| ModuleTable.Loader.InitializeGuestModule | loader/os2host32.c:3024-3037 | INIT, and the withdrawal of a module whose routine fails |
| ModuleTable.Loader.PickLast | loader/os2host32.c:3449-3459 | The module initialised last among those that have not ended |
| ModuleTable.Loader.TerminateAllModules | loader/os2host32.c:3437-3465 | Process exit, module by module |
| BridgeRecords.DetectorAgrees | loader/os2host32.c:1269-1326 | A record the scanner accepted is seen as the same record by the bridge detector, which gives up exactly on additive records, imports by name and entry references |
| BridgeRecords.PagesSeen | loader/os2host32.c:1259-1437 | The detector's walk collects exactly the sites that the scan recorded, in order, and never ends the process |
| BridgePairing.BridgesAreBijection | loader/os2host32.c:1452-1535 | When pairing completes, every return, alias and stack selector is used by exactly one bridge, every bridge is structurally one thunk with its helper, and no other return or alias in the image would have fitted it |
| BridgePairing.OnlyPairing | loader/os2host32.c:1451-1494 | Returns and aliases can be paired in one way only, whatever the order of the thunk records |
| BridgePairing.LastCheckRedundant | loader/os2host32.c:1527-1530 | The last check never refuses: as many distinct records were taken as there are |
| BridgePairing.BridgesFound | loader/os2host32.c:1452-1535 | Exactly what is recognised: detection returns a pairing if and only if it uses every record, nothing else in the image fits its returns and aliases, and each stack selector is the nearest one that earlier thunks have left |
| BridgeOrder.OrderIrrelevant | loader/os2host32.c:1452-1535 | All orders of the far calls give the same bridges if and only if every far call has exactly one return and one alias that fit it and a stack selector that fits the alias, and no two far calls have the same return, alias or nearest stack selector |
| BridgeOrder.ChoicesFound | loader/os2host32.c:1452-1535 | Then every order gives the bridges that each far call would choose by itself |
| BridgePairing.StackChoiceDependsOnOrder | loader/os2host32.c:1495-1509 | Stack selectors are chosen greedily: two helpers that share their comparisons are recognised in one order of their thunks and refused in the other |
| BridgeSample.ImageOrderDecides | loader/os2host32.c:1495-1509 | Two images, byte by byte, that the scan accepts and that differ in the order of two far calls only: one is recognised, the other given up |
| BridgeSites.BridgesOwnSites | loader/os2host32.c:1220-1536 | In an image the scan accepted, completed detection means that every fixup site that is not flat belongs to exactly one bridge in exactly one role, and every bridge has one site of each role |
| BridgeSites.SkippedAreBridged | loader/os2host32.c:4998-5005 | In an image whose detection completed, the sites that no patching branch applies to are exactly the sites of bridges |
| FixupBridged.BridgedPasses | loader/os2host32.c:4819-5014 | When detection completed, the second pass never fails, reads nothing outside the record range, patches exactly the flat sites in the order of the scan, each of which holds what its record asks for, adapters behind CALLs included, unless flat sites lie over each other or over the byte that tells a CALL; every other byte is as it was |
| FixupBridged.FlatHasNoBridges | loader/os2host32.c:1247-1256 | Detection never completes on an image that the scan accepts for direct use |
| BridgeDetector.Detector.ReadRecord | loader/os2host32.c:1266-1326 | Field by field, the record the walk sees, or giving up |
| BridgeDetector.Detector.EnterSources | loader/os2host32.c:1328-1384 | Each site of a record goes to the list of its kind, which never outgrows its array |
| BridgeDetector.Detector.Collect | loader/os2host32.c:1259-1437 | The inventory of all pages |
| BridgeDetector.Detector.FindReturn | loader/os2host32.c:1470-1481 | The only free return that fits, none, or too many |
| BridgeDetector.Detector.FindAlias | loader/os2host32.c:1483-1494 | The only free alias that fits, none, or too many |
| BridgeDetector.Detector.FindStack | loader/os2host32.c:1497-1509 | The nearest free stack selector that fits, the earliest of equals |
| BridgeDetector.Detector.Next | loader/os2host32.c:1457-1513 | The records of one bridge, or a refusal |
| BridgeDetector.Detector.PairAll | loader/os2host32.c:1452-1530 | With arrays of marks: the bridges of the pairing function, or a refusal |
| BridgeDetector.Detector.UsedUp | loader/os2host32.c:1527-1530 | Whether every record of every kind is marked |
| BridgeDetector.Detector.Count | loader/os2host32.c:1247-1253 | The number of 16-bit objects |
| BridgeDetector.Detector.Detect | loader/os2host32.c:1220-1536 | The bridges and the flag left in the image are what detection computes |
| IteratedPages.DecodeExact | loader/os2host32.c:1851-1892 | A stream is accepted exactly if it is a list of positive runs that fill the room with nothing trailing; there is only one such list, and the result is its expansion |
| IteratedPages.CopyRuns | loader/os2host32.c:1880-1884 | The pattern, copied as often as the run says, and no other byte |
| IteratedPages.ExpandLxIteratedPage | loader/os2host32.c:1851-1892 | The native decoder: expansion or the first fault, nothing written outside the room |
| IteratedPages.IntakeExpand | loader/mixed_intake.h:53-75 | The mixed loader's decoder computes the same; it does not tell three of the faults apart |
| IteratedPages.ExpandIteratedPage | soft386/soft386_os2.c:537-551 | The emulator's decoder computes the same, range check included |
| CmdPaths.NormalIsNormal | shell/cmdfile.c:281-385 | The result is an upper-case drive, the root and names: no dots, no empty names, nothing above the root, and it fits the buffer |
| CmdPaths.NormalFixed | shell/cmdfile.c:281-385 | The fixed points of normalisation are exactly the normal forms that fit |
| CmdPaths.NormalIdempotent | shell/cmdfile.c:281-385 | Normalising twice is normalising once, whatever the current directory has become |
| CmdPaths.NormalTotal | shell/cmdfile.c:292-338 | With an absolute current directory it fails only where the unresolved path may not fit or names another drive's current directory |
| CmdPaths.NormalSame | shell/cmdfile.c:254-267 | Paths equal but for case have normal forms equal but for case |
| CmdPaths.SameExact | shell/cmdfile.c:387-400 | On paths that resolve, naming the same file is having the same normal form but for case; the early answer for equal spellings never matters |
| CmdPathBuffer.GoUp | shell/cmdfile.c:360-367 | Going up removes exactly the last name and its separator, and stops at the root |
| CmdPathBuffer.GoDown | shell/cmdfile.c:368-379 | A name is appended behind a separator, or refused exactly when it does not fit |
| CmdPathBuffer.NormalizePath | shell/cmdfile.c:281-385 | The buffer ends up holding the normal form, ended by NUL, or the path is refused |
| CmdPathBuffer.CiEqual | shell/cmdfile.c:254-267 | Equality of two C strings but for case |
| CmdPathBuffer.PathsSame | shell/cmdfile.c:387-400 | Whether two spellings name one file |
| Fingerprint.PaddingExact | loader/telnetpm_bridge.h:52-65 | The blocks hashed are those of the padded text of section 5.1.1 of FIPS 180-4 exactly when the padded length fits 32-bit positions or the file starts with 59 zero bytes |
| Fingerprint.FingerprintIsSha256 | loader/telnetpm_bridge.h:35-81 | For every such file the fingerprint is the SHA-256 of sections 5 and 6.2.2 of FIPS 180-4 |
| Fingerprint.PadInjective | loader/telnetpm_bridge.h:52-65 | Different files are padded to different texts |
| Fingerprint.Shuffled | loader/telnetpm_bridge.h:69-71 | The schedule's four terms may be added in the order of the code |
| Fingerprint.FillBuffer | loader/telnetpm_bridge.h:53-65 | The buffer of one block: file bytes, the 0x80 byte, zeros, the length |
| Fingerprint.StoreLength | loader/telnetpm_bridge.h:61-65 | The length in bits, largest byte first, from 32-bit words |
| Fingerprint.Schedule | loader/telnetpm_bridge.h:66-71 | All 64 words of the message schedule |
| Fingerprint.RunRounds | loader/telnetpm_bridge.h:72-77 | Sixty-four rounds over eight rotating variables |
| Fingerprint.Mix | loader/telnetpm_bridge.h:72-78 | One block folded into the hash |
| Fingerprint.TpSha256 | loader/telnetpm_bridge.h:35-81 | Block by block over three small arrays, the digest of the whole file |

## Left out

- Win32, POSIX and CRT calls, DLL loading, memory mapping, process spawning, tracing and printing.
- The Tiny386 processor, the PM, queue and network bridges, callbacks into guest code, the exit list and forced process termination. A modal yield may end after any number of steps, where the source counts 4096. A saved processor image is a value with a result register; a bridge that waits is a call that parks its caller.
- The 16-bit NE vessel, EMX relocation inference, a.out sidecars and C/386 switch-table repair. `FixupApplier.Applier.ApplyAll` therefore patches no switch table after an OFF32 site, and EMX images have no branch of their own. The addresses of imports and of the signal adapters of a bridged image are arguments; which imports have an adapter is one of them.
- The fixup scanner's counters and tracing. When one record has two faults, the text of the refusal may name the other one.
- The bitmap of record statistics and the named-import name lookup that only print.
- Environment expansion (`%NAME%`) before parsing: the parser model starts from the expanded buffer. Out-of-memory branches of the parser: node allocation does not fail.
- Parser nodes are values that the parse methods pass on and rebuild; the source rewrites the text of a node it exclusively owns, and no other reference to it exists meanwhile.
- CmdRoundTrip.RoundTrip: stated for command texts and targets that are trimmed, close their quotes and have no metacharacter outside them (parentheses after SET excepted), and for commands that are not FOR or REM. A worker expands `%NAME%` before it parses; where a rendering holds percent signs, the theorem is about the line after that expansion.
- EmxDispatcher.DispatchCorrect: the handler of an unknown target ends the process; what it prints is not modelled.
- Thread identities, the wait serial and mutex nesting by forged counts across wraparound: identities and serials are unbounded numbers here, while post counts, reference counts and mutex counts wrap at 32 bits as in the source.
- Rejection of stale semaphore handles: closing a semaphore zeroes its generation, so the same handle value can name a later semaphore.
- Guest memory behind the arena: clearing of allocated pages, page flags, and the release of an exiting thread's stack block.
- Line editor, history, sessions, file copying, builtins other than SET, SETLOCAL and ENDLOCAL, `tools/*.py`.
- EnvSession.RunSynced: speaks about the environment between commands; batch control flow (GOTO, CALL, IF) is replaced by an arbitrary nesting of commands.
- Modules that import each other in a cycle (the original never reclaims them), host and personality DLLs, guest INIT and TERM routines that load or free modules themselves, and a free that matches no load. Each load of a history has its own outcome of every INIT routine; the files of a `ModuleTable.Loader` carry the outcomes of the loads it makes. The handles, reference counts and initialisation order of modules are unbounded numbers.
- A missing file, a full table or an import whose initialisation fails ends the process: one outcome `Fatal`, after which nothing is claimed. `Ended` marks the end of a module's life whether or not its LE flags name a TERM routine.
- EMX bridge detection and the descriptor lookup of the C/386 detector, which is a map from imports to descriptors here.
- Merging a path with the current directory is string concatenation on values (`CmdPaths.Merge`); letters are the ASCII ones of the C locale. Asking the host for the current directory is left out.
- The page map around the iterated-page decoders, and comparing the fingerprint with its expected value.
