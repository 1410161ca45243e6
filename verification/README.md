# Scanners, a pipe driver and kernel calls: models and proofs

A Dafny 4.11 project about the parts of this repository that carry real invariants.
`dafny verify dfyconfig.toml` checks all of it.

**Scanners.** The two shells lex their lines with generated, table-driven scanners. `Munching`
says what longest-match lexing by an automaton is; `FlexTables` what packed tables stand for;
`FlexScanner` is the code around them as a class over its buffer: the match loop, backing up,
the end-of-buffer case with its two NUL sentinels, moving the partial token, growing, reading and
replaying; `FlexPass` says what one pass over a text and its sentinels decides about the whole
input. `LexRules` says what a rule file means, without any automaton. `MshTables` and
`ParselineTables` hold the two sets of arrays (as functions, each proved equal to the printed
array) and prove that they mean their rule files; `MshQuotes` spells out what a quoted text comes to. `MshSession` and `ParselineSession` put all of it
together, one for each shell, line by line (`LineByLine`).

**The scull pipe.** `PipeRing` is the circular buffer as a value, `ScullPipe` the driver's calls on
it as a class, `PipeProtocol` the sleeping and waking of any number of readers and writers as a
transition system in which every access to shared state is a step, the unlocked second checks
included; `PipeRuns` has what holds in all its runs. `PipeDevice` proves that the driver's calls make these steps,
`PipeCalls` and `PipeReturns` how whole calls end, `PipeProgress` that under a fair scheduler sleepers with something to do return, and `PipeWitnesses`
builds the runs that show where the promises end.

**Kernel calls.** `ProcessGroups` (setpgid and setsid among forks and exits), `Credentials` (the eight
calls on user and group ids), `Priority` (setpriority and getpriority). The background of the
first two is POSIX.1-2008, System Interfaces, setpgid(), setsid() and setreuid().

**The shell's executor.** `ShellSyntax` and `ShellRuns` say what a line comes to as a value,
`ShellExec` is the code: a token array cut in place into pipelines and commands, pipes, forks,
redirections, built-in commands and descriptors, for lists and pipelines of any length (sections
2.7, 2.9.2 and 2.9.3 of the Shell and Utilities volume of POSIX.1-2008). `ShellPipes` proves who holds
which pipe end and what becomes of the shell, `ShellLines` what separators and names do word by word;
`ShellWitnesses` has the lines that go wrong.

**Page faults and page flags.** `PageTables` (lazy copies of kernel entries, over all runs from boot),
`FaultPath` (which way out a fault takes, and the lock), `Prefetch` (the instruction decoder, 32-bit),
`BitFields` and `PageFlags` (packing zone, node and section into one word, on bits).

**Stores and events.** `ScullPosition`, `ScullStore` and `ScullDevice` (the sparse store, with memory
explicit: reading or freeing a block that is not live fails a precondition), `EventModel` and
`EventList` (the event semaphores as a list of events and as linked nodes).

Each class is the source's imperative code, proved against functions on values; the lemmas are about
those functions and about whole runs. Inputs the source takes from elsewhere are parameters: how
much each read returns, whether a copy, an allocation or the opening of a file succeeds, capabilities,
the security module.

Where the code does not keep what it seems to promise, the exact condition is proved:

- an open empties the pipe without waking writers: it keeps the promise if and only if it strands
  nobody, and whenever it does strand somebody a wake-up can be lost (`PipeProtocol.OpenKeepsIff`,
  `PipeWitnesses.StrandedRun`);
- a pipe of one byte lets a reader and a writer sleep against each other
  (`PipeWitnesses.OneByteBufferDeadlocks`);
- a task's failure equal to -ESRCH is forgotten when another task follows
  (`Priority.FoldMeans`, `Priority.ForgottenFailure`);
- exchanging two ids twice restores them unless one is the number -1 (`Credentials.SwapTwice`);
- built-in commands run in the shell, redirections included, and an empty command makes it compare a
  null name: a line leaves the shell running if and only if no command is empty, an exit, or built-in
  with a file that cannot be opened (`ShellPipes.LineSurvivesIff`), and then leaves its descriptors
  alone if and only if no built-in command is next to a pipe or redirected
  (`ShellPipes.LineKeepsFdsIff`);
- the sparse store computes places with 32-bit arithmetic, right if and only if the position is below
  2^31, for item sizes that do not overflow (`ScullPosition.RightIff`, `ScullPosition.SizesRightIff`), and
  sizes an item's array in 32 bits, right if and only if it has fewer than 2^30 pointers
  (`ScullPosition.ArraysFitIff`);
- its writes are cut to the 16 bytes of an older device: a write moves what the quantum lets it if and
  only if it ends within them (`ScullPosition.AmountIff`, `ScullPosition.NothingPastTheOldEnd`);
- closing the newest event frees a node that is still linked (`EventList.Registry.Close`).

## Model

| member | source | states |
|---|---|---|
| `MshSession.RunLines` | 2/xyshell-read-only/study/msh/msh.c:105-113 | A whole session: whatever the buffer size and however the input function cuts a line up, the actions run over all lines are exactly those the lexical rules prescribe for the joined text, and the token texts put together are that text |
| `FlexScanner.Scanner.Yylex` | 2/xyshell-read-only/study/msh/lex.yy.c:710-997 | Chunk independence: with the buffer filled by reads of any sizes, the actions run are the longest-match lexing of the whole pending input, and the start condition left behind is that lexing's |
| `FlexScanner.Scanner.TakeToken` | 2/xyshell-read-only/study/msh/lex.yy.c:789-863 | One action: the first token of the pending input and nothing else is consumed, and the start condition becomes the one the action begins |
| `FlexScanner.Scanner.NextToken` | 2/xyshell-read-only/study/msh/lex.yy.c:740-791 | A token is found whatever the number of refills in its middle; the end is reported exactly when no input is pending |
| `FlexScanner.Scanner.EndOfBuffer` | 2/xyshell-read-only/study/msh/lex.yy.c:870-990 | The end-of-buffer case: refill and go on, or decide on the text in hand, or report the end; going round again always uses up unread input |
| `FlexScanner.Scanner.ReadPast` | 2/xyshell-read-only/study/msh/lex.yy.c:872-938 | The byte overwritten to end the text is put back, and reading behind the partial token keeps text plus unread input the same |
| `FlexScanner.Scanner.GetNextBuffer` | 2/xyshell-read-only/study/msh/lex.yy.c:1006-1134 | Moving the partial token to the front, growing the buffer and reading lose and duplicate nothing; both sentinels stand behind the text again |
| `FlexScanner.Scanner.MyYyinput` | 2/xyshell-read-only/study/msh/lex.yy.c:2245-2255 | The input function hands over the smaller of what is left of the line and what was asked for, and keeps the rest |
| `FlexScanner.Scanner.ReadInput` | 2/xyshell-read-only/study/msh/lex.yy.c:1094-1097 | Any input function: some first part of what is left, at most what was asked for, and nothing only at the end |
| `FlexScanner.Scanner.GetPreviousState` | 2/xyshell-read-only/study/msh/lex.yy.c:1140-1165 | Replaying the partial token recovers the state and the last-accepting registers as if the match had never stopped |
| `FlexScanner.Scanner.Match` | 2/xyshell-read-only/study/msh/lex.yy.c:760-778 | The match loop ends at the first state that stops, with the registers at the last accepting point before it |
| `FlexScanner.Scanner.FindAction` | 2/xyshell-read-only/study/msh/lex.yy.c:780-787 | Backing up, if needed, lands on the longest accepted prefix and its rule |
| `FlexScanner.Scanner.LastAction` | 2/xyshell-read-only/study/msh/lex.yy.c:979-987 | With nothing left to read the longest match of the text in hand is taken, without another end-of-buffer action |
| `FlexScanner.Scanner.PutBack` | 2/xyshell-read-only/study/msh/lex.yy.c:740-757 | Restoring the held byte gives back the pending input, both sentinels in place |
| `FlexPass.StoppedInside` | 2/xyshell-read-only/study/msh/lex.yy.c:760-787 | A match that stops inside the buffered text is the longest match of the whole input, read or not |
| `FlexPass.ActionFound` | 2/xyshell-read-only/study/msh/lex.yy.c:760-787 | A pass over text and two sentinels finds either the first token of the input or the end of the buffer in a state that can go on |
| `FlexPass.PassOver` | 2/xyshell-read-only/study/msh/lex.yy.c:760-787 | The same when the pass starts in the middle of a token |
| `FlexTables.NextState` | 2/xyshell-read-only/study/msh/lex.yy.c:769-775 | The lookup loop over chk, def and meta ends, and computes the packed transition |
| `FlexTables.AutomatonImplemented` | 2/xyshell-read-only/study/msh/lex.yy.c:380-450 | The arrays, with the default chains followed, behave as one automaton in every state and start condition |
| `Munching.MunchIsLongest` | 2/xyshell-read-only/study/msh/lex.yy.c:760-787 | The length found is accepted, and no longer prefix is |
| `Munching.Sentinels` | 2/xyshell-read-only/study/msh/lex.yy.c:1130-1131 | The first NUL leads to the end-of-buffer state, which does not stop; the second is what makes it jam, so the run past the text always stops and backs up to it |
| `Munching.MunchStops` | 2/xyshell-read-only/study/msh/lex.yy.c:778-787 | Once a state has stopped, looking further finds no longer match |
| `Munching.FirstTokenExists` | 2/xyshell-read-only/study/msh/lex.yy.c:845-863 | On input without NUL every start condition has a first token, and it is not empty |
| `Munching.LexLosesNothing` | 2/xyshell-read-only/study/msh/lex.yy.c:789-863 | The texts of the tokens, joined, are the input |
| `LexRules.LexByRules` | 2/xyshell-read-only/study/msh/parsecmd.l:65-79 | If every first token is the best match, then the lexing is the only token sequence in which each token is the longest match, earliest rule first (both directions) |
| `LexRules.BestIsUnique` | 2/xyshell-read-only/study/msh/parsecmd.l:65-79 | Longest match and earliest rule determine length and rule |
| `LexRules.BestByPrefixes` | 2/xyshell-read-only/study/msh/parsecmd.l:65-79 | The best match is found by looking at the rules that match each prefix |
| `LexRules.WordToken` | 2/xyshell-read-only/study/msh/parsecmd.l:75 | The automaton takes a maximal run of word bytes as one token, whatever follows |
| `MshTables.TablesAsPrinted` | 2/xyshell-read-only/study/msh/lex.yy.c:380-450 | All seven arrays the proofs run on are the printed ones, entry by entry |
| `MshTables.WalkTerminates` | 2/xyshell-read-only/study/msh/lex.yy.c:769-775 | From every state and class the walk stays inside the arrays and its default chain ends |
| `MshTables.TransIsPlain` | 2/xyshell-read-only/study/msh/lex.yy.c:424-450 | Unpacked, the arrays make the transitions of a plain automaton |
| `MshTables.TablesSound` | 2/xyshell-read-only/study/msh/lex.yy.c:380-450 | NUL and only NUL leads to the end-of-buffer state, states that stop have nowhere to go, and start states accept after one byte |
| `MshTables.TablesMeanRules` | 2/xyshell-read-only/study/msh/parsecmd.l:65-79 | In all three start conditions and for every input the tables choose the longest match and the earliest rule of the rule file, and every action begins the condition the rule says |
| `MshTables.LexMeansRules` | 2/xyshell-read-only/study/msh/parsecmd.l:65-79 | A token sequence is lexed by the tables exactly if the rules allow it |
| `MshTables.TokenStaysInLine` | 2/xyshell-read-only/study/msh/parsecmd.l:68-77 | A newline ends a token, quoted or not: what follows the line has no influence on its tokens |
| `MshTables.LinesApart` | 2/xyshell-read-only/study/msh/parsecmd.l:68-77 | The shell's automaton lexes a line by itself whatever follows it, and every line leaves it in the initial condition, unclosed quotes included |
| `MshQuotes.QuotedLine` | 2/xyshell-read-only/study/msh/parsecmd.l:67-70 | Between two quotes any text without quote and newline, spaces and operators included, is one token of the quoted-text rule; the three other tokens of the line are the two quotes and the newline |
| `MshQuotes.UnclosedLine` | 2/xyshell-read-only/study/msh/parsecmd.l:67-70 | A quote left open ends at the newline, by the rule that also runs the line |
| `ParselineTables.TablesAsPrinted` | 2/parseline.c:384-451 | All seven arrays are the printed ones, entry by entry |
| `ParselineTables.WalkTerminates` | 2/parseline.c:762-780 | The walk ends from every state and class |
| `ParselineTables.TransIsPlain` | 2/parseline.c:427-451 | Unpacked, the arrays make the transitions of a plain automaton |
| `ParselineTables.TablesSound` | 2/parseline.c:384-451 | What the buffer logic needs holds of these tables too |
| `ParselineTables.TablesMeanRules` | 2/parseline.l:69-80 | For every input the tables choose the longest match and the earliest rule of the rule file |
| `ParselineTables.LexMeansRules` | 2/parseline.l:69-80 | A token sequence is lexed by the tables exactly if the rules allow it |
| `ParselineSession.RunLines` | 2/mysh.c:41-84 | The other shell's session, on lines that fit the scanner's request: for any buffer size, and whether a line is read whole, as the source does, or in pieces, the actions run over all lines are exactly those the lexical rules prescribe for the joined text, and no read comes back empty, though yylex is left at every newline |
| `ParselineSession.Yylex` | 2/parseline.c:692-850 | One call runs the actions of exactly one line and leaves nothing to read |
| `ParselineSession.NewlineStops` | 2/parseline.c:759-782 | At a line's newline the match loop has stopped, so the scanner does not ask for more before it returns |
| `PipeRing.SpaceConserved` | 7/pipe/scull_pipe.c:166-171 | Bytes held plus free space is always the buffer size less one, and equal positions mean empty |
| `PipeRing.ReadTakesPrefix` | 7/pipe/scull_pipe.c:123-133 | A read returns the oldest bytes and leaves the rest, in order, also when it wraps |
| `PipeRing.WriteAppends` | 7/pipe/scull_pipe.c:188-200 | A write appends what it accepts, at least a byte if there is room, and never makes wp catch rp, even at the wrap to the buffer start |
| `PipeRing.TwoReadsEmpty` | 7/pipe/scull_pipe.c:123-133 | Two reads empty the pipe wherever its contents lie |
| `PipeRing.ReadsAllItCan` | 7/pipe/scull_pipe.c:123-127 | A read stops short of its count only at the end of the contents or of the buffer |
| `PipeRing.WritesAllItCan` | 7/pipe/scull_pipe.c:188-193 | A write takes all its data, or the whole free stretch in front of it |
| `ScullPipe.Device.Read` | 7/pipe/scull_pipe.c:103-140 | One pass through a read: nothing, or the oldest bytes, which join those delivered so far; what was accepted stays what was delivered plus what the pipe holds |
| `ScullPipe.Device.Write` | 7/pipe/scull_pipe.c:173-211 | One pass through a write: the accepted bytes join those accepted so far; a failed copy changes nothing that can be read |
| `ScullPipe.Device.Open` | 7/pipe/scull_pipe.c:46-75 | Every open starts a new epoch with an empty pipe, and the counts of readers and writers follow the mode |
| `ScullPipe.Device.Release` | 7/pipe/scull_pipe.c:79-96 | The last user gives the buffer back |
| `ScullPipe.Device.Poll` | 7/pipe/scull_pipe.c:213-232 | Readable exactly if there is a byte, writable exactly if there is room |
| `ScullPipe.ScribbleUnseen` | 7/pipe/scull_pipe.c:196-200 | Bytes written into the free part of the buffer by a copy that failed are never part of the contents |
| `PipeProtocol.StepKept` | 7/pipe/scull_pipe.c:103-211 | Every step of every process, in any interleaving, except an open that strands a writer (OpenKeepsIff says which do), keeps the invariant: one holder of the semaphore, accepted bytes are delivered bytes plus contents, and a queued process that will sleep either has nothing to do or is owed a wake-up or has seen it |
| `PipeRuns.RunSafe` | 7/pipe/scull_pipe.c:111-204 | No lost wake-up: in every state of every run whose opens strand no writer, a reader asleep with data, or a writer asleep with room, is owed a wake-up by some process; and the bytes delivered are a prefix of those accepted |
| `PipeRuns.NeverDeadlocked` | 7/pipe/scull_pipe.c:111-204 | With two bytes or more, a reader and a writer are never asleep together with nobody left to wake one |
| `PipeReturns.NonblockNeverWaits` | 7/pipe/scull_pipe.c:111-121 | In every run, a process in a call begun with O_NONBLOCK is in no queue and does not sleep as long as the call lasts |
| `PipeReturns.ReadEnds` | 7/pipe/scull_pipe.c:103-140 | In every run, a read that returns was interrupted, took bytes (at least one if one was asked for), failed to copy, or, with O_NONBLOCK and only then, found the pipe empty |
| `PipeReturns.WriteEnds` | 7/pipe/scull_pipe.c:144-211 | The same for a write and a full pipe |
| `PipeWitnesses.OneByteBufferDeadlocks` | 7/pipe/scull_pipe.c:166-171 | With a buffer of one byte they can be: a run that leads there |
| `PipeWitnesses.OpenLosesWakeup` | 7/pipe/scull_pipe.c:65 | A run in which an open empties the pipe under a sleeping writer, and nobody owes it a wake-up |
| `PipeProgress.SleepersReturn` | 7/pipe/scull_pipe.c:111-204 | Under any weakly fair scheduler, in every endless run whose opens strand no writer, a reader asleep over data, or a writer asleep over free space, is woken and returns from its sleep |
| `PipeProgress.SleepsForeverIdle` | 7/pipe/scull_pipe.c:111-204 | So a reader that sleeps for ever has an empty pipe all the time, and a writer a full one |
| `PipeDevice.ReadIsStep` | 7/pipe/scull_pipe.c:103-140 | The device's read in the semaphore makes exactly the step the protocol allows: that step, and no other but for whether the copy fails |
| `PipeDevice.WriteIsStep` | 7/pipe/scull_pipe.c:173-211 | So does its write, what a failed copy leaves in free space aside |
| `PipeDevice.OpenIsStep` | 7/pipe/scull_pipe.c:46-75 | So does its open, once the buffer exists |
| `PipeProtocol.OpenKeepsIff` | 7/pipe/scull_pipe.c:46-75 | An open keeps the invariant if and only if a reader already owes the writers a wake-up, or the buffer has one byte, or no queued writer is asleep or holds an old position that will make it sleep |
| `PipeWitnesses.StrandedRun` | 7/pipe/scull_pipe.c:46-75 | And whenever it does not, the open can be followed to a state in which a writer sleeps beside free space and nobody will wake it: for every state of every safe run |
| `ProcessGroups.ProcessTable.Setpgid` | 5/kernel/sys.c:921-990 | The call with all its errors in the source's order: a result and a table, the table unchanged on every failure |
| `ProcessGroups.ProcessTable.Setsid` | 5/kernel/sys.c:1057-1086 | The call with its failure: result and table |
| `ProcessGroups.RunKeeps` | 5/kernel/sys.c:921-1086 | Over every run of setpgid, setsid, fork, thread creation, exec, re-parenting and exit from boot: members of a group share a session, leaders keep pid, group and session equal, and a process whose number names a group or session belongs to it |
| `ProcessGroups.SetpgidAnswers` | 5/kernel/sys.c:921-990 | Success, and each of the four errors, if and only if its condition on table and arguments holds |
| `ProcessGroups.SetpgidMoves` | 5/kernel/sys.c:921-990 | Success puts that one process into that group and changes nothing else; failure changes nothing |
| `ProcessGroups.OnlyFreshChildrenMove` | 5/kernel/sys.c:944-956 | Over every run from boot: whoever has its group changed by another process is that process's child, in its session, leads no session, and has not exec'd since it came into being |
| `ProcessGroups.SetpgidKeeps` | 5/kernel/sys.c:921-990 | One setpgid keeps that invariant |
| `ProcessGroups.SetsidAlone` | 5/kernel/sys.c:1057-1086 | A successful setsid makes a session and a group with exactly one member and disturbs nobody |
| `ProcessGroups.SetsidFailsIff` | 5/kernel/sys.c:1064-1072 | In every reachable table setsid fails exactly when the caller's number names a group |
| `ProcessGroups.LeadersStay` | 5/kernel/sys.c:944-951 | A session leader keeps its group and session, both its own number, through every run in which it is not released |
| `ProcessGroups.SessionsAreSticky` | 5/kernel/sys.c:953-975 | A process joins only groups of its own session; only setsid takes it to another |
| `Credentials.Task.Setreuid` | 5/kernel/sys.c:594-642 | Success and each error if and only if its condition holds; every field after success, argument by argument; nothing changed on failure |
| `Credentials.Task.Setuid` | 5/kernel/sys.c:655-689 | The same for setuid |
| `Credentials.Task.Setresuid` | 5/kernel/sys.c:696-744 | The same for setresuid |
| `Credentials.Task.Setfsuid` | 5/kernel/sys.c:819-847 | The same for setfsuid, which answers the old id in any case and commits only when the security module answers 0 |
| `Credentials.Task.Setregid` | 5/kernel/sys.c:484-524 | The same for setregid |
| `Credentials.Task.Setgid` | 5/kernel/sys.c:531-555 | The same for setgid |
| `Credentials.Task.Setresgid` | 5/kernel/sys.c:761-798 | The same for setresgid |
| `Credentials.Task.Setfsgid` | 5/kernel/sys.c:852-879 | The same for setfsgid |
| `Credentials.Closed` | 5/kernel/sys.c:484-879 | Over every run of calls without the capability, real, effective and saved id never gain a value and the file-system id stays among them or unchanged |
| `Credentials.DropIsIrrevocable` | 5/kernel/sys.c:594-744 | After a privileged setuid(u), or setreuid(u,u) or setresuid(u,u,u) with u not -1, every later unprivileged run leaves all four ids at u |
| `Credentials.DropsAllIff` | 5/kernel/sys.c:594-744 | For the two calls that take -1 as leave-alone that side condition is the exact one |
| `Credentials.SwapTwice` | 5/kernel/sys.c:604-632 | Exchanging real and effective id passes the checks unprivileged, and done twice restores both, exactly unless one of them is the number -1 |
| `Credentials.SetReForgetsSaved` | 5/kernel/sys.c:626-629 | After an unprivileged setreuid that names both ids, no later unprivileged run leaves them |
| `Credentials.TakeAndGiveBack` | 5/kernel/sys.c:696-744 | Unprivileged, setresuid takes any of the three ids as the effective one and leaves the other two, and a second call always brings the saved one back |
| `Priority.Tasks.Setpriority` | 5/kernel/sys.c:149-208 | The loops over one process, a group or a user: each selected task's nice value is the clamped one unless it was refused, and the result is the fold of the outcomes |
| `Priority.Tasks.Getpriority` | 5/kernel/sys.c:216-276 | The largest 20 minus nice among the selected tasks, or -ESRCH exactly if there is none |
| `Priority.FoldMeans` | 5/kernel/sys.c:123-147 | The fold returns -ESRCH for no task, 0 for all well, else the last failure, except that a failure equal to -ESRCH is forgotten if another task follows |
| `Priority.FoldTells` | 5/kernel/sys.c:123-147 | As long as no task's own failure is -ESRCH: -ESRCH if and only if nobody matched, 0 if and only if somebody did and all succeeded |
| `Priority.ForgottenFailure` | 5/kernel/sys.c:139-146 | Two outcomes, the first a failure, for which the result is 0 |
| `Priority.SetThenGet` | 5/kernel/sys.c:149-276 | After setpriority returned 0, getpriority on the same selection returns 20 minus the clamped value |
| `Priority.RefusedIff` | 5/kernel/sys.c:123-147 | A task is refused with -EPERM if and only if it is not the caller's and the capability is missing, with -EACCES if and only if it would be raised against its limits, unless the security module answers so itself |
| `Priority.SelectedIff` | 5/kernel/sys.c:168-206 | Which tasks a process, group or user number selects, 0 standing for the caller's own |
| `ShellExec.Shell.DoListCmd` | 2/parseline.c:1905-1940 | On the array being cut in place: exactly the non-empty segments between ; & and newline run, in order, each with its background flag, until one ends the shell; what is started, the shell's own descriptors and its fate are those of the line as a value |
| `ShellExec.Shell.DoPipeCmd` | 2/parseline.c:1949-1986 | For any number of commands: what each is started with, and that the shell is left without any descriptor of a pipe beyond those a built-in command made its own; nothing outside the pipeline's words is touched |
| `ShellExec.Shell.DoSimpleCmd` | 2/parseline.c:2066-2156 | External: the child gets the read end before it as input and the write end after it as output, then its redirections are made. Built-in: all that happens to the shell itself, and a file that cannot be opened ends it. No words: the shell dies. A shell that goes on holds the read end of the new pipe besides |
| `ShellExec.Shell.ScanRedirect` | 2/parseline.c:1996-2047 | The loop over a command's words, closing and opening descriptors, comes to the arguments and descriptors of the command as a value, or to no command at all if a file cannot be opened or has no name |
| `ShellPipes.RedirectMeans` | 2/parseline.c:1996-2047 | A command gets to run if and only if each of its redirections has a file that can be opened; its arguments are the other words; input and output, each on its own, are the file of the last redirection of their kind, or as they were; a word behind a redirection is a name, even if it is < or > |
| `ShellPipes.LinePipesOwned` | 2/parseline.c:1905-2156 | Over a whole line in which no built-in command uses a pipe: of every pipe at most one process holds the write end and at most one the read end; behind a writer comes the reader and before a reader the writer, each unless it could not start or is redirected to a file |
| `ShellPipes.LineEnds` | 2/parseline.c:1905-2156 | A process of such a line gets ready if and only if its files can be opened, and then holds exactly the pipe ends due to its place and not replaced by a file |
| `ShellPipes.LineSurvivesIff` | 2/parseline.c:1996-2090 | A line leaves the shell running if and only if no command of any of its pipelines is empty, an exit, or built-in with a redirection that cannot be opened |
| `ShellPipes.LineKeepsFdsIff` | 2/parseline.c:1996-2090 | A line the shell survives leaves its input as it was if and only if no built-in command has a pipe before it or an input redirection, and its output likewise; no other descriptor is ever affected, and what is new is never older than the line |
| `ShellWitnesses.EmptyCommandCrashes` | 2/parseline.c:2066-2074 | A line of one bar makes the shell compare a missing name |
| `ShellWitnesses.ExitEnds` | 2/parseline.c:2074-2090 | A line that begins with the pipeline exit starts nothing else |
| `ShellWitnesses.EchoKeepsPipe` | 2/parseline.c:2074-2090 | After `echo / cat` with a bar between them the shell itself, and cat, write to the pipe that cat reads |
| `ShellWitnesses.EchoKeepsFile` | 2/parseline.c:2022-2032 | After `echo > f` the shell's own output goes to f |
| `ShellWitnesses.EchoEndsShell` | 2/parseline.c:2026-2030 | If f cannot be opened, `echo > f` ends the shell |
| `ShellWitnesses.NobodyReads` | 2/parseline.c:2011-2018 | In `ls / wc < f` with a bar between them nobody reads the pipe that ls writes to |
| `ShellSyntax.SegmentsRejoin` | 2/parseline.c:1905-1931 | The segments of a terminated line, pasted together, are the line |
| `ShellSyntax.SegmentsClean` | 2/parseline.c:1915-1929 | Every segment ends in a terminator and has none inside |
| `ShellSyntax.CommandsRejoin` | 2/parseline.c:1957-1982 | The commands of a pipeline, pasted together with bars, are the pipeline, and none holds a bar |
| `ShellLines.Background` | 2/parseline.c:1911-1931 | An & runs the pipeline before it in the background and the one behind it in the foreground |
| `ShellLines.Sequential` | 2/parseline.c:1911-1931 | A ; runs both in the foreground |
| `ShellLines.TwoLines` | 2/parseline.c:1911-1931 | So does a newline |
| `ShellLines.Unterminated` | 2/parseline.c:1905-1931 | Words that nothing ends are not run |
| `ShellLines.BackgroundStages` | 2/parseline.c:1911-1986 | Two simple commands with an & between them start as two processes without pipes, the first in the background |
| `ShellLines.BarStages` | 2/parseline.c:1957-1982 | A bar puts a pipe behind the command before it and before the one behind it, and nowhere else |
| `ShellLines.ExternalForked` | 2/parseline.c:2092-2140 | A command whose name is none of the four built-in ones is forked with all its words |
| `ShellLines.BuiltinInside` | 2/parseline.c:2071-2090 | exit, cd, echo and export run in the shell, and only exit ends it |
| `PageTables.Mm.SyncOne` | 5/kernel/fault.c:180-214 | A missing entry becomes a copy of the reference, one that is there already equals it, and nothing else changes |
| `PageTables.Mm.SyncRound` | 5/kernel/fault.c:231-236 | The early break is sound: either every table is synchronised at this address or none has anything to copy |
| `PageTables.Mm.SyncAll` | 5/kernel/fault.c:216-237 | One step of the model: afterwards every table agrees with the reference over the whole range, is unchanged outside it, and the loop ends under 32-bit wrap-around |
| `PageTables.Mm.Fault` | 5/kernel/fault.c:244-271 | One step of the model: a kernel fault copies the one entry it needs and nothing else; it fails exactly outside the range or where the reference, or its last level, has nothing |
| `PageTables.RunAgrees` | 5/kernel/fault.c:180-271 | In every state reached from boot by any run of syncs, faults, new reference entries and new processes, every entry of every table is absent or equal to the reference, so the BUG_ON never fires |
| `PageTables.StepKeepsEntry` | 5/kernel/fault.c:180-271 | No step takes away or changes an entry a process already has |
| `PageTables.SyncedAgrees` | 5/kernel/fault.c:216-237 | A sync leaves every table equal to the reference over the whole range |
| `PageTables.SyncedEntry` | 5/kernel/fault.c:216-237 | Entry by entry: a sync copies what the reference has, upper levels included, from the block of the first vmalloc address up to the last that begins below the top, and nothing else |
| `PageTables.SyncedAddress` | 5/kernel/fault.c:216-237 | After it every table has the reference's entry for every address from the first of vmalloc up to the top |
| `PageTables.FaultEntry` | 5/kernel/fault.c:244-271 | Entry by entry: a fault copies the one its address falls on, in the one table, if the address is in the vmalloc area and the reference has it |
| `PageTables.Mm.constructor` | 5/kernel/fault.c:180-271 | At boot, with no tables, the invariant holds |
| `PageTables.RangeEnds` | 5/kernel/fault.c:223-225 | The loop's test stops it at the end of the range and not before |
| `FaultPath.DoPageFault` | 5/kernel/fault.c:958-1153 | On every path the lock on the memory map is released as often as it is taken, once exactly when the address space is looked up; and the exact conditions under which the fault is served, a segment violation or a bus error is sent, the memory killer is called, or the process is killed for a corrupt table |
| `FaultPath.UserSpaceFault` | 5/kernel/fault.c:1093-1153 | Entered with the lock held, every way out has released it once; a user fault is a segment violation exactly if the region does not allow it and it is no prefetch |
| `FaultPath.MmFaultError` | 5/kernel/fault.c:830-848 | Every error of the fault handler finds an exit that releases the lock; the BUG() is not reached |
| `FaultPath.ErrorBits` | 5/kernel/mm.h:718-727 | An error code is out-of-memory or one of the two bus errors; there is no third kind |
| `FaultPath.AllowedIff` | 5/kernel/fault.c:925-943 | By the region's bits and the stack's cushion: exactly when an access is allowed; a write needs a writable region, anything else a page not present and some permission |
| `FaultPath.LooksUpIff` | 5/kernel/fault.c:999-1085 | Exactly when the address space is looked up |
| `FaultPath.KernelOopsIff` | 5/kernel/fault.c:999-1085 | Exactly when a kernel access is left to its exception table |
| `Prefetch.IsPrefetch` | 5/kernel/fault.c:128-159 | 1 exactly if the fault is no instruction fetch, the address is allowed, and the code is a run of legal prefixes and then 0F, all within 15 bytes, followed by 0D or 18, possibly the sixteenth byte; the loop ends |
| `Prefetch.CheckPrefetchOpcode` | 5/kernel/fault.c:81-125 | Scanning goes on exactly after the prefix bytes |
| `Prefetch.PrefixedPrefetch` | 5/kernel/fault.c:128-159 | Any run of up to fourteen of the eleven prefix bytes before 0F 0D or 0F 18 is a prefetch, and no longer one is |
| `BitFields.GetPut` | 5/kernel/mm.h:523-587 | Reading a field gives what was written, and every bit outside the field is as it was |
| `BitFields.GetPutOther` | 5/kernel/mm.h:523-587 | Writing a field does not change another that does not overlap it |
| `PageFlags.Page.SetPageLinks` | 5/kernel/mm.h:589-595 | For every layout that compiles and a zone and node that fit, and a section that fits where sections are stored: zone, node and section read back as set, and the flag bits below are unchanged |
| `PageFlags.LinksKept` | 5/kernel/mm.h:466-516 | Set one after the other, the three fields of a layout that compiles each keep what was set, and every bit below them stays |
| `PageFlags.LinksPlaced` | 5/kernel/mm.h:466-516 | Where the bits lie: the section at the top of the word, the node below it if there is room for one, the zone below that |
| `ScullPosition.RightIff` | 7/main.c:126-142 | With item sizes below 2^31, what the 32-bit arithmetic computes is the place of the position if and only if the position is below 2^31 |
| `ScullPosition.OverflownIff` | 7/main.c:126-142 | With an overflown item size, positions below 2^31 are computed right if and only if they lie within the size the product wrapped to |
| `ScullPosition.SizesRightIff` | 7/main.c:126-142 | Exactly which sizes serve all positions below 2^31: products below 2^31, and those that wrap to -2^31 |
| `ScullPosition.DefaultSizesFail` | 7/main.c:138-142 | Position 2^31 with the default sizes goes to item -536 instead of 536 |
| `ScullPosition.WrappedSizeFails` | 7/main.c:168-178 | With both sizes 65536 every access divides by zero |
| `ScullPosition.ComputedInverse` | 7/main.c:138-142 | In range, the item, quantum and byte computed for a position lie in the store and give the position back |
| `ScullPosition.PlaceComputed` | 7/main.c:138-142 | In range, every place inside the store is computed for exactly one position |
| `ScullPosition.TransferStays` | 7/main.c:138-150 | In range, every byte of a transfer clamped to the quantum lies in the quantum computed for its start |
| `ScullPosition.CutAtQuantum` | 7/main.c:138-150 | After a transfer that was cut short, the next position is computed to the start of the next quantum, or of the next item |
| `ScullPosition.ArraysFitIff` | 7/main.c:187-192 | The 32-bit size of an item's array is right, and the array has room for all its pointers, if and only if there are fewer than 2^30 |
| `ScullPosition.WrappedArrayFails` | 7/main.c:187-198 | With quantum 1 and 2^30 quanta to the item every position is in range, and an array has no room at all |
| `ScullPosition.AmountIff` | 7/main.c:200-204 | A write moves what the quantum lets it if and only if it ends within the first 16 bytes |
| `ScullPosition.CutAtOldEnd` | 7/main.c:203-204 | A write that starts within the first 16 bytes and reaches past them is cut there |
| `ScullPosition.NothingPastTheOldEnd` | 7/main.c:203-204 | From a position past those bytes the count handed to the copy has wrapped, and the result is negative |
| `ScullStore.NoSharing` | 7/main.c:183-198 | Two places never share a quantum |
| `ScullStore.GrownKeeps` | 7/main.c:94-115 | Growing the store keeps the quantum of every place that had one |
| `ScullStore.AppendedOk` | 7/main.c:96-109 | Hanging a new item behind the last keeps the shape: every pointer leads to a live block of the right kind and size, every live block is reached exactly once |
| `ScullStore.WithArrayOk` | 7/main.c:187-192 | So does giving an item its array |
| `ScullStore.WithQuantumOk` | 7/main.c:194-198 | So does giving a place its quantum |
| `ScullDevice.Device.Follow` | 7/main.c:94-115 | Item n, with all earlier items kept and exactly the missing ones added; null exactly if memory runs out on the way |
| `ScullDevice.Device.Write` | 7/main.c:161-214 | In range, and with arrays that fit, a write allocates nothing but the way to its place and fails for memory exactly if short of the blocks missing; the amount is cut to the quantum and then to the 16 bytes of the old flat device, with the wrap of the unsigned count and of the size |
| `ScullDevice.Device.Read` | 7/main.c:120-160 | In range, a read moves exactly what size and quantum leave of the count; a hole reads as nothing; following may add items but no quanta |
| `ScullDevice.Device.Trim` | 7/main.c:38-61 | Every item, array and quantum is freed, each exactly once and none read afterwards, and the device is empty with the new sizes |
| `ScullDevice.Device.FreeItem` | 7/main.c:45-54 | One turn of the walk frees one item's blocks and reads the next pointer while the item still lives |
| `EventModel.Conserved` | 6/kernel/modified/myevent.c:83-134 | Over every run that closes no newest event: what an event has free plus the waits it completed is what it had plus the signals it got, and sleepers are woken in the order they came |
| `EventModel.RunKeeps` | 6/kernel/modified/myevent.c:24-157 | Over every run that closes no newest event, numbers stay even, positive and strictly increasing, and nobody sleeps while units are free |
| `EventModel.NeverReissued` | 6/kernel/modified/myevent.c:52-73 | The numbers handed out over such a run are new and strictly increasing |
| `EventModel.IssuedFromTwo` | 6/kernel/modified/myevent.c:52-73 | From an empty list the numbers handed out are 2, 4, 6 and so on, whatever else is called |
| `EventModel.AnswersIff` | 6/kernel/modified/myevent.c:41-157 | Every call but an opening answers its number if and only if an event has it, and 0 otherwise |
| `EventModel.WaitAndSignal` | 6/kernel/modified/myevent.c:83-134 | A wait takes a unit or queues the caller last; a signal wakes the first sleeper or adds a unit |
| `EventModel.GoneForGood` | 6/kernel/modified/myevent.c:139-157 | A closed event's number never comes back |
| `EventList.Registry.Search` | 6/kernel/modified/myevent.c:24-35 | The node with the number and the one before it, or null exactly if there is none |
| `EventList.Registry.Open` | 6/kernel/modified/myevent.c:41-76 | One step of the model on the linked list: the next even number at the tail, or a look-up |
| `EventList.Registry.Wait` | 6/kernel/modified/myevent.c:83-109 | One step of the model: a free unit is taken, or the caller sleeps |
| `EventList.Registry.Signal` | 6/kernel/modified/myevent.c:116-134 | One step of the model: the first sleeper is woken, or a unit freed |
| `EventList.Registry.Close` | 6/kernel/modified/myevent.c:139-157 | One step of the model unless the event is the newest; the list is left with a pointer to a freed node exactly in that case |

## Left out

- FlexScanner.Scanner.Yylex: the input holds no NUL byte, so the branch for a NUL inside the text is not modelled; yywrap answers that there is no more input.
- FlexScanner.Scanner.GetNextBuffer: buffer sizes are unbounded, so the negative-size guard of the growth is not modelled, and allocation always succeeds.
- FlexScanner.Scanner.TakeToken: the actions' own work (adding words, running the line), yyunput, input(), the buffer stack, reading from FILE or terminals and fatal-error exits are not modelled.
- ParselineSession.RunLines: the shell's own input function answers -1 for a line that does not fit the room asked for, which is left out. It hands over a line that fits at every call, without using it up; here no read comes back empty, and by ParselineSession.NewlineStops the scanner does not ask again before it returns. Lines continued behind a backslash are one line.
- PipeRuns.RunSafe: opens that strand a writer are left out of the runs, because the promise is false of them; poll's queue entries, release and asynchronous notification are not steps.
- PipeProtocol.StepKept: each unlocked check of the free space reads each position once, and the moment between a position reaching the buffer's end and its wrap to the start, inside the semaphore, is one step, so an unlocked reader never sees the unwrapped value.
- PipeProgress.SleepersReturn: that a process that has returned from its sleep also gets the semaphore, and finds its data still there, needs more than weak fairness and is not claimed.
- ScullPipe.Device.Open: the configured buffer size does not change while a buffer exists.
- ScullPipe.Device.Read: sleeping and retrying are in PipeProtocol; here one pass is one call. The semaphore itself is in PipeProtocol only.
- ProcessGroups.RunKeeps: pid name spaces, and the proc and tty updates of setsid; numbers of new processes are free of live pids, groups and sessions; a thread that takes over its group's pid in exec is not a step.
- Credentials.Closed: the security module's answer and set_user's failure are one refusal per call; capability sets, keyrings and supplementary groups are not modelled.
- Priority.SetThenGet: the security module does not answer -ESRCH, and no other process changes the processes between the two calls.
- ShellExec.Shell.DoSimpleCmd: signals, exec and its failure, waiting, failing pipe, fork or dup2 calls, and what the built-in commands themselves do apart from exit are not modelled; whether a file can be opened is an answer given from outside, and a redirection without a file name counts as one that cannot be; words are compared as texts, and freeing them and clearing their places is not modelled.
- ShellExec.Shell.DoListCmd: the token array is as long as it needs to be and ends in a null; the source's array has 200 places, and its scanner exits on a longer line, one word later than the array allows (2/parseline.c:2168-2180).
- ShellPipes.LinePipesOwned: lines in which a built-in command uses a pipe are left out, because the statement is false of them (ShellWitnesses.EchoKeepsPipe).
- PageTables.Mm.SyncAll: the locks around the copies, 64-bit tables and the paravirtual hooks are not modelled; reference entries only come into being.
- FaultPath.DoPageFault: printing, errata checks, counters, kernel probes and the look-up of spurious faults are answers given from outside; the kind of bus error sent for poisoned memory is not told apart.
- Prefetch.IsPrefetch: the address is the linear one already; 64-bit prefixes are left out.
- PageFlags.Page.SetPageLinks: the section number is given directly instead of being computed from a page frame number; page_zone_id is left out.
- ScullDevice.Device.Write: the bytes themselves are not modelled, because the copy addresses memory the store does not use for data; at positions from 2^31 on, or with item sizes or arrays that overflow, only what the arithmetic computes is modelled (ScullPosition.Computed, ScullPosition.ArrayBytes), not what the store then does; llseek, the semaphore and the open mode are left out.
- ScullDevice.Device.Read: positions and item sizes as for the write; the copy's own bytes are not modelled.
- ScullDevice.Device.Trim: the new sizes are given to the call and are positive.
- EventModel.Conserved: each call is one step, sleeps end only by a signal or a close, event numbers do not overflow, and no call follows one that closed the newest event.
- EventList.Registry.Open: the allocator gives a block that is not in use; its failure, which the source does not check, is left out.
- Not modelled at all: k_getrusage, reboot, host names, prctl, resource limits, the /proc readers, timers, system-call table patching and the other example shells.
