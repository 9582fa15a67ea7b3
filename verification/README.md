# A verified model of runas

`runas` authenticates a user and then runs a command for another account. This project models the
parts of it where several processes, signals, a terminal or arbitrary input make the outcome
hard to see, and proves what those parts promise. `dafny verify dfyconfig.toml` verifies all of it.

## What is modelled

**Runs.** The fork barrier is a transition system (`ForkSync`): two processes with their own
descriptor tables, two pipes, a crash step for either side at any moment, any interleaving. Its code
(`Endpoint`) is a class whose every system call is one move of that system, with any number of the
peer's moves in between.

The supervisor, the prompt and the askpass parent run against a `Station` (`Kernel`, `Host`): one
child with a one-slot report for waitpid and an answer to the fork barrier, a signal mask, a set of
pending signals that coalesce, the terminal's owner and attributes, and a byte stream with its writers
and, if it is a terminal, the places where an end of file was typed. A schedule is a list of ticks;
each tick says what happens outside just before the next system call, and which error that call
meets. The methods are proved for every schedule. When a schedule is over, a call that would sleep
on ends the run, so "hung" and "stalled" results say what a sleeping process is waiting for. A log
records the points that results speak about: every sleep, every signal taken, sent on or raised, every
report of waitpid, each restoration. A log is read by a small automaton (`Next`, `Run`, `Story`) that says what the
process may do next; lemmas say what its acceptance means.

**Values.** The environment file (`EnvFile`) and its placeholder rewriting (`Placeholders`), the
capped line editor (`Editor`), the helper's output (`Helper`), the search for the command
(`ExecSearch`) and the comparison of secrets (`TimeCompare`) are loops proved against an independent
description: one-pass substitution, an unbounded editor, the whole stream, a flat list of candidates.

**PAM.** `PamSession` records what libpam was asked, for any return codes, and proves the record
against a ledger of credentials and sessions. `PamReplies` has a small C heap in which every block
has one owner.

## Where the code differs from what one might expect

- Rewriting placeholders one after the other is not one-pass substitution for every account:
  `${${USER}}` for a user named `HOME` becomes the home directory (`UserNamedHome`), and a user name that
  ends in `$` always has such a value (`DollarNameDisagrees`).
  `AgreementIsStability` says for which lists the two agree.
- The barrier's comment says that the peer of a side that is gone aborts. It does so only if it had
  announced itself before (`GonePeer`); otherwise its READY meets EPIPE and it ends in an error, as after a
  child that dies right after the fork (`ChildDiesAtOnce`).
- The supervisor reads no signals in the barrier. A child that stops there before it has answered, as
  Ctrl-Z does once its group has the terminal, is not followed: the supervisor sleeps on, with its signals
  blocked, until somebody continues or ends the child (`StalledRun`). `WatchProcess` proves the exact condition.
- The helper's output is capped before its newline is stripped, so 1024 bytes and a newline are
  accepted, 1024 bytes and CR LF are not (`WhichOutputsYield`).
- The askpass parent asks waitpid again for every SIGCHLD it takes. One that it takes between the
  child's end and the end of the stream, left over from a stop or sent by anybody else, finds no child, and
  the answer is lost although the helper succeeded (`LosingRun`). `AwaitAnswer` proves the exact condition.
- A failed close leaves the session flag set while the credentials are deleted
  (`FailedClose`), so an open session does not imply credentials.
- `SignalReceiver::read` is documented to return the oldest pending signal; signalfd gives no such
  promise, and the model lets it return any.
- Empty entries of PATH are skipped, not read as the current directory (`EmptyEntriesAreSkipped`).

## Model

| member | source | states |
|---|---|---|
| Placeholders.Rewrite | src/modules/env.rs:228-234 | the loop over the placeholders, skipping patterns that do not occur, computes the sequential rewriting |
| Placeholders.NoOccurrence | src/modules/env.rs:230 | a pass whose pattern does not occur changes nothing, so the `contains` test is only a shortcut |
| Placeholders.TailWasThere | src/modules/env.rs:228-234 | no pattern is completed by text that an earlier pass inserted, unless a replacement can overlap it |
| Placeholders.OneMorePass | src/modules/env.rs:228-234 | one more pass over the one-pass result is the one-pass result for one more placeholder |
| Placeholders.StableAgrees | src/modules/env.rs:228-234 | on a stable list, sequential and one-pass rewriting agree on every value, also for replacements with `$` |
| Placeholders.TrapDisagrees | src/modules/env.rs:228-234 | for any overlap of an earlier replacement with a later pattern that is not replaced by itself, a constructed value on which the two rewritings differ |
| Placeholders.UnstableDisagrees | src/modules/env.rs:228-234 | every unstable list without `$` in its replacements but the last, and whose last placeholder is not replaced by itself, has a value on which the two rewritings differ |
| Placeholders.DollarAtEndDisagrees | src/modules/env.rs:228-234 | so has every list with a replacement, not the last, that ends in `$` |
| Placeholders.IdleLast | src/modules/env.rs:228-234 | a last placeholder that is replaced by itself changes neither rewriting |
| Placeholders.AgreementIsStability | src/modules/env.rs:228-234 | for replacements that hold `$` at most as their last character, and a last one that holds it anywhere, the two rewritings agree on all values if and only if no replacement can overlap a pattern whose turn comes later, not counting a last placeholder that is replaced by itself |
| Placeholders.SameReference | src/modules/env.rs:159-169 | one-pass rewriting does not depend on the order of the placeholders |
| Placeholders.OrderIsIrrelevant | src/modules/env.rs:159-169 | any two orders of a list stable in every order rewrite every value alike |
| Placeholders.PlainStartIsStable | src/modules/env.rs:159-169 | replacements that are non-empty, hold no `$` and do not start with a pattern's character are stable in every order |
| Placeholders.RunasRewriting | src/main.rs:631-637 | with decimal ids, the program's five placeholders are rewritten as in one pass if user and group names are non-empty, hold no `$` and do not start with a brace or one of the names' letters |
| Placeholders.RunasAgreement | src/main.rs:631-637 | for the program's own list with decimal ids and names that hold `$` at most at their end, the two rewritings agree on all values if and only if the list is stable |
| Placeholders.DollarNameDisagrees | src/main.rs:631-637 | with a user name that ends in `$` they never do |
| Placeholders.UserNamedHome | src/main.rs:631-637 | user `HOME` and the value `${${USER}}` |
| Placeholders.PatternBecomes | src/modules/env.rs:228-234 | a value with one pattern between plain texts becomes those texts with the replacement between them |
| Placeholders.RunasPatterns | src/main.rs:628-637 | `${UID}` becomes the user id, `${GID}` the group id, `${HOME}` the home directory, and `${USER}` and `${GROUP}` the names if they hold no `$` |
| EnvFile.RoundTrip | src/modules/env.rs:174-218 | any entry the format can carry, written with any layout of whitespace, parses back to itself |
| EnvFile.AssignmentRoundTrip | src/modules/env.rs:197-201 | name and value survive, with `=` and inner whitespace in the value and padding around the `=` |
| EnvFile.TargetRoundTrip | src/modules/env.rs:175-195 | the target word is cut off exactly, whatever whitespace surrounds and follows it |
| EnvFile.ParserImage | src/modules/env.rs:174-218 | an entry is parsed from some line if and only if it is renderable, so the round trip covers all that the parser accepts |
| EnvFile.ParsedIsRenderable | src/modules/env.rs:174-218 | every parsed target is a word that does not start with `#`, every name valid, every value trimmed |
| EnvFile.FirstOfferIsFirst | src/modules/env.rs:220-244 | the value offered to a key is that of the first applicable line that yields one; a bare name without a caller's value does not block later lines |
| EnvFile.AppendingKeepsOffers | src/modules/env.rs:173-245 | lines added at the end never change what a key was offered |
| EnvFile.OfferedKeysAreNames | src/modules/env.rs:203-218 | only valid names are ever added |
| EnvFile.LoadLine | src/modules/env.rs:173-245 | one line changes exactly the key it makes an offer to, and only if that key is not set |
| EnvFile.LoadOverwriteVars | src/modules/env.rs:173-247 | existing keys are untouched, every other key has the first offer of the lines up to the first unreadable one; the load fails exactly if some line is unreadable |
| EnvFile.LoadEntries | src/modules/env.rs:173-247 | a file of entries, in any layout: a key that was there is untouched; any other is there afterwards exactly if an entry for `*` or for this user names it and has a value, in the file or with the caller, and has that of the first such entry, rewritten or the caller's |
| EnvFile.LoadOne | src/modules/env.rs:173-247 | a file of one line: for another target it changes nothing; `*` and the user's name act alike; a value without `$` is set as it stands; a bare name gets the caller's value, or stays absent |
| EnvFile.SilentLines | src/modules/env.rs:177-195 | blank lines, comments and lines of one word give nothing |
| EnvFile.CharactersInNumbers | src/modules/env.rs:203-218 | which characters make a name, by their codes, and which ASCII characters are whitespace |
| ForkSync.StepKeepsInv | src/modules/fork_sync.rs:131-229 | every step of either process, faults and crashes included, keeps the barrier's invariant |
| ForkSync.RunKeepsInv | src/modules/fork_sync.rs:131-229 | so does every run |
| ForkSync.Agreement | src/modules/fork_sync.rs:189-229 | in every run: Continue means that the peer finished its setup and wrote READY, Abort that it did not write READY and failed or is gone; two decisions are both Continue; nobody writes two bytes |
| ForkSync.DecisionsAreJustified | src/modules/fork_sync.rs:192-196 | the same for one side of any state the invariant allows |
| ForkSync.ListenerWaitsForPeer | src/modules/fork_sync.rs:150-173 | a reader whose pipe still has a writer waits for its peer, never for itself, since each side closed the other's ends |
| ForkSync.ContinueArmsSigchld | src/modules/passwd.rs:512-526 | a parent that continues had blocked SIGCHLD while the child lived, so the child's later death leaves SIGCHLD pending |
| ForkSync.NeverStuck | src/modules/fork_sync.rs:131-229 | some process can make a move that is no fault and no crash if and only if the barrier is not finished |
| ForkSync.BarrierRuns | src/modules/fork_sync.rs:131-229 | every run from the start is at most 35 moves long, and none gets stuck |
| ForkSync.RunsAreBounded | src/modules/fork_sync.rs:131-229 | no run is longer than its first state's rank |
| ForkSync.CanFinish | src/modules/fork_sync.rs:131-229 | every reachable state is finished by moves that are no faults and no crashes |
| ForkSync.FaultlessRunsContinue | src/modules/fork_sync.rs:189-200 | a finished run without faults ends with Continue on both sides |
| ForkSync.GonePeer | src/modules/fork_sync.rs:28-31 | once its peer is gone, a side can still decide if and only if it has announced itself and is not gone; then it decides Continue if the peer had announced itself, and aborts otherwise |
| ForkSync.ChildDiesAtOnce | src/modules/fork_sync.rs:28-31 | a child that dies right after the fork: no run lets the parent abort, or decide at all |
| Endpoint.OthersLeaveMe | src/modules/fork_sync.rs:150-173 | the peer's moves keep the invariant and cannot touch this process's descriptors |
| Endpoint.Convert | src/modules/fork_sync.rs:150-173 | `into_child` and `into_parent`, each in its own order of drops, leave exactly the two descriptors of that side |
| Endpoint.ForkEndpoint.WriteByte | src/modules/fork_sync.rs:72-81 | the byte is written once, or nothing is written and the error is a call's own, or EPIPE when nobody can read it any more |
| Endpoint.ForkEndpoint.ReadByte | src/modules/fork_sync.rs:88-100 | the peer's byte, or None at the end of the pipe; it sleeps only on an empty pipe that somebody can still write |
| Endpoint.ForkEndpoint.SendStatus | src/modules/fork_sync.rs:216-228 | EALREADY and EBADF leave everything alone; success sends that byte and drops the write end |
| Endpoint.ForkEndpoint.ReadyAndWait | src/modules/fork_sync.rs:189-200 | against every behaviour of the peer, the decision is justified, an error is a call's own or EPIPE for a peer that can no longer read, it sleeps only for a peer that still has its write end, and with a peer that was gone before the call it always ends in an error |
| Endpoint.ForkEndpoint.Judge | src/modules/fork_sync.rs:192-199 | the byte read decides as the protocol says, EPROTO cannot happen, the read end is dropped |
| Endpoint.ForkEndpoint.ReportFailure | src/modules/fork_sync.rs:209-211 | on success FAILED is in the pipe, on an error nothing is; the endpoint is gone either way |
| Kernel.EventsKeepArmed | src/modules/signal_recv.rs:151-155 | while SIGCHLD is blocked, no stop, resumption or end is lost, however they coalesce, whoever else sends SIGCHLD |
| Host.EventsAreQuiet | src/modules/signal_recv.rs:129-133 | events outside the process: the terminal and its attributes change only if somebody takes or sets them, and a child that has ended raises no SIGCHLD |
| SignalReceiver.Install | src/modules/signal_recv.rs:136-174 | blocks exactly the selected signals besides the old mask and saves that mask; it fails exactly for SIGKILL, SIGSTOP or a failed call, with that error, and leaves the mask as it was |
| SignalReceiver.Read | src/modules/signal_recv.rs:181-185 | takes one selected signal that is pending, or returns None when none is; an error means that a call met one; never sleeps, loses nothing else |
| SignalReceiver.Poll | src/modules/signal_recv.rs:199-218 | returns once a selected signal is pending, fails only if a call did, sleeps only while none is pending |
| SignalReceiver.Wait | src/modules/signal_recv.rs:193-220 | sleeps only while no selected signal is pending, and returns the one it took |
| SignalReceiver.Drop | src/modules/signal_recv.rs:229-233 | the mask is the saved one |
| Supervisor.InstallHandler | src/modules/fg_handler.rs:73-95 | SIGTTOU is ignored; the terminal belongs to the child, or the handler claims nothing, which takes a failed call or a missing process group; what it claims to give back is the owner of the start unless somebody took the terminal |
| Supervisor.SetOwner | src/modules/fg_handler.rs:86-88 | the group owns the terminal, or a call failed or the child's group does not exist yet |
| Supervisor.TransferToParent | src/modules/fg_handler.rs:100-104 | the terminal is back with its original owner, whoever disturbed it, unless a call fails; nothing else changed |
| Supervisor.TransferToChild | src/modules/fg_handler.rs:109-113 | the terminal is with the child's group, whoever disturbed it, unless a call failed; nothing else changed |
| Supervisor.DropHandler | src/modules/fg_handler.rs:120-126 | the terminal is given back before SIGTTOU is restored |
| Supervisor.WhatFollows | src/modules/proc.rs:142-190 | what the protocol of the log means: a taken signal is sent on next; a reported stop is followed by a self-stop and SIGCONT |
| Supervisor.WhatPrecedes | src/modules/proc.rs:142-190 | only the nine received signals are taken; nothing else is sent on, and the supervisor stops for nothing else |
| Supervisor.WhatHolds | src/modules/proc.rs:128-190 | at every self-stop and while leaving, the original owner has the terminal unless a call of the schedule fails; at every sleep the child has it unless a call fails or somebody takes it; the child lives then, with nothing unreported, or in the barrier without having answered |
| Supervisor.BarrierIsDeaf | src/modules/proc.rs:134 | a supervisor that is still in the barrier has taken no signal, sent none on and followed no stop |
| Supervisor.BarrierIsFirst | src/modules/proc.rs:134 | nothing but sleeps in the barrier comes before a sleep in it |
| Supervisor.ListenerNeedsReply | src/modules/fork_sync.rs:88-100 | in every reachable state of the barrier, a parent that announced itself can go on exactly when the child's byte is written or its end closed, which is what the supervisor's station records |
| Supervisor.EndIsToldOnce | src/modules/proc.rs:159-185 | waitpid reports the child's end at most once, and a closed log remembers whether it did |
| Supervisor.EndWasTold | src/modules/proc.rs:159-162 | and what it remembers is what waitpid reported |
| Supervisor.ExitMeans | src/modules/proc.rs:161-182 | the exit value in numbers: the child's own code, 128 and the number of the signal that killed it, or 1 if somebody else waited for it; in the first two cases the log has that report |
| Supervisor.FollowStop | src/modules/proc.rs:164-176 | a reported stop is followed by the supervisor's own stop with the terminal given back, then by the terminal for the child and SIGCONT |
| Supervisor.Announce | src/modules/fork_sync.rs:72-81 | the write of READY is retried while interrupted, and given up only if a call fails or the child has closed its end |
| Supervisor.Listen | src/modules/fork_sync.rs:88-100 | sleeps only over a living child that has not answered, with the terminal lent to it; returns only if it has answered, is dead, or a call fails |
| Supervisor.Meet | src/modules/proc.rs:134 | the barrier is left if and only if a call fails or the child answers or ends at some time of the schedule; whatever it decides, watching goes on |
| Supervisor.WaitForChild | src/modules/proc.rs:160-184 | no child is reported only if somebody else waited for it; nothing to report leaves nothing unannounced |
| Supervisor.DrainOnce | src/modules/proc.rs:160-184 | one turn of the inner loop takes one change, finds none, or ends with the child's exit code, with 128 and its signal, or with 1 if somebody else waited for it |
| Supervisor.Drain | src/modules/proc.rs:159-185 | the inner loop ends with the child's status, told once, or with nothing unreported unless SIGCHLD is pending |
| Supervisor.NextSignal | src/modules/proc.rs:148 | it takes one of the nine received signals if one is pending; it sleeps only over a living child whose every change was reported: no wakeup is lost |
| Supervisor.Forward | src/modules/proc.rs:188 | the signal is sent on, and nothing the supervisor waits for is lost meanwhile |
| Supervisor.Watch | src/modules/proc.rs:139-190 | every taken signal is sent on next, every stop followed, nothing else is; the end is told at most once; the terminal is the child's at every sleep, without exception if no call fails and nobody takes it (`Next` is this protocol) |
| Supervisor.CloseDown | src/modules/proc.rs:127-128 | on leaving, the terminal, then SIGTTOU, then the mask are restored, in this order, and nothing is left owed |
| Supervisor.Supervise | src/modules/proc.rs:130-190 | the same for every way out, also when setpgid fails; it never gets past the barrier exactly if setpgid succeeds, no call fails afterwards and the child never answers |
| Supervisor.Guard | src/modules/proc.rs:127-128 | from the blocked mask on: also without a handler the mask and SIGTTOU are back, and the terminal is where it was |
| Supervisor.WatchProcess | src/modules/proc.rs:125-191 | for every schedule: the result is the child's exit code or 128 and its signal, or 1 if somebody else waited for it; an error is that of a failed call; it hangs while waiting for signals only over a living child with nothing unreported and none of the nine received signals pending, and in the barrier if and only if the calls before it succeed, none fails afterwards, and the child never answers and never ends; every other exit restores SIGTTOU and mask, and, unless a call failed for more than an interruption or somebody else took the terminal, the terminal's owner of the start; the handler claims nothing only if a call failed or the child had no group yet |
| Supervisor.StalledRun | src/modules/proc.rs:134 | a child that stops after its parent's first call and before it answers: the supervisor sleeps in the barrier with the stop unreported, SIGCHLD pending, every signal blocked and none sent on |
| Prompt.Prompt.HideInput | src/modules/passwd.rs:196-211 | the original attributes are saved before the change, also if the change fails |
| Prompt.Prompt.Write | src/modules/passwd.rs:224-245 | all bytes in order, or after an error a beginning of them |
| Prompt.Prompt.Await | src/modules/passwd.rs:251-294 | polls until something is ready; a pending signal comes before input; sleeps only when neither is ready |
| Prompt.Prompt.Fetch | src/modules/passwd.rs:281-288 | the next bytes of a ready stream, not past a typed end of file; no byte only at the end of a stream nobody can write or where an end of file was typed; that is recorded exactly when it is read |
| Prompt.Prompt.Read | src/modules/passwd.rs:250-295 | the next bytes of the stream, at most the buffer's length; a pending signal gives EINTR and takes no byte; zero only at the end of a stream nobody can write or where an end of file was typed; any other error is that of a failed call |
| Prompt.Prompt.Drop | src/modules/passwd.rs:302-308 | the saved attributes are in force again, unless a call failed |
| Editor.EditorRefines | src/modules/passwd.rs:361-389 | the 1024-byte buffer and the overflow counter represent the unbounded editor's text after every key if and only if that text never outgrows what the counter can count, whatever the width of a usize |
| Editor.KeysInNumbers | src/modules/passwd.rs:370-389 | what a key does to the unbounded text: in hidden input 8 and 127 take back the byte before them, and nothing from an empty text; every other byte, and in visible input every byte, is added |
| Editor.HiddenHasNoErasers | src/modules/passwd.rs:373-382 | hidden input never holds 8 or 127 |
| Editor.EchoOfTheText | src/modules/passwd.rs:373-393 | a key is echoed as a star, or if it erases something as a step back, a blank and a step back |
| Editor.LengthCheck | src/modules/passwd.rs:415-419 | within that bound, the overflow test is the test that the unbounded text has at most 1024 bytes, and then the buffer is that text |
| Editor.LineIsBounded | src/modules/passwd.rs:361-389 | the buffer never exceeds 1024 bytes and the counter never a usize, whatever is typed |
| Editor.StarsCountTheText | src/modules/passwd.rs:373-393 | a terminal that interprets the echo shows one star for each byte of the unbounded text, and blanks behind them |
| Password.CheckIsAboutTheText | src/modules/passwd.rs:415-423 | the answer is a function of the unbounded text: too long with more than 1024 bytes, not UTF-8, or that text |
| Password.LineSpells | src/modules/passwd.rs:365-423 | a line in numbers: it ends at the first 13 or 10, or at an end of input, and is edited to the answer; a hidden answer holds neither 8 nor 127 |
| Password.TakeSignal | src/modules/passwd.rs:396-407 | the pending signal ends the reading, and is the last thing taken; without one the loop goes on |
| Password.Look | src/modules/passwd.rs:366-411 | one turn finds the next byte, the end, a signal, or a call's error, and never loses a byte to a signal |
| Password.ReadLine | src/modules/passwd.rs:365-413 | the line is what the bytes read up to Enter, the end or a typed end of file make it; with SIGHUP, SIGINT, SIGQUIT, SIGTERM or SIGTSTP pending, and no failing call, it is halted before a byte; each byte is read once, in order; the echo is that of the keys if its writes succeed |
| Password.Introduce | src/modules/passwd.rs:343-354 | the attributes of the start are in force or saved, also when hiding or writing fails |
| Password.Converse | src/modules/passwd.rs:332-413 | from opening the terminal to the end of the line, whatever ends it, the attributes of the start are in force or saved |
| Password.CloseDown | src/modules/passwd.rs:298-327 | the terminal and then the mask are those of the start |
| Password.LaunchPrompt | src/modules/passwd.rs:321-424 | an answer comes from this attempt's bytes only, up to Enter, the end or a typed end of file; a signal is taken only if it halts the attempt; it is refused only with the error of a failed call; on every return mask and attributes are as before |
| Password.RaiseAgain | src/modules/passwd.rs:704-712 | the signal of a halted attempt is raised with mask and attributes of the start, and the next attempt begins where the stream then is |
| Password.TakenIsRaised | src/modules/passwd.rs:700-718 | what the protocol of the log means: a taken signal is raised after the mask was restored |
| Password.RaisedWasTaken | src/modules/passwd.rs:700-718 | nothing else is raised, and only those five signals, and at every raise mask and attributes are those of the start, the latter without exception if no call fails and nobody sets them |
| Password.StartIsLastRaise | src/modules/passwd.rs:700-718 | the last attempt begins exactly where the last raise left the stream |
| Password.AskPassword | src/modules/passwd.rs:700-718 | for any number of interruptions: the log keeps the protocol, so exactly the taken signals are raised; the password is made of the stream from the start of the last attempt to the first byte 13 or 10, its end or a typed end of file, and no byte before, edited as `Spells` says in numbers; mask and attributes are those of the start, the latter unless a call failed or somebody set them; an error is that of a failed call |
| Helper.WhichOutputsYield | src/modules/passwd.rs:599-621 | of a helper that exits with 0, the outputs accepted as a password: the password, alone or with a newline or CR LF, within the exact length limits of the raw cap; and the outputs that are too long |
| Helper.JudgeVerdicts | src/modules/passwd.rs:566-606 | the verdict from the child's end: a password only after an exit with 0, and otherwise the exit code, or 128 and the signal |
| Helper.GatheredIsEnough | src/modules/passwd.rs:599-621 | the checks on the capped buffer give the verdict on the whole output |
| Helper.GathersMore | src/modules/passwd.rs:540-549 | whatever its pieces, the buffer is the output's first 1025 bytes at most, and `overflow` says that there is more |
| Helper.WaitedTells | src/modules/passwd.rs:565-580 | what its answers mean: with nothing to report the child's end is still to be announced, and no child is left only if it was waited for |
| Helper.WaitedFindsEnd | src/modules/passwd.rs:565-580 | unless the child was stolen, the report of an end that happened is found, whatever else happened |
| Helper.Drain | src/modules/passwd.rs:564-582 | the waitpid loop ends with the child's status, with its end still to be announced, or with no child left |
| Helper.TakeSignal | src/modules/passwd.rs:552-561 | takes one pending signal if one of the seven is pending, SIGCHLD from anybody too; with any other the child's end stays announced |
| Helper.Look | src/modules/passwd.rs:536-561 | one turn finds the next piece, the end, a signal or a call's error; a pending SIGCHLD comes before input |
| Helper.Heed | src/modules/passwd.rs:563-586 | SIGCHLD asks waitpid, any other signal is sent on to the helper's group |
| Helper.HeedChld | src/modules/passwd.rs:563-582 | a taken SIGCHLD yields the status, leaves the child's end to be announced, or finds no child left, with the log to tell why |
| Helper.Forward | src/modules/passwd.rs:585 | the signal is sent on, and the child's end is not lost meanwhile |
| Helper.Step | src/modules/passwd.rs:536-596 | one turn keeps the buffer, the status, the log and the pending SIGCHLD in step with the stream and the child, and makes progress; a second SIGCHLD while the stream is open loses the child |
| Helper.Gather | src/modules/passwd.rs:535-597 | the loop is left only at the end of the stream with the child reaped; it cannot hang once the child is dead and nobody else holds the pipe; a start that asks waitpid twice loses the child |
| Helper.AwaitAnswer | src/modules/passwd.rs:522-622 | for every schedule and every cutting into pieces, an answer is the verdict on all bytes ever written and the child's status: a password exactly if the child exited with 0 and the whole output carries it, and for any other end its code; a finished run loses it if and only if somebody else waited for the child or a SIGCHLD was taken after the child's end was reported; one pending at that report, before the stream's end was read, suffices, and is necessary unless others send SIGCHLD; a schedule with nothing but the child's end and input never loses it; an error only if a call met one; it waits only while the child lives or somebody else holds the pipe |
| Helper.AskedMeans | src/modules/passwd.rs:563-582 | what `asked` says of a log: a SIGCHLD was taken after the report of the child's end |
| Helper.DoomedMeans | src/modules/passwd.rs:563-582 | what `doomed` says: a SIGCHLD was pending at that report, and the stream's end had not been read |
| Helper.TakenIsSentOn | src/modules/passwd.rs:584-586 | a taken signal other than SIGCHLD is sent on next |
| Helper.SentOnWasTaken | src/modules/passwd.rs:584-586 | nothing else is sent on, and only the six signals besides SIGCHLD |
| Helper.LosingRun | src/modules/passwd.rs:563-580 | a start from which every run loses the answer, although the child wrote a password and exited with 0 and no call fails |
| Helper.ContinueStartsArmed | src/modules/passwd.rs:512-526 | on every run of the barrier, a parent that continues starts the loop with the child's end not lost |
| TimeCompare.TimeCompare | src/modules/passwd.rs:648-677 | true if and only if the byte strings are equal, for all lengths, after exactly as many turns as the known string has bytes; past the end of a shorter secret every bit of a byte differs |
| TimeCompare.InverseNeverMatches | src/modules/passwd.rs:661-663 | a byte differs from its inverse in all eight bits |
| TimeCompare.StaysInWidth | src/modules/passwd.rs:653-674 | the accumulator fits the operands' width, so no usize overflows |
| ExecSearch.GlueUndoesSplit | src/modules/proc.rs:263 | the pieces of a list joined by colons are the list, and none holds a colon |
| ExecSearch.SplitUndoesGlue | src/modules/proc.rs:263 | colon-free pieces joined by colons split into themselves |
| ExecSearch.SearchIsDetermined | src/modules/proc.rs:262-293 | a flat search of a list has one outcome and one number of attempts |
| ExecSearch.WalkPath | src/modules/proc.rs:263-286 | the inner loop goes through one list's part of the flat list, or ends the search |
| ExecSearch.Walk | src/modules/proc.rs:260-293 | the nested loops are the flat search of the ordered list of non-empty candidates |
| ExecSearch.Execvpe | src/modules/proc.rs:239-294 | a command with a slash is tried as it is; any other is searched in the caller's PATH and then in each PATH of the new environment: the first success or hard error ends it, and exhausted it is EACCES exactly if some attempt was, else ENOENT |
| ExecSearch.EmptyEntriesAreSkipped | src/modules/proc.rs:264-266 | the candidates are those of section 8.3 of POSIX.1-2017 XBD if and only if no entry is empty |
| ExecSearch.PathsSpelledOut | src/modules/proc.rs:250-258 | the caller's PATH comes first, then what follows `PATH=` in each entry of the new environment that starts so; nothing else contributes |
| ExecSearch.CandidatesSpelledOut | src/modules/proc.rs:262-271 | a list gives, in order, each non-empty directory with a slash that is not doubled and the command |
| ExecSearch.OutcomeSpelledOut | src/modules/proc.rs:273-293 | what a search says: only ENOENT, ENOTDIR and EACCES let it go on; it ends with the first success or other error, or, exhausted, with EACCES if some attempt had it and else with ENOENT |
| PamSession.AcceptedLogs | src/ffi/pam.rs:571-623 | what an accepted log means: credentials are deleted before the next establishment and before the end, an opened session is closed or its closing attempted before the end, only opened sessions are closed, and pam_end is last and unique |
| PamSession.SessionsAreClosed | src/ffi/pam.rs:714-717 | no log that ends with an open session nobody tried to close is accepted |
| PamSession.OnlyOpenIsClosed | src/ffi/pam.rs:603-606 | a session that is closed was opened and not closed since |
| PamSession.PamHandle.Open | src/ffi/pam.rs:571-596 | credentials, then a session, or nothing of both: a refused session takes the credentials back |
| PamSession.PamHandle.Close | src/ffi/pam.rs:603-623 | only an open session is closed; credentials are deleted whether or not closing succeeds; the flag falls exactly if it does |
| PamSession.PamHandle.Drop | src/ffi/pam.rs:712-726 | a live handle with an open session closes it; the log is accepted and ended, and pam_end got the last status; a dead handle asks nothing |
| PamSession.FailedClose | src/ffi/pam.rs:571-623 | a run of `open_session` and a refused `close_session`: the session is open without credentials, whatever code refused it |
| PamSession.Lifecycle | src/ffi/pam.rs:571-726 | every sequence of opens and closes with every assignment of return codes, then the drop, is an accepted, ended log |
| PamSession.Prepare | src/modules/auth.rs:211-245 | success means exactly these calls, each successful: the terminal's name, the authentication unless that is disabled, the caller's name, the account check, perhaps with a password change that prompting allows, and the target's name |
| PamSession.Enter | src/modules/auth.rs:211-252 | and then the credentials and the session, so the target is named before the session is opened |
| PamSession.ChildSide | src/modules/auth.rs:253-267 | on every way out of the child's side a wrapped handle is left alone; the environment is returned exactly if the exit signal, the group and the barrier's Continue are there, and then the parent has finished its preparation; the child sleeps only for a parent that can still answer |
| PamSession.Auth | src/modules/auth.rs:187-294 | the parent's log is accepted and ended if and only if there is no child or watching it returns, which fails in the barrier exactly as `WatchProcess` says; until then the parent asks nothing after the fork; the process exits with the child's code, with 128 and its signal, or with 1; on every way out of the child its wrapped copy of the handle asked nothing more, and never pam_end; a child exists only after such a preparation, with an open session and credentials, and does if libpam refuses nothing and the pipes, the list and the fork succeed |
| PamSession.Divide | src/modules/auth.rs:244-286 | both sides of the fork: only the parent's side ends the handle, after watching has returned |
| PamReplies.FreeingOwned | src/ffi/pam.rs:226-245 | freeing one reply keeps the ownership of the others |
| PamReplies.StoringOwned | src/ffi/pam.rs:366-372 | storing one reply extends the ownership by it |
| PamReplies.PamResponses.Drop | src/ffi/pam.rs:221-251 | every reply and the array are freed exactly once and nothing else is; after a transfer nothing is |
| PamReplies.FailureComesFirst | src/ffi/pam.rs:297-402 | the first message that fails decides the code |
| PamReplies.NulEndsTheAnswer | src/ffi/pam.rs:346-355 | strdup of the answer with its added NUL is the answer up to its first NUL |
| PamReplies.TextIsUnique | src/ffi/pam.rs:346-355 | the text of a C string is the one beginning of the bytes without a NUL that is followed by one or is all of them; an answer without NUL is handed over whole |
| PamReplies.Respond | src/ffi/pam.rs:302-401 | one message is answered with the text of its answer, noted, or refused with the code of its kind |
| PamReplies.Store | src/ffi/pam.rs:352-372 | the copy of an answer goes to its prompt's entry and is owned at once |
| PamReplies.ReplyToAll | src/ffi/pam.rs:297-402 | the message loop answers all prompts, or stops with the first failure's code, and owns every string meanwhile |
| PamReplies.Converse | src/ffi/pam.rs:265-426 | either the whole array is handed over, with an answer for exactly the prompts, or the first failure's code is returned, the pointer is null and the heap is as before |
| PamReplies.CodesInNumbers | src/ffi/pam.rs:297-402 | the code by the first message that fails: 19 for a null pointer, bad text, an unknown style, a panic or another error, the callback's own PAM code, 5 if strdup fails |
| PamReplies.FineIsReached | src/ffi/pam.rs:297-402 | nothing else fails |
| PamReplies.EntriesInNumbers | src/ffi/pam.rs:325-395 | after a success the messages of styles 1 and 2 have the text of their answer, those of styles 3 and 4 nothing |

## Left out

- System calls are nondeterministic steps with a contract: pipe, fork, waitpid, poll, signalfd, termios, tcsetpgrp, execve, libpam. waitpid is taken to fail only with EINTR or ECHILD. Calls that restore the mask or SIGTTOU are taken to succeed. Killing the helper's or the child's group is logged, and its effect on the child is one more outside event.
- A crash of the supervisor or the prompting process in the middle of a method; in the barrier either side may crash anywhere.
- SIGCHLD is taken to have its default disposition; a caller that ignores it would make the kernel reap the child. SIGPIPE is ignored, as the Rust runtime arranges.
- Scheduling fairness and real time: shown instead are the absence of stuck states, bounded runs of the barrier, and termination of every method on every finite schedule.
- A signal of the prompt that the caller had already blocked stays pending when raised and interrupts the next attempt; the model allows it and states nothing about it.
- AgreementIsStability: stated for lists in which all replacements but the last hold `$` at most as their last character. With `$` elsewhere an unstable list may rewrite the value that shows its overlap as one pass does: `I` to `${K}${J}`, `K` to `${K` and `J` to `}${J}` turn `${I}` into `${K}${J}` either way. StableAgrees has no such condition.
- AwaitAnswer: starts where the barrier let the parent continue; the calls before that (pipe, fork, setpgid, installing the receiver, and the barrier, in which this parent can sleep as `watch_process` does) and the child's half of `launch_helper` (dropping privileges, choosing the program) are not modelled.
- NeverStuck: a stopped process is not a state of the barrier's transition system; its moves count as possible. The supervisor's station has stopped children.
- An end of file typed before the terminal left canonical mode is read as one; Linux hands out a NUL byte then. Two that were typed at the same place may be read as one or as more.
- Calls that no signal can interrupt (pthread_sigmask, signalfd and its nonblocking read, sigaction, setpgid, tcgetpgrp, tcsetpgrp) do not fail with EINTR.
- UTF-8 validity is a parameter of the password checks; text in files and paths is given decoded, or absent where it does not decode.
- load_overwrite_vars: opening the file, its ownership and permission checks, and cutting it into lines.
- The arguments of `pam_start`. The PAM backend's conversation text, the choice of echo, and the mapping of errors to messages; `resp_retcode`; numeric PAM constants are those of Linux-PAM, since the generated bindings are not part of this model.
- Zeroization of secrets, real timing, allocation capacities, descriptor numbers and the closing of the prompt's own descriptors.
- src/main.rs option parsing and argument building, `auth_decision` and the shadow expiry comparisons, src/modules/user.rs, src/modules/error.rs, src/shared.rs: straight-line code that would add only easy members.
