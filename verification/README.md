# PDIP: a verified model

PDIP drives interactive programs through a pseudo-terminal. This project models its four connected
cores in Dafny and proves what they promise for all inputs, all runs and all ways in which `read()`
chops a stream.

- **The receive engine of the library** (`StreamSpec`, `Reception`, `Terminal`, `PdipLib`). `pdip_recv()` over
  its growing NUL-terminated buffers, which change hands between the user and the object, is proved to
  compute a function of byte sequences; over this function, nothing is lost, duplicated or reordered in
  any sequence of calls, and each call ends at the first read that must end it, with the data cut where the
  match ends. `Prompt` gives the pattern `^PROMPT$` its meaning under
  REG_EXTENDED|REG_NEWLINE (IEEE Std 1003.1-2017, XBD section 9.4.9, and `regcomp()` in XSH), `Framing`
  tells exactly which outputs are framed by it for every chopping.
- **The daemon** (`DaemonSpec`, `DaemonRuns`, `Replies`, `Coherence`, `ShellEvents`, `World`, `FdSets`, `Server`,
  `ShellIo`). Its state machine and select loop as functions on values, with invariants over all runs, failures
  included, and an account of every command sent; the same over records that point at each other, a doubly
  linked list and the sets of descriptors, up to one whole iteration of the select loop; and the readers
  of the shells from the bytes of the pseudo-terminal to the bytes of the messages.
- **The clients** (`RsysMsg`, `Rsystem`, `Isys`, `ShellStatus`, `EndToEnd`, `Session`). The messages as bytes,
  the client that reads them in any pieces, the in-process `isystem()` from its command to its status; and the
  composition: the successive calls of `rsystem()` print the output of their own commands, whatever the other
  clients do.
- **The life of an object** (`LifeCycle`, `LifeCalls`, `CtxList`). The steps of `pdip_exec()`, `pdip_status()` and
  `pdip_delete()` interleaved with deaths of children and SIGCHLD, some of them lost, and what each call answers.
- **The script interpreter** (`Split`, `Grammar`, `Format`, `Spelling`, `CommandLine`, `Synchro`, `FirstFound`,
  `Interact`, `Scripts`), from the text of a line to what it does, and the **affinity lists** of the daemon
  (`CpuSet`, `Affinity`).

Modules `Bytes`, `Lists` and `Decimal` hold what the others share.

The regular expression engine is an oracle that returns no match or an end offset inside the string.
What the system does (reads, writes, deaths of processes, interruptions) is an arbitrary sequence of
events, given as a parameter. `char` stands for a byte.

Where the code does not meet a promise, the code is modelled as it is and the exact condition is
proved:

- a line of output that begins like the prompt, or an output whose last line is not complete, breaks
  the framing for some chopping (`Framing.FramingExact`);
- when a DISPLAY message cannot be sent before the prompt has been seen, the shell is given back as
  free with output still to come (`World.SendFailureExact`), and another client gets it
  (`World.OutputToAnother`);
- the status of `isystem()` is refused for some choppings when the number and its newline do not fit
  its buffer of ten bytes (`Isys.StatusExact`), and an empty last line of output is lost for some
  choppings (`Isys.OutputExact`); the two together are the condition for the whole call (`Isys.SystemExact`);
- an exit code of 128 or more is taken for a signal, but 128 for an exit with 0, and 255 for nothing that
  <sys/wait.h> knows of (`ShellStatus.EncodedExact`, `ShellStatus.EncodedMeans`);
- `^\` at the end of a quoted string, the notation of the quit byte, is refused by the cutting of the line
  (`Scripts.SpelledReaches`, `Scripts.QuitRefused`);
- a synchronisation line with more than 127 control characters before its last printable one is cut at
  the wrong place (`Synchro.TurnExact`), and the loop is endless when the length of a complete line without
  match is a multiple of 256 and at most 128 of its characters are kept by the filter
  (`Synchro.EndlessExact`, `Synchro.EndlessLine`);
- a `recv` without parameter but with blanks or a comment behind it, or too near the end of the buffer,
  does not find the pattern that it writes (`CommandLine.Command.EndPattern`, `Interact.BareRecv`,
  `Interact.BlankBehind`);
- in an affinity list, an interval followed by a comma gives all the CPUs, against the comment at
  rsys/rsystemd.c:537-549 (`Affinity.ListMeans`, `Affinity.IntervalThenNumber`);
- a command is dropped without a reply exactly when the client sends it before the end of the one before
  (`Replies.CommandMet`, `Replies.SecondCommand`);
- a newline that comes alone before the prompt while the status of a command is awaited, which a background
  job can print, makes the assert at rsys/rsystemd.c:1238 end the daemon; nothing else that a living shell
  prints does (`Coherence.AbortExact`, `Coherence.AbortInput`).

## Model

| member | source | states |
|---|---|---|
| `Terminal.Pty.ReadRetry` | pdip_lib.c:247-287 | reads go on through interruptions; what is read is the next part of the stream, at most as long as asked, and the stream is conserved |
| `PdipLib.PdipCtx.FlushInternal` | pdip_lib.c:415-448 | the user gets all the outstanding data and none is left; the two buffers never share memory |
| `PdipLib.PdipCtx.AppendToOutstanding` | pdip_lib.c:555-624 | outstanding data become outstanding data followed by the user's data, by hand-over or by copy, inside the blocks |
| `PdipLib.PdipCtx.FlushOutstanding` | pdip_lib.c:462-545 | the user gets exactly the complete lines, the newline-free tail is kept |
| `PdipLib.PdipCtx.LookForRegex` | pdip_lib.c:636-765 | outstanding and new data are searched together; on a match the user gets them through its end (through the newline which begins them when the match is empty before it) and the rest stays outstanding; otherwise nothing is given |
| `PdipLib.PdipCtx.ReadInto` | pdip_lib.c:357-396 | each read has room for one byte at least besides the NUL; the NUL is put behind the data |
| `PdipLib.PdipCtx.Recv` | pdip_lib.c:781-1257 | for every sequence of reads: result, user data and outstanding data are those of the specification on byte sequences; FOUND cuts the data at the end of their match; the representation and the ownership of the buffers hold afterwards, incoherent arguments are refused with nothing changed |
| `PdipLib.User.DoAll` | pdip_lib.c:415-1257 | any receptions and flushes one after the other over the real buffers, which grow, are cut and change hands: what the user has taken, then what is outstanding, then what is still to be read, is what was outstanding at first and all that was to be read, in order |
| `Reception.RecvMeans` | pdip_lib.c:959-1257 | for every pattern, with and without timeout, on the flow or not: FOUND at once when the outstanding data match, otherwise the call ends at the first read that completes a match, a line on the flow, the time, or fails, with the result that this read calls for and the data cut at the end of the match; until then it waits and keeps all |
| `Reception.FoundCut` | pdip_lib.c:699-745 | FOUND is only returned when the data given and kept together match, and they are cut at the end of this match |
| `Reception.PlainMeans` | pdip_lib.c:838-956 | without pattern: what is outstanding at once, otherwise all the data of the first read that gives some, or the timeout or the error that comes before |
| `StreamSpec.RecvConserves` | pdip_lib.c:781-1257 | one reception: delivered, outstanding and unread bytes together are the outstanding and unread bytes before, in order |
| `StreamSpec.SessionConserves` | pdip_lib.c:415-1257 | any sequence of receptions (with or without pattern, timeout, on the flow) and flushes loses, duplicates and reorders nothing |
| `StreamSpec.RecvRegexReadsExtend` | pdip_lib.c:1160-1242 | a reception does not depend on the reads behind the one that ends it, and can be resumed where it waits |
| `StreamSpec.LineDiscipline` | pdip_lib.c:1177-1216 | on the flow without timeout, whatever is outstanding at first (complete lines included, as a match leaves them): data delivered before the match are non-empty complete lines, there is no match in them and what is kept, and what is kept has no newline; a reception that still waits keeps no newline either, unless nothing has been read |
| `Prompt.NoMatchYet` | rsys/rsystemd.c:1116-1117 | no prefix of an answer that stops before the end of its prompt matches the pattern |
| `Prompt.MatchAtEnd` | rsys/rsystemd.c:1116-1117 | in the whole answer the leftmost match is the final prompt |
| `Prompt.FirstPromptLine` | rsys/rsystemd.c:1116-1117 | for all texts: the pattern matches exactly when one of the lines, the last one included, is the prompt and nothing more, and at the first of them |
| `Framing.ReceiveProgress` | rsys/rsystemd.c:1110-1175 | in the middle of an answer a reception delivers complete lines of the output, or all the rest with the prompt, or waits |
| `Framing.ConverseDelivers` | rsys/rsystemd.c:1110-1175 | for every chopping the blocks received concatenate to the output and the prompt, found once, with nothing left |
| `Framing.FramingExact` | rsys/rsystemd.c:1110-1175 | this holds for every chopping if and only if the output is made of complete lines none of which begins like the prompt |
| `Decimal.AtoiOfShow` | rsys/rsystemd.c:1220-1222 | reading back a printed exit status gives the number |
| `Decimal.AtoiMeans` | pdip.c:2147 | blanks are skipped, a sign is taken, and the number ends at the first character that is not a digit |
| `Decimal.NoNumber` | pdip.c:2147 | without number the value is 0 |
| `ShellIo.ShellReader.ReadDisplay` | rsys/rsystemd.c:1110-1184 | from the reads of the terminal to the bytes on the socket: return code, text of the DISPLAY message with its NUL, all of it or a part when the write fails |
| `ShellIo.ShellReader.ReadStatus` | rsys/rsystemd.c:1197-1269 | the status field and the return code are those of the text received, the NUL put in place of the newline |
| `ShellIo.ShellReader.FlushDisplay` | rsys/rsystemd.c:1280-1309 | data are dropped until the prompt, with the return code of the reception |
| `FdSets.FdSet.Add` | rsys/rsystemd.c:253-266 | the maximum stays exact |
| `FdSets.FdSet.Remove` | rsys/rsystemd.c:274-296 | the maximum is exact after the removal, except in an emptied set, which keeps the old one |
| `DaemonSpec.FirstFree` | rsys/rsystemd.c:1753-1768 | the first FREE shell, or none when there is none |
| `DaemonRuns.RemoveExact` | rsys/rsystemd.c:1335-1383 | taking a client out of the list leaves exactly the others, each once |
| `DaemonRuns.StepKeepsInv` | rsys/rsystemd.c:1409-1698 | every step keeps the links: a shell in use and its allocated client point at each other, no client points at another shell, no shell is left ALLOCATED, sockets and list agree |
| `DaemonRuns.RunKeepsInv` | rsys/rsystemd.c:2071-2208 | the same over every run |
| `DaemonRuns.RepliesConserved` | rsys/rsystemd.c:1409-1698 | over every run, failures included, commands given to a shell less EOC messages sent is 1 for a client with a command in flight, 0 for another, and at most 1 for one that has gone; `Replies.CommandsAccounted` adds the commands that no shell has got |
| `Replies.CommandMet` | rsys/rsystemd.c:2132-2205 | a command changes nothing at all if and only if the client has not been told the end of the one before; otherwise exactly one thing happens to it: BUSY, exactly when no shell is free, or it is given to a shell; nothing is said of the other clients |
| `Replies.CommandsAccounted` | rsys/rsystemd.c:2071-2208 | over every run, failures included: the BUSY messages are exactly the commands that met no free shell, those given to a shell are all the others but those sent before the end of the one before, and each of these has got its EOC but the one in flight or the last one of a client that has gone |
| `Replies.SecondCommand` | rsys/rsystemd.c:1446-1697 | a run from the start of any daemon: of two commands sent at once, the second one gets no reply |
| `Coherence.NeverIncoherent` | rsys/rsystemd.c:1110-1269 | whatever is outstanding, whatever is read and whatever the status: after FOUND the prompt is seen and after DATA lines are, never an incoherent display; the assert on the length fails exactly for a newline alone before the prompt |
| `Coherence.AbortExact` | rsys/rsystemd.c:1197-1269 | reading a shell makes an assert fail if and only if the shell has ended or a newline comes alone before the prompt in WAIT_STATUS |
| `Coherence.AbortInput` | rsys/rsystemd.c:1230-1240 | the input of this failure |
| `ShellEvents.ShellServed` | rsys/rsystemd.c:1446-1681 | for all states and outcomes of the reception, failures included: the messages to the client and their order, the new state of the shell, what is linked and what is kept, and that nothing else changes; a failed reception or message in a busy state is told by one EOC with -1 and frees the shell, a shell being emptied tells nobody anything |
| `ShellEvents.ConnectionServed` | rsys/rsystemd.c:2075-2107 | a connection gives a new client without shell at the head of the list, or its socket is told OOM, and nothing else changes |
| `DaemonRuns.NewcomerNotMet` | rsys/rsystemd.c:2123-2206 | a client accepted in an iteration is not among the ready ones of this iteration |
| `DaemonRuns.RunsJoin` | rsys/rsystemd.c:2071-2208 | runs can be put one behind the other |
| `World.WorldStepKeeps` | rsys/rsystemd.c:1409-1698 | one step among shells that answer each line with one prompt: prompts owed are 0 in FREE and 1 in WAIT_EOC, WAIT_STATUS and FREEING, every client stands where its shell says |
| `World.NoCrossTalk` | rsys/rsystemd.c:1110-1681 | over every run where no message fails before the end of an output, every client whose own messages are sent gets, in order, exactly the output lines and the status of its own commands, whatever the chopping, whoever leaves and whichever other messages fail; no assertion fails, and a free shell owes nothing |
| `World.SendFailureExact` | rsys/rsystemd.c:1147-1159 | a shell is given back clean if and only if the message was sent or the prompt had been seen |
| `World.OutputToAnother` | rsys/rsystemd.c:1163-1172 | a run from the start of the daemon where the condition of the run theorem fails once: the next client of the shell, to which every message is sent, gets a line of the command of another |
| `Server.Server.constructor` | rsys/rsystemd.c:2037-2057 | the daemon before its loop meets the invariant |
| `Server.Server.GetShell` | rsys/rsystemd.c:1753-1768 | the first free shell |
| `Server.Server.NewClient` | rsys/rsystemd.c:1707-1740 | the context is put at the head of the linked list, which prepends it in the model; links stay mutually inverse |
| `Server.Server.UnlinkNode` | rsys/rsystemd.c:1347-1366 | the context leaves the linked list wherever it stands, which removes it from the sequence; the count follows |
| `Server.Server.FreeClient` | rsys/rsystemd.c:1335-1383 | nothing points at the context any more, its socket leaves the set, its `next` is unchanged |
| `Server.Server.UnlinkClient` | rsys/rsystemd.c:1392-1400 | both pointers are reset, as in the model |
| `Server.Server.DeleteClient` | rsys/rsystemd.c:1319-1326 | the client is no longer allocated, as in the model |
| `Server.Server.Fsm` | rsys/rsystemd.c:1409-1698 | for every event and state, the records follow the state machine of the model; the asserts on the links hold |
| `Server.Server.ServeShell` | rsys/rsystemd.c:1449-1681 | the shell is read and the machine gets what has come |
| `Server.Server.ServeClient` | rsys/rsystemd.c:2132-2205 | link, message, state machine, release: the model step; the next context is read before the current one can be freed |
| `Server.Server.AcceptPhase` | rsys/rsystemd.c:2075-2107 | a connection is admitted or told OOM; the counter of ready descriptors follows |
| `Server.Server.ShellPhase` | rsys/rsystemd.c:2109-2120 | every ready shell is served once, in order, and no other descriptor is counted |
| `Server.Server.ClientPhase` | rsys/rsystemd.c:2122-2208 | the walk serves every ready client of the list exactly once although contexts are freed on the way, and the counter ends at 0 |
| `Server.Server.Iterate` | rsys/rsystemd.c:2071-2208 | one iteration is a legal run of the model made of the connection, the ready shells and the ready clients, each once; the counter ends at exactly 0 and the invariant holds |
| `RsysMsg.ValueOfWord` | rsys/rsys_p.h:98-115 | the bytes of a field give back its value |
| `RsysMsg.UnpackOfPack` | rsys/rsys_p.h:98-115 | the receiver of a header gets the fields set by the sender, whatever the padding |
| `RsysMsg.HeaderBytes` | rsys/rsys_p.h:98-115 | the byte of each field at its place in the 24 bytes, the lowest first |
| `RsysMsg.Sender.SendHeader` | rsys/rsys_msg.c:43-96 | 0 exactly when the whole header is written; else a part of it and -1 |
| `RsysMsg.Sender.SendData` | rsys/rsys_msg.c:104-140 | header then data; 0 exactly when everything is written, else a part and -1 |
| `Rsystem.Connection.Read` | rsys/rsystem.c:242-264 | a read gives the next bytes, at least one unless the connection is over |
| `Rsystem.Client.Display` | rsys/rsystem.c:255-287 | the data of a message are read to their end or to the loss of the connection, printed piece by piece, inside the buffer; what is left on the connection is told |
| `Rsystem.Client.Response` | rsys/rsystem.c:238-338 | for all bytes and all read sizes: status returned, text printed, bytes left on the connection and number of reads are those of the specification |
| `Rsystem.PayloadPrints` | rsys/rsystem.c:255-287 | for every fragmentation exactly the text of the message is printed and the count of remaining bytes reaches 0 |
| `Rsystem.RoundTrip` | rsys/rsystem.c:238-338 | for any DISPLAY messages then an EOC: exactly their texts, the encoded status, and exactly what follows left on the connection, when no header is cut by a read; otherwise -1 and a prefix of the text |
| `Rsystem.CallsAnswered` | rsys/rsystem.c:137-349 | any number of calls on one connection, each on what the one before has left: each gets the output and the status of its own command, or -1 and nothing when the daemon refuses it, up to the first one with a header cut by a read, which fails |
| `Rsystem.NothingInvented` | rsys/rsystem.c:238-338 | wherever the connection is lost and however reads fail, only a prefix of the output is printed, and a status other than -1 comes behind all of it |
| `Rsystem.Refused` | rsys/rsystem.c:312-336 | BUSY, OOM and any message that is not expected give -1, print nothing, and leave what follows on the connection |
| `ShellStatus.EncodedExact` | rsys/rsystem.c:290-310 | an exit code comes back as the exit status if and only if it is below 128 |
| `ShellStatus.EncodedMeans` | rsys/rsystem.c:290-310 | in the terms of <sys/wait.h>, for every number of the shell: below 128 an exit with this code and no signal; from 129 to 254 a death by the signal 128 below and no exit; 128 is an exit with code 0; 255 is neither; the -1 of a refused command stays -1 |
| `EndToEnd.CallAnswered` | rsys/rsystemd.c:1496-1617 | the EOC of a command comes behind its whole output, with its status, or with -1 if and only if the line that asks for the status has been refused by the shell |
| `EndToEnd.RsystemIsRight` | rsys/rsystem.c:238-338 | over every run of the daemon where no message fails before the end of an output, with any other clients, any chopping and any fragmentation, when the messages to this client are sent: `rsystem()` prints exactly the output of its own command, leaves what follows to the next call and returns the status of its command, which means its exit code or its signal, -1 if and only if the shell has refused the line that asks for it; when a read cuts a header it fails with a prefix of this output |
| `Session.SessionIsRight` | rsys/rsystem.c:137-349 | over the same runs, for a client to which all messages are sent: the successive calls on its connection, reading all its bytes in any pieces, each give the output of their own command and a status which means its exit code or its signal, or -1 and nothing for one refused or told BUSY, up to the first one with a header cut by a read, which fails with a prefix of the output |
| `Isys.Isys.RecvStatus` | isys/isys.c:126-229 | the loop over the ten-byte buffer computes the specification for all reads and never overflows it |
| `Isys.StatusReceived` | isys/isys.c:126-229 | without elapsed timeout the status is received for every chopping, digits and prompt together or apart |
| `Isys.SmallStatus` | isys/isys.c:126-229 | in particular for all statuses from 0 to 255 |
| `Isys.StatusTurnExact` | isys/isys.c:126-229 | each block received: behind the prompt the number of the line that ends there, if and only if this line is ended, fits the buffer, and is not ended by a newline alone with the prompt; another block is kept if it leaves room for its NUL, refused otherwise |
| `Isys.StatusIsReal` | isys/isys.c:126-229 | whatever the reads: a status is only told for the number of a line that stands before the prompt in what is received, and what follows the prompt is left |
| `Isys.StatusExact` | isys/isys.c:126-229 | for every chopping if and only if the number and its newline fit the buffer |
| `Isys.Isys.RecvData` | isys/isys.c:239-303 | what is printed, returned and kept is the specification for all reads |
| `Isys.OutputExact` | isys/isys.c:239-303 | the output is printed as it is for every chopping if and only if its last line is not empty |
| `Isys.Isys.System` | isys/isys.c:394-441 | the call over the real buffers prints, returns and keeps what the specification tells for all reads, or waits for ever with it |
| `Isys.SystemExact` | isys/isys.c:394-441 | the output is printed as it is, the status returned, which means the exit code or the signal, and nothing left for the next call, for every chopping of the two answers, if and only if the last line of the output is not empty and the number fits the buffer with its newline |
| `Isys.DataConserves` | isys/isys.c:239-303 | whatever the reads, their timeouts and errors: nothing of the output is lost, repeated or reordered, and only the prompt, with a lonely newline before it, is not printed |
| `Isys.SystemTold` | isys/isys.c:394-441 | a value other than -1 is only returned when both lines were submitted, the prompt was found behind the output and the number behind it received, and it is this number |
| `CtxList.CtxList.Insert` | pdip_lib.c:2557-2578 | prepends to the sequence of the objects; next and prev stay mutually inverse |
| `CtxList.CtxList.Unlink` | pdip_lib.c:2776-2799 | removes the object anywhere from the sequence |
| `CtxList.CtxList.Find` | pdip_lib.c:2955-2965 | the first object with the pid, or none when no object has it |
| `CtxList.CtxList.Contains` | pdip_lib.c:2829-2839 | found exactly when it is in the list |
| `CtxList.CtxList.Clear` | pdip_lib.c:3114-3131 | every object is taken out once, in order, although each is unlinked on the way |
| `LifeCycle.HandlerAssert` | pdip_lib.c:2968-2976 | the handler finds an object whose state is ALIVE, or INIT inside `pdip_exec()` |
| `LifeCalls.StateMoves` | pdip_lib.c:2935-2991 | for every event and object: ZOMBIE exactly at the signal of its own child, then only DEAD when the status is stored; ALIVE only in `pdip_exec()` and only when no signal came before; INIT again only by a new execution |
| `LifeCycle.StepKeeps` | pdip_lib.c:1762-2991 | every step of the thread, death, signal or loss of a signal keeps the truth of the fields of all objects |
| `LifeCycle.RunKeeps` | pdip_lib.c:1762-2991 | over every run: the assertions of the handler and of `pdip_exec()` hold, `waitpid()` and `kill()` only reach unreaped children, each child is reaped at most once |
| `LifeCycle.DeadObject` | pdip_lib.c:2265-2280 | DEAD goes with pid -1 and the status the child was reaped with |
| `LifeCycle.DeadStatusFixed` | pdip_lib.c:2265-2280 | the status of a dead object does not change until something else is executed in it |
| `LifeCycle.EndIsFinalOverRuns` | pdip_lib.c:2313-2316 | how a child ended never changes |
| `LifeCycle.ReportsAreReal` | pdip_lib.c:2409-2455 | every status reported, in both modes, is the one the child of the object died with; when one is reported is told by `LifeCycle.BlockingCall` and `LifeCalls.PollingCall` |
| `LifeCycle.BlockingStatus` | pdip_lib.c:2290-2335 | under every interleaving with deaths and signals, lost or not, a blocking `pdip_status()` on an object that has executed something is answered by nothing but the status that its child was reaped with; until then at most five steps are made in the call, and it is held up only while its own unreaped child is running |
| `LifeCycle.BlockingCall` | pdip_lib.c:2290-2335 | the same from the call itself: the next result is the real status, never an error nor "not yet" |
| `LifeCycle.DeletedLeavesNothing` | pdip_lib.c:2808-2921 | after the deletion of an object no child started in it is left unreaped, and the status returned is real, or 0 when nothing was executed |
| `LifeCalls.PollingCall` | pdip_lib.c:2345-2455 | non-blocking `pdip_status()` under every interleaving: an error exactly when nothing was executed; "not yet" exactly when the child is running at the `waitpid()` of this call; otherwise the status it was reaped with, in particular when it was dead or reaped at the call; at most five steps more, never held up |
| `LifeCalls.ExecutingCall` | pdip_lib.c:1762-2164 | `pdip_exec()` under every interleaving: an error exactly when a program, dead or not, is attached and its status has not been asked, or `fork()` fails; otherwise the pid of the child forked in the call; it waits for nothing else |
| `LifeCalls.DeletingCall` | pdip_lib.c:2625-2921 | `pdip_delete()` under every interleaving: it never fails, gives the status that the child was reaped with (0 when there was none), ends in at most 49 steps, and is held up only by its own child still running behind SIGTERM, the delay and SIGKILL |
| `Format.FormatParams` | pdip.c:1494-1627 | succeeds exactly when the string is well-formed and shorter than the room, which is what `Spelling.FormattedExact` characterises; the decoded text and its NUL are written, nothing at or beyond the room is |
| `Format.DecodeOfQuoted` | pdip.c:1527-1618 | decoding a quoted text gives the text back, whatever follows |
| `Format.FormattedQuote` | pdip.c:1494-1627 | for every text: decoding undoes quoting exactly when the text is shorter than the room |
| `Spelling.FormattedExact` | pdip.c:1494-1627 | for all parameters and texts: decoded to the text exactly when it is an opening quote, a spelling of the text in the documented notations (letters behind a backslash, control notation) given as byte numbers, and a closing quote, with room for the text and its NUL |
| `Spelling.ControlBytes` | pdip.c:1485-1617 | each byte below 32 is spelled by `^` and the character 64 above it, and `^C` is the byte 3 |
| `CommandLine.Command.Cut` | pdip.c:2103-2130 | the line read becomes a string without its newline, in its buffer, and is refused exactly by the grammar; otherwise the entries of the table are its arguments |
| `CommandLine.Command.EndPattern` | pdip.c:2157-2166 | the pattern of a `recv` without parameter is the one written exactly when nothing stands behind the keyword and there is room for it |
| `CommandLine.Command.Decoded` | pdip.c:2227-2234 | an argument is decoded into the second buffer, from its place in the line |
| `Split.ArgTable.NewArgv` | pdip.c:454-491 | the entry is appended, a NULL follows, there is room for one more |
| `Split.ArgTable.Reset` | pdip.c:415-428 | no entry, a NULL first |
| `Split.SplitCmdline` | pdip.c:500-658 | fails exactly on the lines that the grammar refuses; otherwise the entries of the table are the NUL-terminated arguments, cut in place |
| `Grammar.SplitExact` | pdip.c:500-658 | for all lines: success exactly on the lines of the grammar (blanks, a name, words and quoted strings behind blanks, a comment, which is glued to the parameter that it touches), and with these parts |
| `Split.RoundTrip` | pdip.c:500-658 | a command followed by any number of quoted texts is cut into exactly these, and each is decoded to its text exactly when there is room for it |
| `Synchro.Synchroniser.ReadLine` | pdip.c:1351-1402 | the working buffers hold the filtered first line and the signed counts of skipped characters, inside their bounds |
| `Synchro.Synchroniser.Handle` | pdip.c:1307-1482 | return code, output and remaining buffer are those of the specification, for every pattern and buffer |
| `Synchro.HandledConserves` | pdip.c:1307-1482 | what is written followed by what stays in the buffer is the original buffer, for any input |
| `Synchro.NotFoundKeepsNoLine` | pdip.c:1430-1480 | a return of 1 leaves no newline |
| `Synchro.OffsetMap` | pdip.c:1366-1391 | filtered character k is the raw one at k plus its count, and all the others before it are the filtered ones before |
| `Synchro.OffsetsExact` | pdip.c:1413-1447 | the offsets computed with signed chars are right if and only if at most 127 characters are skipped |
| `Synchro.TurnExact` | pdip.c:1357-1479 | one turn is right for every pattern if and only if at most 127 characters are skipped in the line |
| `Synchro.TameHandled` | pdip.c:1307-1482 | with at most 127 skipped in each line the search never loses its way |
| `Synchro.FoundExactly` | pdip.c:1404-1436 | a string found is consumed exactly through the raw position of its last character, behind complete lines |
| `FirstFound.FirstMatch` | pdip.c:1307-1482 | with at most 127 skipped in each line: found exactly when one of the lines begun so far has the string, consumed through the end of the match in the first of them; otherwise all the complete lines are written |
| `FirstFound.ControlsIgnored` | pdip.c:1366-1391 | a byte that is neither printable, nor a tab, nor a newline changes nothing to what is searched |
| `Synchro.EndlessExact` | pdip.c:1440-1466 | for every complete line without match: the buffer is left as it is, and the loop endless, if and only if the length of the line is a multiple of 256 and at most 128 of its characters are kept by the filter |
| `Synchro.EndlessLine` | pdip.c:1440-1466 | concrete line for which the length computed is 0 |
| `Interact.Interpreter.Turn` | pdip.c:1919-2527 | one turn of the loop over the descriptors, the flags and the buffers (outstanding data, line, arguments, decoded text) is the step of the specification, for every event; what a step does is told by the rows of `Scripts` |
| `Interact.Interpreter.Run` | pdip.c:1901-2533 | turn after turn, the state is the one of the specification and meets the control invariant |
| `Interact.TurnKeeps` | pdip.c:1919-2527 | every turn keeps the control invariant |
| `Interact.RunKeeps` | pdip.c:1900-2533 | over every run: a `recv` is pending exactly when the script is not listened to, and then the program is; one of them always is; the timeout is armed exactly during a `recv` with a timeout; no command runs between a `recv` and its match; output is written without loss, in order |
| `Interact.TextReaches` | pdip.c:2120-2326 | a text quoted in a `send` or `print` line is cut, decoded, and reaches the program or the output as it is, exactly when there is room for it |
| `Scripts.RecvLine` | pdip.c:2153-2211 | a `recv` with a parameter, on any line made of these two parts: its own pattern is compiled, the script is not listened to, the program is; what is outstanding is searched at once, and the `recv` ends there exactly when one of its lines matches, with the output written through the match |
| `Scripts.RecvReaches` | pdip.c:2153-2211 | the same from any text quoted in the line |
| `Scripts.RecvGoesOn` | pdip.c:2040-2068 | a later read of the program ends the `recv` exactly when a line of all the output that has come matches, and writes through the match; otherwise it goes on with the same pattern and timeout |
| `Scripts.BareWaits` | pdip.c:2157-2166 | `recv` alone on its line waits for the pattern `"$"` |
| `Scripts.OutputKept` | pdip.c:2030-2068 | without `recv` the output that comes is kept for the next one, neither searched nor written |
| `Scripts.SpelledReaches` | pdip.c:2213-2326 | a text in any of its notations in a `send` or `print` line arrives exactly when the string can be cut from the line and there is room for the text; otherwise the script is stopped and nothing of it arrives |
| `Scripts.Interrupt` | pdip.c:2213-2259 | `send "^C"` gives the byte 3 to the program |
| `Scripts.QuitRefused` | pdip.c:630-655 | `send "^\"`, a spelling of the byte 28, stops the script |
| `Scripts.TimedRecv` | pdip.c:2140-2211 | `timeout n`, then a `recv` of what has not come: time is counted exactly when the number is not 0 modulo 2^32, and when it runs out -2 is returned |
| `Scripts.CommandLines` | pdip.c:2140-2503 | the other commands by their names and numbers of parameters: what goes on, what fails, what ends |
| `Scripts.OtherLines` | pdip.c:2103-2138 | an empty line or a comment does nothing, a `recv` with two parameters fails, a line out of the grammar stops with -3 |
| `Scripts.ReturnCodes` | pdip.c:1919-2527 | turn by turn: 0 exactly for the end of the program, of the script or `exit`, -2 exactly for the time of a `recv`, -3 exactly for a line out of the grammar |
| `Scripts.Failures` | pdip.c:1951-2000 | an interruption changes nothing, a failure of the system ends with -1, nothing to read is no end |
| `Scripts.EndsWritten` | pdip.c:1919-1950 | at the death of the program and at the end of the script all the output received has been written, in order |
| `Interact.BareRecv` | pdip.c:2157-2166 | a `recv` without parameter waits for an end of line if and only if nothing stands behind the keyword, not even a blank or a comment, and there is room for the pattern |
| `Interact.BlankBehind` | pdip.c:2157-2166 | the input of this failure: one blank behind the keyword |
| `CpuSet.Set` | pdip_lib.c:1575-1589 | only the bit of the CPU is set; EINVAL outside |
| `CpuSet.SetAll` | pdip_lib.c:1554-1566 | all the CPUs |
| `CpuSet.Zero` | pdip_lib.c:1534-1546 | no CPU |
| `Affinity.GetAffinity` | rsys/rsystemd.c:551-802 | return code, offset and bitmap are those of the specification, with 32-bit numbers and clamping |
| `Affinity.ParseStops` | rsys/rsystemd.c:551-802 | an accepted list is left exactly at the first colon or at the end |
| `Affinity.ListMeans` | rsys/rsystemd.c:551-802 | for all lists of fields: accepted exactly when no closed interval is empty and no open one has a field behind it; all CPUs when a field is empty or an interval is not last, else the union of the fields |
| `Affinity.ListExact` | rsys/rsystemd.c:551-802 | for all texts without colon: accepted exactly when it is a list of fields, all of them acceptable |
| `Affinity.NumberMeans` | rsys/rsystemd.c:551-802 | a decimal number is read modulo 2^32 |
| `Affinity.IntervalThenNumber` | rsys/rsystemd.c:551-802 | a concrete list, an interval and a number, that gives all the CPUs and not those of its fields |
| `Affinity.CountShells` | rsys/rsystemd.c:856-880 | one shell for each list of the option |
| `Affinity.CreateTable` | rsys/rsystemd.c:890-926 | the walk stays in the table and ends on its last entry; each shell gets the CPUs of its own list; refused exactly because of a list that is |

## Left out

- Creation of the pseudo-terminal, fork and exec, terminal settings, sockets, daemon mode, options, help texts, traces and dumps: plumbing around the logic modelled here.
- Failures of memory allocation (except for the context of a new client) and of the compilation of a pattern, and NUL bytes in the stream of a program: the code stops on them.
- Real time: timeouts are arbitrary events.
- The thread that closes sockets gracefully (rsys/rsystemd.c:307-426).
- Multi-threaded use of one object, SIGCHLD of stopped children, execution with a CPU bitmap inherited from a dead object.
- LifeCycle.BlockingStatus: `pdip_status()` in blocking mode on an object that has executed nothing waits for any child (pdip_lib.c:2306-2316); `LifeCycle.Enabled` excludes this call.
- pdip_flush(): only its effect on the data is modelled, not the check of the state of the object before it (pdip_lib.c:2220-2229).
- The initial value of the client pointer of a shell: the code leaves it unset (rsys/rsystemd.c:1001-1007), the model takes a null pointer.
- Server.Server.Iterate: a failure of `accept()` ends the daemon and is not modelled; the reception of each ready shell is taken from the specification that `PdipLib.PdipCtx.Recv` is proved to compute, and `requires` that it ends with the reads given.
- The fields `id` of a client context and `accepted` of the server number the clients in the model; the code has pointers only. The command text of a client is not modelled.
- A failed assertion of the daemon is recorded (`crashed`), the run of the model goes on.
- LifeCalls.ExecutingCall: errors of arguments, of memory and of the pseudo-terminal before `fork()` (pdip_lib.c:1780-1960) are not modelled.
- The formatting of commands and the trimming of blanks at their end (isys/isys.c:341-392, rsys/rsystem.c:208-214); `isystem()` on a null or an empty command, which returns 0 at once (isys/isys.c:322-370).
- Interact.Receive: when a `recv` without parameter does not find the pattern that it writes, the code goes on with what its buffer holds there, or stops (pdip.c:1649-1685); the model ends there with 2.
- Delays and debug levels of scripts have no effect in the model; signals, processes and writes succeed or fail as told by the event.
- What is still in the pseudo-terminal when the death of a program is noticed (pdip.c:1937-1940) is not part of the model of the interpreter.
- Synchro.TurnOf: returns Lost where the length computed is out of the buffer or the loop endless; what the code does then is not modelled further.
- Leaks of memory: the copy branch of the append drops the buffer of the user (pdip_lib.c:602-621).
