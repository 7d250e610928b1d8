# NSM Proxy, modelled in Dafny

`nsm-proxy` lets a program with no NSM (Non Session Manager) support take
part in a session anyway. It registers with the session manager as a
client, runs the real program (the *proxied process*) as a child through
`/bin/sh -c`, and stores the command line, the save and stop signals and a
label in `nsm-proxy.config` in the session directory. A separate GUI,
`nsm-proxy-gui`, edits that configuration over OSC.

This project models `src/nsm-proxy.cpp` imperatively, in the program's own
shape:

- `NsmProxy.Proxy` is the `NSM_Proxy` descriptor. It has the same fields and
  one method per member function.
- `NsmProxy.App` holds the file globals (`nsm_addr`, `gui_addr`,
  `nsm_is_active`, `project_file`, `die_now`, `nsm_client_id`,
  `nsm_display_name`, `gui_pid`). It also has `snapshot`, `open`,
  `show_gui`, `hide_gui`, every OSC handler, the dispatch of `init_osc`'s
  table, `handle_sigchld`, `signal_handler`, `die` and one pass of the main
  loop.
- `Host.Host` stands for the operating system and the network, and keeps a
  record of every effect:
  - the file system is a map from path to text, plus the paths that cannot
    be opened for reading or for writing;
  - `fork` returns values from a script chosen in advance: a child pid, or
    -1 for a failure;
  - every `fork`, `kill` and `lo_send_from` call is appended to a log.
- Pure modules state what the methods are proved to do:
  - `ConfigFile`: the `dump` text format, the `fscanf` record scanner of
    `restore`, and the dump/restore round trip;
  - `WaitStatus`: the glibc encoding of `waitpid` statuses and the
    classification `handle_sigchld` applies;
  - `Osc`: messages, type signatures and the dispatch table;
  - `Text`: `isspace`, `%i` and `atoi`;
  - `ProxyLogic`: how `start` launches, the client-error text, the per-child
    step of `handle_sigchld`, and the `update` report;
  - `Effects`: everything the handlers, the dispatch, `handle_sigchld` and
    `die` change, as one `World` value. The OSC handlers, `Dispatch`,
    `HandleSigchld`, `Die` and `Step` are proved to move `App.Now()` exactly
    as their functions here say, so `App.Step` states the whole state after
    one pass of the main loop. `Snapshot`, `ShowGui`, `HideGui` and
    `SignalHandler` state their effect field by field, through `Dumped`,
    `GuiShown` or the fields themselves.

Every `App` method that may fork or signal requires and ensures the
invariant `App.Valid()`; the others (`Snapshot`, `OscAnnounceError`,
`OscAnnounceReply`, `SignalHandler`, `Adopt`, `AdoptRestored`) change no
field it reads. The invariant says that each recorded pid of the proxied process or the GUI was returned by a `fork` of
that program. It also says that no signal has ever gone to pid 0, or to a
value no `fork` returned. It is a bookkeeping invariant, and falls short of
process safety in two ways:

- -1 from a failed `fork` counts as returned, so after a failed fork
  `kill` and `save` may signal pid -1, which reaches every process the user
  may signal.
- A proxied process that dies by a signal other than TERM, HUP, INT or KILL
  (SIGSEGV, say) stays recorded, because `handle_sigchld` ignores that case.
  Later signals then go to a pid that no longer names it.

The model follows the code in these places, where its behaviour is easy to
misread:

- `start` with an empty executable string still forks. Only an unset
  executable returns `false`.
- `nsm_is_active` is a plain flag. A failed announcement resets it to the
  same value it started with.
- `show_gui` forks a new GUI even when one is running.
- `osc_open` calls `open` (hence `start`, which dumps) before it sets
  `project_file`. The dump of a re-opened session therefore goes to the
  previous project directory. On the first open it goes to
  `(null)/nsm-proxy.config`.
- A failed `fork` leaves -1 in `_pid` (or `gui_pid`). Every later `start`
  then reports success without forking, and `kill`/`save` signal pid -1.
  `App.Valid()` counts -1 as a pid a `fork` returned.

## Model

| member | source | states |
|---|---|---|
| NsmProxy.Proxy.constructor | src/nsm-proxy.cpp:73-80 | no label, executable, arguments or config file; save signal 0, stop signal SIGTERM, no pid, no client error |
| NsmProxy.Proxy.HandleClientDeath | src/nsm-proxy.cpp:86-99 | stores the error text for the status, forks and announces a GUI, clears the pid; settings, session globals, files and signals unchanged; keeps the process invariant |
| NsmProxy.Proxy.Kill | src/nsm-proxy.cpp:101-107 | sends the stop signal to the recorded pid exactly when one is recorded; nothing else changes |
| NsmProxy.Proxy.StartWith | src/nsm-proxy.cpp:109-131 | replaces executable, arguments and config file, and keeps the other settings; then the dump and launch outcome of `start` |
| NsmProxy.Proxy.Start | src/nsm-proxy.cpp:133-179 | dumps the settings to the current project's file, then the result, pid and fork log are those of `Launch`; no signal or message |
| NsmProxy.Proxy.SetSaveSignal | src/nsm-proxy.cpp:181-184 | only the save signal changes |
| NsmProxy.Proxy.SetStopSignal | src/nsm-proxy.cpp:186-189 | only the stop signal changes |
| NsmProxy.Proxy.Label | src/nsm-proxy.cpp:191-199 | only the label changes, and one `/nsm/client/label` message with it goes to the NSM address |
| NsmProxy.Proxy.Save | src/nsm-proxy.cpp:201-206 | sends the save signal to the recorded pid exactly when one is recorded; nothing else changes |
| NsmProxy.Proxy.RecordText | src/nsm-proxy.cpp:223-238 | the text printed is the rendering of the current settings |
| NsmProxy.Proxy.Dump | src/nsm-proxy.cpp:209-243 | succeeds exactly when the file in the directory can be opened for writing, and then holds the rendering of the settings; otherwise no file changes |
| NsmProxy.Proxy.Restore | src/nsm-proxy.cpp:245-298 | fails and changes nothing when the file cannot be read; otherwise the settings are the records applied in order, one label notice goes out per label record, then `start` dumps and launches with the new settings |
| NsmProxy.Proxy.ReadRecords | src/nsm-proxy.cpp:259-291 | the `fscanf` loop: the settings become the scanned records applied in order, and the outbox gains the label notices |
| NsmProxy.Proxy.ApplyRecord | src/nsm-proxy.cpp:264-288 | one record by the `strcmp` chain: the settings become `Apply` of it, and a label record is announced |
| NsmProxy.Proxy.Update | src/nsm-proxy.cpp:300-313 | sends exactly the seven-message state report, with "" for each unset text, to the given address |
| NsmProxy.ConsistentAfterFork | src/nsm-proxy.cpp:147-176 | a fork keeps the process invariant and makes the child a valid record for its program |
| NsmProxy.ConsistentAfterSignal | src/nsm-proxy.cpp:101-107 | a signal to a non-zero pid some fork returned keeps the process invariant |
| NsmProxy.App.constructor | src/nsm-proxy.cpp:42-52 | all globals start null or zero; the descriptor starts with its defaults; the invariant holds |
| NsmProxy.App.Snapshot | src/nsm-proxy.cpp:318-322 | dumps to the given project (`(null)` when unset) and reports whether the file could be opened |
| NsmProxy.App.Open | src/nsm-proxy.cpp:343-354 | `restore` of `<dir>/nsm-proxy.config`, with the same outcomes |
| NsmProxy.App.ShowGui | src/nsm-proxy.cpp:409-435 | forks the GUI with the server URL, stores what `fork` returned as the GUI pid, sends `gui_is_shown` |
| NsmProxy.App.HideGui | src/nsm-proxy.cpp:449-456 | sends SIGTERM to the GUI exactly when a GUI pid is recorded |
| NsmProxy.App.OscSave | src/nsm-proxy.cpp:392-405 | dumps and sends the save signal; replies OK exactly when the file could be written, otherwise sends an error with code -1 |
| NsmProxy.App.OscShowGui | src/nsm-proxy.cpp:437-447 | `show_gui`, then an OK reply |
| NsmProxy.App.OscHideGui | src/nsm-proxy.cpp:458-470 | `hide_gui`, then `gui_is_hidden`, then an OK reply |
| NsmProxy.App.OscAnnounceError | src/nsm-proxy.cpp:362-375 | clears `nsm_is_active` only for an error about the announce request |
| NsmProxy.App.OscAnnounceReply | src/nsm-proxy.cpp:378-390 | only for a reply to the announce request: sets `nsm_is_active` and adopts the sender as the NSM address |
| NsmProxy.App.OscOpen | src/nsm-proxy.cpp:472-530 | takes the client id and name; three outcomes by the state of the saved file: missing (GUI shown), unreadable (error reply, project unchanged), readable (restored and started, dumped to the previous project); then reply and report; the state afterwards is `Effects.OpenEffect` of the state before |
| NsmProxy.App.OpenNew | src/nsm-proxy.cpp:499-528 | a session without a saved file: the GUI is forked and announced, then the project is adopted, the reply sent and the GUI refreshed |
| NsmProxy.App.OpenSaved | src/nsm-proxy.cpp:499-528 | a session with a saved file: either the error reply with nothing else changed, or the restored settings, the launch, the dump and the messages in order |
| NsmProxy.App.AdoptRestored | src/nsm-proxy.cpp:509-528 | `gui_is_hidden`, then the adoption of the project path |
| NsmProxy.App.Adopt | src/nsm-proxy.cpp:517-528 | sets the project path, replies OK, and sends the state report to a known GUI |
| NsmProxy.App.OscLabel | src/nsm-proxy.cpp:536-542 | `label` of the argument |
| NsmProxy.App.OscSaveSignal | src/nsm-proxy.cpp:544-550 | only the save signal changes |
| NsmProxy.App.OscStopSignal | src/nsm-proxy.cpp:552-558 | only the stop signal changes |
| NsmProxy.App.OscStart | src/nsm-proxy.cpp:560-571 | new command line; the file holds the dump of the new settings; the launch outcome of `start`; SIGTERM to the GUI only when `start` succeeded and a GUI pid is recorded |
| NsmProxy.App.OscKill | src/nsm-proxy.cpp:573-579 | `kill` of the proxied process |
| NsmProxy.App.OscUpdate | src/nsm-proxy.cpp:581-591 | sends the state report to the sender and records it as the GUI address |
| NsmProxy.App.SignalHandler | src/nsm-proxy.cpp:595-599 | raises the shutdown flag and nothing else |
| NsmProxy.App.Die | src/nsm-proxy.cpp:641-654 | SIGTERM to a recorded GUI, then the stop signal to a recorded proxied process, then exit; the state afterwards is `Effects.Died` of the state before, so nothing else changes |
| NsmProxy.App.Dispatch | src/nsm-proxy.cpp:613-639 | the state afterwards is `Effects.Dispatched` of the state before: the handler the table chooses for the path and exact signature, run on the arguments; a message that matches no entry changes nothing; the shutdown flag and the exit flag are unchanged |
| NsmProxy.App.ServeServer | src/nsm-proxy.cpp:360-530 | runs the session-manager handler `h` on the arguments of its registered signature: the state afterwards is `Effects.Handle` of the state before for that handler |
| NsmProxy.App.ServeGui | src/nsm-proxy.cpp:532-591 | runs the GUI handler `h` on the arguments of its registered signature: the state afterwards is `Effects.Handle` of the state before for that handler |
| NsmProxy.App.HandleSigchld | src/nsm-proxy.cpp:657-711 | the state after the loop is `ReapAll` of the reaped children (`Effects.Reap` of the whole state); settings, session globals, files and signals unchanged |
| NsmProxy.App.Step | src/nsm-proxy.cpp:747-761 | the whole state after one pass: the reaping (when SIGCHLD is pending), then the dispatch of the inbound message, then `die` exactly when the shutdown flag is up afterwards, which adds its two signals and sets the exit flag |
| NsmProxy.App.Now | src/nsm-proxy.cpp:42-52 | the globals, the descriptor and the host's files, processes and logs as one `World` |
| NsmProxy.PrintRecord | src/nsm-proxy.cpp:224-238 | one `fprintf` of a record: the text written so far stays the encoding of the records written so far, the new one last |
| NsmProxy.PrintOptional | src/nsm-proxy.cpp:224-238 | a text field is written exactly when it is set and non-empty, keeping the text the encoding of the records written |
| Effects.SignalIfSet | src/nsm-proxy.cpp:101-107 | `kill(pid, sig)` guarded by a non-zero pid, as in `kill`, `save`, `hide_gui` and `die` |
| Effects.SaveEffect | src/nsm-proxy.cpp:392-405 | dump to the project's file, the save signal to a recorded pid, then `/reply` OK when the file could be written and `/error` -1 otherwise |
| Effects.Adopted | src/nsm-proxy.cpp:517-528 | the project path becomes the new one, `/reply` OK, then the state report to a known GUI |
| Effects.OpenEffect | src/nsm-proxy.cpp:472-530 | the client id and display name are taken before anything else, then `Opened` |
| Effects.Opened | src/nsm-proxy.cpp:495-528 | no saved file: show the GUI and adopt; an unreadable one: only the `/error` reply, project unchanged; a readable one: restore and start, `gui_is_hidden`, adopt |
| Effects.Restored | src/nsm-proxy.cpp:245-298 | the records applied in order, one label notice per label record, then the dump to the current project and the launch with the session's id and name |
| Effects.ShowGuiEffect | src/nsm-proxy.cpp:437-447 | `show_gui`, then `/reply` OK |
| Effects.HideGuiEffect | src/nsm-proxy.cpp:458-470 | SIGTERM to a recorded GUI, then `gui_is_hidden`, then `/reply` OK |
| Effects.AnnounceErrorEffect | src/nsm-proxy.cpp:362-375 | clears `nsm_is_active` only for an error about the announce request |
| Effects.AnnounceReplyEffect | src/nsm-proxy.cpp:378-390 | for a reply to the announce request, sets `nsm_is_active` and takes the sender as the NSM address; otherwise nothing |
| Effects.LabelEffect | src/nsm-proxy.cpp:536-542 | the label is set and one `/nsm/client/label` notice goes to the NSM address |
| Effects.StartEffect | src/nsm-proxy.cpp:560-571 | the new command line, the second dump's text in the project's file, the launch, and SIGTERM to a recorded GUI only when `start` succeeded |
| Effects.UpdateEffect | src/nsm-proxy.cpp:581-591 | the state report to the sender, which becomes the GUI address |
| Effects.Handle | src/nsm-proxy.cpp:360-591 | each of the twelve handlers with its arguments; `open` and `start` take the three strings in the order the handler reads them |
| Effects.Dispatched | src/nsm-proxy.cpp:613-639 | the handler `Lookup` chooses for the message's path and signature, or no change |
| Effects.Reap | src/nsm-proxy.cpp:657-711 | `ReapAll` on the process part of the state, with the current NSM address |
| Effects.Died | src/nsm-proxy.cpp:641-654 | SIGTERM to a recorded GUI, then the stop signal to a recorded proxied process |
| Effects.DispatchRoutes | src/nsm-proxy.cpp:624-637 | a message with a table entry's path and types runs exactly that entry's handler, with arguments of its signature |
| Effects.DispatchKeepsShutdown | src/nsm-proxy.cpp:360-591 | no handler changes the shutdown flag |
| Effects.HandleKeepsShutdown | src/nsm-proxy.cpp:360-591 | each handler leaves the shutdown flag as it was |
| Effects.OpenedKeepsShutdown | src/nsm-proxy.cpp:495-528 | opening a session, in each of its three outcomes, leaves the shutdown flag |
| Effects.StartKeepsShutdown | src/nsm-proxy.cpp:560-571 | `osc_start` leaves the shutdown flag |
| Effects.GuiLeavesSession | src/nsm-proxy.cpp:532-591 | a GUI message changes no session global, except that `update` records its sender as the GUI address |
| Effects.ServerKeepsSettings | src/nsm-proxy.cpp:360-470 | a session-manager message other than `open` leaves the persisted settings |
| Effects.DiedSignals | src/nsm-proxy.cpp:641-654 | `die` only appends to the signal log: at most two signals, none to pid 0, the GUI's SIGTERM first and the stop signal last |
| ProxyLogic.Launch | src/nsm-proxy.cpp:133-179 | `start`: success without a fork when a pid is recorded, failure when no executable is set, otherwise a fork of the shell command whose result is stored and is a success when positive |
| ProxyLogic.ClientErrorText | src/nsm-proxy.cpp:94 | the error text with the exit status printed by `%i` |
| ProxyLogic.StateReport | src/nsm-proxy.cpp:304-310 | the seven update messages in order, with "" for each unset text |
| ProxyLogic.GuiShown | src/nsm-proxy.cpp:410-435 | the GUI pid is what `fork` returned, one fork of the GUI with the server URL, one `gui_is_shown` notice |
| ProxyLogic.ClientDeath | src/nsm-proxy.cpp:86-99 | the error text for the status is stored, the GUI shown, then the pid cleared |
| ProxyLogic.ReapStep | src/nsm-proxy.cpp:664-709 | the GUI's exit is announced hidden and forgotten; otherwise the child's status is classified: shutdown, ignored, or client death with its code |
| ProxyLogic.ReapAll | src/nsm-proxy.cpp:659-711 | one step per reaped child, stopping at the first result without a child |
| ConfigFile.PathIn | src/nsm-proxy.cpp:347 | `<dir>/nsm-proxy.config` |
| ConfigFile.FieldOf | src/nsm-proxy.cpp:264-284 | the field the `strcmp` chain picks for a record name, or none for an unknown name |
| ConfigFile.Entries | src/nsm-proxy.cpp:224-238 | the records `dump` writes, in its order: each text field only when set and non-empty, both signals always |
| ConfigFile.EncodeEntry | src/nsm-proxy.cpp:225 | `<name>\n\t<value>\n` |
| ConfigFile.Render | src/nsm-proxy.cpp:224-238 | the file text: the records of `Entries` encoded one after the other |
| ConfigFile.Records | src/nsm-proxy.cpp:259 | the records the `fscanf` loop reads, up to the first failed scan |
| ConfigFile.Apply | src/nsm-proxy.cpp:264-288 | one record: a text field takes the value, a signal takes its `atoi`, a label sets the label, an unknown name changes nothing |
| ConfigFile.ApplyAll | src/nsm-proxy.cpp:259-291 | the records applied in order |
| Text.IntToString | src/nsm-proxy.cpp:233-235 | the decimal text `%i` prints |
| Text.Atoi | src/nsm-proxy.cpp:272 | `atoi`: leading white space, an optional sign, the longest run of digits, 0 when there is none |
| WaitStatus.Exited | src/nsm-proxy.cpp:691 | `WIFEXITED`: the low seven bits are zero |
| WaitStatus.ExitCode | src/nsm-proxy.cpp:695-697 | `WEXITSTATUS`: bits 8 to 15 |
| WaitStatus.Signaled | src/nsm-proxy.cpp:677 | `WIFSIGNALED`: the low seven bits are neither 0 nor the stopped marker |
| WaitStatus.TermSig | src/nsm-proxy.cpp:680-683 | `WTERMSIG`: the low seven bits |
| Host.Host.Exists | src/nsm-proxy.cpp:499 | `stat` succeeds exactly for a present file |
| Host.Host.Contents | src/nsm-proxy.cpp:247-252 | `fopen` for reading gives the file's text exactly when the file is present and readable |
| Host.Host.Fork | src/nsm-proxy.cpp:147-148 | `fork` returns the next scripted result and logs the program forked; files, signals and messages unchanged |
| Host.Host.Kill | src/nsm-proxy.cpp:105 | `kill` appends exactly one signal to the log and changes nothing else |
| Host.Host.Send | src/nsm-proxy.cpp:434 | `lo_send_from` appends exactly one message to the log and changes nothing else |
| Host.Host.Write | src/nsm-proxy.cpp:214-240 | `fopen` for writing fails exactly on unwritable paths; on success the file holds the text, nothing else changes |
| ProxyLogic.LabelNoticesAt | src/nsm-proxy.cpp:280-284 | the `k`th notice restore sends is `/nsm/client/label` with the `k`th label record's value, to the NSM address, as `label()` (191-199) sends it |
| ProxyLogic.LabelNotices | src/nsm-proxy.cpp:280-284 | one `/nsm/client/label` notice per label record, in file order |
| ProxyLogic.Reply | src/nsm-proxy.cpp:400 | `/reply` with `"ss"` arguments: the request path and "OK", as also sent at lines 444, 467 and 524 |
| ProxyLogic.Failure | src/nsm-proxy.cpp:402 | `/error` with `"sis"` arguments: the request path, -1 and the text, as also sent at line 506 |
| WaitStatus.IsStopSignal | src/nsm-proxy.cpp:680-683 | exactly SIGTERM, SIGHUP, SIGINT or SIGKILL |
| ConfigFile.FieldName | src/nsm-proxy.cpp:224-238 | the record name `dump` writes for each field, the same strings `restore` compares at lines 264-280 |
| Osc.Signature | src/nsm-proxy.cpp:624-637 | the type string each handler is registered with |
| Osc.FromServer | src/nsm-proxy.cpp:623-637 | the six handlers registered under the session-manager part of the table, as opposed to the six GUI ones |
| ProxyLogic.LaunchCommand | src/nsm-proxy.cpp:156-159 | `exec <exe> <args> >error.log 2>&1`, with nothing between the two spaces when there are no arguments |
| ProxyLogic.LaunchCommandNoArguments | src/nsm-proxy.cpp:156-159 | empty arguments and unset arguments give the same command |
| ProxyLogic.LaunchOutcome | src/nsm-proxy.cpp:137-178 | `start` succeeds exactly when a pid is recorded, or an executable is set and `fork` returns a child; it forks exactly when no pid is recorded and an executable is set; without a fork the pid and logs stay, with one the pid is what `fork` returned, it succeeds exactly when that is positive, and the fork is of the shell |
| ProxyLogic.LaunchTwice | src/nsm-proxy.cpp:137-139 | once a pid is recorded, another `start` changes nothing and reports success |
| ProxyLogic.LaunchAfterFailedFork | src/nsm-proxy.cpp:176-178 | a failed fork stores -1 and fails; the next `start` then reports success without forking |
| ProxyLogic.ClientErrorStatus | src/nsm-proxy.cpp:94 | the exit status can be read back from the error text |
| ProxyLogic.Dumped | src/nsm-proxy.cpp:213-240 | the target holds the rendered settings when it can be opened; every other file is unchanged and no other file appears |
| ProxyLogic.DumpedTwice | src/nsm-proxy.cpp:563-565 | the second of two dumps to one file replaces the first, as `osc_start` dumps twice |
| ProxyLogic.ReportRoutes | src/nsm-proxy.cpp:304-310 | the save signal, label and stop signal messages of the report are routed back to the proxy's own handlers that set those fields |
| ProxyLogic.ReapAllMonotone | src/nsm-proxy.cpp:657-711 | reaping never lowers the shutdown flag, only ever clears the proxied pid, and only appends to the fork and message logs |
| ProxyLogic.ReapGui | src/nsm-proxy.cpp:667-675 | the GUI's exit, whatever its status, only announces it hidden and clears the GUI pid |
| ProxyLogic.ReapKilled | src/nsm-proxy.cpp:677-690 | death by TERM, HUP, INT or KILL raises the shutdown flag; any other signal changes nothing |
| ProxyLogic.ReapExit | src/nsm-proxy.cpp:691-709 | exit 0 raises the shutdown flag; any other code is a client death: error text, GUI forked and announced, pid cleared |
| ProxyLogic.ReapAbnormalReports | src/nsm-proxy.cpp:704-708 | after an abnormal exit the stored error text names the exit code |
| WaitStatus.Classify | src/nsm-proxy.cpp:677-709 | abnormal exactly for an exit with a non-zero code, and then carries that code, between 1 and 255; a shutdown exactly for a signal death by TERM, HUP, INT or KILL or an exit with code 0; everything else is ignored |
| WaitStatus.ClassifyExit | src/nsm-proxy.cpp:691-709 | an exit status is not a signal death, gives back its code, and is a shutdown exactly for code 0 |
| WaitStatus.ClassifyKill | src/nsm-proxy.cpp:677-690 | a signal death is not an exit, gives back its signal, and is a shutdown exactly for TERM, HUP, INT and KILL |
| WaitStatus.ExitOrSignal | src/nsm-proxy.cpp:677-691 | no status is both an exit and a signal death; every signal death is `KilledBy` its signal |
| Osc.Typespec | src/nsm-proxy.cpp:624-637 | one tag per argument, `s` exactly for strings and `i` exactly for integers |
| Osc.Lookup | src/nsm-proxy.cpp:624-637 | no handler exactly when no entry matches path and signature; otherwise the handler of a matching entry |
| Osc.TablePathsDistinct | src/nsm-proxy.cpp:624-637 | no path is registered twice |
| Osc.LookupRoute | src/nsm-proxy.cpp:624-637 | each entry's own path and signature reach its handler |
| Osc.RoutedSignature | src/nsm-proxy.cpp:624-637 | a routed message has exactly the handler's registered signature, so the handler's argument accesses are in range and of the right type |
| ConfigFile.DumpTarget | src/nsm-proxy.cpp:211-212 | `<dir>/nsm-proxy.config`, with `(null)` for an unset directory |
| ConfigFile.FieldOfName | src/nsm-proxy.cpp:264-284 | every record name `dump` writes is recognised by `restore` as the same field |
| ConfigFile.FieldNamesDistinct | src/nsm-proxy.cpp:224-238 | distinct fields are written under names `restore` tells apart |
| ConfigFile.ScanRecord | src/nsm-proxy.cpp:259 | a successful scan consumes input, and yields a non-empty single-line name and a non-empty single-line value not starting with white space |
| ConfigFile.ScanEncoded | src/nsm-proxy.cpp:224-238 | scanning a well-formed written record gives back that record and the rest of the text |
| ConfigFile.RecordsOfEncode | src/nsm-proxy.cpp:259 | the scanner loop reads back every well-formed record written, in order |
| ConfigFile.EntriesWellFormed | src/nsm-proxy.cpp:224-238 | every record `dump` writes for storable settings is well formed |
| ConfigFile.ApplyEntries | src/nsm-proxy.cpp:264-288 | applying the records `dump` writes gives the merge of the dumped settings over the prior ones |
| ConfigFile.RestoreOfDump | src/nsm-proxy.cpp:209-298 | restore of a dump: the same records, so the signals and every written text field come back and every omitted field keeps its prior value; exactly the written label is announced |
| ConfigFile.RestoreOfFullDump | src/nsm-proxy.cpp:209-298 | with all four text fields written, restore gives back exactly the dumped settings |
| Text.AtoiRoundTrip | src/nsm-proxy.cpp:233-235 | `atoi` reads back every integer `%i` printed, so both signals survive a dump and restore |

## Left out

- OSC transport: liblo's sockets, the server URL (a constant of `App`), message encoding, and the address objects (`lo_address` is modelled by its URL) are not modelled.
- liblo's type coercion is not modelled. A message is dispatched to a handler only when its type signature matches exactly.
- A handler that returns -1 to pass a message on to later handlers has no effect here, because no other entry matches its path. The unreachable `types` check in `osc_announce_error` is left out.
- `announce`, `set_traps`, `main`'s set-up (the `signalfd`, the exit when `NSM_URL` is unset) and the endless loop are not modelled. `App.Step` models one pass of that loop.
- Signals arrive asynchronously in the program. Here they are the parameters of `App.Step` and `App.SignalHandler`, and the reaped children are a list given to `App.HandleSigchld`.
- What a forked child runs is recorded as a `Host.Program`, not executed. This covers the environment it sets (`NSM_CLIENT_ID`, `NSM_SESSION_NAME`, `CONFIG_FILE`, the removal of `NSM_URL`), `execvp`, and the child's `exit(1)` when exec fails. Passing a NULL client id or session name to `setenv` is not modelled.
- `mkdir` and `chdir` in `osc_open` are left out, as is logging.
- NsmProxy.Proxy.Dump: writes the whole text in one step. An open that fails leaves the files unchanged, just as in the source. Partial writes and write errors after a successful open are not modelled.
- NsmProxy.Proxy.Restore: `fopen` failure is a set of unreadable paths, not an `errno`.
- Text.Atoi: unbounded. The `int` overflow of `atoi`, and the 32-bit range of OSC integers, are not modelled.
- ConfigFile.RestoreOfDump: requires each written text field to be on one line and not start with white space. The scanner does not read other values back intact, and the source makes no promise about them.
- `stop_signal()` (the getter on line 71) is not modelled. Nothing calls it.
- ConfigFile.FieldOf and ConfigFile.Apply: strings here have no terminating NUL. `%m[^\n]` keeps NUL bytes, and `strcmp` and the stored `char *` stop at the first one, so the source applies a record named `label\0x` as a label and uses a value only up to its first NUL. The model compares and stores the whole line, and ignores such a record.
- Osc.Lookup: liblo also matches OSC address patterns (`*`, `?`, `[...]`, `{...}`) in an incoming path against every registered method. The model matches the path exactly, so it does not capture a pattern message reaching one or several handlers.
- What liblo does with a message sent while `nsm_addr` is still NULL is not modelled. Such a message is logged with no address (`Message(None, ...)`).
- Memory management (`free`, `strdup`, the leaked `asprintf` buffers) is not modelled.
