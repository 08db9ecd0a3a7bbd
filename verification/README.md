# An SMTP server, its mail client, and the router between them: a verified model

The repository holds both ends of an SMTP conversation and a router that spreads
outgoing mail over worker processes. This project models the five parts that
carry its logic and proves, for all inputs and all runs, what each keeps and what
they achieve together.

| part | modules |
|---|---|
| server session: patterns, transition relation, handlers, protocol loop | Pattern, CommandLines, ServerFsm, Session, Server, Stopwatch, History, Phases, Replies, FatalInputs |
| client process: transition table, mail list, descriptors, socket handlers, the files and the `strtok` cursor they share | ClientFsm, MailList, Disks, Client, DomainProc, ClientRuns, CursorRuns, Mishaps, ClientLanguage |
| the two joined by a network, and letters sent on | Commands, Conversation, Delivery, BodyLines, Relay |
| router: scan, grouping, assignment to processes, dispatch | Router, Dispatch, Scheduler |
| text formats: `strtok`, `str_split`, file names, mailbox files, letters sent on | Text, StringUtils, MailName, Mailbox, Resending |

## How it is built

*Server.* `Session.Receive` and `Session.Pass` say in one flat step what one pass
of the protocol loop does to one connection. `Server.Connection` has the fields
and handlers of the source, with the nested state-machine steps, and every
handler, `Update` and the loop `ProtocolUpdate` over an array of connections is
proved to do exactly the flat step. `History` then follows whole runs of the flat
step, against inputs only: which letters a session may save, what each contains,
how many replies it owes and when it closes are all said without its state.
`Phases` does the same for the state itself, and so for every input that ends the
server's process; `Replies` for everything a session writes, word for word.
`CommandLines` says of every buffer, letter by letter, which command it is and with
which argument, without the order in which the patterns are tried.

*Client.* `Client.HandleRead`, `HandleWrite` and `Register` are the flat steps of
one mail domain on its own state and on what it shares with the other domains of
its process: the `strtok` cursor, which every registration uses up, and the
files, of which MAIL moves the one it reads from `new` to `cur`.
`DomainProc.Descriptor`, which owns a linked `MailList.List` with a sentinel, is
proved to do exactly those steps on the shared `DomainProc.Process`. `ClientRuns`
follows whole processes: any number of domains, in arbitrary interleavings of
arrivals, waits, replies and writes, for their queues, and for the domains that
are given up; `CursorRuns` says for the same
runs what each RCPT and body carries and which mails are found; `Mishaps` derives
the two ways to lose mail from runs. `Disks.Plan` is a queue as it is read, mail
by mail, with the disk before and after each; `ClientLanguage` gives the whole
conversation of a session over such a plan.

*Both.* `Conversation.Next` joins the client's flat steps and the server's pass by
a network. `Delivery` proves a joint invariant, a bound on the number of steps,
absence of deadlock, and end-to-end delivery. `BodyLines` says what happens to
the lines of the bodies.

*Router.* `Router` and `Dispatch` are the pure table operations; the classes of
`Scheduler` have the search loops and arrays of the source and refine them.

## Modelling decisions

- A (state, event) pair without a row in the server's transition definition ends
  the process (`Exit(UndefinedTransition)`), as the client's generated step does
  (smtp_proj/client/src/client-fsm.c:334-336). Following a null pointer (a
  recipient that the address pattern rejects, a missing `strtok` token) ends it
  too. A mail file that cannot be read leaves `strtok` in the previous one.
- `str_split` runs `strtok` to the end of its string, so each registration of a
  mail (smtp_proj/client/src/domain_proc.c:107-108) leaves nothing to the one
  cursor of the process. Strings freed behind an exhausted cursor are not read.
- The worker's loop hands its interest sets themselves to `select`
  (smtp_proj/client/src/scheduler.c:138), which leaves only the ready sockets in
  them, also when its 15 seconds are over. `ClientRuns.Select` does just that, and
  `ClientRuns.DeafIff` says what follows. The joint runs of `Conversation` have no
  such step: they assume that each socket is ready when the client waits, that is
  that every reply comes in time.
- Renaming a mail moves its file when it exists and the directory of the new name
  exists; directories do not change, and no other program touches the files
  during a run.
- smtp_proj/client/src/domain_proc.c:53 writes through an index that is -1 there;
  it is read as resetting the count of the new entry.
- smtp_proj/server/src/protocol.c:214 frees the letter whether or not there is
  one; it is read as dropping the letter if there is one. After a save or a reset
  the connection has no letter.
- smtp_proj/server/src/protocol.c:167 copies the last five characters of an input
  that may be shorter; it is read as a suffix test.
- smtp_proj/client/src/scheduler.c:170-176 uses names that are not declared in that
  function and is not modelled. New descriptors start in INIT.
- A letter is a value that its connection holds. `process_ehlo` and `process_helo`
  have the same body and are one method.
- The environment supplies the clock readings of a pass (normalised, as
  `gettimeofday` gives them), whether the mailbox file opens, whether a connection
  succeeds, the contents of files, the entries of the scanned directories, and how
  the network cuts a body into buffers.
- The network carries a command in one buffer and a body in any number of
  non-empty buffers, of which only the last ends the data and none before it is a
  command. Replies are flushed between passes of the server.
- The mail list adds and removes at its head, so "queue order" is head first.
- Directory entries of all users are one sequence, in the order they are read.
- The regular expressions are given by what they match and capture: `.` stops at a
  line feed, `$` also matches in front of a final one, `(.+?)` takes the shortest
  capture that fits.

## Where the code falls short of its purpose

Each of these is proved, with the exact condition under which the code is right.

- A body buffer that by itself reads as a command ends the server
  (`History.FatalInDataIff`), and so does a recipient without an inner `@`
  (`History.FatalRecipientIff`); `FatalInputs` has a session of each kind. So does
  any command that comes out of its order, such as MAIL before HELO or after RSET
  (`Phases.FatalIff`).
- A cut inside a line of a body splits the line, unless it lies in front of the
  CRLF that ends it; so does a cut inside the terminator that parts a carriage
  return from its line feed (`BodyLines.LinesArriveIff`).
- RCPT and body carry the lines of the domain's own mail only while nobody else,
  neither another domain nor the registration of a mail, uses the `strtok` cursor
  (`CursorRuns.RcptIsOwnIff`, `CursorRuns.BodyIsOwnIff`). Right after a
  registration RCPT ends the process and a body is empty
  (`CursorRuns.AfterRegistration`); after the MAIL of another domain, the body is
  that mail's (`Mishaps.SharedCursorMixesMails`).
- A mail that arrives while another waits for the reply to its body is taken off
  the list in its place, unsent (`ClientRuns.RemovedIsSentIff`,
  `Mishaps.ArrivalInFlightIsLost`).
- A domain that is not ready when the worker waits is given up: its socket leaves
  the sets, nothing more is written for it, and its mails stay where they are
  (`ClientRuns.DeafIff`, `ClientRuns.DeafForever`). So is one for which a mail
  arrives in DONE, or finds no connection while others are still waiting.
- A reply that begins with 502 and says "not implemented" ends the client's
  process outside DONE, but not behind a body with more mails waiting
  (`ClientRuns.ReplyFatalIff`, `ClientLanguage.SessionLanguage`).
- A mail can be read once only: a queue that names one twice, and a session taken
  up again after a negative reply to MAIL or a later command, end the process
  (`ClientLanguage.SurvivesIff`, `ClientLanguage.NewMailsSurviveIff`,
  `ClientLanguage.RestartSurvivesIff`, `CursorRuns.MailIsFoundIff`).
- The client recovers the domain from a mailbox file name only when it has two
  labels and they are the third and fourth piece of the whole path, which a dot
  in the directory shifts (`MailName.FileNameRoundTripIff`,
  `MailName.DottedUserIsMisread`).
- A host name that ends in a carriage return is captured without it
  (`Commands.HeloRoundTrip`).
- A body that has a lone dot line behind a line ending in a carriage return is cut
  short when it is sent; a letter saved by the terminator always has one, and one
  saved by a lone dot has it when its data had (`Resending.EndsEarlyIff`,
  `Resending.SavedEndsEarlyIff`).
- The last assertion of `str_split` fails on strings that are empty, begin with
  the delimiter or have two in a row (`StringUtils.StrSplit`).
- Replacing "new" by "cur" renames the mail's directory only when "new" is not
  found earlier in the path (`StringUtils.RenameIff`, `StringUtils.NewtonStays`). A
  mail that is not renamed is found by the next scan and sent again.

## Model

| member | source | states |
|---|---|---|
| Delivery.EveryRunDelivers | smtp_proj/client/src/domain_proc.c:199-263 | for every run of client and server, sockets being ready whenever the client waits, on any queue whose mails can each be read when their turn comes and have good recipients: the run is no longer than a bound fixed by the mails, no process ever exits, and a run cannot be continued exactly when the session is over with the client in INIT, its queue empty, the server disconnected and one saved letter for each mail, in queue order, with that mail's envelope |
| Delivery.DeliverableIffDistinct | smtp_proj/client/src/smtp_client.c:56-68 | a queue of new mails with good recipients meets the condition of end-to-end delivery exactly when it names no mail twice |
| Delivery.JointStates | smtp_proj/client/src/domain_proc.c:199-263 | in these runs, whenever the client is to write, the two machines are in one of six pairs of states: HELO meets READY, MAIL meets EXPECT_MAIL, RCPT meets EXPECT_RCPT, DATA meets EXPECT_DATA, the body meets EXPECT_DATA_RECV, QUIT meets EXPECT_MAIL |
| Delivery.StepKeeps | smtp_proj/server/src/protocol.c:41-100 | every possible step of the joint system keeps the joint invariant and uses up one of the steps left |
| Delivery.StuckIffFinished | smtp_proj/client/src/domain_proc.c:199-263 | no deadlock as long as interest sets survive each wait: under the invariant there is no next step exactly when everything is delivered |
| Delivery.ServerAnswers | smtp_proj/server/src/protocol.c:49-89 | the server takes each command as the client printed it, in the phase that awaits it, answers positively and moves to the phase of the next command |
| Delivery.TakesChunk | smtp_proj/server/src/protocol.c:164-179 | a body buffer that does not end the data joins the letter without a reply |
| Delivery.TakesEnd | smtp_proj/server/src/protocol.c:164-210 | the buffer that ends the data saves one letter: the envelope, and all buffers of the body in order |
| Delivery.IdlePass | smtp_proj/server/src/protocol.c:41-100 | a pass without input over a greeted connection in time changes nothing, so leaving such passes out of the joint system loses no behaviour |
| BodyLines.LinesArriveIff | smtp_proj/server/src/protocol.c:164-187 | for every body and every delivery of it and its terminator in buffers: the lines the server keeps are the lines sent, in both leaving out those like the ones the transfer adds, exactly when each cut is behind the end of a line or in front of the CRLF that ends one |
| BodyLines.DeliveredLinesIff | smtp_proj/client/src/smtp_client.c:146-165 | the same for each letter that a finished session of client and server has stored, whatever its lines and however it was delivered |
| BodyLines.CleanIsIdentity | smtp_proj/client/src/smtp_client.c:146-165 | for a mail without such lines these are all its lines |
| Relay.SavedLettersAreDeliverable | smtp_proj/server/src/protocol.c:202-204 | all letters that any server session saves, lying as new files of a client, meet the condition of end-to-end delivery, each under the envelope it was saved with and with the lines of its body |
| Relay.LettersAreRelayed | smtp_proj/client/src/smtp_client.c:109-165 | after the session that sends them on, the next server has stored each under the same envelope, with its own lines exactly when every cut was harmless |
| BodyLines.GroupingIsInvisible | smtp_proj/server/src/protocol.c:164-187 | two deliveries that group the same lines differently keep the same lines, also when the mail itself has lines like those the transfer adds |
| BodyLines.CutInsideALine | smtp_proj/server/src/protocol.c:164-178 | a concrete delivery the protocol allows whose line does not arrive |
| History.SavedLetterIsItsTransaction | smtp_proj/server/src/protocol.c:116-210 | in every run, the letter saved at the end of the data has the argument of the transaction's MAIL as sender, of its RCPT as recipient, split at the `@`, and as body the data inputs since its DATA; nothing older gets in |
| History.SavedIffTransaction | smtp_proj/server/src/protocol.c:181-210 | an input makes a session save a letter exactly when it ends the data of a complete and unbroken MAIL, RCPT, DATA sequence and the file opens; it saves one at most and never loses one |
| History.ReceivingIffDataPhase | smtp_proj/server/src/protocol.c:157-179 | a live session is in its data phase exactly when its inputs contain an open transaction |
| History.RunExplained | smtp_proj/server/src/protocol.c:49-89 | after every pass of every run the state is READY, an EXPECT state or DISCONNECTED; past MAIL a letter with the sender of the open MAIL is held, past RCPT with its recipient, in the data phase with the body so far |
| History.OpenTransaction | smtp_proj/server/src/protocol.c:116-179 | while a transaction is open the letter held is the one its own inputs make up |
| History.RepliesAreOwed | smtp_proj/server/src/protocol.c:63-88 | in every run the greeting comes first and only once, and each input adds exactly one reply, but for a body buffer that does not end the data, which adds none, and a timed-out session, whose last reply is the time-out notice |
| Replies.EveryInputIsAnswered | smtp_proj/server/src/protocol.c:63-96 | in every run, what a pass writes is given in full by the inputs so far: 421 after 30.001 s, 220 at first, nothing without an input, in the data phase nothing for a piece of the body and 250 or 554 for its end, else 250, 354, 500, 502 or 221 by the command, each with its text |
| Replies.ConversationIs | smtp_proj/server/src/protocol.c:41-100 | the whole output of every run is those answers in order |
| Replies.SaveIsAnswered | smtp_proj/server/src/protocol.c:181-210 | in every run the end of the data of an open transaction, in time, is answered with a reply that begins with 250 exactly when its letter is added to those saved, and with 554 exactly when none is, that is when the file does not open |
| Replies.UnsavedIsHeld | smtp_proj/server/src/protocol.c:194-200 | after such a failure the session is in READY, as after a reset, and still holds the letter with all its data |
| Replies.HoldsIff | smtp_proj/server/src/protocol.c:124-216 | in every run a session holds a letter exactly when a MAIL came and neither RSET nor a save since |
| History.ClosedIff | smtp_proj/server/src/protocol.c:79-96 | a session is closed exactly at the first pass that sees 30.001 s or more since its last input, however many inputs restarted the watch, or at QUIT |
| History.WatchIsLastInput | smtp_proj/server/src/protocol.c:78-80 | the watch always shows the time of the last input, or of the connection if there was none |
| History.VrfyChangesNothing | smtp_proj/server/src/protocol.c:220-225 | in every run VRFY leaves state, letter and saved letters as they were and is answered with 502 |
| History.FatalInDataIff | smtp_proj/server/proto/smtp.tpl:75-82 | in the data phase an input ends the process exactly when it is a command other than the end of the data |
| History.FatalRecipientIff | smtp_proj/server/src/protocol.c:134-155 | after MAIL a recipient ends the process exactly when it has no `@` with text on both sides |
| Phases.PhaseIff | smtp_proj/server/src/protocol.c:49-89 | in every live session each state is given by the inputs and gives them: READY exactly when nothing effective came since the connection, a reset or a failed save, EXPECT_MAIL since HELO, EHLO or a save, the others since MAIL, RCPT and DATA |
| Phases.FatalIff | smtp_proj/server/proto/smtp.tpl:16-82 | in every live session, an input ends the process exactly when it is a command its phase has no place for, or a recipient that does not split |
| FatalInputs.QuitInBodyIsFatal | smtp_proj/server/proto/smtp.tpl:75-82 | for any host, sender and recipient, a session up to DATA that the buffer QUIT then ends with the process |
| FatalInputs.BareRecipientIsFatal | smtp_proj/server/src/protocol.c:148-150 | for any host, sender and recipient without an `@`, a session up to MAIL that RCPT then ends with the process |
| History.RunStaysEmpty | smtp_proj/server/src/protocol.c:78-78 | every pass leaves the input buffer empty |
| History.ServedIsRun | smtp_proj/server/src/protocol.c:49-96 | the session that the passes of the loop make of any buffers is the run over those buffers, each with the command it is classified as, so that all that is said of runs holds of it |
| Server.ProtocolServer.ProtocolUpdate | smtp_proj/server/src/protocol.c:41-100 | for a table of any size: each occupied slot ends as the flat step of its old value, empty slots stay empty, no connection affects another, the letters saved are those of the slots in order, and an exit stops the loop at the slot that caused it with later slots untouched |
| Server.ProtocolServer.PassSlots | smtp_proj/server/src/protocol.c:43-97 | the loop: slots passed so far are as their flat step leaves them, the others as they were, and the letters are those of the slots passed |
| Server.ProtocolServer.UpdateSlot | smtp_proj/server/src/protocol.c:45-97 | one turn of the loop does the flat step on its own slot and leaves all others alone |
| Server.Connection.Update | smtp_proj/server/src/protocol.c:49-96 | match, dispatch, clearing of the input, restart of the watch, greeting and expiry together are the flat step of one pass |
| Server.Connection.Accept | smtp_proj/server/src/protocol.c:63-76 | a classified input has the effect that the flat step gives its command, 500 and a missing transition included |
| Server.Connection.Dispatch | smtp_proj/server/src/protocol.c:72-75 | the handler of the state stepped into completes the flat step, up to four transitions on |
| Server.Connection.GreetAndExpire | smtp_proj/server/src/protocol.c:82-96 | a new connection is greeted through CONNECT and OK, then a connection silent for too long is closed |
| Server.Connection.Step | smtp_proj/server/proto/smtp.tpl:16-82 | the state moves as the transition definition says; without a transition the process exits and the state stays |
| Server.Connection.ProcessHelo | smtp_proj/server/src/protocol.c:102-114 | HELO and EHLO lead to EXPECT_MAIL with the host's 250, nothing else changes |
| Server.Connection.ProcessMail | smtp_proj/server/src/protocol.c:116-132 | a new letter with the sender and nothing else replaces any old one; without an argument 451 and no change of letter |
| Server.Connection.ProcessRcpt | smtp_proj/server/src/protocol.c:134-155 | the letter gets recipient, user and domain; without an argument 501; a missing letter or an address that does not split ends the process |
| Server.Connection.ProcessData | smtp_proj/server/src/protocol.c:157-162 | the data phase opens with 354 |
| Server.Connection.ProcessDataRecv | smtp_proj/server/src/protocol.c:164-179 | the input joins the body, and saves the letter when it ends in the terminator |
| Server.Connection.ProcessDataEnd | smtp_proj/server/src/protocol.c:181-210 | the letter is saved and dropped with 250; when the file does not open it is kept with 554 and READY |
| Server.Connection.ProcessRset | smtp_proj/server/src/protocol.c:212-218 | the letter is dropped and the session is READY |
| Server.Connection.ProcessVrfy | smtp_proj/server/src/protocol.c:220-225 | the state before the command comes back, with 502 |
| Server.Connection.ProcessQuit | smtp_proj/server/src/protocol.c:227-232 | the connection is closed with 221 |
| Server.NoTransitionIsExit | smtp_proj/server/proto/smtp.tpl:16-82 | the flat step exits wherever the transition definition has no row for the command |
| ServerFsm.ErrorsGoBack | smtp_proj/server/proto/smtp.tpl:16-82 | an error in a processing state leads back to the state in which the command came |
| ServerFsm.TimeoutsLeadOut | smtp_proj/server/proto/smtp.tpl:20-33 | the states with a time-out are those that take RSET, and it leads where QUIT leads |
| Server.SavedInOrder | smtp_proj/server/src/protocol.c:43-97 | the letters of a slot come right behind those of the slots before it |
| Session.CodesDiffer | smtp_proj/server/src/protocol.c:88-95 | greeting and time-out notice differ from every other reply, so a trace shows where they occur |
| Pattern.FirstMatch | smtp_proj/server/src/protocol.c:53-60 | the loop stops at the first pattern that matches and hands over its capture |
| Pattern.ClassifyHands | smtp_proj/server/src/pattern.c:39-48 | the command an input is classified as is one whose pattern matches, with the argument that pattern captures |
| Pattern.ClassifyIsFirst | smtp_proj/server/src/protocol.c:54-60 | no pattern tried before it matches |
| CommandLines.QuitIff | smtp_proj/server/src/pattern.c:9-9 | a buffer is QUIT exactly when it is that word in any mixture of cases, with nothing, CR, LF, CRLF or two line feeds behind it |
| CommandLines.RsetIff | smtp_proj/server/src/pattern.c:10-10 | the same for RSET |
| CommandLines.DataIff | smtp_proj/server/src/pattern.c:16-16 | the same for DATA |
| CommandLines.VrfyIff | smtp_proj/server/src/pattern.c:11-11 | for every buffer and argument: it is VRFY with that argument exactly when it is the word in any mixture of cases, a space, the argument without line feeds, and such an ending, the carriage return counted to the ending where it can be |
| CommandLines.HeloIff | smtp_proj/server/src/pattern.c:12-12 | the same for HELO |
| CommandLines.EhloIff | smtp_proj/server/src/pattern.c:13-13 | the same for EHLO |
| CommandLines.MailIff | smtp_proj/server/src/pattern.c:14-14 | what MAIL hands over stands in its line between the opening (a blank, a bracket, both or nothing) and the closing bracket, if any; every such line is MAIL; with a sender that could not be taken for what is around it, or with any sender without CR and LF in brackets, exactly that sender is read |
| CommandLines.RcptIff | smtp_proj/server/src/pattern.c:15-15 | the same for RCPT |
| CommandLines.DataEndIff | smtp_proj/server/src/pattern.c:17-17 | a buffer is the end of data exactly when it is a lone dot, perhaps behind one CR or LF, with such an ending |
| CommandLines.OtherIff | smtp_proj/server/src/protocol.c:53-63 | every other buffer, and no other, is data |
| CommandLines.OrderIsFree | smtp_proj/server/src/protocol.c:54-60 | a command pattern matches exactly the buffers classified as its command, so no two of them match the same one |
| Pattern.Lazy | smtp_proj/server/src/pattern.c:11-15 | a lazy capture takes the first length at which the rest of the pattern fits, and none exactly when no length fits |
| Pattern.Capture | smtp_proj/server/src/pattern.c:11-15 | a capture exists exactly when some length fits, is the shortest such prefix, not empty and without a line feed |
| Pattern.TerminatedIsData | smtp_proj/server/src/protocol.c:166-174 | every input that ends in the terminator, whatever comes before it, is classified as data, never as a command |
| Pattern.EmailSplit | smtp_proj/server/src/pattern.c:50-61 | an address splits exactly when an `@` has text on both sides; user, `@` and domain give it back, and the user has no later `@` |
| Commands.MailRoundTrip | smtp_proj/client/src/smtp_client.c:109-120 | the server reads the client's MAIL line as MAIL with exactly the sender printed, for every non-empty sender without a line feed |
| Commands.RcptRoundTrip | smtp_proj/client/src/smtp_client.c:123-134 | the same for RCPT and the recipient |
| Commands.HeloRoundTrip | smtp_proj/client/src/smtp_client.c:97-106 | the HELO line is read as HELO, with the host printed exactly when that does not end in a carriage return after other text |
| Commands.HeloCapture | smtp_proj/server/src/pattern.c:12-12 | what the pattern captures of any host name: all of it but a carriage return at its end |
| Commands.DataRoundTrip | smtp_proj/client/src/smtp_client.c:137-143 | the DATA line is read as DATA |
| Commands.QuitRoundTrip | smtp_proj/client/src/smtp_client.c:168-174 | the QUIT line is read as QUIT |
| Commands.BodyLinesAre | smtp_proj/client/src/smtp_client.c:146-165 | what is written for a body is its lines, each once and in order, then an empty line and a lone dot that end in CRLF |
| Stopwatch.Watch.Start | smtp_proj/server/src/stopwatch.c:5-9 | the watch holds the time of the call |
| Stopwatch.Watch.Elapsed | smtp_proj/server/src/stopwatch.c:12-24 | the computation with a borrow is the floor of the difference in microseconds over 1000 |
| Stopwatch.ElapsedAgainstLimit | smtp_proj/server/src/protocol.c:91-91 | the reading never decreases, and exceeds a limit exactly from one millisecond past it |
| ClientLanguage.SessionLanguage | smtp_proj/client/src/client-fsm.c:99-196 | for every row of replies of any kind to a session of n mails that can be read in turn: what is written is the prefix of HELO (MAIL RCPT DATA body)^n QUIT that the replies before the first that does not count allow, each message for its own mail; where the session ends, the files as moved included, is given; and the process exits exactly when that reply says that the command is not implemented |
| ClientLanguage.SessionLength | smtp_proj/client/src/client-fsm.c:99-196 | with positive replies only, the client is back in INIT after 4n+3 of them and not before, having written exactly that word |
| ClientLanguage.SurvivesIff | smtp_proj/client/src/smtp_client.c:56-70 | for any queue and any files, a session of positive replies comes to its end exactly when every mail has two lines at its turn; else the process ends |
| ClientLanguage.NewMailsSurviveIff | smtp_proj/client/src/smtp_client.c:56-70 | for mails that are all there at first, that is exactly when the queue names none twice |
| ClientLanguage.RestartSurvivesIff | smtp_proj/client/src/domain_proc.c:149-155 | a session that met a negative reply is taken up again by the next arrival; it then comes to its end exactly when the negative reply came before the first MAIL was written |
| Disks.ReadableIffDistinct | smtp_proj/client/src/smtp_client.c:56-68 | new mails can all be read in turn exactly when no path occurs twice, and each is then read as it was at the start |
| Disks.FoundIff | smtp_proj/client/src/smtp_client.c:58-68 | after any row of reads a mail is where it was, unchanged, exactly when it was not read |
| Disks.TakeMoves | smtp_proj/client/src/smtp_client.c:58-68 | reading moves a mail from its `new` directory to the `cur` directory beside it, content and name kept, and changes no other file but one of that name there |
| Disks.StaysIff | smtp_proj/client/src/smtp_client.c:58-60 | where the `cur` directory is missing nothing moves, and only there a mail that was read is still in `new` |
| ClientLanguage.StepOk | smtp_proj/client/src/domain_proc.c:199-263 | each positive reply moves the session one place on and writes the one message of that place |
| ClientLanguage.StepError | smtp_proj/client/src/client-fsm.c:99-196 | a negative reply stops the session without a message, and any reply after that closes it |
| ClientLanguage.StepFatal | smtp_proj/client/src/client-fsm.c:99-196 | that a command is not implemented ends the process at every place where it does not count |
| ClientRuns.QueueConserved | smtp_proj/client/src/domain_proc.c:165-170 | in every run of a process, for every domain: mails queued are mails taken off plus mails waiting, and a body is under way only with a mail waiting, so the sentinel is never taken off |
| ClientRuns.RemovedIsSentIff | smtp_proj/client/src/domain_proc.c:242-250 | a mail is taken off exactly at a non-error reply to a body; it is the mail read at the last MAIL exactly when nothing has arrived in front of it since, or the last arrival was the same path |
| ClientRuns.ReplyFatalIff | smtp_proj/client/src/smtp_client.c:250-253 | in every run of a process, a reply ends it exactly when it says that the command is not implemented, outside DONE and not behind a body with more mails waiting |
| ClientRuns.DeafIff | smtp_proj/client/src/scheduler.c:136-168 | in every run, an action leaves a domain with waiting mails in neither interest set exactly when it was so before, or was not ready when the process waited, or a mail arrived for it in DONE or found no connection |
| ClientRuns.DeafForever | smtp_proj/client/src/scheduler.c:136-168 | such a domain stays so in every continuation: nothing more is written for it and no mail leaves its queue |
| ClientRuns.ArrivalIff | smtp_proj/client/src/domain_proc.c:107-171 | in every run a mail that arrives ends the process exactly when its path yields no domain; else it joins the front of its own domain's list exactly when a session is under way there or the connection it opens succeeds, the state that follows is given, and no other domain changes |
| ClientRuns.SelectAllReady | smtp_proj/client/src/scheduler.c:138-138 | a wait changes nothing when every domain is ready |
| CursorRuns.RcptIsOwnIff | smtp_proj/client/src/smtp_client.c:123-134 | in every run of a process with any number of domains: RCPT carries the token at which the one cursor stands and ends the process when there is none; it is the second line of the domain's own last MAIL exactly when that MAIL found its file and nobody else used the cursor since |
| CursorRuns.BodyIsOwnIff | smtp_proj/client/src/smtp_client.c:146-165 | in every such run the body consists of the tokens from where the cursor stands on; they are the lines of the own mail from the third on exactly on the same condition |
| CursorRuns.AloneIsSentWhole | smtp_proj/client/src/smtp_client.c:109-165 | in every such run, a mail taken off whose transaction had the cursor to itself from MAIL to body was written as MAIL, RCPT, DATA and body of its own file |
| CursorRuns.AfterRegistration | smtp_proj/client/src/domain_proc.c:107-108 | where a registration used the cursor last, RCPT ends the process and a body is empty |
| CursorRuns.MailIsFoundIff | smtp_proj/client/src/smtp_client.c:56-70 | in every such run, a mail is found at its MAIL, unchanged, exactly when no MAIL was written for it before, and its MAIL ends the process exactly when it is not found and the cursor holds nothing |
| CursorRuns.RunExplained | smtp_proj/client/src/smtp_client.c:109-165 | in every reachable state, where the cursor stands in respect of each domain's mail under way follows from the uses since its MAIL |
| Mishaps.ArrivalInFlightIsLost | smtp_proj/client/src/domain_proc.c:168-168 | for any two mails of a domain, turns of the worker's loop in which the second arrives when the body of the first is written: it is taken off unsent, and the first, no longer there, ends the process at its next MAIL |
| Mishaps.SharedCursorMixesMails | smtp_proj/client/src/smtp_client.c:109-165 | for any two mails of two domains, five turns of the worker's loop, with every socket ready, after which the recipient of the one has been sent the body of the other |
| ClientRuns.CalmRunRemovesWhatItSent | smtp_proj/client/src/domain_proc.c:242-250 | in runs without arrivals for a domain while one of its mails is under way, the mails each domain takes off are the mails it read at MAIL, in order |
| ClientRuns.RunSound | smtp_proj/client/src/domain_proc.c:99-263 | in every reachable state of a process each domain conserves its mails, has the mail under way right behind what arrived since it was read, and has an empty queue only outside a session |
| Client.PositiveIff | smtp_proj/client/src/smtp_client.c:236-257 | of all strings, a reply is positive exactly when it begins with three digits that are 2xx, 300 or 354 |
| Client.NotImplementedIff | smtp_proj/client/src/smtp_client.c:250-253 | of all strings, a reply is taken for that exactly when it begins with 502 and has the words somewhere; what is neither is an error |
| Client.CodeOf | smtp_proj/client/src/smtp_client.c:239-241 | three digits are read as the number they write |
| Client.NoCodeIsError | smtp_proj/client/src/smtp_client.c:239-253 | a reply that does not begin with three digits is an error: the empty one of a closed connection, a shorter one, one with blanks or a sign in front |
| Client.ContainsIff | smtp_proj/client/src/smtp_client.c:250-250 | the search finds a text exactly when the string is something, the text, and something |
| DomainProc.Descriptor.HandleReadSocket | smtp_proj/client/src/domain_proc.c:231-263 | a reply changes state, list and interest sets as the flat step says, and no other socket's interest |
| DomainProc.Descriptor.TakeBodyReply | smtp_proj/client/src/domain_proc.c:242-250 | a non-error reply to a body takes the head off the list and goes on to MAIL or QUIT by what is left |
| DomainProc.Descriptor.TakeOtherReply | smtp_proj/client/src/domain_proc.c:251-252 | any other reply leaves the list alone and steps the machine |
| DomainProc.Descriptor.ReplyInterest | smtp_proj/client/src/domain_proc.c:254-262 | after a reply the socket waits to be written, or for nothing when the session is over |
| DomainProc.Descriptor.HandleWriteSocket | smtp_proj/client/src/domain_proc.c:199-228 | the message of the state is written in full, MAIL moves its file, and the socket's interest moves from the write set to the read set; no other socket's does |
| DomainProc.Descriptor.SendMsg | smtp_proj/client/src/smtp_client.c:48-93 | in each state the bytes written are those of its message, with the shared cursor moved past what it used and the mail's file renamed at MAIL |
| DomainProc.Descriptor.SendMailFrom | smtp_proj/client/src/smtp_client.c:56-71 | the mail at the head is renamed and its first line written as the sender; without a line to take the process ends |
| DomainProc.Descriptor.ReadMail | smtp_proj/client/src/smtp_client.c:57-68 | the file moves, and the cursor starts on its text, or goes on where it was when the file is not there |
| DomainProc.Descriptor.SendMsgBody | smtp_proj/client/src/smtp_client.c:146-165 | the writes of the loop together are the remaining lines of the mail and the terminator |
| DomainProc.Descriptor.InitConnection | smtp_proj/client/src/domain_proc.c:179-196 | one step with OK, then the socket joins the read set, or a step with ERROR; the rest of the domain stays |
| DomainProc.Descriptor.Register | smtp_proj/client/src/domain_proc.c:107-171 | splitting the path uses up the shared cursor, and ends the process when it yields no domain; then the mail joins the head of the list, with a new connection when there is no session, and a session that failed keeps nothing and its socket leaves the read set |
| DomainProc.FindDomain | smtp_proj/client/src/domain_proc.c:115-121 | the last place with the domain's name, none exactly when there is none |
| DomainProc.Descriptor.constructor | smtp_proj/client/src/domain_proc.c:125-147 | a new domain has an empty list and no session |
| MailList.List.AddFirst | smtp_proj/client/src/list.c:3-10 | a value is put in front of the list, whose other nodes stay |
| MailList.List.RemoveFirst | smtp_proj/client/src/list.c:12-24 | the front node goes, and the others stay; -1 on an empty list |
| MailList.List.Count | smtp_proj/client/src/list.c:26-35 | one less than the number of nodes: the mails in front of the sentinel |
| Router.RouteIsRoundRobin | smtp_proj/client/src/scheduler.c:70-98 | for every sequence of names, the tables are those of dealing out the distinct names in turn, in the order of first appearance |
| Router.LeastIsNext | smtp_proj/client/src/scheduler.c:86-91 | the leftmost least loaded process is the next in turn |
| Router.AssignNew | smtp_proj/client/src/scheduler.c:70-98 | the k-th new domain goes to process k mod p |
| Router.AssignSeen | smtp_proj/client/src/scheduler.c:72-83 | a domain seen before returns to its own process and changes nothing |
| Router.LoadIs | smtp_proj/client/src/scheduler.c:93-95 | process j holds (k + p - 1 - j) div p of k domains, that is k div p and one more for the first k mod p processes |
| Router.CapacityIff | smtp_proj/client/include/map.h:42-42 | no process holds more than c of k domains exactly when k is at most c times the number of processes |
| Router.NoOverflow | smtp_proj/client/src/scheduler.c:42-104 | with two or more processes and at most 100 distinct domains, no process is given more than 50 |
| Router.Holder | smtp_proj/client/src/scheduler.c:72-83 | the first process that has the domain, none exactly when no process has it |
| Router.Least | smtp_proj/client/src/scheduler.c:86-91 | a process with the fewest domains, the leftmost of them |
| Dispatch.RoundDispatches | smtp_proj/client/src/scheduler.c:44-62 | in every round the paths sent are the paths scanned, each once; process j gets those of the domains whose place is j mod p, in order; known domains keep their places |
| Dispatch.DomainKeepsItsQueue | smtp_proj/client/src/scheduler.c:44-62 | over all rounds, the one in which a domain is first seen included, every path of the i-th domain goes to queue i mod p |
| Dispatch.RoundsAreSettled | smtp_proj/client/src/scheduler.c:44-65 | after any rounds domain names are distinct, no mails are left behind, and processes are dealt the domains in turn |
| Dispatch.Grouping | smtp_proj/client/src/domain_proc.c:7-97 | the scan puts each path once, in the group of its own domain, and adds domains only at the end |
| Dispatch.GroupsAreInOrder | smtp_proj/client/src/domain_proc.c:71-77 | the paths of a domain stand in the order in which they were first found |
| Dispatch.ShareIsInOrder | smtp_proj/client/src/scheduler.c:47-57 | in its queue a domain's paths stand, in their order, right behind those of the domains before it |
| Dispatch.SendKeepsContent | smtp_proj/client/src/scheduler.c:47-57 | sending neither loses nor repeats a path |
| Dispatch.SendIsAffine | smtp_proj/client/src/scheduler.c:47-57 | after any number of domains each queue has the paths of the domains in its residue class |
| Scheduler.MasterProcess.DispatchRound | smtp_proj/client/src/scheduler.c:44-64 | one turn of the endless loop does a round on its tables and appends each process's share to its queue; the shares together are the paths of the files in the directories, each once |
| Scheduler.MasterProcess.SendAll | smtp_proj/client/src/scheduler.c:47-62 | the loop over the domains sends every group to its process and empties it |
| Scheduler.MasterProcess.SendGroup | smtp_proj/client/src/scheduler.c:49-61 | one domain's paths go to the end of the queue of its process, and no other group changes |
| Scheduler.MasterProcess.SendPaths | smtp_proj/client/src/scheduler.c:50-57 | the paths are appended in order to one queue |
| Scheduler.MasterProcess.constructor | smtp_proj/client/src/scheduler.c:35-43 | no domains, no mails, empty queues |
| Scheduler.MailProcs.GetMailProcIdx | smtp_proj/client/src/scheduler.c:70-98 | search, minimum and growth of the table in place are the assignment of a domain |
| Scheduler.MailProcs.FindHolder | smtp_proj/client/src/scheduler.c:72-83 | the two search loops find the first process with the domain, if any |
| Scheduler.MailProcs.FindLeast | smtp_proj/client/src/scheduler.c:86-91 | the scan finds the leftmost process with the fewest domains |
| Scheduler.MailProcs.AddDomain | smtp_proj/client/src/scheduler.c:93-95 | the name goes to the end of one process's table |
| Scheduler.MailTable.GetDomainsMails | smtp_proj/client/src/domain_proc.c:7-97 | the scan of the directories adds every mail but the dot entries to the group of its domain: a path waits for a domain exactly when it did before or is that of a file, directory included, with this domain in its name |
| Scheduler.MailTable.AddMail | smtp_proj/client/src/domain_proc.c:47-78 | a new domain gets a place at the end; a mail already waiting is not added again |
| Scheduler.MailTable.AddGroup | smtp_proj/client/src/domain_proc.c:48-59 | a new domain gets the next place with the one mail |
| Scheduler.MailTable.AddPath | smtp_proj/client/src/domain_proc.c:71-77 | a mail joins the end of its domain's mails, and no other domain changes |
| Scheduler.MailTable.FindDomain | smtp_proj/client/src/domain_proc.c:39-45 | the last place with the domain's name, none exactly when there is none |
| Scheduler.MailTable.IsQueued | smtp_proj/client/src/domain_proc.c:64-69 | whether the path is already waiting for its domain |
| Scheduler.RoomLeft | smtp_proj/client/include/map.h:42-42 | while there are at most 60 domains for each process, the process chosen for the next one has a place left in its table |
| Scheduler.ScannedHome | smtp_proj/client/src/domain_proc.c:33-38 | a path always belongs to the same domain, the one in its file name, whatever directory it is read from |
| Scheduler.ScannedFiles | smtp_proj/client/src/domain_proc.c:31-35 | the paths a scan yields are exactly each directory with each name in it but the two dot entries |
| Scheduler.ScannedInserts | smtp_proj/client/src/domain_proc.c:29-38 | each entry adds the mail of its own path under the domain of its name, in the place it was read, and a dot entry nothing |
| Scheduler.ScanLies | smtp_proj/client/src/domain_proc.c:29-78 | after a scan a path waits for a domain exactly when it did before or is that of a file with this domain in its name |
| Text.Strtok.Next | smtp_proj/client/src/smtp_client.c:109-163 | the cursor hands out the tokens of its string one by one and then nothing |
| Text.TokensAreNonEmptyFields | smtp_proj/common/src/string_utils.c:50-57 | `strtok` yields exactly the non-empty fields between delimiters, in order |
| Text.JoinFields | smtp_proj/common/src/string_utils.c:50-57 | the fields joined by the delimiter give the string back |
| Text.TokensConcat | smtp_proj/common/src/string_utils.c:50-57 | a delimiter cuts the tokens in two |
| Text.FieldsConcat | smtp_proj/common/src/string_utils.c:50-57 | a delimiter cuts the fields in two, empty ones included |
| StringUtils.StrSplit | smtp_proj/common/src/string_utils.c:18-63 | the tokens come back, and the last assertion holds, exactly when the string is non-empty, does not begin with the delimiter and has no two in a row; the assertion inside the loop never fails, and the cursor of `strtok` ends at the end of the string |
| StringUtils.CountElements | smtp_proj/common/src/string_utils.c:28-44 | the counting pass counts the delimiters and a trailing token, and one more for the end |
| StringUtils.TokensWithinBound | smtp_proj/common/src/string_utils.c:28-59 | the tokens never exceed the number counted for them, and reach it exactly on those strings |
| StringUtils.JoinTokens | smtp_proj/common/src/string_utils.c:47-60 | on those strings joining the tokens gives the string back, but for one delimiter at its end |
| StringUtils.FirstAt | smtp_proj/common/src/string_utils.c:8-9 | the first occurrence, none exactly when there is none |
| StringUtils.RenameIff | smtp_proj/client/src/smtp_client.c:58-60 | a path in a `new` directory is renamed into the `cur` directory beside it exactly when "new" does not occur earlier in the path |
| StringUtils.NewtonStays | smtp_proj/client/src/smtp_client.c:58-60 | a path below a directory newton, whose mail stays in its directory `new` |
| MailName.GetDomainName | smtp_proj/common/src/dir_utils.c:39-58 | the third and fourth piece of the path joined by a dot, where the split succeeds and has them |
| MailName.FileNameRoundTripIff | smtp_proj/server/src/maildir.c:54-76 | for every directory, process, time and domain of any number of labels: the client reads back the domain from the printed path exactly when no dot begins the directory or touches another there, the domain has two labels, and these are the third and fourth piece of the path |
| MailName.NamesDifferIff | smtp_proj/server/src/maildir.c:67-69 | for all numbers and domains: two letters have the same file name exactly when process, time and domain are the same |
| MailName.DecimalIs | smtp_proj/server/src/maildir.c:69-69 | a number is printed as digits without a leading zero whose place value is the number, behind a sign if it is negative |
| MailName.DotFreeRoundTripIff | smtp_proj/common/src/dir_utils.c:39-58 | in a directory without dots that is exactly when the domain has two labels |
| MailName.DottedUserIsMisread | smtp_proj/client/src/domain_proc.c:107-107 | in a directory with one dot, as of a user john.doe, a mail for a.b is taken for one for the time it was saved and a |
| MailName.GetKey | smtp_proj/client/src/domain_proc.c:107-110 | the domain in a path up to a comma, where both splits succeed; the cursor of `strtok` is at the end of its string afterwards |
| MailName.KeyRoundTrip | smtp_proj/client/src/domain_proc.c:37-38 | a two-label domain without commas is also the key under which the client sorts the mail |
| MailName.KeyEndsAtComma | smtp_proj/client/src/domain_proc.c:37-43 | of a domain with commas the key is what stands before the first, which must not be empty, nor may two commas touch |
| MailName.SplitJoin | smtp_proj/common/src/string_utils.c:47-60 | splitting undoes joining of non-empty pieces without the delimiter |
| Mailbox.FileRoundTripIff | smtp_proj/client/src/smtp_client.c:109-161 | the lines the client reads from a mailbox file are sender, recipient and the body's non-empty lines exactly when sender and recipient are non-empty and have no line feed |
| Mailbox.FileLinesAre | smtp_proj/server/src/protocol.c:202-204 | the lines of the file, empty ones included, are sender, recipient and those of the body as they are |
| Mailbox.LettersAppend | smtp_proj/server/src/protocol.c:193-205 | a file that two letters were appended to is read as the one and then the other |
| Mailbox.SavedLettersRoundTrip | smtp_proj/server/src/protocol.c:202-204 | every letter that any session saves comes back from its file in that way |
| Mailbox.SavedLettersAreReadable | smtp_proj/server/src/protocol.c:116-210 | every letter that any session saves has a non-empty sender and recipient without line feeds |
| Resending.EndsEarlyIff | smtp_proj/client/src/smtp_client.c:146-165 | for any lines, the stream written for a body contains the terminator before its end exactly when a lone dot line stands behind a line that ends in a carriage return |
| Resending.SavedEndsEarlyIff | smtp_proj/server/src/protocol.c:164-210 | of the letters that sessions save, those cut short when sent on are exactly the ones whose data was ended by the terminator and those ended by a lone dot whose data had such a line |

## Left out

- Delivery.EveryRunDelivers: the session is one client and one server; every socket is ready whenever the client waits (no reply takes longer than the 15 seconds of `select`), saving succeeds, no pass is late, no mail arrives and no other domain writes during the session, and commands arrive whole. Time-outs, failed saves, arrivals and other domains are covered on each side alone by `History`, `ClientRuns` and `CursorRuns`, and mails that cannot be read by `ClientLanguage.SurvivesIff`.
- Router.NoOverflow: bounds the table of a process in the master; a worker takes domains from whole paths, so a dot in a user's directory can give it more of them than its 50 descriptors. The bound on distinct domains is the size of the master's table; a scan that finds more overruns that table in the source, and `Scheduler.MailTable.AddMail` requires that it does not.
- Scheduler.MailTable.GetDomainsMails: file names from which no domain can be taken end the source's process; they are required not to occur. A mail that is still in `new` is found again by later scans, so its path can be queued twice; `ClientLanguage.NewMailsSurviveIff` says what follows.
- DomainProc.Descriptor.HandleWriteSocket: a failed write (-1) and the retry gate of smtp_proj/client/src/smtp_client.c:33-46 (-2, -3) are not modelled; the gate is never entered because its time is only ever set to 0.
- DomainProc.Descriptor.Register: acts on the descriptor of the mail's domain, which the pure runs of `ClientRuns` choose by name; the array of descriptors as a mutable table, the DNS lookup, and a socket number that the system gives out again while an idle descriptor still holds it are not part of this model.
- ClientRuns.RemovedIsSentIff: the loop that looks up the descriptor of a ready socket is left out; an action names the domain that is served.
- MailList.List.RemoveFirst: freeing of nodes is not modelled, only that the list no longer holds them.
- Sessions opened by a registration in SEND_QUIT or DONE: `Client.Register` takes that step and `ClientRuns` follows it, but `ClientLanguage` starts from a fresh connection.
- Sockets, `select`, `recv`, `send`, forking, message queues, signals, and the closing of disconnected slots (smtp_proj/server/src/conn.c).
- DNS (smtp_proj/client/src/mx_utils.c), configuration, loggers and the `main` functions.
- The regular expression engine, and the sizes of text buffers, which the source fixes at 1024 and similar.
- Memory management: a letter or path used after it was freed.
- File system effects: directories made, two files of the same name within one millisecond, files changed by others during a run, and the overflow of the timestamp to 32 bits.
- Dot transparency (section 4.5.2 of RFC 5321) and several recipients, which the source does not implement.
