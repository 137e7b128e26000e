# Verification of the POP3 server's session engine

The server is a single-threaded POP3 daemon: one event loop, one state machine per connection, commands
that arrive in arbitrary pieces and may be pipelined, replies that leave through a bounded buffer by partial
sends, mail bodies that come from a pipe taking turns with the client. This project models that engine and
the parts it stands on, and proves what it promises.

## How it is built

Every object the server changes in place is a class here, with loops and in-place updates: the linear
buffer, the table-driven parser, the user table, the mail list, the connection's data with its handlers, the state
machine around it, the selector, and the client's circular buffer. Every method is proved equal to
a function on values (`Model()`, `State()`, `Whole()`), and the theorems are proved about those functions over every
input and every run. A last link, `Connection.Dispatch`, ties the object to the step relation
`Machine.Step`, so a theorem about runs of steps is a theorem about the object.

| file | contents |
|---|---|
| text, replies, lines | decimal numbers, atoi, the reply texts; lines as clients send them |
| buffer | the linear buffer: class, operations, FIFO over every operation sequence |
| parser, automaton | one-pass line grammar and resumable parser; the activator tables and the parser object |
| maildrop, maildir | mail list, marks and files as values; the list object, path splicing and renames |
| users | the slot table: class, and refinement of a finite map |
| session | what every handler makes of a connection's data |
| reference | the sequential interpreter: what a session owes its client, command by command |
| delivery, answers, schedules, progress, listing | from one handler to every schedule, and to the last byte |
| commits | the mail list over whole sessions, the files over whole connections |
| machine, lifecycle, login, dialogue | the state machine, a connection from accept to close, the AUTH commands and the conversation they make |
| laws, authlaws | every command by its literal line: the bytes that answer it and what it changes |
| exclusion | any number of connections over one user table, with users added and deleted |
| sharing | the same connections over one disk: commits of some, mails of others |
| engine, connection | the imperative connection |
| selector | the descriptor table, its caches, the dispatch pass |
| monitor | the monitor client's printer against the server's parser; its circular buffer |

## Main results

* **Every schedule gives the same bytes.** For any interleaving of received chunks, partial sends and pipe
  reads, what was sent, is buffered, is owed by the callback and the terminator, and is still to be
  answered, equals the replies of the sequential interpreter (`EverySchedule`, `DeliversInterpretation`,
  `RetrIsDelivered`).
* **What each line does**, spelled out: for every command, in any mixture of cases, the line as the client types it is
  answered with these bytes and leaves the list so (`StatLaw`, `ListLaw`, `ListNumberLaw`, `RetrLaw`, `DeleLaw`,
  `RefusalLaw`, `RsetLaw`, `QuitLaw`, `UnknownLaw`). In AUTH the same by exact names: reply, phase, name held, and the
  state of every name in the table (`QuitInAuth`, `UserTakes`, `UserRefused`, `PassAdmits`, `PassRefused`, `CapaInAuth`,
  `UnknownInAuth`); nothing but QUIT ends the connection (`OnlyQuitCloses`).
* **The same from accept on.** When the greeting and the AUTH replies are taken whole, the connection sends the
  greeting, the AUTH conversation over the lines received, and the interpretation of all that came behind
  PASS (`EveryTalk`, `WholeConnection`).
* **No stall and no endless run.** In every state that TRANSACTION and UPDATE can reach a write or a pipe event is
  enabled, or everything received is answered, or an over-long argument has stopped the parser; without new
  input only a bounded number of events is possible, and a settled session has delivered (`NoStall`,
  `NoEndlessRun`, `SettledRunsDeliver`). As long as AUTH's replies are taken whole the same holds of AUTH: in READ it
  has answered every complete line, and only so many write events lie between (`TalkIsPrompt`,
  `TalkNeverStalls`, `TalkEnds`).
* **Sane life.** Phases only go up, every event has a handler, the sentinel -1 never reaches `jump`
  (`EveryConnectionIsSane`).
* **Exclusive access** over every history of connections and user administration, with the exact condition under
  which adding a user breaks it (`SoundStep`, `ExclusiveAccess`, `OverlookedNameIsSharedOut`).
* **UPDATE commits exactly the marks.** Over every run from accept the files change exactly when UPDATE closes the
  connection, and then a deleted mail is gone under every name, a read one is at cur/name:2,S with its bytes, an
  unmarked one is where it was, and no other file differs; any other end, in any phase, changes nothing. The
  marks are the sequential interpreter's (`CommitsExactlyTheMarks`, `DeliversInterpretation`). Over one disk shared by
  any number of sessions, the mails of an open session stay in place whatever the others commit, so its own commit is
  exact too (`SessionsDoNotDisturb`, `SharedCommitIsExact`).
* **The parser is its grammar**, the selector's caches agree with its table, the buffers are FIFOs, the monitor's
  batches round-trip.

## What the code does not keep

Each of these is proved, with the exact condition where there is one.

* `send_terminator` ignores how much was sent: a partly sent `.\r\n` leaves its tail in the buffer while the
  session waits to read (`TerminatorIsSentIff`); if every terminator is taken whole, nothing is left
  (`WholeTerminatorsDeliver`).
* UPDATE tries one send and closes whatever it took: a session ended by QUIT has delivered everything exactly when
  that send took the pending tail and the whole farewell; the rest is lost (`UpdateConserves`, `QuitDelivers`).
* The 41st printable argument byte stops the parser without ending the line, for good (`FeedIsGrammar`). Such a
  session sends nothing more and changes no file (`StuckForever`); once its input buffer is full the next read event
  closes it with an error, unless a terminator's tail is still in the output buffer (`StuckAndFull`).
* `auth_process` has its test for unsent bytes inverted: after one partial send the connection spins and never
  sends again (`AuthReplySentIff`, `AuthSpins`).
* A name that its connection no longer holds is free again, except exactly when the event is an unknown command in
  AUTH: that forgets the name without releasing it (`DroppedIsFreeIff`, `ForgottenIsOrphan`). Nobody can then log
  in as that user or delete it, until the name is added again over an earlier free slot and no longer (`OrphanForever`).
  The only other event that makes such a name is deleting the upper of two entries that an addition has
  left (`OrphanStep`).
* `user_add` duplicates a present name exactly when a free slot comes before it (`AddPresent`), and that is
  the one way exclusion breaks (`SoundStep`): every other connection that then asks for the name holds it too
  (`OverlookedNameIsSharedOut`), as in a history from the empty server (`AnnIsHeldTwice`).
* The empty user name is found exactly when the table has a free slot (`EmptyNameExists`).
* CAPA between USER and PASS is answered as USER is (`CapaAnswersIff`).
* LOGIN from the monitor client blocks the server's parser when user and password make more than 39
  characters together; the client silently cuts the arguments of other commands at 39 (`RequestArrivesIff`).
* A line also ends at a bare LF, or at a CR with whatever byte follows it (`FeedIsGrammar`); section 3 of RFC 1939
  asks for CRLF.
* `selector_register` compares with the table size strictly, so the slot for a descriptor equal to the size is
  missing (`SlotExistsIff`); the server's table has a slot for every descriptor.

## Model

| member | source | states |
|---|---|---|
| Schedules.EverySchedule | src/server/transaction.c:62-275 | from any state of a session, any events in any order: sent, buffered, owed and still-to-answer bytes add up to the interpreter's; the wire is a prefix of it; the files are those of the start until UPDATE closes the connection, and then those with the interpreter's marks committed |
| Schedules.DeliversInterpretation | src/server/transaction.c:100-243 | from login, at any moment the client has a prefix of the sequential answers to the bytes received, and all of them but a terminator's tail whenever the session is back in READ; the files change exactly when UPDATE closes the connection, by the interpreter's marks |
| Schedules.TransStep | src/server/transaction.c:100-156 | one write event, whatever the peer takes, keeps the session invariant and loses, invents and reorders nothing |
| Schedules.ReplyStep | src/server/transaction.c:119-155 | a complete command: reply tried at once, rest kept, same total |
| Schedules.ForwardStep | src/server/transaction.c:158-243 | a write event in the middle of a reply only moves bytes from owed to buffer to wire |
| Schedules.ReceiveStep | src/server/transaction.c:62-98 | received bytes are appended to the input and to nothing else |
| Schedules.ReadingIsClear | src/server/transaction.c:62-80 | in READ no reply is in progress, so the "shouldn't be in READ" branch is dead; unless an over-long argument has stopped the parser the whole input buffer is free, so the "buffer full" branch is too |
| Schedules.NoStall | src/server/transaction.c:112-155 | in every reachable state a write or pipe event is enabled, or everything read is answered, or an over-long argument has stopped the parser |
| Schedules.TerminatorIsSentIff | src/server/transaction.c:215-243 | the reply is complete exactly when the one send took the whole terminator; READ over a tail exactly when no input waits |
| Schedules.WholeTerminatorsDeliver | src/server/transaction.c:215-243 | if every terminator was taken whole, a session in READ has nothing unsent |
| Schedules.QuitDelivers | src/server/update.c:38-60 | from login to QUIT: the client has all of the interpretation exactly when UPDATE's one send takes what is pending and the whole farewell |
| Schedules.StuckForever | src/server/transParser.c:167-181 | once an over-long argument has stopped the parser nothing more is sent and no file changes, whatever comes |
| Schedules.StuckAndFull | src/server/transaction.c:70-82 | a stuck session with a full input buffer is closed with an error exactly when its output buffer is empty |
| Schedules.FilesWait | src/server/pop3.c:188-213 | a session's files change exactly at UPDATE's event, which closes the connection, and then by its marks; a peer that closes or fails in TRANSACTION changes none |
| Schedules.UpdateConserves | src/server/update.c:38-60 | UPDATE commits, writes the farewell and closes; nothing is left unsent exactly when its one send takes the pending bytes and the whole farewell |
| Progress.NoEndlessRun | src/server/transaction.c:158-243 | runs of events that move at least a byte are bounded by a number known from the first state |
| Progress.SettledRunsDeliver | src/server/transaction.c:100-243 | a run carried on until no server event is enabled has delivered the whole interpretation of what was received |
| Progress.RetrIsDelivered | src/server/fileReader.c:51-125 | RETR at any point of a session, whatever follows it, under every interleaving: header, every pipe byte once and in order, terminator |
| Progress.EventUsesBudget | src/server/fileReader.c:110-125 | every productive event lowers the bound, so client and pipe cannot hand the turn back and forth for ever |
| Reference.ResumeIsInterpret | src/server/transParser.c:138-150 | running the resumable parser over the stream answers the same lines as reading it line by line |
| Reference.ResumeSplit | src/server/transParser.c:138-150 | the answers do not depend on where the stream is cut |
| Laws.StatLaw | src/server/transaction.c:276-288 | the line STAT, in any case, whatever follows it: the number and octets of the messages not marked |
| Laws.ListLaw | src/server/transaction.c:290-313 | the line LIST: the same totals, one line with its own number and size for each message not marked, the terminator |
| Laws.ListNumberLaw | src/server/transaction.c:314-332 | the line LIST n: the number and size of message n, or that it is deleted |
| Laws.RetrLaw | src/server/transaction.c:334-377 | the line RETR n: size, content and terminator of message n, which is read from then on |
| Laws.RetrNeedsNumber | src/server/transaction.c:346-354 | RETR alone is not understood |
| Laws.DeleLaw | src/server/transaction.c:379-415 | the line DELE n: message n is marked from then on, and only its own mark changes; a second time it is refused |
| Laws.DeleNeedsNumber | src/server/transaction.c:389-393 | DELE alone is refused with its own text |
| Laws.RefusalLaw | src/server/transaction.c:314-326 | LIST, RETR and DELE with an argument that reads as 0, as a negative number or as one above the list: the two refusals, and nothing changes |
| Laws.RsetLaw | src/server/transaction.c:417-433 | the line RSET: no message is marked from then on, read marks stay, and all messages are reported |
| Laws.NoopLaw | src/server/transaction.c:265-266 | the line NOOP: +OK and nothing changes |
| Laws.CapaLaw | src/server/transaction.c:270-271 | the line CAPA: the capability list, ended by the terminator |
| Laws.QuitLaw | src/server/transaction.c:267-269 | the line QUIT: the farewell with its three numbers; the marks are those of that moment and nothing behind it is answered |
| Laws.UnknownLaw | src/server/transaction.c:272-274 | any other word with any argument that fits: refused, and nothing changes |
| Laws.UnreadableLaw | src/server/transaction.c:279-285 | without a readable maildrop the five commands that need it answer with an error and the session goes on |
| Laws.MarksAreCounted | src/server/update.c:71-93 | the numbers of the farewell are those of the messages marked, read and not marked, neither |
| Laws.KeptSplits | src/server/transaction.c:435-456 | the messages counted are those not marked, in order, and octets add up |
| Laws.FirstFiveLetters | src/server/transParser.c:152-165 | a command name is cut to its first five letters |
| Laws.OtherCharactersAreDropped | src/server/transParser.c:152-157 | a character that is no letter adds nothing to the name |
| Laws.TokenLaw | src/server/transaction.c:477-485 | the token of an argument is what precedes its first blank |
| Laws.AtoiReads | src/server/transaction.c:316-317 | a printed number is read as itself whatever but a digit follows it |
| Laws.AtoiReadsSigned | src/server/transaction.c:316-317 | a sign before the number counts |
| Laws.StatReadsBack | src/server/transaction.c:287 | of STAT's reply the first number reads back as the count, the second as the octets |
| Answers.RequestAgrees | src/server/transaction.c:245-275 | every command but the one spelled QUIT, in any case, answers, with what its callback will add, as the sequential interpreter does; what that is for each name the rows of Laws say |
| Answers.StatOn | src/server/transaction.c:276-288 | STAT prints the number and octets of the messages not marked |
| Answers.ListAllOn | src/server/transaction.c:290-313 | LIST promises a header, one line for each unmarked message in order, and the terminator |
| Answers.ListOneOn | src/server/transaction.c:314-332 | LIST n: the refusals, the deleted message, the number and size |
| Answers.RetrOn | src/server/transaction.c:334-377 | RETR n: the refusals, or the read mark, the header and a pipe that owes the rest |
| Answers.DeleOn | src/server/transaction.c:379-415 | DELE: the three refusals, the message already marked, or the mark |
| Answers.RsetOn | src/server/transaction.c:417-433 | RSET clears every mark and reports all messages |
| Answers.TotalsDescribeKept | src/server/transaction.c:276-288 | the unsigned differences do not wrap and describe the unmarked messages |
| Answers.FarewellAgrees | src/server/update.c:62-94 | the message at UPDATE is the interpreter's |
| Delivery.SendDataStep | src/server/transaction.c:158-194 | send_data keeps the invariant; only once the buffer is drained does it turn to the callback or the terminator |
| Delivery.ListStep | src/server/transaction.c:492-535 | one call of the LIST callback moves one line from owed to buffer |
| Delivery.ListGoesOn | src/server/transaction.c:492-535 | on a drained buffer the line always fits, so the "maybe next time" return is dead |
| Delivery.SendTerminatorStep | src/server/transaction.c:215-243 | send_terminator ends the reply: nothing is owed beyond the buffer |
| Delivery.PipeStep | src/server/fileReader.c:51-86 | a pipe event moves bytes from the pipe to the buffer and hands the turn to the client; the end of the pipe, and only it, unregisters the pipe and clears the callback |
| Listings.ListIsComplete | src/server/transaction.c:492-535 | within one call more than there are unmarked messages the callback has printed each of them once, in order, and reset itself |
| Lifecycle.EveryConnectionIsSane | src/server/stm.c:27-76 | over every run phases only go up, each arrival hook runs at most once, no missing handler is called and jump never sees -1 |
| Lifecycle.LifeStep | src/server/pop3.c:65-92 | every event of every state keeps the joint invariant of phases and interests |
| Lifecycle.AuthStep | src/server/auth.c:87-165 | auth_process leaves AUTH's invariant, or hands a clean session to TRANSACTION with exactly the input behind PASS |
| Lifecycle.AuthReplySentIff | src/server/auth.c:138-151 | an AUTH reply leaves nothing unsent exactly when one send takes it whole |
| Lifecycle.AuthSpins | src/server/auth.c:92-124 | after a partial send in AUTH no later event sends a byte and the connection stays open |
| Lifecycle.GreetingStep | src/server/writter.c:40-55 | a greeting taken whole leads to AUTH with READ interest; otherwise the connection closes |
| Logins.LoginIff | src/server/auth.c:194-215 | TRANSACTION is entered exactly by PASS with the password the table lists for the name held, which is then online |
| Logins.UserIff | src/server/auth.c:175-193 | USER is accepted exactly for a name that is listed and offline; a refusal keeps the name held |
| Logins.CapaAnswersIff | src/server/auth.c:232-244 | CAPA lists the capabilities exactly when the user is not between USER and PASS |
| AuthLaws.OnlyQuitCloses | src/server/auth.c:167-230 | a complete command in AUTH whose reply is taken whole closes the connection in DONE exactly when its name is QUIT |
| AuthLaws.QuitInAuth | src/server/auth.c:170-174 | QUIT: the farewell, DONE, and the name held is offline; no other name changes |
| AuthLaws.UserTakes | src/server/auth.c:175-189 | USER with a listed offline name: it is held and logging in, the one held before is offline, no other name changes |
| AuthLaws.UserRefused | src/server/auth.c:178-193 | USER with any other name: which of the two refusals, and nothing changes |
| AuthLaws.PassNeedsUser | src/server/auth.c:195-199 | PASS with no name held: refused, and nothing changes |
| AuthLaws.PassAdmits | src/server/auth.c:210-214 | PASS with the listed password of the name held: TRANSACTION, the name online, no other name changes |
| AuthLaws.PassRefused | src/server/auth.c:203-209 | PASS with any other password: refused, the name is given up and offline, no other name changes |
| AuthLaws.CapaInAuth | src/server/auth.c:217-221 | CAPA: nothing changes; the list, or USER's answer while the name held is logging in |
| AuthLaws.UnknownInAuth | src/server/auth.c:222-227 | any other name, lower case included: refused, and the name held is forgotten with the table as it was |
| AuthLaws.LineIsMet | src/server/transParser.c:83-196 | a line as it is sent is such a command, and what follows it stays for the next one |
| AuthLaws.GreetingLaw | src/server/writter.c:40-55 | the greeting's 19 bytes, C terminator included, and AUTH; a peer that takes fewer at once is closed |
| Dialogues.EveryTalk | src/server/auth.c:87-165 | every schedule of AUTH whose replies are taken whole sends the answers to the received lines one by one, each against the table it meets, and hands over exactly the input behind PASS |
| Dialogues.TalkIsPrompt | src/server/auth.c:118-165 | in READ, AUTH has answered every complete line it has received: with any further user tables it would have nothing more to say |
| Dialogues.TalkNeverStalls | src/server/auth.c:129-151 | with nothing unsent AUTH can write or is in READ |
| Dialogues.TalkEnds | src/server/auth.c:87-165 | write events alone cannot keep AUTH busy: their number is bounded by the input |
| Dialogues.WholeConnection | src/server/pop3.c:65-92 | from accept: greeting, conversation, then the sequential interpretation of the rest, at any moment a prefix, in READ all but a terminator's tail; the files change exactly when UPDATE closes, by the interpreter's marks |
| Dialogues.CommandAnswered | src/server/auth.c:167-263 | the text read off the error code and the table is the one the command and its outcome call for |
| Dialogues.ConverseFromIsConverse | src/server/auth.c:128-135 | the resumable parser in AUTH answers the same lines as reading line by line |
| Exclusion.ExclusiveAccess | src/server/auth.c:167-230 | over every history, open sessions have different users, each online, and a name in use cannot be deleted |
| Exclusion.SoundStep | src/server/user.c:77-94 | every step keeps exclusion with every held name busy, except exactly an addition, over an earlier free slot, of a name that somebody holds |
| Exclusion.EventTrades | src/server/pop3.c:188-213 | any event of a connection takes only a free name, keeps its own busy or drops it, frees a dropped name unless it is one that forgets, and changes no other |
| Exclusion.DroppedIsFreeIff | src/server/auth.c:222-227 | a name its connection no longer holds is busy afterwards exactly when the event was a complete AUTH command other than QUIT, USER, PASS and CAPA |
| Exclusion.ForgottenIsOrphan | src/server/auth.c:222-227 | in the world of all connections, a holder's event leaves its name without a holder and busy exactly when it is that command |
| Exclusion.OrphanStep | src/server/user.c:77-133 | exactly which happenings make a busy name without a holder and which end one |
| Exclusion.CommandTrades | src/server/auth.c:167-230 | the same for each AUTH command, the one that forgets being the unknown one; after a good PASS the name is online |
| Exclusion.OverlookedNameIsSharedOut | src/server/user.c:77-94 | after such an addition every other connection in AUTH that asks for the name holds it too, whatever the peer takes of the reply |
| Exclusion.AnnIsHeldTwice | src/server/user.c:77-94 | a history from the empty server that ends with two live connections holding one name |
| Exclusion.OrphanForever | src/server/auth.c:222-227 | a busy name without a holder stays so over a whole history exactly when it is never added again over an earlier free slot; until then it can be neither logged in as nor deleted |
| Exclusion.BusyNames | src/server/user.c:115-133 | a busy name cannot be deleted, and adding it again changes nothing unless its slot is overlooked |
| Users.TableRefinesMap | src/server/user.c:44-133 | over every legal run of add, delete and set_state the table behaves as a finite map, with the same return codes |
| Users.StartsAsEmptyMap | src/server/user.c:28-29 | the table the server starts with is the empty map, so every legal run from there is covered |
| Users.AddIsInsert | src/server/user.c:77-94 | adding an absent name fails exactly when the table is full; the fall-through return is dead |
| Users.DeleteIsRemove | src/server/user.c:115-133 | delete refuses an unknown or busy name and otherwise removes exactly that name |
| Users.SetStateIsUpdate | src/server/user.c:54-65 | set_state changes exactly that name's state |
| Users.CheckPassIsLookup | src/server/user.c:96-108 | for a legal table the check accepts exactly the password that the map it stands for lists for the name |
| Users.FullMeansNoFree | src/server/user.c:77-82 | the counter equals the number of slots exactly when no slot is free |
| Users.AddPresent | src/server/user.c:82-93 | a present name is duplicated exactly when a free slot comes before it, and then reads as offline |
| Users.EmptyNameExists | src/server/user.c:67-76 | the empty name is found exactly when the table is not full |
| Users.UserTable.UserGetState | src/server/user.c:44-53 | the scan finds the state at the first slot with the name |
| Users.UserTable.UserExists | src/server/user.c:67-76 | found exactly when some slot has the name |
| Users.UserTable.UserCheckPass | src/server/user.c:96-108 | true exactly when the first slot with the name has that password |
| Users.UserTable.UserSetState | src/server/user.c:54-65 | every slot with the name gets the state, no other changes |
| Users.UserTable.UserAdd | src/server/user.c:77-94 | table, counter and code after the first slot that is free or has the name |
| Users.UserTable.UserDelete | src/server/user.c:115-133 | table, counter and code |
| Maildrops.CommitIsExact | src/server/update.c:71-78 | after UPDATE deleted mails are gone under both names, read ones have their bytes at cur/name:2,S, every other file is untouched and none appears elsewhere |
| Maildrops.CommitCarriesOut | src/server/update.c:71-78 | by the marks alone: a deleted mail is gone from new/ and from cur/ under S, T and ST; a read one is only at cur/name:2,S, with its bytes; an unmarked one is where it was; every other path is as before |
| Maildrops.PathsAreSpelled | src/utils/maildir.c:397-421 | the paths in these statements, spelled out for a maildir |
| Maildrops.ListsAllButDots | src/utils/maildir.c:161-213 | of the directory's entries exactly . and .. are left out, every other one is listed as often as it is there |
| Maildrops.NewKeepsUnmarked | src/server/update.c:71-78 | new/ keeps exactly the mails neither deleted nor read |
| Maildrops.TargetsDistinct | src/utils/maildir.c:283-303 | no two mails, under S, T or ST, are renamed onto the same path |
| Commits.BookkeepingHolds | src/utils/maildir.c:262-281 | over every run of a session the mails and sizes are fixed once loaded, the cached count is the number of marks, and the differences STAT prints describe the unmarked mails |
| Commits.CommitsExactlyTheMarks | src/server/update.c:62-78 | over every run from accept, with any partial sends: if UPDATE closed the connection every mail has gone where its own marks say and no other file differs, otherwise no file has changed |
| Sharing.SessionsDoNotDisturb | src/utils/maildir.c:397-421 | over every history on one disk, the mails of an open session stay in its new/ with their bytes, and their rename targets stay free, whatever other sessions commit |
| Sharing.SharedCommitIsExact | src/server/update.c:62-78 | after any such history a commit sends every mail of the session where its own marks say, bytes as they were when the session began, and touches no other file |
| Sharing.CommitStaysHome | src/utils/maildir.c:71-78 | a commit in one user's home leaves every mail path and rename target of another's as it is |
| Reference.InterpretKeepsMails | src/server/transaction.c:379-433 | the marks that QUIT leaves to be committed are on the mails of new/, in their order |
| Maildrops.KeptTotals | src/server/transaction.c:435-456 | the two sums of get_new_mails differ by the octets of the unmarked mails |
| Maildrops.LeftInNew | src/server/update.c:89-93 | len - ndel - n_read never underflows and counts the mails left in new/ |
| Maildrops.LoadKeeps | src/utils/maildir.c:161-213 | a list once loaded is consistent and is returned unchanged |
| Maildirs.Maildir.ListNew | src/utils/maildir.c:161-213 | fails only on an unreadable directory; the count pass and the fill pass give one fresh entry for each file but the dot directories; a second call changes nothing |
| Maildirs.Maildir.SetDelMark | src/utils/maildir.c:262-281 | the mark is set and the count follows it only if it changed |
| Maildirs.Maildir.Totals | src/server/transaction.c:435-456 | octets of all mails and of the marked ones |
| Maildirs.Maildir.ClearAllMarks | src/server/transaction.c:427-430 | the loop of RSET clears every mark and the count |
| Maildirs.Maildir.CommitMarks | src/server/update.c:71-78 | the loop of UPDATE leaves every mail where its own marks say, touches no other file, and counts the mails filed |
| Maildirs.Maildir.DelPermanently | src/utils/maildir.c:283-303 | renamed with ST if it was read, with T if not, then removed from there |
| Maildirs.MoveAndSetFlags | src/utils/maildir.c:397-421 | the spliced path is cur/name:2,flags beside new/, and the file is renamed to it |
| Maildirs.AppendFlags | src/utils/maildir.c:379-395 | a longer path with the flags behind it |
| Parsers.FeedIsGrammar | src/server/transParser.c:83-196 | the resumable parser ends exactly on a complete line whose argument fits, with that line's name and argument and exactly its bytes consumed; it waits on an unfinished line and is stuck on an over-long argument |
| Parsers.FeedSplit | src/server/transParser.c:138-150 | where a chunk is cut does not matter |
| Parsers.ChunksDoNotMatter | src/server/monitorParser.c:137-149 | with re-initialisation after each line, any cutting into chunks gives the same commands, state and rest |
| Automata.TablesAreDelta | src/server/transParser.c:97-104 | the built rows are a deterministic transition function; with no active row the automaton fails |
| Automata.AllButAt | src/server/parser.c:138-164 | after add_activator_except a byte is active exactly when it is not excepted |
| Automata.AddActivatorExcept | src/server/parser.c:138-164 | the two loops leave exactly the exceptions inactive |
| Automata.Configure | src/server/transParser.c:83-112 | the tables built |
| Automata.LineParser.Init | src/server/transParser.c:119-136 | a fresh parser, although the memsets stop one byte short |
| Automata.LineParser.ProcessChar | src/server/parser.c:63-110 | the row scan and the callbacks do one step of the transition function |
| Automata.LineParser.Parse | src/server/transParser.c:138-150 | parser and buffer after the loop: what Feed says, consumed bytes gone from the buffer |
| Automata.LineParser.NextArg | src/server/transaction.c:458-490 | the argument up to its first blank |
| Automata.LineParser.UpperCmd | src/utils/stringUtils.c:27-33 | upper-cases the command and nothing else |
| Buffers.BufferIsFifo | src/server/buffer.c:48-102 | over every operation sequence what was written is what was taken followed by what is held, and a drained buffer has its whole capacity |
| Buffers.Buffer.Compact | src/server/buffer.c:89-102 | the overlapping move keeps the content |
| Buffers.Buffer.ReadAdv | src/server/buffer.c:56-67 | the content loses its first n bytes; a drained buffer is compacted |
| Buffers.Buffer.Put | src/server/buffer.c:48-54 | bytes are appended behind the write mark |
| Buffers.Buffer.ReadByte | src/server/buffer.c:69-79 | the first byte, or 0 and no change |
| Buffers.Buffer.WriteByte | src/server/buffer.c:81-87 | appended if it fits, dropped if not |
| Buffers.Buffer.CanWrite | src/server/buffer.c:24-27 | true exactly when there is room |
| Engines.Engine.Receive | src/server/transaction.c:62-98 | trans_read and auth_read on the object: all their branches |
| Engines.Engine.TransProcess | src/server/transaction.c:100-156 | trans_process on the object |
| Engines.Engine.SendData | src/server/transaction.c:158-194 | send_data on the object |
| Engines.Engine.WriteTerminator | src/server/transaction.c:196-213 | the terminator, or an error without room |
| Engines.Engine.SendTerminator | src/server/transaction.c:215-243 | send_terminator on the object |
| Engines.Engine.HandleRequest | src/server/transaction.c:245-275 | the dispatch on the upper-cased name, on the object; UPDATE comes next exactly for QUIT |
| Engines.Engine.CmdStat | src/server/transaction.c:276-288 | cmd_stat on the object |
| Engines.Engine.CmdList | src/server/transaction.c:290-332 | cmd_list on the object |
| Engines.Engine.CmdRetr | src/server/transaction.c:334-377 | cmd_retr on the object, the pipe registered and the client stopped |
| Engines.Engine.CmdDele | src/server/transaction.c:379-415 | cmd_dele on the object |
| Engines.Engine.CmdRset | src/server/transaction.c:417-433 | cmd_rset on the object |
| Engines.Engine.GetNewMails | src/server/transaction.c:435-456 | loads the list at most once and sums it |
| Engines.Engine.CmdListAllNew | src/server/transaction.c:492-535 | one call of the LIST callback on the object |
| Engines.Engine.LoadMoreBytes | src/server/fileReader.c:110-117 | the client stops and the pipe goes on |
| Engines.Engine.HandleFileReader | src/server/fileReader.c:51-86 | a pipe event on the object |
| Engines.Engine.AuthProcess | src/server/auth.c:87-165 | auth_process on the object and the user table |
| Engines.Engine.ProcessCmd | src/server/auth.c:167-230 | process_cmd on the object and the user table, as the value function that AuthLaws speaks of through `OnWrite` |
| Engines.Engine.GenerateMsg | src/server/auth.c:232-263 | the reply text |
| Engines.Engine.UpdateProcess | src/server/update.c:38-60 | update_process on the object and the disk |
| Engines.Engine.WriteMsg | src/server/writter.c:57-100 | the test for a full buffer with its inverted error, then the message is appended and one send tried |
| Engines.Engine.SendGreeting | src/server/writter.c:40-55 | write_greeting on the object |
| Engines.InvIsReady | src/server/writter.c:67-86 | in every state TRANSACTION can reach the reply fits the output buffer and the handlers may run |
| Engines.ReplyFits | src/server/writter.c:66-81 | no reply is longer than the room left, so the full-buffer branch of write_msg is dead |
| Engines.PipeHasRoom | src/server/fileReader.c:55-60 | the pipe never meets a full output buffer in any reachable state, so that branch is dead |
| Connections.Connection.Dispatch | src/server/pop3.c:163-179 | one event on the object is one step of the model, and leaves a state in which every event has a handler |
| Connections.Connection.JumpTo | src/server/stm.c:37-52 | jump, with abort as a flag |
| Connections.Connection.Begin | src/server/stm.c:27-35 | handle_first |
| Connections.Connection.Arrive | src/server/update.c:30-36 | the arrival hooks of AUTH, TRANSACTION and UPDATE |
| Connections.Connection.CloseConnection | src/server/pop3.c:188-213 | closes once and releases the name held; being closed stands for being unregistered |
| Connections.Connection.HandleWrite | src/server/stm.c:66-76 | write events |
| Connections.Connection.HandleRead | src/server/stm.c:54-64 | read events |
| Selectors.LeastPowerAbove | src/server/selector.c:172-188 | 2^bits is the least power of two above n, for every n |
| Selectors.ShiftFits | src/server/selector.c:172-188 | the shift stays in 64 bits exactly below 2^63 |
| Selectors.NextCapacity | src/server/selector.c:172-188 | that power, capped at 1024, and one more; always above n |
| Selectors.SlotExistsIff | src/server/selector.c:344-356 | after the growth test of selector_register the slot exists exactly when the descriptor differs from the table size |
| Selectors.Selector.EnsureCapacity | src/server/selector.c:245-287 | on success n is a slot, old items are unchanged and new slots unused |
| Selectors.Selector.ItemsMaxFd | src/server/selector.c:210-222 | the exact maximum used descriptor, 0 if none |
| Selectors.Selector.UpdateSets | src/server/selector.c:224-238 | the two sets after the update of one descriptor |
| Selectors.Selector.RegisterFd | src/server/selector.c:335-373 | the item is entered with the owner and the interest asked for, in the table and in both sets, or refused; no other slot changes and all caches still agree |
| Selectors.Selector.UnregisterFd | src/server/selector.c:375-408 | the slot is free and in neither set, or the call is refused; no other slot changes and all caches still agree |
| Selectors.Selector.SetInterestOf | src/server/selector.c:410-427 | the interest stored, in the table and in both sets, is the one asked for, the owner is kept, or the call is refused; no other slot changes and all caches still agree |
| Selectors.Selector.HandleIteration | src/server/selector.c:446-480 | the pass over any handlers, which may change the table meanwhile; caches agree after it |
| Selectors.Selector.Select | src/server/selector.c:531-573 | calls only reported descriptors, in order; whatever was ready and is not touched by a handler is called |
| Selectors.NoWriteOnceUnregistered | src/server/selector.c:455-478 | a descriptor unregistered by its own read handler gets no write call in that pass |
| Selectors.PassIsOrderly | src/server/selector.c:446-480 | each descriptor is called at most once to read, then at most once to write, in ascending order |
| Selectors.SparedIsServed | src/server/selector.c:446-480 | a reported descriptor that no handler touches gets its calls |
| Selectors.OwnerIsCurrent | src/server/selector.c:456-474 | the data a write call hands over are those of the owner registered at that moment, unless the descriptor's own read handler has unregistered it |
| Monitors.BatchRoundTrip | src/client/cmd.c:202-234 | any batch of printed commands, in any chunks, is parsed back with nothing left over |
| Lines.LineArrivesIff | src/server/monitorParser.c:166-180 | a line sent to either parser arrives exactly when its argument has at most 40 bytes, and otherwise the parser is stuck |
| Monitors.RequestArrivesIff | src/client/cmd.c:137-195 | when what the user typed arrives, and when it arrives unchanged |
| Monitors.RequestBytes | src/client/cmd.c:137-195 | the bytes sent for each command whose words are not cut |
| Monitors.GetCmdIndex | src/client/cmd.c:56-65 | the index of a known name, the table's length for any other |
| Monitors.ReplyBuffer.Write | src/client/cmd.c:275-284 | appends despite wrap-around; full is never taken for empty; the window slides |
| Monitors.ReplyBuffer.Read | src/client/cmd.c:286-291 | takes the first byte |
| Monitors.ReplyBuffer.HasTerminator | src/client/cmd.c:265-273 | true exactly when the stream so far ends in CRLFCRLF |
| Monitors.ReplyBuffer.RecvCmd | src/client/cmd.c:236-263 | prints exactly the bytes received, and stops after the first chunk at whose end the reply is complete |
| Monitors.WindowShowsEnd | src/client/cmd.c:265-273 | the four-byte window, zeros at first, shows the terminator exactly when the stream ends in it |
| Text.AtoiOfDec | src/server/transaction.c:314-317 | a printed message number is read back as itself |
| Text.DecLength | src/server/transaction.c:515-516 | a number below 10^k prints in at most k characters, on which the room for replies rests |

## Left out

- Sockets, pselect, signals and threads: what recv, send and read do is a parameter (how many bytes, which bytes); errors of send are not modelled.
- The pipe: popen, the shell, the external program and sed are one arbitrary byte string per mail; nothing is claimed about dot-stuffing. Failures of popen and read, and a disconnect while the pipe is registered, are not modelled. A pipe event that yields no byte before the end of the pipe is allowed by the model and changes only whose turn it is.
- rename and remove: an absent source is ignored, as the server ignores it; other failures are not modelled, so UPDATE's error texts, which the code overwrites anyway (src/server/update.c:80-93), do not occur. `CommitIsExact`, `CommitCarriesOut` and `CommitsExactlyTheMarks` ask for distinct names present in new/ and free targets.
- Bytes outside 32..127, CR and LF: process_char returns -1, which is stored as the state (src/server/parser.c:79). All input is assumed to be in the alphabet.
- A first argument token of exactly 40 characters: get_next_arg then writes one byte past its buffer (src/server/transaction.c:458-485). The model returns the token. Its count of arguments already read is always 0 when it is called, so the skipping loop is left out.
- Numbers above INT_MAX in atoi; the model's numbers are unbounded. Mail sizes and counts are assumed to be below 2^31.
- RETR of a message marked for deletion is served, as the code does; section 5 of RFC 1939 would refuse it.
- Engines.Engine.WriteMsg: asks that the message fits where there is room, which strcpy does not check; `InvIsReady` and `ReplyFits` give it in TRANSACTION, the empty buffer in AUTH, and at most three pending bytes in UPDATE.
- The monitor's command dispatch and texts (src/server/monitor.c, src/server/monitorCommands.c) and the tables of src/server/authParser.c, which are those of the transaction parser, and the layout of the parser union.
- Memory: allocation failures, free, the moving of realloc, and what a stale pointer would see if the selector's table grew during a pass (the server's never does).
- Automata.LineParser.Parse: the activator rows are built in arrays and then kept as values, so a later change of a shared table is not captured.
- Selectors.Selector.UnregisterFd: a handle_close hook that changes the table is not modelled; selector_destroy and the blocking-job notifications are left out.
- Monitors.ReplyBuffer.RecvCmd: works on a finite list of chunks; the original loops for ever when the peer closes before the reply is complete.
- Engines.Engine.HandleFileReader: asks for a second free byte where an external program's pipe ends, which snprintf's truncation would need; `PipeHasRoom` gives it.
- The selector's pass and the connections' events are modelled separately: that select reports only what is enabled is an assumption of `Machine.Enabled`.
- Mail delivered, moved or removed by other programs while sessions are open: on the shared disk of the model only commits change files.
- The wording of log messages, the statistics counters, argument parsing and main.
