# kbot: a verified model

kbot is an IRC bot. This project models the parts of it that carry state or parse text, in
Dafny 4.11, and proves what they promise. `dafny verify dfyconfig.toml` checks everything.

**From the wire to the bot's state.** `Receive.dfy` is the receive loop and `Session.dfy` its calls
over the life of a connection; `Framing.dfy` is the `strtok_r` splitter, `Message.dfy` the
hand-indexed message parser with its two loops, `Source.dfy` the `nick!user@host` parser,
`Command.dfy` the packed 64-bit command switch, `Dispatch.dfy` the choice of a handler,
`UserCommand.dfy` the commands that users give the bot, and `Worker.dfy` the loop that runs all this
on the server object. `Grammar.dfy` and `Tags.dfy` say, independently of the parser, what it accepts
and when printing and parsing undo each other. `Text.dfy` holds the two primitives they share:
searching, and splitting into maximal separator-free runs.

**The channel and nickname protocol.** `Server.dfy` is the class that tracks channels and the
nickname. `Outgoing.dfy` and `Upstream.dfy` follow what the bot sends to the server: as bytes, as
lines, and as the requests that a reader after section 2.3.1 of RFC 2812 finds in them, which are not
always those that are meant. `Protocol.dfy` joins the two sides by two FIFO queues; the server follows
sections 3.1.2, 3.2.1 and 3.2.2 of RFC 2812 and takes the requests as it reads them. Both sides and any
number of other users act in every order; others join, part, rename, arrive, leave (with a QUIT line
if they share a channel with the bot) and say anything. The main theorem is eventual agreement: from
every reachable state, the lines still to come lead to one and the same outcome, in which the bot's
nickname is the server's, and every channel is tracked exactly if the bot is in it, unless a request
that was misread has disturbed that channel. If only certain channels are asked for, this is full
agreement if and only if their names can be written down (`AgreementIffNames`).

The worker does not always live to see it: any user's QUIT, like a `,quit` of the owner, ends it when
a read ends with that line (src/IRC.cc:175-177, src/Manager.cc:171). So the project also states exactly
when every order of draining reaches the outcome (`EveryDrainIsQuiet`), when the two sides agree
nevertheless (`AftermathAgrees`), and shows a run in which they do not (`QuitStrands`). `Wire.dfy`
carries all this down to the bytes in both directions: for arbitrary lines and every lossless cutting
into reads, the worker on the server object refines the protocol (`WorkerIsRun`), and the two sides end
up in agreement if and only if the worker has been told enough at every line at which it may end
(`EndToEndAgreement`).

**Registries and concurrency.** `Epoll.dfy` is the descriptor registry against the kernel's interest
list, and a turn of the event loop in which callbacks enable and disable descriptors.
`Plugins.dfy` is the command map, the plugin map and the handle counts over arbitrary loads and
unloads. `Locks.dfy` proves the handlers deadlock free for any number of threads, with readers or
writers preferred, and `Races.dfy` which of their accesses can come together: none, but for the
nickname, of which an answer uses a reference after its lock is released (src/Server.hh:107-110,
src/UserCommand.cc:20). `ThreadSet.dfy` is the shutdown by condition variable, step by step under the mutex.

Where a natural property is false of the code, the project states exactly when it holds, and gives
an input at which it fails:

| property | exact condition | failing input |
|---|---|---|
| a parsed message is printed and parsed back | `Grammar.ReparseFixpoint` | `EmptySourceIsLost` |
| a tag list determines its text | `Tags.TagTextRoundTrip` | `LastTagIsLost` |
| the packed switch compares strings | `Command.ClassifierIsStringComparison` | `TrailingNulIsIgnored` |
| the cutting into reads does not matter | `Worker.ChunkingIndependence` | `BobEndsTheWorker` |
| every PING is answered with its parameter | `Dispatch.PingIsEchoed` | `PingLosesALetter` |
| the queues drain | `Protocol.EveryDrainIsQuiet` | `QuitStrands` |
| a join completes | `Protocol.JoinCompletes` | `RejoinSticks` |
| sent commands arrive one to a line | `Outgoing.OutgoingFraming` | `PongsRunTogether` |
| what the owner asks for, the server is asked for | `Upstream.RequestsArrive`, `Protocol.AgreementIffNames` | `ColonCommand`, `ColonJoinDisagrees` |
| the worker ends when the connection is closed | never, by `Session.ClosingEndsNothing` | any |
| a sent command is read as it is meant | `Upstream.SaidIsRead` | `GoodbyeIsCut` |
| the command map is the union of the plugins' | `Plugins.UnionIffDisjoint` | `OverlapLosesCommand` |
| a change of configuration keeps the events | `Epoll.ModifyConfigMask` | `ErrorFlagIsLost` |
| the handlers are free of data races | `Races.RaceIff` | an answer and a renaming NICK line |
| a deletion reports success | `Epoll.DeleteReports` | `DeleteOfDisabledFails` |

Modelling conventions. A C++ `char` is a Dafny `char`; where the value matters (the packing) it is
below 256. `npos` is the length of the searched text, which no hit can equal. Views into a buffer are
values. A failed `assert` of the code is an outcome of its own (`Abort`, `AssertionFails`) and ends
the program. Calls into the kernel, the socket and the dynamic loader are parameters: a failing send,
a failing ADD or MOD, the results of `recv` and `epoll_wait`, a shared object that does not open.

Assumptions of the protocol model: joins are not refused, nobody is kicked, lines are not lost, names
are compared as text, a channel "0" is a channel like any other (section 3.2.1 of RFC 2812 makes JOIN 0
leave all), JOIN and PART echoes carry the bare channel name, and the NICK echo carries the new name behind a ':', since the handler drops one character
(src/IRC.hh:211). Lines other than JOIN, PART and NICK are unrestricted. A user who leaves without
sharing a channel with the bot sends it nothing.

## Model

| member | source | states |
|---|---|---|
| Text.FieldsAreTheRuns | src/Manager.cc:154-164 | splitting at separators yields exactly the maximal separator-free runs, left to right, none missed and none touching |
| Text.FieldsCut | src/Manager.cc:154-164 | the fields on the two sides of a separator are independent of each other |
| Text.FieldsOfJoin | src/IRC.hh:150-157 | splitting undoes joining, for every list of nonempty separator-free words |
| Message.ParseTags | src/IRC.hh:115-127 | the tag loop computes the key/value list, and notices when no tag has an '=' |
| Message.ParseParams | src/IRC.hh:150-158 | the parameter loop collects the maximal space-free runs, or an empty first parameter exactly when the rest is empty or starts with a space |
| Message.ParseLine | src/IRC.hh:105-165 | the indexed constructor computes the same message or error as the parser on suffixes, for every line and announced type |
| Grammar.ParseIffDerives | src/IRC.hh:105-158 | a line is accepted with message m exactly when the grammar derives it: ordered slices between single delimiters, tags with a pair, a nonempty command unless a NUL stands there, parameters the runs of the rest, and no server source for an announced PRIVMSG |
| Grammar.RefusedFor | src/IRC.hh:108-158 | exactly which lines are refused for a tag text without '=', for a server's source on an announced PRIVMSG, for a missing parameter and for a bad one, said of their text |
| Grammar.PrintParseRoundTrip | src/IRC.hh:105-161 | for every message value, the printed line is parsed back to it if and only if it is well formed |
| Grammar.ReparseFixpoint | src/IRC.hh:105-161 | for every accepted line without NUL the command is nonempty, and printing and reparsing is a fixpoint if and only if the first printed field cannot be taken for tags or a source |
| Grammar.EmptySourceIsLost | src/IRC.hh:129-147 | the line ": :x p" is accepted, but printing its message drops the empty source, and what was the command is then read as a source |
| Grammar.BehindLastParameter | src/IRC.hh:150-158 | a line ends with its last parameter and its trailing spaces, so these are what stands behind that parameter in memory |
| Tags.TagListRoundTrip | src/IRC.hh:115-127 | a rendered key/value list is read back if and only if keys have no '=' and values no ';' (a value may contain '=') |
| Tags.TagTextRoundTrip | src/IRC.hh:115-127 | the list determines the tag text if and only if the text is empty or its last tag has an '=' |
| Tags.TagsDecompose | src/IRC.hh:115-127 | every tag text is in exactly one way a rendering of pairs with clean keys and values, followed by tags without '='; the pairs are those the loop collects, for texts of any form |
| Tags.LastTagIsLost | src/IRC.hh:115-127 | "a=b;c" and "a=b" have the same list |
| Source.ParseSourceUser | src/IRC.hh:287-308 | the user record of every source, with the three ordering assertions on the indices discharged |
| Source.UserRoundTrip | src/IRC.hh:287-308 | nick!user@host is read back if and only if the nick has no '!' and the user no '@' |
| Source.SourceRebuilt | src/IRC.hh:287-308 | a source is refused exactly without '!', and otherwise rebuilt from its parts, up to an '@' in front of an empty host |
| Command.GetCommandMaskAsUint | src/IRC.cc:148-157 | the loop computes the packing of at most eight bytes, first byte lowest, and 0 beyond |
| Command.PackedByte | src/IRC.cc:148-157 | byte number i of the mask is character number i of the command |
| Command.PackInjective | src/IRC.cc:148-157 | the packing is injective over all lengths up to eight, for texts without trailing NUL |
| Command.ClassifierExact | src/IRC.cc:161-181 | for every command of any length, the packed switch compares the text up to trailing NULs, and knows no command of more than eight bytes |
| Command.ClassifierIsStringComparison | src/IRC.cc:161-181 | the packed switch agrees with string comparison if and only if there is no trailing NUL, or the command is too long, or trimming it gives no known name |
| Command.TrailingNulIsIgnored | src/IRC.cc:148-157 | "PING" with a NUL behind it is taken for PING |
| Worker.WorkerSwitchIsStringComparison | src/IRC.cc:161-181 | strtok_r delivers no NUL, so for every line the worker gets out of any buffer the packed switch is string comparison |
| Receive.RecvMsg | src/IRC.cc:108-136 | for every sequence of recv results: nothing after an error, an end of file or a first read without data, and otherwise a prefix of the bytes received that is empty or ends in a newline, with no newline behind it; at most 24576 bytes |
| Receive.ReadsMadeIff | src/IRC.cc:112-128 | a call makes at most six reads, and stops exactly after the sixth, at a result without data, or when the data ends in a newline |
| Receive.UnfinishedLine | src/IRC.cc:129-134 | complete lines in front of an unfinished one are returned, and the unfinished one is dropped |
| Receive.LargestMessage | src/IRC.cc:113-114 | six full reads of 4096 bytes make the largest message |
| Receive.WholeLinesUnique | src/IRC.cc:129-133 | the prefix kept by the discard loop is the only one that ends in a newline with none behind it |
| Receive.KeepsAll | src/IRC.cc:113-134 | a call returns all that it received if and only if its first read has no data or the data ends in a newline: otherwise an unfinished line is dropped, or everything before an error or end of file |
| Session.ReceiveAll | src/IRC.cc:108-136 | any number of calls on one stream of recv results, each starting where the one before ended |
| Session.SessionIsLossless | src/IRC.cc:108-136 | over any number of calls, the nonempty messages are a cutting of all the bytes received into newline-terminated reads, if and only if every call found nothing or data that ends in a newline |
| Session.SessionIsHandled | src/Manager.cc:192-199 | then the worker handles the lines of all those bytes, up to one at which it can stop |
| Session.ClosingEndsNothing | src/IRC.cc:115-126 | once recv only reports the end of file or errors, every call reads once and returns nothing, no line is handled, and the worker neither ends nor moves (src/Manager.cc:194) |
| Framing.TokenizeMessageMultiple | src/Manager.cc:154-164 | the in-place splitter returns the lines before the first NUL, and leaves a NUL exactly over each separator that follows a line |
| Framing.BufferHoldsLines | src/Manager.cc:159-160 | after the split, each line is the C string that begins where the line stood in the buffer, and nothing but separators has been overwritten |
| Framing.LinesOfCuts | src/Manager.cc:192-199 | tokenising the concatenation of newline-terminated buffers is concatenating their tokenisations |
| Framing.LinesAreClean | src/Manager.cc:154-164 | every line is a nonempty stretch of the buffer without NUL, CR and LF |
| Worker.HandleRead | src/Manager.cc:192-200 | one read, on the server object: the buffer is split in place, each line is handled, and the verdict is that of the last line handled |
| Worker.WorkerRun | src/Manager.cc:189-207 | the worker on the server object handles every line of each read, up to a failing event loop, a failed assertion, or a read whose last line is a quit; channels, nickname and everything sent are those of the lines handled, and it reports how it ended |
| Worker.EndVerdictIs | src/Manager.cc:196-207 | while the worker is at work it has handled every line of every read, and when it ends, the last line it handled told it to |
| Worker.HandledOutcomes | src/Manager.cc:192-207 | over all lossless ways to cut a stream into reads, the sequences of handled lines are exactly the beginnings of its lines that end at the last line, at a failed assertion, or at a quit that a read can end with |
| Worker.ChunkingIndependence | src/Manager.cc:192-207 | all lossless ways to cut a stream lead to all its lines being handled, if and only if it cannot stop in front of further lines |
| Outgoing.StreamArrives | src/IRC.cc:33-98 | splitting any sequence of sent one-line commands gives their texts, where a bare PONG runs into a PONG behind it |
| Outgoing.OutgoingFraming | src/Manager.cc:83-86 | splitting the sent stream recovers exactly the commands if and only if no two PONGs are adjacent |
| Outgoing.PongsRunTogether | src/Manager.cc:83-86 | two PINGs answered in a row arrive as one line |
| Upstream.SaidIsRead | src/IRC.cc:33-98 | by the grammar of section 2.3.1 of RFC 2812, each sent command is read with the parameters that are meant, if and only if its first parameter is nonempty, has no space and does not begin with ':'; a PONG always |
| Upstream.FarewellIsCut | src/IRC.cc:82-84 | a farewell of several words is read as so many parameters, since it is sent without a ':' |
| Upstream.GoodbyeIsCut | src/Server.hh:96 | the farewell that the bot sends is read as three parameters |
| Upstream.RequestsArrive | src/IRC.cc:54-73 | for any commands sent, answers and PONGs among them, the requests that the server reads in the byte stream are the requests sent, in order, if and only if each argument is one word that does not begin with ':', and for a channel has no comma |
| Upstream.StreamIsRead | src/IRC.cc:54-98 | what the server reads in the bytes of any commands is what becomes of each request among them; nothing else is read as a request, not even PONGs that run together |
| Server.IRCServer.JoinChannel | src/Server.cc:135-149 | the whole new state and what is sent; a failed send changes nothing |
| Server.IRCServer.UpdateJoinChannel | src/Server.cc:151-160 | the new state is that of the delivered JOIN line, whoever joined |
| Server.IRCServer.UpdatePartChannel | src/Server.cc:162-171 | the new state is that of the delivered PART line, whoever parted |
| Server.IRCServer.PartChannel | src/Server.cc:177-191 | the whole new state and what is sent; it reports whether a request went out |
| Server.IRCServer.UpdateNickname | src/Server.hh:111-118 | the new state is that of the delivered NICK line |
| Server.IRCServer.SetNickname | src/Server.hh:119-125 | sends the request, with what stands behind the name up to a NUL, and changes nothing |
| Protocol.ReachableInv | src/Server.cc:143-187 | in every reachable state, a channel that no request has disturbed is JoinRequested or Joined exactly when the last request sent for it was a join, and when PartRequested has a PART echo in flight or still to be produced; and replaying the NICK lines in flight gives the server's name |
| Protocol.DrainingSettles | src/Server.cc:135-191 | the order in which the two queues are drained does not change the outcome |
| Protocol.DrainExists | src/Manager.cc:189-207 | serving and receiving alone can empty both queues, if and only if no line still to come fails an assertion in front of others; once the worker has ended, if and only if nothing is to come |
| Protocol.EveryDrainIsQuiet | src/Manager.cc:171-201 | every order of serving and receiving, until nothing moves, empties both queues, if and only if no line still to come can end the worker in front of others |
| Protocol.EventualAgreement | src/Server.cc:135-191 | from every reachable state, handling the lines still to come makes the nicknames equal, and every channel that no request has disturbed tracked exactly if the bot is in it, and not left parting |
| Protocol.QuietAgreement | src/Server.cc:135-191 | whenever both queues are empty, the two sides agree in that sense |
| Protocol.EveryDrainAgrees | src/Server.cc:135-191 | so every order of draining ends in agreement, from every reachable state in which no line in front of others can end the worker |
| Protocol.AgreementIffNames | src/UserCommand.cc:50-62 | for any set of channel names: every run in which only these are asked for settles to full agreement, if and only if each name is a word that does not begin with ':' and has no comma |
| Protocol.ColonJoinDisagrees | src/Server.cc:135-149 | a join of ":#x" leaves the bot with ":#x" requested for good, and in "#x" on the server |
| Protocol.AftermathAgrees | src/Manager.cc:189-207 | in every reachable state the two sides end up in agreement if and only if the worker is at work, or no undisturbed channel is left parting and the lines it will not see leave its name as it is |
| Protocol.QuitStrands | src/IRC.cc:207-209 | a user leaves while the bot waits for the echo of its PART, a read ends with that QUIT, and the channel stays tracked whatever the queues do |
| Protocol.NickInvNext | src/Server.hh:111-118 | every step keeps the replayed nickname equal to the server's, also when another user takes or drops the bot's stale nick |
| Protocol.SettledJoined | src/Server.cc:151-160 | from any state, a channel settles to Joined if and only if it is wanted and is Joined, or a JOIN line for it is in flight or will be produced by the queued requests |
| Protocol.JoinCompletes | src/Server.cc:143-156 | a join asked for in any reachable state settles to Joined if and only if a JOIN line from before is still to come, or the name can be written down and the server will not have the bot in the channel by then, which for an undisturbed channel is when it was not wanted |
| Protocol.RejoinSticks | src/Server.cc:146-148 | a channel that is joined, echoed and joined again stays JoinRequested |
| Protocol.AskedOrNot | src/Server.cc:138-142 | a failed send and the part of an untracked channel change nothing; every other request goes out |
| Protocol.PartCompletes | src/Server.cc:177-191 | a part of a tracked, undisturbed channel that can be written down keeps the channel tracked until the echo, and takes the bot out of it on both sides |
| Protocol.NickCompletes | src/Server.hh:119-125 | a renaming asked for in any reachable state settles to that name on both sides if and only if nobody else has it, for a name that can be written down; any other name is never reached |
| UserCommand.SendInvokerReply | src/UserCommand.cc:17-25 | an answer names the user, and goes to the channel, or to the user if the message was sent to the bot |
| UserCommand.InvokerPermissionCheck | src/UserCommand.cc:27-34 | only the owner is capable, and anybody else is told so |
| UserCommand.BuiltinCommandNick | src/UserCommand.cc:44-48 | the whole new state and what is sent |
| UserCommand.BuiltinCommandJoin | src/UserCommand.cc:50-54 | the whole new state and what is sent |
| UserCommand.BuiltinCommandPart | src/UserCommand.cc:56-62 | the whole new state and what is sent, the answer to a refused part included |
| UserCommand.BuiltinPrivMsg | src/Manager.cc:104-123 | the built-in command of that name behind its argument count (src/UserCommand.hh:35-55), or else what the plugins send |
| UserCommand.InvokeIsRequest | src/UserCommand.cc:27-62 | on channels and requests, every user command acts exactly as the request that its sender is permitted; all else it sends is an answer |
| UserCommand.CommandsAreAnswered | src/UserCommand.cc:17-62 | the text and the recipient of every built-in answer: greeting, wrong number of arguments, denied permission, no such channel |
| UserCommand.NothingIsAnswered | src/UserCommand.cc:44-62 | a command of the owner's that is carried out is not answered, and neither is any text that is no command |
| UserCommand.PluginsSpeak | src/Manager.cc:107-118 | what is no built-in command, and the load, unload and help commands with the right number of arguments, send exactly what the plugins have |
| Dispatch.ProcessMessageLine | src/Manager.cc:166-177 | on the server object, a line has the effect of its parsed, classified message on channels, nickname and everything sent; the verdict tells malformed and handled lines, quits and failed assertions apart |
| Dispatch.ProcessIsLineThenRequest | src/Manager.cc:83-123 | for every text, channels, nickname and the requests sent change as by a line of the protocol followed by the request that the text makes, if any |
| Dispatch.StoppingIsOther | src/Manager.cc:166-177 | a line that ends the worker, or makes a request, changes nothing by itself, and no line does both |
| Dispatch.StopsIff | src/IRC.hh:267-274 | a line asks the worker to stop if and only if its command is QUIT or KILL, or it is a PRIVMSG with the owner's whole nick!user@host and the text `,quit` or no text |
| Dispatch.AbortsIff | src/IRC.cc:191-203 | a line fails an assertion if and only if it is a NICK or PRIVMSG whose source has no '!', or anybody else's PRIVMSG without a text (src/Manager.cc:106) |
| Dispatch.OthersCannotQuit | src/IRC.hh:272 | the `,quit` of another user does not stop the worker |
| Dispatch.RefusedIsSkipped | src/Manager.cc:174-176 | a line that the grammar does not derive changes nothing, sends nothing, and the worker goes on |
| Dispatch.LineIff | src/IRC.cc:183-200 | which lines change the bot: JOIN and PART from anybody and NICK from a user, with author and first parameter, of which a new name loses its first character |
| Dispatch.OnlyTheseAreAnswered | src/Manager.cc:136-144 | only a PING or a PRIVMSG that does not end the worker makes the bot send anything |
| Dispatch.RenamingHasNoNul | src/Server.hh:120 | also for a line with a NUL, the name passed on is the text up to it |
| Dispatch.OnlyTheOwnerIsObeyed | src/UserCommand.cc:27-62 | a line makes the bot ask for a join, part or renaming if and only if it is a PRIVMSG with the owner's whole nick!user@host, the name of that command and one argument; a new name takes the line's trailing spaces along |
| Dispatch.TheOwnerIsObeyed | src/UserCommand.cc:44-62 | conversely, the owner's command for every request, given in any channel, makes that request |
| Dispatch.ColonCommand | src/UserCommand.cc:50-54 | also for the channel ":#x" |
| Dispatch.PingIsAnswered | src/Manager.cc:83-86 | for every accepted text that is classified as PING: the answer is a PONG with the first parameter less its first character, nothing changes, and the answer has the content of that parameter if and only if it begins with ':' |
| Dispatch.PingIsEchoed | src/Manager.cc:83-86 | by the grammar of section 2.3.1 of RFC 2812, a PING with or without a source is answered with its first parameter if and only if that is written with a ':' and has no space |
| Dispatch.PingLosesALetter | src/Manager.cc:85 | "PING irc.net" is answered by "PONG :rc.net" |
| Dispatch.QuitTextStops | src/IRC.cc:175-177 | the QUIT of any user, whatever the reason given, asks the worker to stop |
| Wire.RenderedIsRead | src/Manager.cc:88-102 | the text of a server's JOIN, PART or NICK line is one line, is read back as that line, asks for nothing and does not end the worker |
| Wire.StreamOutcomes | src/Manager.cc:189-207 | for a stream of arbitrary lines, the sequences of handled lines over all lossless cuttings are exactly the beginnings up to a line at which the worker may end |
| Wire.WorkerIsRun | src/Manager.cc:166-207 | for arbitrary lines in flight and every lossless cutting, what the worker does to channels and nickname, the lines it leaves and whether it ends are those of a run of the protocol that receives those lines and asks for what they ask, and the requests that the server reads in the bytes sent are those the run puts on the queue |
| Wire.EndToEndAgreement | src/Manager.cc:166-207 | from every reachable state with a worker, for arbitrary lines in flight, owner's commands, QUITs, PINGs and messages included: the two sides end up in agreement after every lossless cutting, if and only if at every line at which the worker may end it has been told enough |
| Wire.EndToEndByLines | src/Manager.cc:166-207 | without an owner's command among the lines, that is: the PART of every undisturbed channel being left is among the lines up to there, and the lines behind leave the name reached as it is |
| Wire.EndToEndWithoutQuit | src/Manager.cc:166-207 | if no line in front of others can end the worker, all lines are handled; if the last cannot either, the worker is at work and the two sides settle to agreement; if nothing was asked for meanwhile, they agree at once |
| Wire.EndToEndSettles | src/Manager.cc:104-123 | with owner's commands among the lines, the state that the worker comes to, with the requests that the server reads in the bytes sent, settles to agreement; to full agreement if no channel asked for, now or before, begins with ':' or has a comma |
| Wire.QueueHasTexts | src/Manager.cc:88-102 | every queue of well-named JOIN, PART and NICK lines and other lines is the reading of some texts, as the theorems above require |
| Wire.QuitEndsTheWorker | src/Manager.cc:189-201 | when a read ends with anybody's QUIT, nothing behind it is ever handled; when the next line comes with the same read, it is |
| Wire.BobEndsTheWorker | src/Manager.cc:189-201 | the same for ":bob!u@h QUIT :bye", in front of a PING |
| Epoll.RunKeepsAgreement | src/Epoll.cc:43-161 | after any sequence of calls with failing ADD and MOD, the kernel watches exactly the enabled descriptors, with the recorded masks |
| Epoll.AssertionsNeverFire | src/Epoll.cc:63-94 | in every reachable state EnableFd is never told EEXIST, and the DEL of DisableFd succeeds |
| Epoll.RunIsPredicted | src/Epoll.cc:43-161 | after every run each descriptor's entry is what its own calls made of it, computed without the kernel and without the other descriptors |
| Epoll.DeleteReports | src/Epoll.cc:149-161 | deletion forgets the descriptor on both sides, and reports success if and only if it was enabled |
| Epoll.DeleteOfDisabledFails | src/Epoll.cc:149-161 | a descriptor that is registered, disabled and deleted is gone, but the deletion reports a failure |
| Epoll.DisableEnableRestores | src/Epoll.cc:63-94 | disabling and enabling again restores registry and kernel |
| Epoll.RegisterMask | src/Epoll.cc:43-61 | a registration asks the kernel for exactly the events and the configuration given, records the same mask and the callback, and is enabled |
| Epoll.WorkerIsToldOfData | src/Manager.cc:190-200 | the worker's socket is watched for EPOLLIN |
| Epoll.LogicErrors | src/Epoll.cc:96-137 | a call is a logic error if and only if events hold a configuration flag, or a configuration an event flag or EPOLLEXCLUSIVE; a call that is not done changes nothing, but for a deletion |
| Epoll.ModifyCallbackEffect | src/Epoll.cc:139-147 | the new callback takes the place of the old one, and nothing else changes |
| Epoll.ModifyEventsMask | src/Epoll.cc:96-114 | changing the events keeps the configuration flags and replaces the rest |
| Epoll.ModifyConfigMask | src/Epoll.hh:34-37 | changing the configuration sets it, and keeps the event flags if and only if EPOLLERR was not among them |
| Epoll.ErrorFlagIsLost | src/Epoll.hh:34-37 | the recorded mask of a descriptor registered with the full event mask loses EPOLLERR when it is made edge-triggered |
| Epoll.TurnByHistory | src/Epoll.cc:181-188 | at its turn a watched descriptor is still registered, and enabled exactly when the toggles of the callbacks run before it left it so |
| Epoll.TurnIs | src/Epoll.cc:163-197 | a turn waits on while every wait is interrupted; a failing wait or an empty batch ends it after the static callbacks in front, a batch is dispatched in full and followed by those behind |
| Epoll.EpollManager.RegisterFd | src/Epoll.cc:43-61 | the whole new state and the reply; the agreement is kept |
| Epoll.EpollManager.EnableFd | src/Epoll.cc:63-77 | the whole new state and the reply; the assertion on EEXIST holds |
| Epoll.EpollManager.DisableFd | src/Epoll.cc:79-94 | the whole new state and the reply; the assertion on ENOENT holds |
| Epoll.EpollManager.ModifyFdEvents | src/Epoll.cc:96-114 | the whole new state, and refusal, success or logic error |
| Epoll.EpollManager.ModifyFdConfig | src/Epoll.cc:116-137 | the whole new state, and refusal, success or logic error |
| Epoll.EpollManager.ModifyFdCallback | src/Epoll.cc:139-147 | the whole new state and the reply |
| Epoll.EpollManager.DeleteFd | src/Epoll.cc:149-161 | the whole new state and the reply |
| Epoll.EpollManager.DispatchBatch | src/Epoll.cc:181-188 | every lookup succeeds; the callbacks called, in the kernel's order and once each, are exactly those enabled at their turn |
| Epoll.EpollManager.RunEventLoop | src/Epoll.cc:163-198 | a turn: static callbacks in front, waiting until a wait is not interrupted, the batch, static callbacks behind; the whole new state, the reply for a failed wait and an empty batch, and the callbacks called |
| Plugins.InsertEffect | src/Server.cc:197-200 | inserting a table adds exactly its names, keeps every entry that was there, and takes the first entry of a repeated name |
| Plugins.RunKeepsInv | src/UserCommand.cc:64-93 | after any loads, repeated loads, failed loads and unloads, every callback is the entry of a loaded plugin's table under its name, and each shared object has one open handle if it is loaded and none otherwise |
| Plugins.UnionIffDisjoint | src/Server.cc:197-207 | after every run the commands are exactly the union of the tables of the loaded plugins, if and only if no two plugins share a command name |
| Plugins.OverlapLosesCommand | src/Server.cc:202-207 | unloading one of two overlapping plugins takes the shared command from the other |
| Plugins.OverlapLosesOwnCommand | src/Server.cc:202-207 | unloading the second of two overlapping plugins takes the shared command from the first, whose callback it was |
| Plugins.LoadEffect | src/UserCommand.cc:64-78 | a load that does not open changes nothing; otherwise the plugin is loaded, and the commands are those before, unchanged, and the new names of its table, its own |
| Plugins.UnloadEffect | src/UserCommand.cc:80-93 | an unload of what is not loaded changes nothing; otherwise the plugin is gone with all names of its table, whoever had them, and all else is unchanged |
| Plugins.PluginHost.AddPluginCommands | src/Server.cc:197-200 | the insertion loop, without overwriting |
| Plugins.PluginHost.RemovePluginCommands | src/Server.cc:202-207 | the erasing loop removes exactly the given names |
| Plugins.PluginHost.DeletePluginCommands | plugins/Plugin.hh:57-68 | collecting the names of a table and removing them |
| Plugins.PluginHost.LoadPlugin | src/UserCommand.cc:64-78 | the whole new registry; a repeated load closes its extra handle |
| Plugins.PluginHost.UnloadPlugin | src/UserCommand.cc:80-93 | the whole new registry; it reports whether the plugin was loaded |
| Locks.HandlerOrdered | src/UserCommand.cc:17-118 | every handler takes its locks in the order plugins map, command map, nickname or channels, and gives all of them back, so that what follows finds none held |
| Locks.DeadlockFree | src/Manager.cc:104-123 | for any number of threads, handlers and schedules: writers never share a lock, some unfinished thread can always step, and no schedule exceeds the total number of actions |
| Locks.EarlyLockDeadlocks | src/Manager.cc:110-113 | taking the command map's lock before a built-in load would block the thread on itself |
| Races.HandlerTouches | src/Server.cc:107-207 | what each handler reads and writes of the plugins, the commands, the nickname and the channels, in order, apart from its locks |
| Races.HandlerSafe | src/UserCommand.cc:17-118 | every handler makes these accesses under the right lock, changes under an exclusive one, and gives all locks back; only an answer looks at the nickname without |
| Races.OnlyTheNicknameRaces | src/Server.hh:107-118 | in every schedule of any number of threads, two threads are at conflicting accesses only if one is a renaming NICK line at its write and the other an answer at its look at the nickname |
| Races.RaceIff | src/Server.hh:107-118 | with readers preferred, some schedule leads to a race if and only if one thread has a renaming NICK line and another one answers somebody |
| ThreadSet.RunKeepsInv | src/Manager.hh:84-97 | in every interleaving the set holds exactly the threads not yet erased, and a sleeper that was not notified has a thread to wait for or a notification about to be sent |
| ThreadSet.ShutdownIsSafe | src/Manager.cc:71-79 | by whatever step WaitAll returns, every thread has then completely finished its clean-up, and it has returned for good; a thread finds its own entry; and no wake-up is lost |
| ThreadSet.AllCanRun | src/Manager.cc:76-79 | as many threads as there is room for can be inserted and run at once |
| ThreadSet.StuckMeansDone | src/Manager.cc:71-74 | some step is possible, without insertions and spurious wake-ups, until all threads are gone and WaitAll has returned |
| ThreadSet.UrgentRunsEnd | src/Manager.hh:84-97 | a run without insertions and spurious wake-ups has bounded length |

## Left out

- Sockets, name resolution, the epoll and poll system calls, dynamic loading and SQLite: only their results appear, as parameters.
- Storage of string views after the line is moved or shrunk (src/IRC.hh:159, src/IRC.hh:169): views are values.
- Builds without assertions: there the lines that fail one reach their handlers, which throw or find nothing to do; the model ends the program instead.
- What follows the end of the worker: the destructor's QUIT and the server's answer to it.
- The real-time signal counter (src/Manager.cc:25-56): exhausted set-ups still tear down, so nothing can be said about live workers.
- Callbacks that register or delete descriptors, or re-enter the loop, while a batch is dispatched (src/Epoll.cc:184 assumes the entry exists).
- One-shot re-arming inside the kernel: the agreement is about the interest list.
- The window in which a new thread reaches its clean-up before it is inserted (src/Manager.hh:78-79): insertion first is an assumption.
- KICK, refused joins, lost lines, JOIN 0, keys and part messages, and case folding of names.
- Help text lookup (plugins/Plugin.hh:70-76), the database, the command line and logging: the first three only pass values on, and logging has no effect on what is modelled.
- UserCommand.BuiltinPrivMsg: what load, unload, help and plugin callbacks send is a parameter; what loading and unloading do to the maps is in the plugin model.
- Worker.ChunkingIndependence: is stated for streams without NUL, because a NUL hides the rest of its own read and so depends on the cutting by itself.
- Command.ClassifierExact: is stated for texts of eight-bit characters, which every C++ text is.
- Wire.WorkerIsRun: plugin callbacks answer in whole lines and do not join, part or rename; in the protocol such requests are events of their own.
- Plugins.RunKeepsInv: two names for one shared object are two objects in the model.
- Locks.HandlerOrdered: a plugin's callback is any sequence of replies and channel operations; a callback that takes the plugin or command lock is not covered.
- Races.RaceIff: is exact with readers preferred; with writers preferred a waiting writer can keep the two apart, and only Races.OnlyTheNicknameRaces holds.
