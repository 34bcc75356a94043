# Verified model of the IRC server

A model of a single-threaded IRC server built on poll: connections and their buffers, registration,
channels with modes, invitations and operators, message framing and parsing, the event loop and the
output queues. It is written twice, and the two are proved to agree.

* `Server.dfy`, with `Channel.dfy`, `Client.dfy`, `Parser.dfy` and `Text.dfy`, has the server's own form:
  classes whose vectors of descriptors, clients and channels are searched, grown and erased in place,
  with the search orders, loops and early exits of the source. The handlers, which the source too keeps
  outside the class and in files of their own, are methods of `Registration.dfy` (PASS, NICK, USER),
  `Join.dfy`, `Privmsg.dfy`, `Topic.dfy`, `Kick.dfy`, `Invite.dfy`, `Modes.dfy` and `Dispatcher.dfy`;
  `Launch.dfy` is the loop that polls, accepts, reads and sends.
* `World.dfy` and `Net.dfy` are an abstract server of maps and sets. A command is decided by looking at the
  world; its outcome is one edit of the world and the messages to queue. Nothing there depends on the
  order of clients or channels.

The class `Server` carries the abstract server as the ghost field `net`. Its predicate `Valid()` ties every
concrete field to it: `fds[0]` is the listener, `fds[i + 1]` belongs to `clients[i]`, descriptors and channel
names are distinct, the vectors of each channel have no duplicates, and POLLOUT is requested for exactly
the clients whose send buffer is not empty. Each method states the new abstract server as a function of
the old one, so that it refines an abstract step.

What the server promises is proved about the abstract server: `Invariant.dfy` (what holds in every state),
`Commands.dfy` (what one command can do), `Runs.dfy` (histories, limits, reused descriptors), `Orphans.dfy`
(channels without an operator), `Settings.dfy` (keys, limits, flags and topics over histories),
`Standings.dfy` (members, operators, invitations and open channels over histories), `Lineage.dfy` (where
operator rights come from), `RegistrationLaws.dfy` (what registration takes, its one welcome, and nicks),
`Streams.dfy` and `Sending.dfy` (input cutting, output conservation, ends of connections), `EventLoop.dfy` and
`Passes.dfy` (one pass over the poll results), `Replies.dfy` and `Tellings.dfy` (who is sent which bytes),
`Relay.dfy`, `Echoes.dfy`, `Quotes.dfy` and `Names.dfy` (what a recipient reads), `Words.dfy` (the lexical rules
written out), `WholeServer.dfy` (all runs).

Two things that one might expect fail of the code. A channel does not always have an operator. And a client
cannot always read what it is sent: not the nick echo; not a numeric sent before it has a nick, whose nick
is missing; not the announcement of a key, and not a numeric or a list of members that quotes a word, when
the key or the word is empty, has blanks or starts with ':'. For both the exact condition is proved, on the
lines that clients send, and `Witnesses.dfy` has lines that show the failures from the start of the server.

The operating system is replaced by inputs: accept's descriptor (an int that is not open), recv's bytes or
errors, send's count or errors, and poll's report, all arbitrary otherwise.

Where the code and the repository's own README disagree, the code is followed: MODE needs a mode
string, `-k` needs a third parameter, setting a topic echoes TOPIC to everybody instead of 332 to the sender,
and a NICK after registration is echoed to the sender alone, without CRLF.

## Model

| member | source | states |
|---|---|---|
| Parser.ParseLine | srcs/parsser/Parser.cpp:3-47 | the index-driven tokenizer computes, for every line, the message that the recursive grammar `Parse` reads from the front of the text |
| Parser.ParseCanonical | srcs/parsser/Parser.cpp:21-44 | every line, however malformed, parses to canonical form: blank-free prefix and command, no parameters without a command, and every parameter but the last non-empty, blank-free and not starting with ':' |
| Parser.RoundTrip | srcs/parsser/Parser.cpp:3-47 | printing any canonical message (prefix and last parameter always marked ':') and parsing it gives the message back |
| Parser.ImageIsCanonical | srcs/parsser/Parser.cpp:3-47 | the canonical messages are exactly the ones some line parses to |
| Parser.NormalForm | srcs/parsser/Parser.cpp:3-47 | print after parse is a normal form of lines: it parses to what the line parses to |
| WordLaws.LinesWrittenOut | srcs/parsser/Parser.cpp:3-47 | a line with any spacing (blanks before it, an optional ':' prefix, the command, words each behind its own gap of spaces and tabs, then blanks or a gap and ':' text) is read as exactly that prefix, command, words and text |
| WordLaws.CommandsByName | srcs/commands/CommandDispatcher.cpp:7-35 | each of the nine commands is recognized by its word in any mixture of capitals and small letters, and by nothing else |
| Parser.ParseLfFree | srcs/parsser/Parser.cpp:3-47 | a line without LF yields only fields without LF |
| Text.CheckNickValid | srcs/commands/nick.cpp:14-29 | the validator accepts exactly the nickname grammar of section 2.3.1 of RFC 2812 |
| WordLaws.NicknamesWrittenOut | srcs/commands/nick.cpp:5-29 | a nickname is one of the letters and specials, listed, and up to eight letters, digits, specials and dashes |
| Text.ValidChannelName | srcs/commands/join.cpp:3-15 | accepts exactly '#' followed by at least one character, none of them space, comma, colon, CR or LF |
| WordLaws.ChannelNamesWrittenOut | srcs/commands/join.cpp:3-15 | a channel name is '#' and a non-empty rest without any of the five characters, listed |
| Text.ValidLimit | srcs/modes/limited_usage.cpp:31-37 | the flag-terminated digit loop decides whether the text is a non-empty string of digits |
| Text.Atoi | srcs/modes/limited_usage.cpp:45 | the 32-bit result is the decimal value whenever that fits an int |
| WordLaws.NumeralsReadBack | srcs/modes/limited_usage.cpp:31-45 | the decimal numeral of every number is accepted as digits and read back as the number, up to INT_MAX as an int |
| Framing.FramingConserves | srcs/Server.cpp:133-147 | for every stream, the extracted lines each followed by LF and then the residual give the stream back; neither lines nor residual hold an LF |
| Framing.FramingUnique | srcs/Server.cpp:133-147 | the cut into LF-free lines and residual is the only one |
| Framing.FramingAppend | srcs/Server.cpp:133-147 | framing a stream in two parts, carrying only the residual over, gives the same lines and residual |
| Net.DrainIsFold | srcs/Server.cpp:133-147 | draining a receive buffer is a fold of the commands of its lines over world and mail, and leaves the residual |
| Net.ChunkSplit | srcs/Server.cpp:192-203 | one client's bytes may arrive in any two pieces: the whole server ends the same |
| Streams.OneByte | srcs/Server.cpp:133-147 | a received byte only extends the receive buffer unless it is LF; an LF performs exactly the command of the line before it, without a final CR, and empties the buffer |
| Streams.LineEndings | srcs/Server.cpp:139-145 | a line received up to LF or CR LF is one command, that line: nothing but one CR directly before the LF is dropped, and the receive buffer is left empty |
| Streams.RunIsByteByByte | srcs/Server.cpp:192-203 | any run of arrivals, chunks, sends and departures equals the run in which every chunk is received one byte at a time: same history of commands, same server |
| Streams.RunsDoNotSeeCuts | srcs/Server.cpp:192-203 | two runs that differ only in how received bytes are cut into chunks, whatever connects, is sent or departs between, have the same history and end in the same server: world and both kinds of buffer |
| Invariant.DecideAllowed | srcs/commands/CommandDispatcher.cpp:7-35 | every command with any parameters decides on an edit that its guards allow |
| Invariant.ApplyKeepsInv | srcs/commands/join.cpp:46-78 | every allowed edit keeps the global invariant: consistent registration flags, unique non-empty nicks, valid channel names, no empty channel, duplicate-free registered members, operators among members, invitees connected, limits in int range |
| Invariant.ApplyKeepsPeople | srcs/commands/nick.cpp:57-67 | the people part of it, and registration is never undone |
| Invariant.DepartKeepsInv | srcs/Server.cpp:119-131 | a disconnect keeps the invariant: emptied channels go, and no channel mentions the departed |
| Invariant.InvariantAlways | srcs/Server.cpp:251-300 | the invariant holds after every history of connections, lines and departures |
| Invariant.OnlyHolder | srcs/commands/kick.cpp:42-47 | a non-empty nick has one holder, so that first-match and last-match searches agree |
| Invariant.HolderInRoom | srcs/modes/operator.cpp:18-39 | whichever holder of a nick a search finds (even of the empty nick), it is in the channel just when any holder is, and then it is the one |
| Invariant.MembersFitInt | srcs/commands/join.cpp:70 | the cast of a member count to int loses nothing: members are distinct open descriptors besides the listener |
| Invariant.NoRoomsWithoutPeople | srcs/Server.cpp:235-239 | with nobody connected there is no channel left to clear |
| CommandLaws.RefusalIsAtomic | srcs/commands/join.cpp:46-74 | an outcome holding a 4xx numeric or a last-operator notice is that one message to the sender and no edit, for every command |
| Streams.RefusedCommandIsAtomic | srcs/commands/kick.cpp:31-65 | a refused command leaves the whole server as it was but for the refusal at the end of the sender's send buffer |
| CommandLaws.UnregisteredIsConfined | srcs/commands/user.cpp:8-33 | before registration a command changes no channel and no other client, and answers only its sender |
| CommandLaws.JoinAdmission | srcs/commands/join.cpp:46-78 | JOIN admits exactly when the channel is absent, or the client is no member, is invited if that is needed, gives the channel's key if it has one, and the limit leaves room; it appends the client, makes a founder the operator, and touches no other channel |
| CommandLaws.KickDecision | srcs/commands/kick.cpp:36-78 | KICK is accepted exactly for an operator, a member target, and not the last operator with others present; then every member is told once |
| CommandLaws.KickLaw | srcs/commands/kick.cpp:80-82 | an accepted KICK removes membership and operator right, keeps invitations, and dissolves exactly the channel whose only member was the target |
| CommandLaws.KickNeedsMember | srcs/commands/kick.cpp:42-57 | without a member of that nick KICK changes nothing |
| CommandLaws.InviteLaw | srcs/commands/invite.cpp:3-58 | INVITE adds one invitation and tells the invited and the sender exactly when a registered operator of the channel names somebody connected who is not in it; otherwise one refusal goes to the sender and nothing else happens |
| CommandLaws.OperatorLaw | srcs/modes/operator.cpp:41-61 | the exact effect of +o and -o on a member, with the last-operator guard |
| CommandLaws.NickLaw | srcs/commands/nick.cpp:31-67 | NICK is accepted exactly with PASS accepted, a valid nick and no other holder, and registers exactly a sender whose USER was accepted |
| CommandLaws.EditKeepsOperators | srcs/commands/kick.cpp:58-82 | no allowed edit takes the last operator from a channel that remains |
| CommandLaws.EditRespectsLimit | srcs/commands/join.cpp:70-74 | an edit that leaves a positive limit alone ends with at most max(old size, limit) members |
| OrphanLaws.ActOrphans | srcs/Server.cpp:317-330 | one act leaves a channel without an operator exactly when it is the departure of its only operator with somebody else in it |
| OrphanLaws.OrphanedExactly | srcs/modes/operator.cpp:47-61 | over any history a channel ends without an operator if and only if at some moment its only operator departed, leaving somebody in it, and the channel has stayed open since |
| Witnesses.AChannelIsOrphaned | srcs/Server.cpp:317-330 | two clients register and join from the start of the server; the founder disconnects, and the channel has a member and no operator |
| OrphanLaws.OrphanIsFrozen | srcs/modes/modes.cpp:65-69 | until it is dissolved a channel without operators stays so, with modes, key and limit frozen, and its invitations are the old ones less those of the departed |
| Runs.LimitHolds | srcs/commands/join.cpp:70-74 | while a channel stays open under one positive limit, it never holds more members than the limit or than it held at first, whichever is larger |
| SettingLaws.OrdersSet | srcs/modes/modes.cpp:65-80 | a line sets a channel's key, limit, flag or topic to a value exactly when it is a MODE line of an operator whose mode string and argument ask for it, with the quirks of -k, the empty key and non-positive limits, or a TOPIC line of a member, who is an operator if the topic is locked |
| SettingLaws.SettingsAreLastOrdered | srcs/modes/secret_key.cpp:3-41 | over any history a channel's key, limit, flag or topic has a value if and only if such a line asked for it, or the channel was founded and it is the default, with no later line about the same setting and the channel open since |
| StandingLaws.ActStanding | srcs/commands/join.cpp:46-78 | after one act a client is member, operator or invitee exactly when the channel and the connection remain and the act is a line that gives the standing (an admitted JOIN; the founding JOIN or +o; INVITE), or it had the standing and the act is no line that takes it away (KICK; KICK or -o; none) |
| StandingLaws.StandingExactly | srcs/commands/invite.cpp:44-58 | over any history a client is member, operator or invitee if and only if some line gave the standing, none has taken it away since, the channel has stayed open and the client connected; so no JOIN or KICK uses up an invitation |
| StandingLaws.MembersMetTheTerms | srcs/commands/join.cpp:52-74 | over any history whoever has become a member did so by a JOIN that founded the channel or gave its key, was invited if that was needed and found room, as the channel was then |
| StandingLaws.OpenExactly | srcs/Server.cpp:317-330 | over any history a channel is open if and only if a JOIN created it and its only member has not since departed or been kicked |
| Runs.NoStalePrivileges | srcs/Server.cpp:317-330 | no channel mentions a descriptor that is not connected |
| Runs.ReusedDescriptorStartsClean | srcs/Server.cpp:94-131 | after any history, a departure and a new connection on the same descriptor, no channel has it as member, operator or invitee |
| RegistrationLaws.WelcomedOnce | srcs/commands/user.cpp:26-33 | between arrival and departure the 001 welcome is queued to a client exactly once if it has become registered and never otherwise |
| RegistrationLaws.PassedExactly | srcs/commands/pass.cpp:3-12 | over any history each of the three steps counts as passed if and only if such a line (the right word; a valid nick that nobody else holds, after PASS; four parameters of USER, after PASS) was handled and the client has been connected since |
| RegistrationLaws.RegistrationAlways | srcs/commands/nick.cpp:57-67 | in every history from the start a client is registered if and only if, since it connected, a PASS, a NICK and a USER of its were accepted; and then it holds a valid nick alone |
| RegistrationLaws.NicksAreLastTaken | srcs/commands/nick.cpp:57-60 | over any history a client is called by a nick if and only if that is the last nick it was accepted to take since it connected |
| LineageLaws.OperatorsHaveLineage | srcs/modes/operator.cpp:41-46 | every current operator is linked to the founder of the channel by a finite chain of +o grants, each by somebody who held the right from its own link to that moment |
| WholeServer.OperatorsAlwaysTraceable | srcs/commands/join.cpp:75-78 | the same for every run of events from the start of the server |
| WholeServer.ServerAlways | srcs/Server.cpp:251-300 | every run of events keeps the invariant, equals the history of its commands, and neither stores nor queues a string with a stray LF |
| Wire.RenderNumeric | srcs/commands/replayCmd.cpp:3-123 | the rendered numeric is byte for byte the concatenation of replyCmd |
| ReplyLaws.RepliesWrittenOut | srcs/commands/replayCmd.cpp:3-123 | every numeric that is sent is byte for byte the code, nick, words and text written out for it |
| ReplyLaws.NumericsExactly | srcs/commands/CommandDispatcher.cpp:7-35 | a numeric of a code about some words is sent if and only if the line gives one of the reasons for that code, listed code by code over all commands, with the guards that come before it |
| ReplyLaws.NumericsToSender | srcs/commands/replayCmd.cpp:3-123 | a numeric goes to the sender of the line, under its nick or the one just taken |
| Wire.RenderPrivmsg | srcs/commands/privmsg.cpp:23-24 | the rendered relay is byte for byte the handler's string |
| Wire.RenderNames | srcs/commands/join.cpp:108-109 | the rendered 353 is byte for byte the handler's string |
| Wire.RenderKick | srcs/commands/kick.cpp:68-69 | the rendered relay is byte for byte the handler's string |
| RelayLaws.CommandClean | srcs/commands/CommandDispatcher.cpp:7-35 | LF-free fields in, LF-free state and messages out, for every command |
| RelayLaws.HistoryClean | srcs/Server.cpp:139-145 | over any history of LF-free lines every stored nick, name, topic and key, and every queued message, has LF-free fields |
| RelayLaws.MessageIsOneLine | srcs/commands/replayCmd.cpp:3-123 | every queued message but the nick echo is an LF-free text followed by CRLF |
| RelayLaws.StreamIsHeard | srcs/commands/nick.cpp:57-59 | any stream of queued messages reads back as exactly the terminated ones in order, each with the unterminated echoes queued since the one before put in front of it |
| RelayLaws.EchoSwallows | srcs/commands/nick.cpp:57-59 | an echo with anything after it is read as one NICK whose only parameter is the nick run together with what follows |
| RelayLaws.PartsReadBack | srcs/commands/replayCmd.cpp:3-123 | a message made of a prefix, a command, arguments and a text parses to exactly these if and only if every argument is non-empty, blank-free and does not start with ':' |
| RelayLaws.StreamReadsBack | srcs/commands/nick.cpp:57-59 | any stream of queued messages frames and parses into exactly the prefixes, commands and parameters meant, in order, if and only if none of them is a nick echo or has an argument that is empty, has blanks or starts with ':' |
| QuoteLaws.ActQuotes | srcs/commands/CommandDispatcher.cpp:7-35 | a line causes such a message to a client if and only if it is its own NICK after registration, or its own line answered before it has a nick, or its own line whose answer quotes a bad word (each command's words named, with the guards under which they are quoted), or an operator's +k with a bad key in a channel of which it is a member |
| QuoteLaws.HistoryReadsBack | srcs/Server.cpp:149-190 | over any history everything queued to a client, relays, numerics, notices and lists alike, reads back as the messages meant if and only if there was no such line, as things stood when it was handled |
| EchoLaws.HistoryEchoes | srcs/commands/nick.cpp:57-59 | over any history a client is queued an unterminated nick echo if and only if one of its lines was, when handled, the NICK of a registered client with a valid nick that nobody else held |
| WholeServer.ClientReadsWhatWasMeant | srcs/Server.cpp:149-190 | over any run of events, what was sent to a client and what waits for it frames and parses into exactly the prefixes, commands and parameters meant for it, in order, if and only if its history holds no such line |
| Witnesses.AnEarlyAnswerIsNotReadBack | srcs/commands/replayCmd.cpp:76-78 | a client that sends JOIN before it has a nick is sent a 451 in which the nick is missing and which does not read back |
| Witnesses.ARefusalIsNotReadBack | srcs/commands/join.cpp:32-36 | the 403 for a channel name with a space does not read back |
| Witnesses.AnEchoIsNotReadBack | srcs/commands/nick.cpp:57-59 | a client registers from the start of the server and changes its nick: its stream does not read back |
| RelayLaws.RelayedExactly | srcs/commands/privmsg.cpp:21-24 | for any line of any client, each message relayed for it reads back as sender's nick, verb and parameters, if and only if the line is not a MODE +k whose key has blanks, a leading ':' or nothing in it |
| Witnesses.AKeyIsNotReadBack | srcs/modes/secret_key.cpp:21-29 | a founder sets the key "x y": the announcement does not read back |
| RelayLaws.PrivmsgRelayed | srcs/commands/privmsg.cpp:29-71 | a channel PRIVMSG reaches exactly the other members, one each, and a direct one exactly the holder; each reads prefix nick, command PRIVMSG, parameters target and text |
| RelayLaws.PrivmsgRefused | srcs/commands/privmsg.cpp:36-63 | a PRIVMSG to a channel that is not open or of which the sender is no member, or to a nick that nobody holds, reaches nobody and is refused to the sender |
| RelayLaws.OnlyMembersSpeak | srcs/commands/privmsg.cpp:42-55 | whatever any client sends, a PRIVMSG relay to a channel comes only from a member and goes only to other members |
| TellingLaws.PrivmsgTold | srcs/commands/privmsg.cpp:21-71 | the bytes that each client gets from a PRIVMSG: the other members once each, or the holder of the nick, and nobody else |
| TellingLaws.ModeTold | srcs/modes/modes.cpp:65-80 | an obeyed MODE about key, limit or flag puts the announcement, with the mode string and the argument where one is shown, once into each member's buffer and nothing elsewhere |
| TellingLaws.OperatorTold | srcs/modes/operator.cpp:41-61 | a +o or -o on a member is announced in these bytes to every member, answered with the notice if it would take the last operator, and passed over in silence if it changes nothing |
| TellingLaws.KickTold | srcs/commands/kick.cpp:67-82 | an obeyed KICK is told to every member, the target included, with the reason given or else the sender's nick |
| TellingLaws.KickSpared | srcs/commands/kick.cpp:58-66 | a KICK of the last operator with others present is answered with the notice alone |
| TellingLaws.InviteTold | srcs/commands/invite.cpp:55-58 | the invited gets the INVITE, the sender the 341, nobody else anything |
| TellingLaws.TopicTold | srcs/commands/topic.cpp:55-69 | a new topic is told once to every member, the sender included, in these bytes |
| TellingLaws.TopicAsked | srcs/commands/topic.cpp:32-42 | asking for a topic that is set is answered with 332 and the topic |
| TellingLaws.RegistrationTold | srcs/commands/nick.cpp:57-67 | an accepted PASS is silent; an accepted NICK or USER gets the welcome if it completes the registration, a later NICK the echo of the new nick, any other nothing |
| RelayLaws.TopicRelayed | srcs/commands/topic.cpp:55-69 | an accepted TOPIC change reaches every member exactly once, the sender last, and reads back exactly |
| RelayLaws.JoinTells | srcs/commands/join.cpp:80-111 | an admitted JOIN puts the JOIN message once into each member's buffer, then the two replies into the newcomer's, and nothing elsewhere |
| RelayLaws.ChangesAreTold | srcs/modes/modes.cpp:13-28 | an accepted KICK or MODE change puts one message from the sender into the buffer of each member as the channel was, and nothing elsewhere |
| NamesLaws.NamesReadBack | srcs/commands/join.cpp:92-106 | splitting the NAMES text at spaces and stripping one '@' gives back the entries, because nicknames hold neither |
| NamesLaws.NamesReplyIsFaithful | srcs/commands/join.cpp:75-111 | the reply to an admitted JOIN lists exactly the members in order with their operator flags, and parses back if and only if the channel name holds no tab |
| Witnesses.NamesAreNotReadBack | srcs/commands/join.cpp:3-15 | a client joins a channel with a tab in its name, which is accepted, and the 353 it gets does not read back |
| Net.DeliverPointwise | srcs/Server.cpp:175-190 | delivering mail appends to each send buffer exactly the texts addressed to it, in order |
| Net.BroadcastExact | srcs/modes/modes.cpp:13-28 | a broadcast to duplicate-free members puts its text once into each member's buffer and nothing elsewhere |
| Streams.StepIsHistory | srcs/Server.cpp:149-190 | one event moves the world through its history, and bytes only at the ends of send buffers |
| Streams.OutputConserved | srcs/Server.cpp:149-190 | over any run on a live connection, waiting bytes then everything queued equals bytes sent then waiting bytes |
| SendingLaws.SendTakes | srcs/Server.cpp:158-167 | a send that took n bytes takes exactly the first n off the buffer, all if there are no more, and changes nothing else |
| SendingLaws.TakenAreCounted | srcs/Server.cpp:158-167 | over any run the number of bytes sent to a client is the sum of the counts that send answered, each cut at what was waiting |
| SendingLaws.EventIsLocal | srcs/Server.cpp:192-217 | an open connection ends exactly by one of its own events that ends it (end of stream, an error, a send that took nothing, a failure reported), and events of others leave its receive buffer alone and only append to its send buffer |
| SendingLaws.NothingHappens | srcs/Server.cpp:154-172 | an event for nobody, EAGAIN, and a send with nothing waiting change nothing |
| SendingLaws.AcceptConnects | srcs/Server.cpp:94-117 | a new connection starts with empty buffers, no nick and none of the registration flags |
| EventLoop.ServedExactlyOnce | srcs/Server.cpp:263-297 | one pass serves each polled client exactly once, whatever it does to the others, and nobody who was not polled but the newcomer |
| PassLaws.ServedAsReported | srcs/Server.cpp:279-296 | in one pass a polled client is read iff POLLIN was reported, closed iff a failure was and the read did not end it, written to iff POLLOUT was, no failure was and the read did not end it: each once, in this order, and nothing else |
| PassLaws.ServedInOrder | srcs/Server.cpp:263-297 | whatever a pass does to a client it does before anything to one later in the vector |
| PassLaws.PassSends | srcs/Server.cpp:291-295 | if poll reports of a client only POLLOUT and send takes n of its waiting bytes, the pass takes exactly the first n off the front of its buffer, and what others' commands queue to it comes behind |
| EventLoop.NewcomerIsPassedOver | srcs/Server.cpp:107-114 | somebody who was not polled is accepted by a pass iff the listener was reported ready and accept gave that descriptor, and is otherwise passed over |
| Launch.Scan | srcs/Server.cpp:263-297 | the loop over the growing and shrinking vector terminates and performs exactly the events of the descriptors that were ready when poll returned, in that order |
| Launch.ServeClient | srcs/Server.cpp:279-296 | reading, failure and writing are served in order, with a stop at the first disconnect |
| ChannelClass.EraseFirst | srcs/Channel.cpp:29-47 | erases the first occurrence only, which removes the descriptor when there are no duplicates |
| ChannelClass.Channel.RemoveMember | srcs/Channel.cpp:29-47 | membership and operator right go, the rest stays |
| ChannelClass.Channel.Forget | srcs/Server.cpp:317-323 | one channel forgets the descriptor as member, operator and invitee |
| ServerClass.Server.SendingQueue | srcs/Server.cpp:175-190 | appends to one send buffer and keeps POLLOUT requested for exactly the clients with waiting bytes |
| ServerClass.Server.Broadcast | srcs/commands/join.cpp:83-90 | the nested loops without break deliver to the members in order |
| ServerClass.Server.BroadcastToOthers | srcs/commands/privmsg.cpp:47-55 | the nested loops that pass over the sender deliver to the others in order |
| Modes.Notification | srcs/modes/modes.cpp:13-28 | the nested loops with break deliver the same |
| ServerClass.Server.FindLastChannel | srcs/commands/kick.cpp:23-30 | the last-match search finds the channel of that name, and its index, just when there is one |
| ServerClass.Server.FindFirstClient | srcs/modes/operator.cpp:20-27 | the first-match search finds a holder of the nick just when there is one |
| ServerClass.Server.FindLastClient | srcs/commands/kick.cpp:43-47 | the last-match search finds a holder of the nick just when there is one |
| Registration.PassHandler | srcs/commands/pass.cpp:3-12 | refines the abstract PASS |
| Registration.NickHandler | srcs/commands/nick.cpp:31-67 | refines the abstract NICK, replies included |
| Registration.UserHandler | srcs/commands/user.cpp:4-34 | refines the abstract USER, welcome included |
| JoinCommand.JoinHandler | srcs/commands/join.cpp:17-112 | create-then-check on the vectors refines the abstract check-then-enter, with the broadcast and NAMES bytes |
| JoinCommand.NamesList | srcs/commands/join.cpp:92-106 | the nested loops build the NAMES text of the members in order |
| PrivmsgCommand.PrivmsgHandler | srcs/commands/privmsg.cpp:3-72 | refines the abstract PRIVMSG on parameters the parser can yield |
| TopicCommand.TopicHandler | srcs/commands/topic.cpp:3-70 | refines the abstract TOPIC |
| KickCommand.KickHandler | srcs/commands/kick.cpp:3-83 | tell-remove-erase on the vectors refines the abstract KICK |
| InviteCommand.InviteHandler | srcs/commands/invite.cpp:3-59 | refines the abstract INVITE on parameters the parser can yield |
| Modes.ModesHandler | srcs/modes/modes.cpp:30-81 | the chain of mode steps refines the abstract MODE |
| Modes.InviteOnlyMode | srcs/modes/invite_only.cpp:3-22 | the +i/-i step, which says whether it was its turn |
| Modes.ChangeTopicMode | srcs/modes/change_topic.cpp:3-23 | the +t/-t step |
| Modes.SecretKeyMode | srcs/modes/secret_key.cpp:3-41 | the +k/-k step |
| Modes.LimitedUsageMode | srcs/modes/limited_usage.cpp:3-62 | the +l/-l step |
| Modes.OperatorsMode | srcs/modes/operator.cpp:3-70 | the +o/-o step |
| Dispatcher.DispatchCommand | srcs/commands/CommandDispatcher.cpp:7-35 | parse, upper-case and select refine one abstract command and keep the invariant |
| Launch.ExtractMsg | srcs/Server.cpp:133-147 | cutting the buffer in place and dispatching line by line refines the abstract drain |
| Launch.HandleUser | srcs/Server.cpp:192-217 | refines the receive event; disconnects exactly at end of stream or on an error other than EAGAIN |
| ServerClass.Server.HandleSend | srcs/Server.cpp:149-173 | refines the transmit event; sent bytes leave the front, and POLLOUT goes with the last |
| ServerClass.Server.Connect | srcs/Server.cpp:94-117 | both vectors grow together, with nothing reported yet on the newcomer |
| ServerClass.Server.LeaveChannels | srcs/Server.cpp:317-330 | erasing emptied channels while scanning leaves exactly the abstract rooms after the departure |
| ServerClass.Server.Disconnect | srcs/Server.cpp:119-131 | both vectors are erased at neighbouring indices, and the abstract connection is closed |
| Launch.DrainClients | srcs/Server.cpp:235-236 | disconnecting the first client until only the listener is left ends, with no client and, before any clearing, no channel |
| Launch.SocketsListOpen | srcs/Server.cpp:94-131 | the polled vector lists the listener first and then every open connection exactly once, with POLLOUT requested for exactly those with waiting bytes |
| Launch.ServeRounds | srcs/Server.cpp:251-298 | over any number of poll rounds, each polls exactly the connections then open, with POLLOUT requested for exactly those with waiting bytes, and the abstract server performs the events of the rounds in order |
| Launch.Launch | srcs/Server.cpp:251-300 | after those rounds the server shuts down with every vector empty and no listener |
| ServerClass.Server.constructor | srcs/Server.cpp:83-92 | the start: only the listener is polled, nobody is connected |

## Left out

- Socket set-up, bind, listen, fcntl, the system calls and errno: only their results enter, as inputs.
- Signals, the destructor, port validation, main and console output: nothing depends on them. The signal is
  the end of the list of rounds given to `Launch`; a poll error other than EINTR, which throws, is not modelled.
- Closing: `shutdown` and `disconnect` both close a client's descriptor; only whether it is open is modelled.
  The goodbye text offered to send at shutdown is ignored.
- Pointers and references into vectors: clients and channels are objects, so the address comparison of
  `sending_queue` is object identity. That vectors move their elements when they grow is not captured.
- Client.pass and its accessors: never set by any handler.
- The 4005-byte limit on what one recv returns: chunks of any length are allowed.
- Event bits other than POLLIN, POLLOUT, POLLERR, POLLHUP and POLLNVAL: never requested.
- Text.Atoi: beyond INT_MAX the result is that of strtol on a 64-bit long, converted to int; the C standard leaves it undefined.
- The four nested broadcast loops of JOIN, KICK, PRIVMSG and TOPIC are two methods, with and without the
  sender passed over, and the setters of Client and Channel are written where they also record the change.
- Nothing was executed.
