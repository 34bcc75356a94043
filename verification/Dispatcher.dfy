// srcs/commands/CommandDispatcher.cpp
module Dispatcher {
  import opened Text
  import opened Parser
  import opened World
  import opened Invariant
  import opened Net
  import opened ClientClass
  import opened NetSteps
  import opened ServerClass
  import opened Registration
  import opened JoinCommand
  import opened PrivmsgCommand
  import opened TopicCommand
  import opened KickCommand
  import opened InviteCommand
  import opened Modes

  // srcs/commands/CommandDispatcher.cpp
  method DispatchCommand(s: Server, client: Client, line: string)
    requires s.Ready(client)
    modifies s`fds, s`net, s`channels, s.clients, s.channels
    ensures s.Commits(client.fd, React(old(s.net.world), client.fd, line))
    ensures s.Grows()
    ensures Inv(s.net.world)
  {
    hide Inv, Answer, Deliver, Apply, Server.Valid, Allowed, ParsedParams, Parse, VerbOf, DecidePass, DecideNick,
      DecideUser,
      DecideJoin, DecidePrivmsg, DecideTopic, DecideKick, DecideInvite, DecideMode;
    var message := ParseLine(line);
    var command := ToUpperCase(message.cmd);
    s.Known(client);
    ParseCanonical(line);
    ReactKeepsInv(s.net.world, client.fd, line);
    match VerbOf(command)
    case PASS => PassHandler(s, client, message.params);
    case NICK => NickHandler(s, client, message.params);
    case USER => UserHandler(s, client, message.params);
    case JOIN => JoinHandler(s, client, message.params);
    case PRIVMSG => PrivmsgHandler(s, client, message.params);
    case TOPIC => TopicHandler(s, client, message.params);
    case KICK => KickHandler(s, client, message.params);
    case INVITE => InviteHandler(s, client, message.params);
    case MODE => ModesHandler(s, client, message.params);
    case Unknown =>
      if command != "" {
        s.Reply(421, client, command);
      } else {
        NothingCommitted(s.net, client.fd);
      }
  }
}
