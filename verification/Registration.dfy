// srcs/commands/pass.cpp, nick.cpp and user.cpp: the three commands that register a client.
module Registration {
  import opened Text
  import opened Wire
  import opened World
  import opened Invariant
  import opened Net
  import opened EventLoop
  import opened ClientClass
  import opened NetSteps
  import opened ServerClass

  // The registration setters of srcs/Client.cpp, each recorded in the abstract server.
  method SetNickname(s: Server, client: Client, nickname: string)
    requires s.Valid() && client in s.clients
    modifies s`net, client`nickname
    ensures s.Valid()
    ensures var person := old(client.View()).(nick := nickname);
            s.net == old(s.net).(world := WithPerson(old(s.net.world), client.fd, person))
    ensures client.nickname == nickname
  {
    client.nickname := nickname;
    s.SyncPerson(client);
  }

  method SetNicknameReceived(s: Server, client: Client)
    requires s.Valid() && client in s.clients
    modifies s`net, client`nicknameReceived
    ensures s.Valid()
    ensures s.net == old(s.net).(world := WithPerson(old(s.net.world), client.fd, old(client.View()).(nickOk := true)))
    ensures client.nicknameReceived
  {
    client.nicknameReceived := true;
    s.SyncPerson(client);
  }

  method SetUsername(s: Server, client: Client, username: string)
    requires s.Valid() && client in s.clients
    modifies s`net, client`username
    ensures s.Valid()
    ensures var person := old(client.View()).(user := username);
            s.net == old(s.net).(world := WithPerson(old(s.net.world), client.fd, person))
    ensures client.username == username
  {
    client.username := username;
    s.SyncPerson(client);
  }

  method SetUserReceived(s: Server, client: Client)
    requires s.Valid() && client in s.clients
    modifies s`net, client`userReceived
    ensures s.Valid()
    ensures s.net == old(s.net).(world := WithPerson(old(s.net.world), client.fd, old(client.View()).(userOk := true)))
    ensures client.userReceived
  {
    client.userReceived := true;
    s.SyncPerson(client);
  }

  method SetPassReceived(s: Server, client: Client)
    requires s.Valid() && client in s.clients
    modifies s`net, client`passReceived
    ensures s.Valid()
    ensures s.net == old(s.net).(world := WithPerson(old(s.net.world), client.fd, old(client.View()).(passOk := true)))
    ensures client.passReceived
  {
    client.passReceived := true;
    s.SyncPerson(client);
  }

  method SetRegistered(s: Server, client: Client)
    requires s.Valid() && client in s.clients
    modifies s`net, client`registered
    ensures s.Valid()
    ensures var person := old(client.View()).(registered := true);
            s.net == old(s.net).(world := WithPerson(old(s.net.world), client.fd, person))
    ensures client.registered
  {
    client.registered := true;
    s.SyncPerson(client);
  }

  // Registration completes: the flag is set and the welcome queued.
  method Register(s: Server, client: Client)
    requires s.Valid() && client in s.clients
    modifies s`net, s`fds, client`registered, client`sendBuffer
    ensures s.Valid() && SameSockets(old(s.fds), s.fds)
    ensures s.net == old(s.net).(
      world := WithPerson(old(s.net.world), client.fd, old(client.View()).(registered := true)),
      outbox := Deliver(old(s.net.outbox), [Mail(client.fd, Numeric(1, client.nickname, []))]))
  {
    hide Render, Deliver, ReplyCmd;
    SetRegistered(s, client);
    s.SendingQueue(client, ReplyCmd(1, client.nickname, ""));
    RenderNumeric(1, client.nickname, []);
    DeliverOne(old(s.net.outbox), Mail(client.fd, Numeric(1, client.nickname, [])));
  }

  method PassHandler(s: Server, client: Client, ps: seq<string>)
    requires s.Ready(client)
    modifies s`fds, s`net, s.clients
    ensures s.Commits(client.fd, DecidePass(old(s.net.world), client.fd, ps))
  {
    hide Answer, Server.Valid;
    s.Known(client);
    if client.registered {
      s.Reply(462, client, "PASS");
    } else if ps == [] {
      s.Reply(461, client, "PASS");
    } else if s.passwd == ps[0] {
      SetPassReceived(s, client);
      DeliverNone(s.net.outbox);
    } else {
      s.Reply(464, client, "PASS");
    }
  }

  method NickTaken(s: Server, client: Client, nick: string) returns (taken: bool)
    requires s.Valid() && client in s.clients
    ensures taken <==> Holders(s.net.world, nick) - {client.fd} != {}
  {
    for i := 0 to |s.clients|
      invariant forall k :: 0 <= k < i ==> !(s.clients[k].nickname == nick && s.clients[k].fd != client.fd)
    {
      if s.clients[i].nickname == nick && s.clients[i].fd != client.fd {
        assert s.clients[i].fd in Holders(s.net.world, nick) - {client.fd};
        return true;
      }
    }
    forall f | f in s.net.world.people && f != client.fd ensures s.net.world.people[f].nick != nick {
      var c :| c in s.clients && c.fd == f;
    }
    return false;
  }

  method NickHandler(s: Server, client: Client, ps: seq<string>)
    requires s.Ready(client)
    modifies s`fds, s`net, s.clients
    ensures s.Commits(client.fd, DecideNick(old(s.net.world), client.fd, ps))
  {
    hide Render, Deliver, ReplyCmd, Answer, IsNickname, Inv, Holders, Server.Valid;
    s.Known(client);
    if !client.passReceived {
      s.Reply(451, client, NICK_FIRST);
      return;
    }
    if ps == [] {
      s.Reply(431, client, NO_NICK);
      return;
    }
    var newNick := ps[0];
    var valid := CheckNickValid(newNick);
    if !valid {
      s.Reply(432, client, newNick);
      return;
    }
    var taken := NickTaken(s, client, newNick);
    if taken {
      s.Reply(433, client, newNick);
      return;
    }
    DeliverNone(s.net.outbox);
    SetNickname(s, client, newNick);
    if client.registered {
      s.SendingQueue(client, "NICK :" + newNick);
      RenderNickEcho(newNick);
      DeliverOne(old(s.net.outbox), Mail(client.fd, NickEcho(newNick)));
    }
    SetNicknameReceived(s, client);
    Overwrite(old(s.net.world), client.fd);
    if client.userReceived && !client.registered {
      Register(s, client);
    }
  }

  method UserHandler(s: Server, client: Client, ps: seq<string>)
    requires s.Ready(client)
    modifies s`fds, s`net, s.clients
    ensures s.Commits(client.fd, DecideUser(old(s.net.world), client.fd, ps))
  {
    hide Render, Deliver, ReplyCmd, Answer, IsNickname, Inv, Holders, Server.Valid;
    s.Known(client);
    if client.registered {
      s.Reply(462, client, "USER");
      return;
    }
    if !client.passReceived {
      s.Reply(451, client, USER_FIRST);
      return;
    }
    if |ps| < 4 {
      s.Reply(461, client, "USER");
      return;
    }
    SetUsername(s, client, ps[0]);
    SetUserReceived(s, client);
    Overwrite(old(s.net.world), client.fd);
    DeliverNone(old(s.net.outbox));
    if client.nicknameReceived {
      Register(s, client);
    }
  }
}
