// srcs/Client.cpp: a connection's registration flags and its two byte buffers.
module ClientClass {
  import opened World

  class Client {
    const fd: int
    var nickname: string
    var username: string
    var passReceived: bool
    var nicknameReceived: bool
    var userReceived: bool
    var registered: bool
    var buffer: string
    var sendBuffer: string

    ghost function View(): Person
      reads this
    {
      Person(nickname, username, passReceived, nicknameReceived, userReceived, registered)
    }

    constructor (fd: int)
      ensures this.fd == fd && View() == NEWCOMER && buffer == "" && sendBuffer == ""
    {
      this.fd := fd;
      nickname, username, buffer, sendBuffer := "", "", "", "";
      passReceived, nicknameReceived, userReceived, registered := false, false, false, false;
    }
  }
}
