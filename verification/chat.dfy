/**
 * The command engine of `handle_client`, as a sequential state machine. The state is the
 * registered users, the online registry, what the server has sent on every socket, every
 * handler's local `username`, where every connection is in its life, and the credential
 * file. One received chunk is processed atomically (`OnReceive`, one loop iteration);
 * `OnClose` is the `finally` cleanup. The functions are the specification; the `Server`
 * class updates its fields in place and is proved to follow them.
 */
module Chat {
  import opened Wrappers
  import opened Text
  import opened Credentials
  import opened Presence

  const RegisterUsage := "Error: Invalid command format. Use REGISTER <username> <password>."
  const UsernameTaken := "Error: Username already exists."
  const Registered := "Registration successful."
  const LoginUsage := "Error: Invalid command format. Use LOGIN <username> <password>."
  const BadCredentials := "Error: Invalid username or password."
  const AlreadyOnline := "Error: User already logged in."
  const LoggedIn := "Login successful."
  const LoginFirst := "Error: Please login first."
  const SendUsage := "Error: Invalid command format. Use SEND <username> <message>."
  const NotOnline := "Error: User is not online."
  const UnknownCommand := "Error: Unknown command."

  function Joined(u: string): string { u + " has joined the chat." }

  function Left(u: string): string { u + " has left the chat." }

  /** The LIST_ONLINE reply: the online names in insertion order, joined by ", ". */
  function OnlineList(es: seq<Entry>): string { "Online users: " + Join(Names(es), ", ") }

  /** What SEND delivers: the sender's session name, ": ", and the words joined by single spaces. */
  function ChatLine(sender: string, words: seq<string>): string { sender + ": " + Join(words, " ") }

  datatype State = State(
    users: map<string, string>,     // `users`
    online: seq<Entry>,             // `online_clients`, in insertion order
    outbox: seq<seq<string>>,       // per connection: everything sent on its socket
    session: seq<Option<string>>,   // per connection: the handler's local `username`
    phase: seq<Phase>,              // per connection: running, ending or closed
    usersFile: string)              // the content of `users.txt`

  datatype Outcome = Outcome(next: State, goesOn: bool)

  /**
   * The invariant of the shared state: one slot per connection, registry entries name
   * known connections, at most one entry per name, and only registered users are online.
   */
  predicate WellFormed(s: State) {
    |s.session| == |s.outbox| && |s.phase| == |s.outbox| &&
    ConnsIn(s.online, |s.outbox|) && DistinctNames(s.online) &&
    forall e <- s.online :: e.name in s.users
  }

  /** Connection `c` exists and its handler loop is running. */
  predicate Live(s: State, c: ConnId) {
    c < |s.phase| && s.phase[c] == Active
  }

  /** Server start: the loaded users, nobody connected. */
  function Start(users: map<string, string>, usersFile: string): State {
    State(users, [], [], [], [], usersFile)
  }

  /** An accepted connection: a new socket with nothing sent, `username = None`. */
  function OnConnect(s: State): State {
    s.(outbox := s.outbox + [[]], session := s.session + [None], phase := s.phase + [Active])
  }

  /** `sock.send(m)` on socket `k`. */
  function Reply(s: State, k: ConnId, m: string): State
    requires k < |s.outbox|
  {
    s.(outbox := s.outbox[k := s.outbox[k] + [m]])
  }

  /** `broadcast(m, exclude)` over the current registry. */
  function Announce(s: State, m: string, exclude: Option<string>): State
    requires |s.phase| == |s.outbox| && ConnsIn(s.online, |s.outbox|)
  {
    s.(outbox := Fanout(s.outbox, s.phase, s.online, m, exclude))
  }

  /** The handler loop of `c` stops (break, or an exception caught by the bare `except`). */
  function EndLoop(s: State, c: ConnId): State
    requires c < |s.phase|
  {
    s.(phase := s.phase[c := Ending])
  }

  /**
   * What an event may change: the invariant holds after it, no connection appears or goes,
   * only the acting connection's session name can change, its loop stops exactly when the
   * event says so, what was sent is never taken back and no password ever changes.
   */
  predicate Advances(s: State, c: ConnId, o: Outcome)
    requires WellFormed(s) && c < |s.outbox|
  {
    WellFormed(o.next) && |o.next.outbox| == |s.outbox| &&
    o.next.session == s.session[c := o.next.session[c]] &&
    o.next.phase == (if o.goesOn then s.phase else s.phase[c := Ending]) &&
    (forall k :: 0 <= k < |s.outbox| ==> s.outbox[k] <= o.next.outbox[k]) &&
    forall u <- s.users :: u in o.next.users && o.next.users[u] == s.users[u]
  }

  /** `if username in online_clients: del ...; broadcast(left)`, shared by LOGOUT and the cleanup. */
  function Depart(s: State, name: Option<string>): (r: State)
    requires WellFormed(s)
    ensures WellFormed(r) && |r.outbox| == |s.outbox|
    ensures r.users == s.users && r.usersFile == s.usersFile && r.session == s.session && r.phase == s.phase
    ensures name.Some? ==> !IsOnline(r.online, name.value)
    ensures forall k :: 0 <= k < |s.outbox| ==> s.outbox[k] <= r.outbox[k]
  {
    if name.Some? && IsOnline(s.online, name.value) then
      WithoutDistinct(s.online, name.value);
      FanoutExtends(s.outbox, s.phase, Without(s.online, name.value), Left(name.value), None);
      Announce(s.(online := Without(s.online, name.value)), Left(name.value), None)
    else s
  }

  function RegisterCmd(s: State, c: ConnId, args: seq<string>): (o: Outcome)
    requires WellFormed(s) && Live(s, c)
    ensures Advances(s, c, o)
  {
    if |args| != 2 then Outcome(Reply(s, c, RegisterUsage), true)
    else
      var u, p := args[0], args[1];
      var s1 := s.(session := s.session[c := Some(u)]);
      if u in s.users then Outcome(Reply(s1, c, UsernameTaken), true)
      else Outcome(Reply(s1.(users := s.users[u := p], usersFile := s.usersFile + FormatLine(u, p)), c, Registered), true)
  }

  function LoginCmd(s: State, c: ConnId, args: seq<string>): (o: Outcome)
    requires WellFormed(s) && Live(s, c)
    ensures Advances(s, c, o)
    ensures o.next.users == s.users && o.next.usersFile == s.usersFile
  {
    if |args| != 2 then Outcome(Reply(s, c, LoginUsage), true)
    else
      var u, p := args[0], args[1];
      var s1 := s.(session := s.session[c := Some(u)]);
      if u !in s.users || s.users[u] != p then Outcome(Reply(s1, c, BadCredentials), true)
      else if IsOnline(s.online, u) then Outcome(Reply(s1, c, AlreadyOnline), true)
      else
        var s2 := s1.(online := s.online + [Entry(u, c)]);
        AppendDistinct(s.online, Entry(u, c));
        FanoutExtends(s.outbox, s.phase, s2.online, Joined(u), Some(u));
        Outcome(Reply(Announce(s2, Joined(u), Some(u)), c, LoggedIn), true)
  }

  function ListOnlineCmd(s: State, c: ConnId): (o: Outcome)
    requires WellFormed(s) && Live(s, c)
    ensures Advances(s, c, o)
    ensures o.next.users == s.users && o.next.usersFile == s.usersFile
  {
    Outcome(Reply(s, c, OnlineList(s.online)), true)
  }

  function SendCmd(s: State, c: ConnId, args: seq<string>): (o: Outcome)
    requires WellFormed(s) && Live(s, c)
    ensures Advances(s, c, o)
    ensures o.next.users == s.users && o.next.usersFile == s.usersFile
  {
    if s.session[c].None? then Outcome(Reply(s, c, LoginFirst), true)
    else if |args| < 2 then Outcome(Reply(s, c, SendUsage), true)
    else
      match Lookup(s.online, args[0])
      case None => Outcome(Reply(s, c, NotOnline), true)
      case Some(k) =>
        // the send to a closed socket raises; the handler's bare `except` ends its loop
        if s.phase[k] == Closed then Outcome(EndLoop(s, c), false)
        else Outcome(Reply(s, k, ChatLine(s.session[c].value, args[1..])), true)
  }

  function LogoutCmd(s: State, c: ConnId): (o: Outcome)
    requires WellFormed(s) && Live(s, c)
    ensures Advances(s, c, o)
    ensures o.next.users == s.users && o.next.usersFile == s.usersFile
  {
    Outcome(EndLoop(Depart(s, s.session[c]), c), false)
  }

  /** One iteration of the handler loop of `c` on the decoded chunk `data`. */
  function OnReceive(s: State, c: ConnId, data: string): (o: Outcome)
    requires WellFormed(s) && Live(s, c)
    ensures Advances(s, c, o)
  {
    if data == "" then Outcome(EndLoop(s, c), false)
    else
      var words := Split(data);
      // `command, *args = data.split()` raises on whitespace-only data
      if words == [] then Outcome(EndLoop(s, c), false)
      else
        var command, args := words[0], words[1..];
        if command == "REGISTER" then RegisterCmd(s, c, args)
        else if command == "LOGIN" then LoginCmd(s, c, args)
        else if command == "LIST_ONLINE" then ListOnlineCmd(s, c)
        else if command == "SEND" then SendCmd(s, c, args)
        else if command == "LOGOUT" then LogoutCmd(s, c)
        else Outcome(Reply(s, c, UnknownCommand), true)
  }

  /** The `finally` block: depart under the session name, then close the socket. */
  function OnClose(s: State, c: ConnId): (r: State)
    requires WellFormed(s) && c < |s.phase| && s.phase[c] != Closed
    ensures WellFormed(r) && |r.outbox| == |s.outbox| && r.phase == s.phase[c := Closed]
    ensures r.users == s.users && r.usersFile == s.usersFile && r.session == s.session
  {
    var s1 := Depart(s, s.session[c]);
    s1.(phase := s1.phase[c := Closed])
  }

  // ---------------------------------------------------------------------------
  // The server, updating its state in place

  class Server {
    var users: map<string, string>
    var online: seq<Entry>
    var outbox: seq<seq<string>>
    var session: seq<Option<string>>
    var phase: seq<Phase>
    var usersFile: string

    function Abs(): State
      reads this
    {
      State(users, online, outbox, session, phase, usersFile)
    }

    predicate Valid()
      reads this
    {
      WellFormed(Abs())
    }

    /** The server once `load_users` has read `users0` from the credential file (None: no file). */
    constructor (users0: map<string, string>, file: Option<string>)
      requires Load(file) == Some(users0)
      ensures Abs() == Start(users0, FileText(file)) && Valid()
    {
      users, online, outbox, session, phase, usersFile := users0, [], [], [], [], FileText(file);
    }

    /** `accept` plus the start of `handle_client`: a new socket, `username = None`. */
    method Connect() returns (c: ConnId)
      requires Valid()
      modifies this
      ensures Abs() == OnConnect(old(Abs())) && Valid()
      ensures c == |old(outbox)| && Live(Abs(), c)
    {
      c := |outbox|;
      outbox, session, phase := outbox + [[]], session + [None], phase + [Active];
    }

    method Send(k: ConnId, m: string)
      requires k < |outbox|
      modifies this`outbox
      ensures outbox == old(outbox)[k := old(outbox)[k] + [m]]
    {
      outbox := outbox[k := outbox[k] + [m]];
    }

    /** `broadcast`: walk the registry in order and send to every entry it reaches. */
    method Broadcast(m: string, exclude: Option<string>)
      requires |phase| == |outbox| && ConnsIn(online, |outbox|)
      modifies this`outbox
      ensures outbox == Fanout(old(outbox), phase, online, m, exclude)
    {
      var i := 0;
      while i < |online|
        invariant 0 <= i <= |online|
        invariant |outbox| == |phase|
        invariant outbox == Fanout(old(outbox), phase, online[..i], m, exclude)
      {
        var e := online[i];
        assert online[..i + 1][..i] == online[..i];
        if exclude != Some(e.name) && phase[e.conn] != Closed {
          outbox := outbox[e.conn := outbox[e.conn] + [m]];
        }
        i := i + 1;
      }
      assert online[..i] == online;
    }

    method SignOff(name: Option<string>)
      requires Valid()
      modifies this`online, this`outbox
      ensures Abs() == Depart(old(Abs()), name)
    {
      if name.Some? && IsOnline(online, name.value) {
        online := Without(online, name.value);
        Broadcast(Left(name.value), None);
      }
    }

    method HandleRegister(c: ConnId, args: seq<string>)
      requires Valid() && Live(Abs(), c)
      modifies this
      ensures Abs() == RegisterCmd(old(Abs()), c, args).next
    {
      if |args| != 2 {
        Send(c, RegisterUsage);
        return;
      }
      var u, p := args[0], args[1];
      session := session[c := Some(u)];
      if u in users {
        Send(c, UsernameTaken);
      } else {
        users := users[u := p];
        usersFile := usersFile + FormatLine(u, p);
        Send(c, Registered);
      }
    }

    method HandleLogin(c: ConnId, args: seq<string>)
      requires Valid() && Live(Abs(), c)
      modifies this
      ensures Abs() == LoginCmd(old(Abs()), c, args).next
    {
      if |args| != 2 {
        Send(c, LoginUsage);
        return;
      }
      var u, p := args[0], args[1];
      session := session[c := Some(u)];
      if u !in users || users[u] != p {
        Send(c, BadCredentials);
      } else if IsOnline(online, u) {
        Send(c, AlreadyOnline);
      } else {
        online := online + [Entry(u, c)];
        Broadcast(Joined(u), Some(u));
        Send(c, LoggedIn);
      }
    }

    method HandleSend(c: ConnId, args: seq<string>) returns (goesOn: bool)
      requires Valid() && Live(Abs(), c)
      modifies this
      ensures Abs() == SendCmd(old(Abs()), c, args).next
      ensures goesOn == SendCmd(old(Abs()), c, args).goesOn
    {
      goesOn := true;
      if session[c].None? {
        Send(c, LoginFirst);
        return;
      }
      if |args| < 2 {
        Send(c, SendUsage);
        return;
      }
      var recipient := Lookup(online, args[0]);
      if recipient.None? {
        Send(c, NotOnline);
      } else if phase[recipient.value] == Closed {
        phase := phase[c := Ending];
        goesOn := false;
      } else {
        Send(recipient.value, ChatLine(session[c].value, args[1..]));
      }
    }

    /** One iteration of the loop of `handle_client`; false when the loop ends. */
    method Receive(c: ConnId, data: string) returns (goesOn: bool)
      requires Valid() && Live(Abs(), c)
      modifies this
      ensures Abs() == OnReceive(old(Abs()), c, data).next && Valid()
      ensures goesOn == OnReceive(old(Abs()), c, data).goesOn
    {
      if data == "" {
        phase := phase[c := Ending];
        return false;
      }
      var words := Split(data);
      if words == [] {
        phase := phase[c := Ending];
        return false;
      }
      var command, args := words[0], words[1..];
      goesOn := true;
      if command == "REGISTER" {
        HandleRegister(c, args);
      } else if command == "LOGIN" {
        HandleLogin(c, args);
      } else if command == "LIST_ONLINE" {
        Send(c, OnlineList(online));
      } else if command == "SEND" {
        goesOn := HandleSend(c, args);
      } else if command == "LOGOUT" {
        SignOff(session[c]);
        phase := phase[c := Ending];
        goesOn := false;
      } else {
        Send(c, UnknownCommand);
      }
    }

    /** The `finally` block of `handle_client`. */
    method Close(c: ConnId)
      requires Valid() && c < |phase| && phase[c] != Closed
      modifies this
      ensures Abs() == OnClose(old(Abs()), c) && Valid()
    {
      SignOff(session[c]);
      phase := phase[c := Closed];
    }
  }

  /**
   * `start_server` up to the accept loop: `load_users`, whose uncaught ValueError ends
   * start-up (None), then a server holding the loaded users and nobody connected.
   */
  method StartServer(file: Option<string>) returns (srv: Option<Server>)
    ensures srv.None? <==> Load(file).None?
    ensures srv.Some? ==>
              fresh(srv.value) && srv.value.Valid() &&
              srv.value.Abs() == Start(Load(file).value, FileText(file))
  {
    var loaded := LoadUsers(file);
    if loaded.None? {
      return None;
    }
    var server := new Server(loaded.value, file);
    srv := Some(server);
  }
}
