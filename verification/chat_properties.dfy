/**
 * What the command engine promises, stated over the step functions of `Chat`: the reply and
 * state change of every command, the join and leave announcements, the effects of the
 * session name being overwritten by every two-argument REGISTER or LOGIN, and the credential
 * file staying readable.
 */
module ChatProperties {
  import opened Wrappers
  import opened Text
  import opened Credentials
  import opened Presence
  import opened Chat

  /** Every connection belongs to at most one registry entry (no connection logged in twice). */
  predicate OneEntryPerConn(es: seq<Entry>) {
    forall i, j :: 0 <= i < j < |es| ==> es[i].conn != es[j].conn
  }

  /** Connection `k` has an entry in the registry. */
  predicate HasEntry(es: seq<Entry>, k: ConnId) {
    exists e <- es :: e.conn == k
  }

  // ---------------------------------------------------------------------------
  // One command at a time

  /**
   * REGISTER u p: the session takes the name u either way; an absent u is stored, appended
   * to the credential file and acknowledged; a present u changes nothing but the error reply.
   */
  lemma RegisterOutcome(s: State, c: ConnId, data: string, u: string, p: string)
    requires WellFormed(s) && Live(s, c)
    requires Split(data) == ["REGISTER", u, p]
    ensures var o := OnReceive(s, c, data);
      o.goesOn && o.next.session == s.session[c := Some(u)] &&
      o.next.online == s.online && o.next.phase == s.phase &&
      if u in s.users then
        o.next.users == s.users && o.next.usersFile == s.usersFile &&
        o.next.outbox == s.outbox[c := s.outbox[c] + [UsernameTaken]]
      else
        o.next.users == s.users[u := p] && o.next.usersFile == s.usersFile + FormatLine(u, p) &&
        o.next.outbox == s.outbox[c := s.outbox[c] + [Registered]]
  {
  }

  /**
   * A malformed REGISTER or LOGIN, a SEND with fewer than two arguments and an unknown
   * command each send one error line to the requester and change nothing else.
   */
  lemma RejectedCommand(s: State, c: ConnId, data: string)
    requires WellFormed(s) && Live(s, c)
    requires var w := Split(data);
      w != [] &&
      (((w[0] == "REGISTER" || w[0] == "LOGIN") && |w| != 3) ||
       (w[0] == "SEND" && |w| < 3) ||
       (w[0] != "REGISTER" && w[0] != "LOGIN" && w[0] != "LIST_ONLINE" && w[0] != "SEND" && w[0] != "LOGOUT"))
    ensures var w := Split(data); var o := OnReceive(s, c, data);
      o.goesOn &&
      o.next == s.(outbox := s.outbox[c := s.outbox[c] + [
        if w[0] == "REGISTER" then RegisterUsage
        else if w[0] == "LOGIN" then LoginUsage
        else if w[0] == "SEND" then (if s.session[c].None? then LoginFirst else SendUsage)
        else UnknownCommand]])
  {
  }

  /**
   * LOGIN u p, checked in this order: wrong credentials, then already online, then success.
   * The session takes the name u in all three. On success u is appended to the registry and
   * every socket gets the join notice once per entry of it other than u's, before the
   * requester's "Login successful.".
   */
  lemma LoginOutcome(s: State, c: ConnId, data: string, u: string, p: string)
    requires WellFormed(s) && Live(s, c)
    requires Split(data) == ["LOGIN", u, p]
    ensures var o := OnReceive(s, c, data);
      o.goesOn && o.next.session == s.session[c := Some(u)] && o.next.users == s.users &&
      o.next.usersFile == s.usersFile && o.next.phase == s.phase
    ensures var o := OnReceive(s, c, data);
      u !in s.users || s.users[u] != p ==>
        o.next.online == s.online && o.next.outbox == s.outbox[c := s.outbox[c] + [BadCredentials]]
    ensures var o := OnReceive(s, c, data);
      u in s.users && s.users[u] == p && IsOnline(s.online, u) ==>
        o.next.online == s.online && o.next.outbox == s.outbox[c := s.outbox[c] + [AlreadyOnline]]
    ensures var o := OnReceive(s, c, data);
      u in s.users && s.users[u] == p && !IsOnline(s.online, u) ==>
        o.next.online == s.online + [Entry(u, c)] &&
        forall k :: 0 <= k < |s.outbox| ==>
          o.next.outbox[k] == s.outbox[k] + Repeat(Joined(u), Copies(s.online, s.phase, k, None)) +
                              (if k == c then [LoggedIn] else [])
  {
    if u in s.users && s.users[u] == p && !IsOnline(s.online, u) {
      var es := s.online + [Entry(u, c)];
      forall k | 0 <= k < |s.outbox|
        ensures Fanout(s.outbox, s.phase, es, Joined(u), Some(u))[k] ==
                s.outbox[k] + Repeat(Joined(u), Copies(s.online, s.phase, k, None))
      {
        FanoutAt(s.outbox, s.phase, es, Joined(u), Some(u), k);
        assert es[..|es| - 1] == s.online;
        SameCopies(s.online, s.phase, k, u);
      }
    }
  }

  /** Excluding a name that is not online reaches the same sockets as excluding nobody. */
  lemma {:induction false} SameCopies(es: seq<Entry>, phase: seq<Phase>, k: ConnId, u: string)
    requires ConnsIn(es, |phase|) && !IsOnline(es, u)
    ensures Copies(es, phase, k, Some(u)) == Copies(es, phase, k, None)
    decreases |es|
  {
    if es != [] {
      var init := es[..|es| - 1];
      assert !IsOnline(init, u) by {
        forall i | 0 <= i < |init| ensures init[i].name != u {
          assert init[i] == es[i];
        }
      }
      assert es[|es| - 1].name != u;
      SameCopies(init, phase, k, u);
    }
  }

  /**
   * The usual picture after a LOGIN: every other online user whose socket is open gets
   * "u has joined the chat." exactly once, and the newcomer gets only "Login successful.".
   */
  lemma LoginAnnouncedOnce(s: State, c: ConnId, data: string, u: string, p: string)
    requires WellFormed(s) && Live(s, c)
    requires Split(data) == ["LOGIN", u, p]
    requires u in s.users && s.users[u] == p && !IsOnline(s.online, u)
    requires OneEntryPerConn(s.online) && !HasEntry(s.online, c)
    ensures var o := OnReceive(s, c, data);
      o.next.outbox[c] == s.outbox[c] + [LoggedIn] &&
      forall e <- s.online :: e.conn != c &&
        o.next.outbox[e.conn] == s.outbox[e.conn] + (if s.phase[e.conn] != Closed then [Joined(u)] else [])
  {
    LoginOutcome(s, c, data, u, p);
    var o := OnReceive(s, c, data);
    FanoutOnce(s.outbox, s.phase, s.online, Joined(u), None, c);
    assert o.next.outbox[c] == s.outbox[c] + Repeat(Joined(u), Copies(s.online, s.phase, c, None)) + [LoggedIn];
    FanoutAt(s.outbox, s.phase, s.online, Joined(u), None, c);
    assert Copies(s.online, s.phase, c, None) == 0;
    forall e <- s.online
      ensures e.conn != c &&
        o.next.outbox[e.conn] == s.outbox[e.conn] + (if s.phase[e.conn] != Closed then [Joined(u)] else [])
    {
      var k := e.conn;
      FanoutOnce(s.outbox, s.phase, s.online, Joined(u), None, k);
      FanoutAt(s.outbox, s.phase, s.online, Joined(u), None, k);
      var n := Copies(s.online, s.phase, k, None);
      assert n == if s.phase[k] != Closed then 1 else 0 by {
        if s.phase[k] != Closed {
          assert s.outbox[k] + Repeat(Joined(u), n) == s.outbox[k] + [Joined(u)];
          assert |Repeat(Joined(u), n)| == 1;
        } else {
          assert forall e' <- s.online :: e'.conn == k ==> !Reaches(e', s.phase, None);
          CopiesNone(s.online, s.phase, k, None);
        }
      }
      assert Repeat(Joined(u), 0) == [];
      assert Repeat(Joined(u), 1) == [Joined(u)];
    }
  }

  /** LIST_ONLINE: the online names in insertion order, joined by ", "; nothing else changes. */
  lemma ListOnlineOutcome(s: State, c: ConnId, data: string)
    requires WellFormed(s) && Live(s, c)
    requires var w := Split(data); w != [] && w[0] == "LIST_ONLINE"
    ensures var o := OnReceive(s, c, data);
      o.goesOn && o.next == s.(outbox := s.outbox[c := s.outbox[c] + ["Online users: " + Join(Names(s.online), ", ")]])
  {
  }

  /**
   * SEND r w1 .. wn: refused before login; otherwise an online recipient with an open socket
   * gets "sender: w1 .. wn" and the sender gets nothing; an offline recipient gives an error
   * and no state change. The body re-tokenises to the words sent.
   */
  lemma SendOutcome(s: State, c: ConnId, data: string, r: string, words: seq<string>)
    requires WellFormed(s) && Live(s, c)
    requires Split(data) == ["SEND", r] + words && |words| > 0
    ensures var o := OnReceive(s, c, data);
      s.session[c].None? ==> o.goesOn && o.next == s.(outbox := s.outbox[c := s.outbox[c] + [LoginFirst]])
    ensures var o := OnReceive(s, c, data);
      s.session[c].Some? && !IsOnline(s.online, r) ==>
        o.goesOn && o.next == s.(outbox := s.outbox[c := s.outbox[c] + [NotOnline]])
    ensures var o := OnReceive(s, c, data);
      forall k: ConnId :: s.session[c].Some? && Entry(r, k) in s.online && s.phase[k] != Closed ==>
        o.goesOn && o.next == s.(outbox := s.outbox[k := s.outbox[k] + [s.session[c].value + ": " + Join(words, " ")]])
    ensures Split(Join(words, " ")) == words
  {
    var w := Split(data);
    assert w[1..] == [r] + words && w[2..] == words;
    assert forall x <- words :: x in w;
    SplitJoin(words);
  }

  /**
   * LOGOUT, then the cleanup: the session name leaves the registry, every socket gets
   * "u has left the chat." once per remaining entry of it, and the cleanup adds nothing:
   * the leave notice goes out once per removal.
   */
  lemma LogoutAnnouncesOnce(s: State, c: ConnId, data: string, u: string)
    requires WellFormed(s) && Live(s, c)
    requires var w := Split(data); w != [] && w[0] == "LOGOUT"
    requires s.session[c] == Some(u) && IsOnline(s.online, u)
    ensures var o := OnReceive(s, c, data); var t := OnClose(o.next, c);
      !o.goesOn && t == o.next.(phase := s.phase[c := Closed]) &&
      t.online == Without(s.online, u) && !IsOnline(t.online, u) &&
      forall k :: 0 <= k < |s.outbox| ==>
        t.outbox[k] == s.outbox[k] + Repeat(Left(u), Copies(Without(s.online, u), s.phase, k, None))
  {
    forall k | 0 <= k < |s.outbox|
      ensures Fanout(s.outbox, s.phase, Without(s.online, u), Left(u), None)[k] ==
              s.outbox[k] + Repeat(Left(u), Copies(Without(s.online, u), s.phase, k, None))
    {
      FanoutAt(s.outbox, s.phase, Without(s.online, u), Left(u), None, k);
    }
  }

  /**
   * LOGOUT without an online session name (never named, or not in the registry) only ends
   * the loop: no registry change and no leave notice.
   */
  lemma LogoutWhenNotOnline(s: State, c: ConnId, data: string)
    requires WellFormed(s) && Live(s, c)
    requires var w := Split(data); w != [] && w[0] == "LOGOUT"
    requires s.session[c].None? || !IsOnline(s.online, s.session[c].value)
    ensures var o := OnReceive(s, c, data);
      !o.goesOn && o.next == s.(phase := s.phase[c := Ending])
  {
  }

  /**
   * A failed read while the loop is still running goes straight to the cleanup, which
   * departs exactly as LOGOUT followed by the cleanup would.
   */
  lemma CloseWhileActiveDepartsLikeLogout(s: State, c: ConnId, bye: string)
    requires WellFormed(s) && Live(s, c)
    requires var w := Split(bye); w != [] && w[0] == "LOGOUT"
    ensures OnClose(s, c) == OnClose(OnReceive(s, c, bye).next, c)
  {
    var u := s.session[c];
    if u.Some? && IsOnline(s.online, u.value) {
      var es := Without(s.online, u.value);
      FanoutClosedOnly(s.outbox, s.phase, s.phase[c := Ending], es, Left(u.value), None);
    }
  }

  /** Whatever the session name, the cleanup after LOGOUT only closes the socket. */
  lemma CloseAfterLogoutIsQuiet(s: State, c: ConnId, data: string)
    requires WellFormed(s) && Live(s, c)
    requires var w := Split(data); w != [] && w[0] == "LOGOUT"
    ensures var o := OnReceive(s, c, data);
      !o.goesOn && OnClose(o.next, c) == o.next.(phase := o.next.phase[c := Closed])
  {
  }

  /**
   * An empty read or whitespace-only data ends the loop with no other change, and the
   * cleanup then performs the same departure as LOGOUT would.
   */
  lemma DisconnectDepartsLikeLogout(s: State, c: ConnId, data: string, bye: string)
    requires WellFormed(s) && Live(s, c)
    requires AllSpace(data)
    requires var w := Split(bye); w != [] && w[0] == "LOGOUT"
    ensures var o := OnReceive(s, c, data);
      !o.goesOn && o.next == s.(phase := s.phase[c := Ending]) &&
      OnClose(o.next, c) == OnClose(OnReceive(s, c, bye).next, c)
  {
    SplitEmptyIff(data);
    var o := OnReceive(s, c, bye);
    var u := s.session[c];
    if u.Some? && IsOnline(s.online, u.value) {
      var es := Without(s.online, u.value);
      FanoutClosedOnly(s.outbox, s.phase, s.phase[c := Ending], es, Left(u.value), None);
    }
  }

  // ---------------------------------------------------------------------------
  // The session name is whatever the last two-argument REGISTER or LOGIN said

  /** Even a failed LOGIN renames the session, and SEND is then accepted under that name. */
  lemma SendAfterFailedLogin(s: State, c: ConnId, login: string, u: string, p: string,
                             send: string, r: string, k: ConnId, words: seq<string>)
    requires WellFormed(s) && Live(s, c)
    requires Split(login) == ["LOGIN", u, p] && (u !in s.users || s.users[u] != p)
    requires Split(send) == ["SEND", r] + words && |words| > 0
    requires Entry(r, k) in s.online && s.phase[k] != Closed
    ensures var s1 := OnReceive(s, c, login).next;
      s1.online == s.online && s1.session[c] == Some(u) &&
      var s2 := OnReceive(s1, c, send).next;
      s2.outbox[k] == s1.outbox[k] + [ChatLine(u, words)]
  {
    LoginOutcome(s, c, login, u, p);
    var s1 := OnReceive(s, c, login).next;
    SendOutcome(s1, c, send, r, words);
  }

  /** A REGISTER of a taken name, too, gives the session that name. */
  lemma FailedRegisterRenamesSession(s: State, c: ConnId, data: string, u: string, p: string)
    requires WellFormed(s) && Live(s, c)
    requires Split(data) == ["REGISTER", u, p] && u in s.users
    ensures var o := OnReceive(s, c, data);
      o.next.session[c] == Some(u) && o.next.users == s.users && o.next.online == s.online
  {
  }

  /**
   * The cleanup acts on the session name, not on the connection's own login: a connection
   * that tried to LOGIN as a user who is online elsewhere removes and announces that user
   * when it closes, though the user's own connection is untouched.
   */
  lemma CloseEvictsAnotherConnection(s: State, c: ConnId, d: ConnId, data: string, u: string, p: string)
    requires WellFormed(s) && Live(s, c) && c != d
    requires Split(data) == ["LOGIN", u, p] && Entry(u, d) in s.online
    ensures var s1 := OnReceive(s, c, data).next; var t := OnClose(s1, c);
      IsOnline(s1.online, u) && !IsOnline(t.online, u) && t.phase[d] == s.phase[d]
  {
    LoginOutcome(s, c, data, u, p);
  }

  /**
   * The cleanup may leave this connection's earlier login behind: after LOGIN v succeeded,
   * a second LOGIN u renames the session, and closing removes u but keeps v's entry,
   * which now points at a closed socket.
   */
  lemma CloseLeavesStaleEntry(s: State, c: ConnId, data: string, v: string, u: string, p: string)
    requires WellFormed(s) && Live(s, c)
    requires Entry(v, c) in s.online && u != v
    requires Split(data) == ["LOGIN", u, p]
    ensures var s1 := OnReceive(s, c, data).next; var t := OnClose(s1, c);
      Entry(v, c) in t.online && t.phase[c] == Closed
  {
    LoginOutcome(s, c, data, u, p);
    var s1 := OnReceive(s, c, data).next;
    var t := OnClose(s1, c);
    assert Entry(v, c) in s1.online;
    assert Entry(v, c) in Without(s1.online, u);
  }

  /**
   * SEND to such a stale entry is not an "offline" error: the send on the closed socket
   * raises, and the sender's own loop ends.
   */
  lemma SendToStaleEntryEndsSender(s: State, c: ConnId, data: string, r: string, k: ConnId, words: seq<string>)
    requires WellFormed(s) && Live(s, c) && s.session[c].Some?
    requires Split(data) == ["SEND", r] + words && |words| > 0
    requires Entry(r, k) in s.online && s.phase[k] == Closed
    ensures var o := OnReceive(s, c, data); !o.goesOn && o.next == s.(phase := s.phase[c := Ending])
  {
    var w := Split(data);
    assert w[1..][0] == r;
  }

  // ---------------------------------------------------------------------------
  // Across commands

  /** Of two LOGIN u p on different connections, the second never succeeds. */
  lemma SecondLoginRefused(s: State, c: ConnId, d: ConnId, first: string, second: string, u: string, p: string)
    requires WellFormed(s) && Live(s, c) && Live(s, d) && c != d
    requires Split(first) == ["LOGIN", u, p] && Split(second) == ["LOGIN", u, p]
    ensures var s1 := OnReceive(s, c, first).next; var s2 := OnReceive(s1, d, second).next;
      s2.online == s1.online &&
      s2.outbox[d] == s1.outbox[d] + [if u in s.users && s.users[u] == p then AlreadyOnline else BadCredentials]
  {
    LoginOutcome(s, c, first, u, p);
    var s1 := OnReceive(s, c, first).next;
    if u in s.users && s.users[u] == p && !IsOnline(s.online, u) {
      assert s1.online[|s1.online| - 1] == Entry(u, c);
    }
    LoginOutcome(s1, d, second, u, p);
  }

  /** A fresh REGISTER u p followed by LOGIN u p on the same connection logs u in. */
  lemma RegisterThenLogin(s: State, c: ConnId, reg: string, login: string, u: string, p: string)
    requires WellFormed(s) && Live(s, c)
    requires Split(reg) == ["REGISTER", u, p] && Split(login) == ["LOGIN", u, p]
    requires u !in s.users
    ensures var s1 := OnReceive(s, c, reg).next; var s2 := OnReceive(s1, c, login).next;
      s2.online == s.online + [Entry(u, c)] && s2.session[c] == Some(u) &&
      s2.outbox[c][|s2.outbox[c]| - 1] == LoggedIn
  {
    RegisterOutcome(s, c, reg, u, p);
    var s1 := OnReceive(s, c, reg).next;
    assert !IsOnline(s.online, u);
    LoginOutcome(s1, c, login, u, p);
  }

  /** A second REGISTER of the same name is refused and the stored password stays. */
  lemma RegisterTwiceKeepsPassword(s: State, c: ConnId, d: ConnId, first: string, second: string, u: string, p: string, q: string)
    requires WellFormed(s) && Live(s, c) && Live(s, d)
    requires Split(first) == ["REGISTER", u, p] && Split(second) == ["REGISTER", u, q]
    requires u !in s.users
    ensures var s1 := OnReceive(s, c, first).next; var s2 := OnReceive(s1, d, second).next;
      s2.users == s1.users && s2.users[u] == p &&
      s2.outbox[d] == s1.outbox[d] + [UsernameTaken]
  {
    RegisterOutcome(s, c, first, u, p);
    var s1 := OnReceive(s, c, first).next;
    RegisterOutcome(s1, d, second, u, q);
  }

  // ---------------------------------------------------------------------------
  // The credential file

  /** The credential file ends at a line boundary and reloads to exactly the users in memory. */
  predicate FileInSync(s: State) {
    EndsLine(s.usersFile) && LoadLines(Lines(s.usersFile)) == Some(s.users)
  }

  /**
   * At start-up the users are what `load_users` read, so file and dictionary agree exactly
   * when the file ends at a line boundary (a missing file counts as empty).
   */
  lemma StartInSync(file: Option<string>, users: map<string, string>)
    requires Load(file) == Some(users)
    ensures FileInSync(Start(users, FileText(file))) <==> EndsLine(FileText(file))
  {
  }

  /**
   * A file whose last line lacks its newline starts the server fine, but the first
   * successful REGISTER glues its record onto that line and the server can no longer start.
   */
  lemma UnterminatedFileBreaksRestart(s: State, c: ConnId, data: string, u: string, p: string)
    requires WellFormed(s) && Live(s, c)
    requires !EndsLine(s.usersFile) && LoadLines(Lines(s.usersFile)) == Some(s.users)
    requires Split(data) == ["REGISTER", u, p] && u !in s.users
    ensures var t := OnReceive(s, c, data).next;
      t.users == s.users[u := p] && Load(Some(t.usersFile)) == None
  {
    assert u in Split(data) && p in Split(data);
    assert IsSpace('\n');
    UnterminatedFileBreaksOnAppend(s.usersFile, s.users, u, p);
  }

  /**
   * Every command keeps the file and the dictionary in agreement, as long as no token
   * of the command holds a comma.
   */
  lemma ReceiveKeepsFileInSync(s: State, c: ConnId, data: string)
    requires WellFormed(s) && Live(s, c) && FileInSync(s)
    requires forall w <- Split(data) :: ',' !in w
    ensures FileInSync(OnReceive(s, c, data).next)
  {
    var w := Split(data);
    var t := OnReceive(s, c, data).next;
    if data != "" && w != [] {
      var args := w[1..];
      if w[0] == "REGISTER" {
        assert forall x <- args :: x in w;
        RegisterKeepsFileInSync(s, c, args);
      } else {
        assert t.users == s.users && t.usersFile == s.usersFile;
      }
    }
  }

  lemma RegisterKeepsFileInSync(s: State, c: ConnId, args: seq<string>)
    requires WellFormed(s) && Live(s, c) && FileInSync(s)
    requires forall w <- args :: IsWord(w) && ',' !in w
    ensures FileInSync(RegisterCmd(s, c, args).next)
  {
    if |args| == 2 && args[0] !in s.users {
      assert args[0] in args && args[1] in args;
      AppendRecordReloads(s.usersFile, s.users, args[0], args[1]);
    }
  }

  /** A name or password with a comma registers, but the server can no longer start from its file. */
  lemma CommaRegistrationBreaksRestart(s: State, c: ConnId, data: string, u: string, p: string)
    requires WellFormed(s) && Live(s, c) && FileInSync(s)
    requires Split(data) == ["REGISTER", u, p] && u !in s.users
    requires ',' in u || ',' in p
    ensures var t := OnReceive(s, c, data).next;
      u in t.users && Load(Some(t.usersFile)) == None
  {
    assert u in Split(data) && p in Split(data);
    assert IsSpace('\n');
    CommaRecordBreaksLoad(s.usersFile, u, p);
  }
}
