# IM-Platform chat server: the command engine, verified

This project models the core of a small chat server (`server.py`). Clients connect over
TCP and send one-line commands:

- `REGISTER u p` records a user;
- `LOGIN u p` marks a user online and announces it to the others;
- `LIST_ONLINE` returns the online names;
- `SEND r words...` relays a message to an online user;
- `LOGOUT` ends the session.

Registrations are appended to a credential file `users.txt` as `u,p` lines. At start-up
`load_users` reads them back.

The model turns the per-connection handler `handle_client` into a sequential state machine.
The shared state is:

- the `users` dictionary;
- the online registry `online_clients`, an insertion-ordered list of (name, connection);
- what the server has sent on every socket (one outbox per connection);
- every handler's local `username`;
- where every connection is in its life: loop running, loop ended, or socket closed;
- the content of the credential file.

There are three events: a connection arrives, one received chunk is processed (one loop
iteration), and the `finally` cleanup runs.

The model has two layers.

- **Functions.** `Chat.OnReceive`, `Chat.OnClose` and the per-command functions are the
  specification. All properties are lemmas about them.
- **Class.** `Chat.Server` holds the same state in fields and updates it in place. Each
  method (`Receive`, `Close`, `Broadcast` with its loop, the command handlers) is proved to
  produce exactly the state the functions describe.

Likewise, `Credentials.LoadUsers` is the line-by-line loop of `load_users`, proved equal to
the function `Credentials.Load`.

Python's string operations are written out with Python's semantics:

- `str.split()` and `str.strip()` use the `str.isspace()` character set;
- `split(',')` keeps empty pieces;
- iterating over a file yields lines that keep their newline.

The model keeps the server's quirks rather than repairing them:

- **The session name.** The handler's `username` is overwritten by every two-argument
  REGISTER or LOGIN, even a failed one. SEND then accepts messages under that name, and the
  cleanup removes and announces whatever name it holds. That name may belong to another
  connection's login, while this connection's own earlier login stays in the registry with
  a closed socket (`ChatProperties.CloseEvictsAnotherConnection`,
  `ChatProperties.CloseLeavesStaleEntry`).
- **SEND to a closed socket.** `broadcast` swallows send errors. The direct send of SEND is
  not guarded, so an error there reaches the handler's bare `except` and ends the *sender's*
  loop (`ChatProperties.SendToStaleEntryEndsSender`).
- **Commas in credentials.** A name or password containing a comma registers successfully.
  However, its line cannot be parsed again, and because `load_users` catches only
  `FileNotFoundError`, every later start-up fails
  (`ChatProperties.CommaRegistrationBreaksRestart`).
- **A last line without its newline.** `load_users` accepts a file whose last record lacks
  the newline, but the next record `save_user` appends is glued onto that line. The merged
  line holds two commas, so again every later start-up fails
  (`ChatProperties.UnterminatedFileBreaksRestart`).

In three places the code does less than its own docstrings and comments suggest. The model
follows the code.

- The SEND docstring (server.py:172) speaks of extracting "the message", but the body is
  not passed through verbatim. It is rebuilt from the `split()` tokens, so runs of
  whitespace collapse to single spaces.
- The SEND docstring (server.py:170) refuses a user who "is not logged in", but the check
  only asks whether the session name is set. It is not a check that this connection
  logged in.
- The cleanup comment (server.py:203) promises the cleanup "when a client disconnects",
  but it acts only on the session name. An earlier successful login of the same
  connection can be left behind.

## Model

| member | source | states |
|---|---|---|
| Text.Split | server.py:118 | every token `split()` yields is non-empty and free of whitespace |
| Text.SplitEmptyIff | server.py:118 | `split()` yields no token exactly when the data is whitespace only, which is when `command, *args = ...` raises |
| Text.SplitJoin | server.py:182 | re-tokenising `' '.join(words)` gives back the words, for any list of tokens |
| Text.SplitOn | server.py:64 | `split(',')` yields one more piece than there are commas, and no piece holds a comma |
| Text.JoinSplitOn | server.py:64 | `','.join(s.split(','))` is `s`: splitting on a character loses nothing |
| Text.TrimLeft | server.py:64 | the result of `lstrip()` does not start with whitespace |
| Text.TrimRight | server.py:64 | the result of `rstrip()` does not end with whitespace |
| Text.TrimLeftKeeps | server.py:64 | stripping the left end never removes a non-whitespace character (such as the comma) |
| Text.TrimRightKeeps | server.py:64 | stripping the right end never removes a non-whitespace character |
| Text.TrimLeftDropsSpace | server.py:64 | `lstrip()` removes a leading run of whitespace only: the result is a suffix of the input and what goes is all whitespace |
| Text.TrimRightDropsSpace | server.py:64 | `rstrip()` removes a trailing run of whitespace only: the result is a prefix of the input and what goes is all whitespace |
| Text.Strip | server.py:64 | `strip()`; what it removes is stated by `TrimLeftDropsSpace`, `TrimRightDropsSpace` and `StripRecord` |
| Text.Join | server.py:182 | `sep.join(words)`; `SplitJoin` and `JoinSplitOn` state its round trips |
| Credentials.ParseLine | server.py:64 | a line parses exactly when its stripped text holds one comma; the two parts hold no comma and rebuild the stripped line |
| Credentials.LineEnd | server.py:61 | a line read from the file ends just after the first newline, or at the end of the text |
| Credentials.LoadUsers | server.py:54-68 | the loop over the file's lines yields the dictionary `Load` specifies: no file gives no users, a later record for a name wins, and one unparsable line fails the load |
| Credentials.NoRecovery | server.py:61-66 | once a line fails to parse, the whole load fails |
| Credentials.StripRecord | server.py:64 | stripping the saved line `u,p\n` loses exactly the name's leading and the password's trailing whitespace |
| Credentials.ParseFormatLine | server.py:79 | parsing the saved line `u,p\n` fails when u or p holds a comma, and otherwise gives u without leading and p without trailing whitespace |
| Credentials.RecordRoundTrip | server.py:64 | the `load_users` line parser turns the line `save_user` writes back into the saved pair if and only if neither part holds a comma, u does not start and p does not end with whitespace (whether the line is one line of the file is `RecordIsOneLine`) |
| Credentials.WordRecordRoundTrip | server.py:132 | a record made of two comma-free tokens reads back unchanged |
| Credentials.LinesAppend | server.py:77 | appending to a file that ends with a newline adds lines and leaves the earlier lines as they were |
| Credentials.RecordIsOneLine | server.py:79 | a record without a newline in it is read back as one line |
| Credentials.AppendRecordReloads | server.py:136-137 | when a newline-terminated file reloads to `users`, appending the record of two comma-free `split()` tokens u, p (non-empty, no whitespace) makes it reload to `users[u := p]` |
| Credentials.CommaRecordBreaksLoad | server.py:64 | once a record with a comma is appended, reloading the file fails |
| Credentials.FormatLine | server.py:79 | the line `save_user` writes; its parse is stated by `ParseFormatLine` and `RecordRoundTrip` |
| Credentials.Lines | server.py:61 | the lines `for line in file` yields; `LinesConcat` states that they lose nothing |
| Credentials.LinesConcat | server.py:61 | the lines put back together are the file |
| Credentials.LinesTerminated | server.py:61 | every line is non-empty and every line but the last ends with the newline |
| Credentials.LoadLines | server.py:61-66 | the loop body of `load_users` over a list of lines; its loop form is `LoadUsers` |
| Credentials.Load | server.py:54-68 | `load_users` on a missing or present file; `LoadUsers` computes it and `AppendRecordReloads` relates it to `save_user` |
| Credentials.FileText | server.py:77 | the credential text: a missing file is created empty by the first append |
| Credentials.LinesAppendUnterminated | server.py:77-79 | after a file whose last line lacks the newline, an appended line is read back glued onto that last line |
| Credentials.MergedLineFails | server.py:64 | a line that parsed no longer parses once more text with a comma is glued onto it |
| Credentials.UnterminatedFileBreaksOnAppend | server.py:61-79 | a file that loads but does not end with a newline no longer loads once any newline-free record is appended |
| Presence.Names | server.py:164 | the registry's names, in insertion order |
| Presence.Lookup | server.py:183-184 | finds a connection exactly when the name is online, and with distinct names it is that name's connection |
| Presence.Without | server.py:195 | `del online_clients[name]` keeps exactly the other entries |
| Presence.WithoutConcat | server.py:195 | deletion works entry by entry, so the kept entries stay in their order |
| Presence.WithoutDistinct | server.py:195 | deletion keeps names distinct, removes the name, shrinks the registry by one when it was present and changes nothing otherwise |
| Presence.AppendDistinct | server.py:158 | inserting an absent name keeps names distinct |
| Presence.Fanout | server.py:82-97 | the outboxes after `broadcast`: one slot per socket; the delivery is stated by `FanoutAt` and `FanoutExtends` |
| Presence.FanoutExtends | server.py:91-97 | a broadcast only appends to outboxes |
| Presence.FanoutClosedOnly | server.py:93-97 | who a broadcast reaches depends only on which sockets are closed |
| Presence.FanoutAt | server.py:91-97 | a broadcast appends to socket k the message once per reached entry of k, and nothing else |
| Presence.CopiesNone | server.py:92 | a socket none of whose entries is reached gets no copy |
| Presence.CopiesOne | server.py:92 | a socket with exactly one entry, which is reached, gets one copy |
| Presence.FanoutOnce | server.py:91-97 | a socket with one entry gets the message once if reached, otherwise nothing |
| Chat.Joined | server.py:159 | the join notice; `LoginAnnouncedOnce` states who receives it |
| Chat.Left | server.py:196 | the leave notice; `LogoutAnnouncesOnce` states who receives it |
| Chat.OnlineList | server.py:164-165 | the LIST_ONLINE reply; `ListOnlineOutcome` states it |
| Chat.ChatLine | server.py:182-184 | what SEND delivers; `SendOutcome` states that its body re-tokenises to the words sent |
| Chat.OnConnect | server.py:107 | a new connection with nothing sent and `username = None`; `Server.Connect` is proved to produce it |
| Chat.Depart | server.py:194-196 | the name is no longer online, the registry invariant holds, outboxes only grow, and users, sessions and phases are unchanged |
| Chat.RegisterCmd | server.py:129-138 | REGISTER keeps the state invariant, no stored password changes, only this session's name may change, and outboxes only grow |
| Chat.LoginCmd | server.py:149-160 | LOGIN keeps the invariant and leaves the users and the file untouched |
| Chat.ListOnlineCmd | server.py:162-165 | LIST_ONLINE keeps the invariant and leaves the users and the file untouched |
| Chat.SendCmd | server.py:176-186 | SEND keeps the invariant, leaves the users and the file untouched, and outboxes only grow |
| Chat.LogoutCmd | server.py:194-197 | LOGOUT keeps the invariant, ends the loop, leaves users and file untouched |
| Chat.OnReceive | server.py:114-200 | one loop iteration keeps the invariant, adds no connection, changes only this session's name, never takes output back or changes a password, and ends the loop exactly when it says so |
| Chat.OnClose | server.py:203-207 | the cleanup keeps the invariant, closes this socket and leaves users, file and sessions untouched |
| Chat.Server.constructor | server.py:229 | given users that `load_users` read from the file, the server starts with them, no connection and the file text |
| Chat.StartServer | server.py:229 | `load_users` then the server: start-up fails exactly when the file does not load, and otherwise the server holds the loaded users |
| Chat.Server.Connect | server.py:107 | a new connection gets a fresh socket with nothing sent and `username = None` |
| Chat.Server.Send | server.py:130 | `sock.send(m)` appends m to that socket's outbox |
| Chat.Server.Broadcast | server.py:82-97 | the loop over the registry leaves the outboxes that `Fanout` specifies |
| Chat.Server.SignOff | server.py:204-206 | the in-place removal and broadcast produce `Depart` |
| Chat.Server.HandleRegister | server.py:129-138 | produces the state `RegisterCmd` specifies |
| Chat.Server.HandleLogin | server.py:149-160 | produces the state `LoginCmd` specifies |
| Chat.Server.HandleSend | server.py:176-186 | produces the state and continuation `SendCmd` specifies |
| Chat.Server.Receive | server.py:111-200 | one loop iteration produces the state and continuation `OnReceive` specifies, and keeps the invariant |
| Chat.Server.Close | server.py:203-207 | the cleanup produces the state `OnClose` specifies, and keeps the invariant |
| ChatProperties.RegisterOutcome | server.py:129-138 | REGISTER u p names the session u; an absent u is stored, appended to the file and acknowledged; a present u changes nothing else and gets "Error: Username already exists." |
| ChatProperties.RejectedCommand | server.py:199-200 | wrong argument counts and unknown commands send one error line to the requester and change nothing else |
| ChatProperties.LoginOutcome | server.py:153-160 | LOGIN's three outcomes in order; on success u is appended and every socket gets the join notice once per other reached entry, before "Login successful." |
| ChatProperties.SameCopies | server.py:159 | excluding a name that is not online reaches the same sockets as excluding nobody |
| ChatProperties.LoginAnnouncedOnce | server.py:158-160 | every other online user with an open socket gets "u has joined the chat." exactly once; the newcomer gets only "Login successful." |
| ChatProperties.ListOnlineOutcome | server.py:164-165 | LIST_ONLINE replies with the online names in insertion order joined by ", " and changes nothing else |
| ChatProperties.SendOutcome | server.py:176-186 | SEND is refused before login, an offline recipient gives an error and no change, and an online open recipient alone gets "sender: body" whose body re-tokenises to the words sent |
| ChatProperties.LogoutAnnouncesOnce | server.py:194-197 | LOGOUT removes the name and broadcasts the leave notice to the remaining entries; the cleanup after it adds nothing |
| ChatProperties.LogoutWhenNotOnline | server.py:194-197 | LOGOUT without an online session name only ends the loop: no registry change, no leave notice |
| ChatProperties.CloseWhileActiveDepartsLikeLogout | server.py:201-207 | a failed read while the loop runs goes to the cleanup, which departs exactly as LOGOUT and the cleanup would |
| ChatProperties.CloseAfterLogoutIsQuiet | server.py:204-207 | after any LOGOUT the cleanup only closes the socket |
| ChatProperties.DisconnectDepartsLikeLogout | server.py:115-118 | an empty read or whitespace-only data ends the loop unchanged, and the cleanup then departs exactly as after LOGOUT |
| ChatProperties.SendAfterFailedLogin | server.py:152 | after a failed LOGIN u the session is named u and SEND delivers under that name |
| ChatProperties.FailedRegisterRenamesSession | server.py:132 | a refused REGISTER u still names the session u |
| ChatProperties.CloseEvictsAnotherConnection | server.py:204-206 | after LOGIN as a user online elsewhere, this connection's cleanup removes that user |
| ChatProperties.CloseLeavesStaleEntry | server.py:204-206 | after logging in as v and then attempting LOGIN u, the cleanup keeps v's entry for a closed socket |
| ChatProperties.SendToStaleEntryEndsSender | server.py:183-184 | SEND to a name whose socket is closed ends the sender's loop and changes nothing else |
| ChatProperties.SecondLoginRefused | server.py:155-156 | of two LOGIN u p on different connections the second never succeeds |
| ChatProperties.RegisterThenLogin | server.py:136-160 | REGISTER u p then LOGIN u p logs u in |
| ChatProperties.RegisterTwiceKeepsPassword | server.py:133-134 | a second REGISTER of a name is refused and the first password stays |
| ChatProperties.StartInSync | server.py:229 | after start-up from the users `load_users` read, file and dictionary are in agreement exactly when the file ends at a line boundary |
| ChatProperties.UnterminatedFileBreaksRestart | server.py:136-137 | from a file that loads but lacks its final newline, the first successful REGISTER leaves a file that no longer loads |
| ChatProperties.ReceiveKeepsFileInSync | server.py:136-137 | every command whose tokens hold no comma keeps file and dictionary in agreement |
| ChatProperties.RegisterKeepsFileInSync | server.py:136-137 | REGISTER with comma-free tokens keeps file and dictionary in agreement |
| ChatProperties.CommaRegistrationBreaksRestart | server.py:136-137 | a comma in a registered name or password is accepted, but the file can no longer be loaded |

## Left out

- Sockets, `bind`/`listen`/`accept`, thread start and SIGINT shutdown (`server.py:209-244`)
  are transport. A connection is a number, and `Connect` stands for one accept.
- Threads interleave only between whole events. One received chunk is processed
  atomically, so races on the shared dictionaries inside a command are not modelled.
- File I/O is left to the caller. The credential file is a string in the state, and
  `LoadUsers` takes its content, or None when the file is missing. Text-mode newline
  translation and write errors in `save_user` are not modelled.
- `recv(1024)` and UTF-8 decoding are left out. `data` is the decoded chunk, so framing and
  decode errors are not modelled.
- Only one kind of send failure is modelled: a send to a socket this server has already
  closed. A send to a live socket always succeeds. Peer resets, which would raise in the
  requester's own replies, are not modelled.
- `client.py` is not part of this model. It is a terminal loop with no server logic.
- Chat.SendCmd: says nothing about who receives what. Delivery is stated by
  `ChatProperties.SendOutcome` and `ChatProperties.SendToStaleEntryEndsSender`.
- Chat.OnReceive: states the invariant and frame of one iteration. Each command's reply and
  change are stated by the `ChatProperties` lemmas.
