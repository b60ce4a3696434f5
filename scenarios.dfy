/** Runs of several handlers against one server, and what they guarantee
    together. */
module Scenarios {
  import opened Wrappers
  import opened Text
  import opened Passwords
  import opened Tables
  import opened Dialog
  import opened Events
  import opened Server

  /** After `disconnect`, `open_dialog` and `chat_message` on that connection
      answer "not logged in" and change nothing. */
  method DisconnectThenRequests(s: ChatServer, sid: Sid, peer: Option<string>, to: Option<string>,
                                text: Option<string>, now: Timestamp)
    returns (dialog: seq<Emit>, send: seq<Emit>)
    requires s.Valid()
    modifies s
    ensures s.Valid()
    ensures dialog == [ToCaller(LoginError(NotLoggedInError))]
    ensures send == [ToCaller(LoginError(NotLoggedInError))]
    ensures s.sessions == old(s.sessions) - {sid}
    ensures s.users == old(s.users) && s.messages == old(s.messages) && s.joined == old(s.joined)
  {
    s.OnDisconnect(sid);
    dialog := s.OpenDialog(sid, peer);
    send := s.ChatMessage(sid, to, text, now);
  }

  /** A registration that succeeds, followed by a login on any connection
      with credentials that normalise to the same name and password (for
      instance " Ahmed " and then "ahmed"): the login answers with the same
      `me` and the same roster as the registration, and both connections
      end up bound to the new row. */
  method RegisterThenLogin(s: ChatServer, sid1: Sid, sid2: Sid, username: Option<string>, password: Option<string>,
                           username2: Option<string>, password2: Option<string>, salt: Salt)
    returns (reg: seq<Emit>, login: seq<Emit>)
    requires s.Valid()
    requires Normalize(OrEmpty(username)) != [] && |Normalize(OrEmpty(username))| <= MaxUsernameLength
    requires FindByName(s.users, Normalize(OrEmpty(username))).None?
    requires Trim(OrEmpty(password)) != []
    requires Normalize(OrEmpty(username2)) == Normalize(OrEmpty(username))
    requires Trim(OrEmpty(password2)) == Trim(OrEmpty(password))
    modifies s
    ensures s.Valid()
    ensures reg == [ToCaller(RegisterOk(Normalize(OrEmpty(username)), Usernames(old(s.users))))]
    ensures login == [ToCaller(LoginOk(Normalize(OrEmpty(username)), Usernames(old(s.users))))]
    ensures s.sessions == old(s.sessions)[sid1 := NextUserId(old(s.users))][sid2 := NextUserId(old(s.users))]
  {
    ghost var before := s.users;
    reg := s.RegisterUser(sid1, username, password, salt);
    LoginAfterRegister(s.hasher, before, s.users[|before|], Trim(OrEmpty(password)), salt);
    login := s.LoginUser(sid2, username2, password2);
  }

  /** The row a registration appends is what a later login finds, its hash
      accepts the password, and the roster seen from it is the table before
      the registration. */
  lemma LoginAfterRegister(h: Hasher, before: seq<User>, u: User, pw: string, salt: Salt)
    requires Sound(h) && UsersValid(before + [u])
    requires u.password == Some(h.hash(pw, salt))
    ensures FindByName(before + [u], u.username) == Some(u)
    ensures PasswordAccepted(h, u, pw)
    ensures Others(before + [u], u.id) == Usernames(before)
  {
    var users := before + [u];
    assert users[|before|] == u;
    FindByNameUnique(users, |before|);
    forall i | 0 <= i < |before| ensures before[i].id != u.id {
      assert users[i] == before[i];
    }
    OthersAfterAppend(before, u);
  }

  /** Two registrations whose names normalise to the same string: the second
      is refused as a duplicate, and the table keeps exactly one row with
      that name. */
  method DuplicateRegistration(s: ChatServer, sid1: Sid, sid2: Sid, name1: Option<string>, name2: Option<string>,
                               pw1: Option<string>, pw2: Option<string>, salt1: Salt, salt2: Salt)
    returns (first: seq<Emit>, second: seq<Emit>)
    requires s.Valid()
    requires Normalize(OrEmpty(name1)) == Normalize(OrEmpty(name2))
    requires Trim(OrEmpty(pw2)) != []
    modifies s
    ensures s.Valid()
    ensures |first| == 1
    ensures first[0].event.RegisterOk? ==>
              && second == [ToCaller(RegisterError(ExistsError))]
              && |s.users| == |old(s.users)| + 1
              && s.users[|old(s.users)|].username == Normalize(OrEmpty(name1))
              && forall i :: 0 <= i < |s.users| && s.users[i].username == Normalize(OrEmpty(name1)) ==> i == |old(s.users)|
  {
    first := s.RegisterUser(sid1, name1, pw1, salt1);
    ghost var afterFirst := s.users;
    second := s.RegisterUser(sid2, name2, pw2, salt2);
    if first[0].event.RegisterOk? {
      assert afterFirst[|afterFirst| - 1].username == Normalize(OrEmpty(name2));
    }
  }

  /** A message that is sent successfully is the newest entry of the
      sender's next `history` with that recipient, tagged "me", as long as
      the dialog held fewer than HistoryLimit messages; past that the
      history stays what it was. */
  method SendThenOpenDialog(s: ChatServer, sid: Sid, to: Option<string>, text: Option<string>, now: Timestamp)
    returns (sent: seq<Emit>, dialog: seq<Emit>)
    requires s.Valid()
    modifies s
    ensures s.Valid()
    ensures |sent| == 2 ==>
              && LoggedIn(s.sessions, sid)
              && FindByName(s.users, Normalize(OrEmpty(to))).Some?
              && var me := s.sessions[sid];
                 var you := FindByName(s.users, Normalize(OrEmpty(to))).value;
                 var earlier := DialogHistory(old(s.messages), me, you.id);
                 dialog == [ToCaller(History(you.username,
                   if |Between(old(s.messages), me, you.id)| < HistoryLimit
                   then earlier + [Entry(Me, Trim(OrEmpty(text)), now)]
                   else earlier))]
  {
    ghost var log := s.messages;
    sent := s.ChatMessage(sid, to, text, now);
    dialog := s.OpenDialog(sid, to);
    if |sent| == 2 {
      var me := s.sessions[sid];
      var you := FindByName(s.users, Normalize(OrEmpty(to))).value;
      var m := s.messages[|log|];
      assert s.messages == log + [m];
      assert m.sender == me && m.receiver == you.id;
      AppendThenHistory(log, m, me, you.id);
    }
  }

  /** A log holding one message between two users gives each of them a
      one-entry history. */
  lemma DialogOfOne(m: Message, me: UserId, other: UserId)
    requires InDialog(m, me, other)
    ensures DialogHistory([m], me, other) == [Tag(m, me)]
  {
    assert [] + [m] == [m];
    assert Between([], me, other) == [];
    AppendThenHistory([], m, me, other);
  }

  /** A name the register handler accepts and stores unchanged: not empty,
      not too long, no whitespace at its ends and no upper-case letter. */
  predicate NormalName(name: string)
  {
    && name != [] && |name| <= MaxUsernameLength && Stripped(name)
    && forall i :: 0 <= i < |name| ==> !('A' <= name[i] <= 'Z')
  }

  /** A password or a message text that the handlers use unchanged. */
  predicate NonEmptyStripped(pw: string)
  {
    pw != [] && Stripped(pw)
  }

  /** Registration of a name in normal form that is not taken yet, with a
      password that needs no stripping: the row is appended and the
      connection is bound to it and joins its room. */
  method RegisterNew(s: ChatServer, sid: Sid, name: string, pw: string, salt: Salt) returns (out: seq<Emit>)
    requires s.Valid()
    requires NormalName(name) && NonEmptyStripped(pw) && FindByName(s.users, name).None?
    modifies s
    ensures s.Valid()
    ensures s.users == old(s.users) + [User(NextUserId(old(s.users)), name, Some(s.hasher.hash(pw, salt)))]
    ensures s.messages == old(s.messages)
    ensures s.sessions == old(s.sessions)[sid := NextUserId(old(s.users))]
    ensures s.joined == old(s.joined) + {(sid, UserRoom(NextUserId(old(s.users))))}
    ensures out == [ToCaller(RegisterOk(name, Usernames(old(s.users))))]
  {
    NormalizeNormal(name);
    TrimStripped(pw);
    out := s.RegisterUser(sid, Some(name), Some(pw), salt);
  }

  /** A fresh server on an empty database where user a has registered. */
  method OneUser(h: Hasher, a: string, pw: string, sid: Sid, salt: Salt) returns (s: ChatServer)
    requires Sound(h) && NormalName(a) && NonEmptyStripped(pw)
    ensures fresh(s) && s.Valid() && s.hasher == h
    ensures s.users == [User(1, a, Some(h.hash(pw, salt)))]
    ensures s.messages == []
    ensures s.sessions == map[sid := 1]
    ensures s.joined == {(sid, UserRoom(1))}
  {
    s := new ChatServer(h, [], []);
    var r := RegisterNew(s, sid, a, pw, salt);
  }

  /** A fresh server on an empty database where user a and then user b
      have registered, each on a connection of their own. */
  method TwoUsers(h: Hasher, a: string, b: string, pwA: string, pwB: string, sidA: Sid, sidB: Sid,
                  saltA: Salt, saltB: Salt)
    returns (s: ChatServer)
    requires Sound(h)
    requires NormalName(a) && NormalName(b) && a != b
    requires NonEmptyStripped(pwA) && NonEmptyStripped(pwB)
    requires sidA != sidB
    ensures fresh(s) && s.Valid() && s.hasher == h
    ensures s.users == [User(1, a, Some(h.hash(pwA, saltA))), User(2, b, Some(h.hash(pwB, saltB)))]
    ensures s.messages == []
    ensures s.sessions == map[sidA := 1, sidB := 2]
    ensures s.joined == {(sidA, UserRoom(1)), (sidB, UserRoom(2))}
  {
    s := OneUser(h, a, pwA, sidA, saltA);
    var rb := RegisterNew(s, sidB, b, pwB, saltB);
  }

  /** A message with a stripped, non-empty text from a logged-in connection
      to a user that exists, addressed by a name in normal form: the row is
      appended and the payload goes to both users' rooms. */
  method SendToKnown(s: ChatServer, sid: Sid, to: string, text: string, now: Timestamp) returns (out: seq<Emit>)
    requires s.Valid()
    requires LoggedIn(s.sessions, sid) && NormalName(to) && FindByName(s.users, to).Some?
    requires NonEmptyStripped(text)
    modifies s
    ensures s.Valid()
    ensures s.users == old(s.users) && s.sessions == old(s.sessions) && s.joined == old(s.joined)
    ensures FindById(s.users, s.sessions[sid]).Some?
    ensures var me := FindById(s.users, s.sessions[sid]).value;
            var you := FindByName(s.users, to).value;
            && s.messages == old(s.messages) + [Message(NextMessageId(old(s.messages)), me.id, you.id, text, now)]
            && out == ChatFanout(me.id, you.id, ChatPayload(me.username, you.username, text, now))
  {
    NormalizeNormal(to);
    TrimStripped(text);
    out := s.ChatMessage(sid, Some(to), Some(text), now);
  }

  /** Two connections, each in the room of its own user: a chat from the
      first user to the second reaches each connection once. */
  lemma TwoRoomsDeliveries(sidA: Sid, sidB: Sid, p: ChatPayload)
    requires sidA != sidB
    ensures Deliveries({(sidA, UserRoom(1)), (sidB, UserRoom(2))}, sidA, ChatFanout(1, 2, p), sidA) == [Chat(p)]
    ensures Deliveries({(sidA, UserRoom(1)), (sidB, UserRoom(2))}, sidA, ChatFanout(1, 2, p), sidB) == [Chat(p)]
  {
    var joined := {(sidA, UserRoom(1)), (sidB, UserRoom(2))};
    ChatFanoutDeliveries(joined, sidA, 1, 2, p, sidA);
    ChatFanoutDeliveries(joined, sidA, 1, 2, p, sidB);
  }

  /** Opening the dialog from a logged-in connection with a user that
      exists, addressed by a name in normal form, answers with that user's
      name and the history between the two. */
  method DialogWithKnown(s: ChatServer, sid: Sid, peer: string) returns (out: seq<Emit>)
    requires s.Valid()
    requires LoggedIn(s.sessions, sid) && NormalName(peer) && FindByName(s.users, peer).Some?
    ensures out == [ToCaller(History(peer, DialogHistory(s.messages, s.sessions[sid], FindByName(s.users, peer).value.id)))]
  {
    NormalizeNormal(peer);
    out := s.OpenDialog(sid, Some(peer));
  }

  /** User a, fresh on an empty database next to user b, writes the first
      message: it is stored as message 1 from user 1 to user 2, and the
      payload goes to both rooms. */
  method FirstMessage(h: Hasher, a: string, b: string, pwA: string, pwB: string, sidA: Sid, sidB: Sid,
                      saltA: Salt, saltB: Salt, text: string, now: Timestamp)
    returns (s: ChatServer, fanout: seq<Emit>)
    requires Sound(h)
    requires NormalName(a) && NormalName(b) && a != b
    requires NonEmptyStripped(pwA) && NonEmptyStripped(pwB)
    requires sidA != sidB
    requires NonEmptyStripped(text)
    ensures fresh(s) && s.Valid()
    ensures s.users == [User(1, a, Some(h.hash(pwA, saltA))), User(2, b, Some(h.hash(pwB, saltB)))]
    ensures s.messages == [Message(1, 1, 2, text, now)]
    ensures s.sessions == map[sidA := 1, sidB := 2]
    ensures s.joined == {(sidA, UserRoom(1)), (sidB, UserRoom(2))}
    ensures fanout == ChatFanout(1, 2, ChatPayload(a, b, text, now))
  {
    s := TwoUsers(h, a, b, pwA, pwB, sidA, sidB, saltA, saltB);
    assert FindByName(s.users, b) == Some(s.users[1]);
    fanout := SendToKnown(s, sidA, b, text, now);
  }

  /** The exchange of two fresh users on an empty database (for instance
      ahmed writing "hi" to mona): both connections receive the payload once,
      and the recipient's dialog with the sender holds the one message,
      tagged as coming from the other side. */
  method FirstExchange(h: Hasher, a: string, b: string, pwA: string, pwB: string, sidA: Sid, sidB: Sid,
                       saltA: Salt, saltB: Salt, text: string, now: Timestamp)
    returns (fanout: seq<Emit>, aReceives: seq<Event>, bReceives: seq<Event>, history: seq<Emit>)
    requires Sound(h)
    requires NormalName(a) && NormalName(b) && a != b
    requires NonEmptyStripped(pwA) && NonEmptyStripped(pwB)
    requires sidA != sidB
    requires NonEmptyStripped(text)
    ensures fanout == ChatFanout(1, 2, ChatPayload(a, b, text, now))
    ensures aReceives == [Chat(ChatPayload(a, b, text, now))]
    ensures bReceives == [Chat(ChatPayload(a, b, text, now))]
    ensures history == [ToCaller(History(a, [Entry(Them, text, now)]))]
  {
    var s;
    s, fanout := FirstMessage(h, a, b, pwA, pwB, sidA, sidB, saltA, saltB, text, now);
    aReceives := Deliveries(s.joined, sidA, fanout, sidA);
    bReceives := Deliveries(s.joined, sidA, fanout, sidB);
    TwoRoomsDeliveries(sidA, sidB, ChatPayload(a, b, text, now));
    assert FindByName(s.users, a) == Some(s.users[0]);
    DialogOfOne(s.messages[0], 2, 1);
    history := DialogWithKnown(s, sidB, a);
  }

  /** Login with a name in normal form and a password that needs no
      stripping, for a row whose stored hash accepts the password: the
      connection is rebound to that row and joins its room as well. */
  method LoginKnown(s: ChatServer, sid: Sid, name: string, pw: string) returns (out: seq<Emit>)
    requires s.Valid()
    requires NormalName(name) && NonEmptyStripped(pw)
    requires FindByName(s.users, name).Some? && PasswordAccepted(s.hasher, FindByName(s.users, name).value, pw)
    modifies s
    ensures s.Valid()
    ensures s.users == old(s.users) && s.messages == old(s.messages)
    ensures s.sessions == old(s.sessions)[sid := FindByName(s.users, name).value.id]
    ensures s.joined == old(s.joined) + {(sid, UserRoom(FindByName(s.users, name).value.id))}
    ensures out == [ToCaller(LoginOk(name, Others(s.users, FindByName(s.users, name).value.id)))]
  {
    NormalizeNormal(name);
    TrimStripped(pw);
    out := s.LoginUser(sid, Some(name), Some(pw));
  }

  /** Users a, b and c register, in that order, on three connections. */
  method ThreeUsers(h: Hasher, a: string, b: string, c: string, pw: string, sidA: Sid, sidB: Sid, sidC: Sid,
                    saltA: Salt, saltB: Salt, saltC: Salt)
    returns (s: ChatServer)
    requires Sound(h)
    requires NormalName(a) && NormalName(b) && NormalName(c) && a != b && b != c && a != c
    requires NonEmptyStripped(pw)
    requires sidA != sidB && sidA != sidC && sidB != sidC
    ensures fresh(s) && s.Valid() && s.hasher == h
    ensures s.users == [User(1, a, Some(h.hash(pw, saltA))), User(2, b, Some(h.hash(pw, saltB))),
                        User(3, c, Some(h.hash(pw, saltC)))]
    ensures s.sessions == map[sidA := 1, sidB := 2, sidC := 3]
    ensures s.joined == {(sidA, UserRoom(1)), (sidB, UserRoom(2)), (sidC, UserRoom(3))}
  {
    s := TwoUsers(h, a, b, pw, pw, sidA, sidB, saltA, saltB);
    var rc := RegisterNew(s, sidC, c, pw, saltC);
  }

  /** Users a, b and c register, in that order, on three connections; then
      the first connection logs in as b. */
  method ThreeUsersThenRelogin(h: Hasher, a: string, b: string, c: string, pw: string, sidA: Sid, sidB: Sid, sidC: Sid,
                               saltA: Salt, saltB: Salt, saltC: Salt)
    returns (s: ChatServer)
    requires Sound(h)
    requires NormalName(a) && NormalName(b) && NormalName(c) && a != b && b != c && a != c
    requires NonEmptyStripped(pw)
    requires sidA != sidB && sidA != sidC && sidB != sidC
    ensures fresh(s) && s.Valid()
    ensures s.users == [User(1, a, Some(h.hash(pw, saltA))), User(2, b, Some(h.hash(pw, saltB))),
                        User(3, c, Some(h.hash(pw, saltC)))]
    ensures sidA in s.sessions && s.sessions[sidA] == 2
    ensures sidC in s.sessions && s.sessions[sidC] == 3
    ensures s.joined == {(sidA, UserRoom(1)), (sidB, UserRoom(2)), (sidC, UserRoom(3)), (sidA, UserRoom(2))}
  {
    s := ThreeUsers(h, a, b, c, pw, sidA, sidB, sidC, saltA, saltB, saltC);
    FindByNameUnique(s.users, 1);
    var relog := LoginKnown(s, sidA, b, pw);
  }

  /** The room memberships after the relogin above: a chat from user 3 to
      user 1 reaches the first connection once, through the room of user 1
      it joined at registration. */
  lemma FirstRoomDeliveries(sidA: Sid, sidB: Sid, sidC: Sid, p: ChatPayload)
    requires sidA != sidC
    ensures Deliveries({(sidA, UserRoom(1)), (sidB, UserRoom(2)), (sidC, UserRoom(3)), (sidA, UserRoom(2))},
                       sidC, ChatFanout(3, 1, p), sidA) == [Chat(p)]
  {
    var joined := {(sidA, UserRoom(1)), (sidB, UserRoom(2)), (sidC, UserRoom(3)), (sidA, UserRoom(2))};
    ChatFanoutDeliveries(joined, sidC, 3, 1, p, sidA);
  }

  /** Logging in on a connection never leaves a room: a connection that
      registered as user a and then logged in as user b is bound to b, yet
      still receives what a third user c sends to a. */
  method RoomsOutliveRelogin(h: Hasher, a: string, b: string, c: string, pw: string, sidA: Sid, sidB: Sid, sidC: Sid,
                             saltA: Salt, saltB: Salt, saltC: Salt, text: string, now: Timestamp)
    returns (boundTo: UserId, received: seq<Event>)
    requires Sound(h)
    requires NormalName(a) && NormalName(b) && NormalName(c) && a != b && b != c && a != c
    requires NonEmptyStripped(pw)
    requires sidA != sidB && sidA != sidC && sidB != sidC
    requires NonEmptyStripped(text)
    ensures boundTo == 2
    ensures received == [Chat(ChatPayload(c, a, text, now))]
  {
    var s := ThreeUsersThenRelogin(h, a, b, c, pw, sidA, sidB, sidC, saltA, saltB, saltC);
    boundTo := s.sessions[sidA];
    assert FindByName(s.users, a) == Some(s.users[0]);
    assert FindById(s.users, 3) == Some(s.users[2]);
    var fanout := SendToKnown(s, sidC, a, text, now);
    received := Deliveries(s.joined, sidC, fanout, sidA);
    FirstRoomDeliveries(sidA, sidB, sidC, ChatPayload(c, a, text, now));
  }
}
