/** The Socket.IO handlers and the state they share: the two tables, the
    `sid_to_user` map and the room memberships made by `join_room`. */
module Server {
  import opened Wrappers
  import opened Text
  import opened Passwords
  import opened Tables
  import opened Dialog
  import opened Events

  /** `(data or {}).get(key, "")` followed by `(value or "")`: a field that is
      missing, null or empty reads as the empty string. */
  function OrEmpty(field: Option<string>): string
  {
    if field.Some? then field.value else ""
  }

  /** The guard `me_id = sid_to_user.get(request.sid); if not me_id: ...`:
      a connection counts as logged in when it is bound to a non-zero id. */
  predicate LoggedIn(sessions: map<Sid, UserId>, sid: Sid)
  {
    sid in sessions && sessions[sid] != 0
  }

  /** Every connection is bound to the id of an existing user. */
  ghost predicate SessionsValid(sessions: map<Sid, UserId>, users: seq<User>)
  {
    forall sid :: sid in sessions ==> HasUser(users, sessions[sid])
  }

  /** Binding a connection to an existing user keeps the sessions valid,
      and so does a users table that only grows. */
  lemma BindValid(sessions: map<Sid, UserId>, users: seq<User>, users': seq<User>, sid: Sid, id: UserId)
    requires SessionsValid(sessions, users)
    requires forall id :: HasUser(users, id) ==> HasUser(users', id)
    requires HasUser(users', id)
    ensures SessionsValid(sessions[sid := id], users')
  {
  }

  /** The login condition of line 113, negated: the row has a non-empty
      stored hash and the password checks against it. */
  predicate PasswordAccepted(h: Hasher, u: User, password: string)
  {
    u.password.Some? && u.password.value != "" && h.check(u.password.value, password)
  }

  const RequiredError := "username & password required"
  const TooLongError := "username too long (<= 50)"
  const ExistsError := "username already exists"
  const InvalidLoginError := "invalid username or password"
  const NotLoggedInError := "not logged in"
  const UnknownPeerError := "user not found"
  const MissingFieldsError := "both 'to' and 'text' required"
  const UnknownRecipientError := "recipient not found"

  class ChatServer {
    const hasher: Hasher
    /** The `users` table, in primary-key order. */
    var users: seq<User>
    /** The `messages` table, in primary-key order. */
    var messages: seq<Message>
    /** `sid_to_user` */
    var sessions: map<Sid, UserId>
    /** Every (connection, room) pair a `join_room` call has made. */
    var joined: set<(Sid, Room)>

    ghost predicate Valid()
      reads this
    {
      && Sound(hasher)
      && UsersValid(users)
      && MessagesValid(messages, users)
      && SessionsValid(sessions, users)
    }

    /** A freshly started process over existing tables: nobody is connected. */
    constructor (h: Hasher, initialUsers: seq<User>, initialMessages: seq<Message>)
      requires Sound(h) && UsersValid(initialUsers) && MessagesValid(initialMessages, initialUsers)
      ensures Valid()
      ensures hasher == h
      ensures users == initialUsers && messages == initialMessages
      ensures sessions == map[] && joined == {}
    {
      hasher := h;
      users := initialUsers;
      messages := initialMessages;
      sessions := map[];
      joined := {};
    }

    /** `on_disconnect`: `sid_to_user.pop(request.sid, None)`. */
    method OnDisconnect(sid: Sid)
      requires Valid()
      modifies this
      ensures Valid()
      ensures sessions == old(sessions) - {sid}
      ensures users == old(users) && messages == old(messages) && joined == old(joined)
      ensures sid !in old(sessions) ==> unchanged(this)
    {
      assert sid !in sessions ==> sessions - {sid} == sessions;
      sessions := sessions - {sid};
    }

    /** `register_user` */
    method RegisterUser(sid: Sid, username: Option<string>, password: Option<string>, salt: Salt) returns (out: seq<Emit>)
      requires Valid()
      modifies this
      ensures Valid()
      ensures messages == old(messages)
      ensures var name := Normalize(OrEmpty(username)); var pw := Trim(OrEmpty(password));
        (name == [] || pw == []) ==>
          out == [ToCaller(RegisterError(RequiredError))] && unchanged(this)
      ensures var name := Normalize(OrEmpty(username)); var pw := Trim(OrEmpty(password));
        name != [] && pw != [] && |name| > MaxUsernameLength ==>
          out == [ToCaller(RegisterError(TooLongError))] && unchanged(this)
      ensures var name := Normalize(OrEmpty(username)); var pw := Trim(OrEmpty(password));
        name != [] && pw != [] && |name| <= MaxUsernameLength && FindByName(old(users), name).Some? ==>
          out == [ToCaller(RegisterError(ExistsError))] && unchanged(this)
      ensures var name := Normalize(OrEmpty(username)); var pw := Trim(OrEmpty(password));
        name != [] && pw != [] && |name| <= MaxUsernameLength && FindByName(old(users), name).None? ==>
          var id := NextUserId(old(users));
          && users == old(users) + [User(id, name, Some(hasher.hash(pw, salt)))]
          && sessions == old(sessions)[sid := id]
          && joined == old(joined) + {(sid, UserRoom(id))}
          && out == [ToCaller(RegisterOk(name, Usernames(old(users))))]
    {
      var name := Normalize(OrEmpty(username));
      var pw := Trim(OrEmpty(password));
      if name == [] || pw == [] {
        return [ToCaller(RegisterError(RequiredError))];
      }
      if |name| > MaxUsernameLength {
        return [ToCaller(RegisterError(TooLongError))];
      }
      if FindByName(users, name).Some? {
        return [ToCaller(RegisterError(ExistsError))];
      }
      var u := User(NextUserId(users), name, Some(hasher.hash(pw, salt)));
      ghost var before := users;
      InsertUserValid(users, u);
      MessagesValidMonotone(messages, users, users + [u]);
      BindValid(sessions, users, users + [u], sid, u.id);
      users := users + [u];
      sessions := sessions[sid := u.id];
      joined := joined + {(sid, UserRoom(u.id))};
      var others := Others(users, u.id);
      OthersAfterAppend(before, u);
      out := [ToCaller(RegisterOk(u.username, others))];
    }

    /** `login_user` */
    method LoginUser(sid: Sid, username: Option<string>, password: Option<string>) returns (out: seq<Emit>)
      requires Valid()
      modifies this
      ensures Valid()
      ensures users == old(users) && messages == old(messages)
      ensures var name := Normalize(OrEmpty(username)); var pw := Trim(OrEmpty(password));
        (name == [] || pw == []) ==>
          out == [ToCaller(LoginError(RequiredError))] && unchanged(this)
      ensures var name := Normalize(OrEmpty(username)); var pw := Trim(OrEmpty(password));
        name != [] && pw != [] && FindByName(old(users), name).None? ==>
          out == [ToCaller(LoginError(InvalidLoginError))] && unchanged(this)
      ensures var name := Normalize(OrEmpty(username)); var pw := Trim(OrEmpty(password));
        name != [] && pw != [] && FindByName(old(users), name).Some? &&
        !PasswordAccepted(hasher, FindByName(old(users), name).value, pw) ==>
          out == [ToCaller(LoginError(InvalidLoginError))] && unchanged(this)
      ensures var name := Normalize(OrEmpty(username)); var pw := Trim(OrEmpty(password));
        name != [] && pw != [] && FindByName(old(users), name).Some? &&
        PasswordAccepted(hasher, FindByName(old(users), name).value, pw) ==>
          var u := FindByName(old(users), name).value;
          && sessions == old(sessions)[sid := u.id]
          && joined == old(joined) + {(sid, UserRoom(u.id))}
          && out == [ToCaller(LoginOk(name, Others(old(users), u.id)))]
    {
      var name := Normalize(OrEmpty(username));
      var pw := Trim(OrEmpty(password));
      if name == [] || pw == [] {
        return [ToCaller(LoginError(RequiredError))];
      }
      var found := FindByName(users, name);
      if found.None? || found.value.password.None? || found.value.password.value == ""
         || !hasher.check(found.value.password.value, pw) {
        return [ToCaller(LoginError(InvalidLoginError))];
      }
      var user := found.value;
      BindValid(sessions, users, users, sid, user.id);
      sessions := sessions[sid := user.id];
      joined := joined + {(sid, UserRoom(user.id))};
      var others := Others(users, user.id);
      out := [ToCaller(LoginOk(user.username, others))];
    }

    /** `open_dialog`: reads the state and changes nothing. */
    method OpenDialog(sid: Sid, peer: Option<string>) returns (out: seq<Emit>)
      requires Valid()
      ensures !LoggedIn(sessions, sid) ==>
        out == [ToCaller(LoginError(NotLoggedInError))]
      ensures LoggedIn(sessions, sid) && FindByName(users, Normalize(OrEmpty(peer))).None? ==>
        out == [ToCaller(DialogError(UnknownPeerError))]
      ensures LoggedIn(sessions, sid) && FindByName(users, Normalize(OrEmpty(peer))).Some? ==>
        var other := FindByName(users, Normalize(OrEmpty(peer))).value;
        out == [ToCaller(History(other.username, DialogHistory(messages, sessions[sid], other.id)))]
    {
      if sid !in sessions || sessions[sid] == 0 {
        return [ToCaller(LoginError(NotLoggedInError))];
      }
      var meId := sessions[sid];
      var otherName := Normalize(OrEmpty(peer));
      var other := FindByName(users, otherName);
      if other.None? {
        return [ToCaller(DialogError(UnknownPeerError))];
      }
      var history := DialogHistory(messages, meId, other.value.id);
      out := [ToCaller(History(other.value.username, history))];
    }

    /** `chat_message` */
    method ChatMessage(sid: Sid, to: Option<string>, text: Option<string>, now: Timestamp) returns (out: seq<Emit>)
      requires Valid()
      modifies this
      ensures Valid()
      ensures users == old(users) && sessions == old(sessions) && joined == old(joined)
      ensures !LoggedIn(old(sessions), sid) ==>
        out == [ToCaller(LoginError(NotLoggedInError))] && unchanged(this)
      ensures var clean := Trim(OrEmpty(text)); var toName := Normalize(OrEmpty(to));
        LoggedIn(old(sessions), sid) && (clean == [] || toName == []) ==>
          out == [ToCaller(SendError(MissingFieldsError))] && unchanged(this)
      ensures var clean := Trim(OrEmpty(text)); var toName := Normalize(OrEmpty(to));
        LoggedIn(old(sessions), sid) && clean != [] && toName != [] && FindByName(old(users), toName).None? ==>
          out == [ToCaller(SendError(UnknownRecipientError))] && unchanged(this)
      ensures var clean := Trim(OrEmpty(text)); var toName := Normalize(OrEmpty(to));
        LoggedIn(old(sessions), sid) && clean != [] && toName != [] && FindByName(old(users), toName).Some? ==>
          var me := FindById(old(users), old(sessions)[sid]);
          var you := FindByName(old(users), toName).value;
          && me.Some?
          && messages == old(messages) + [Message(NextMessageId(old(messages)), me.value.id, you.id, clean, now)]
          && out == ChatFanout(me.value.id, you.id, ChatPayload(me.value.username, you.username, clean, now))
    {
      if sid !in sessions || sessions[sid] == 0 {
        return [ToCaller(LoginError(NotLoggedInError))];
      }
      var meId := sessions[sid];
      var clean := Trim(OrEmpty(text));
      var toName := Normalize(OrEmpty(to));
      if clean == [] || toName == [] {
        return [ToCaller(SendError(MissingFieldsError))];
      }
      var me := FindById(users, meId);
      var you := FindByName(users, toName);
      if you.None? {
        return [ToCaller(SendError(UnknownRecipientError))];
      }
      assert me.Some?;
      var msg := Message(NextMessageId(messages), me.value.id, you.value.id, clean, now);
      InsertMessageValid(messages, users, msg);
      messages := messages + [msg];
      var payload := ChatPayload(me.value.username, you.value.username, clean, now);
      out := [ToRoom(UserRoom(me.value.id), Chat(payload)), ToRoom(UserRoom(you.value.id), Chat(payload))];
    }
  }
}
