/** The optional value used for nullable columns and for lookups that may
    find nothing. */
module Wrappers {
  datatype Option<T> = None | Some(value: T)
}

/** Password hashing, kept opaque: a hash function that takes the random salt
    as an argument, and the matching check. The only facts the model relies
    on are that a password checks against its own hash and that a hash is
    never the empty string (a stored hash is one text such as
    "method$salt$digest"). */
module Passwords {
  type Digest = string
  type Salt = string

  datatype Hasher = Hasher(hash: (string, Salt) -> Digest, check: (Digest, string) -> bool)

  ghost predicate Sound(h: Hasher)
  {
    forall p, s :: h.hash(p, s) != "" && h.check(h.hash(p, s), p)
  }
}

/** The two database tables, users and messages, as sequences in primary-key
    order, and the queries the handlers run against them. */
module Tables {
  import opened Wrappers
  import Passwords

  type UserId = nat
  type MessageId = nat
  /** The store's clock value at insert time; its ISO-8601 rendering is not modelled. */
  type Timestamp = nat

  /** A row of `users`; `password` is NULL for legacy rows. */
  datatype User = User(id: UserId, username: string, password: Option<Passwords.Digest>)

  /** A row of `messages`. */
  datatype Message = Message(id: MessageId, sender: UserId, receiver: UserId, text: string, createdAt: Timestamp)

  /** The longest username the `username` column and the register handler accept. */
  const MaxUsernameLength := 50

  ghost predicate UserIdsIncreasing(users: seq<User>)
  {
    forall i, j :: 0 <= i < j < |users| ==> users[i].id < users[j].id
  }

  ghost predicate UniqueUsernames(users: seq<User>)
  {
    forall i, j :: 0 <= i < j < |users| ==> users[i].username != users[j].username
  }

  /** The users table: positive primary keys in ascending order, and the
      UNIQUE constraint on `username`. */
  ghost predicate UsersValid(users: seq<User>)
  {
    && (forall i :: 0 <= i < |users| ==> users[i].id >= 1)
    && UserIdsIncreasing(users)
    && UniqueUsernames(users)
  }

  ghost predicate HasUser(users: seq<User>, id: UserId)
  {
    exists i :: 0 <= i < |users| && users[i].id == id
  }

  ghost predicate MessageIdsIncreasing(msgs: seq<Message>)
  {
    forall i, j :: 0 <= i < j < |msgs| ==> msgs[i].id < msgs[j].id
  }

  /** The messages table: positive, ascending primary keys, and sender and
      receiver are foreign keys into users. */
  ghost predicate MessagesValid(msgs: seq<Message>, users: seq<User>)
  {
    && (forall i :: 0 <= i < |msgs| ==> msgs[i].id >= 1)
    && MessageIdsIncreasing(msgs)
    && (forall i :: 0 <= i < |msgs| ==> HasUser(users, msgs[i].sender) && HasUser(users, msgs[i].receiver))
  }

  /** `User.query.filter_by(username=name).first()` */
  function FindByName(users: seq<User>, name: string): (r: Option<User>)
    ensures r.Some? ==> r.value in users && r.value.username == name
    ensures r.None? <==> forall i :: 0 <= i < |users| ==> users[i].username != name
  {
    if |users| == 0 then None
    else if users[0].username == name then Some(users[0])
    else FindByName(users[1..], name)
  }

  /** `User.query.get(id)` */
  function FindById(users: seq<User>, id: UserId): (r: Option<User>)
    ensures r.Some? ==> r.value in users && r.value.id == id
    ensures r.None? <==> !HasUser(users, id)
  {
    if |users| == 0 then None
    else if users[0].id == id then Some(users[0])
    else
      var r := FindById(users[1..], id);
      assert r.None? ==> forall i :: 1 <= i < |users| ==> users[i].id != id by {
        if r.None? {
          forall i | 1 <= i < |users| ensures users[i].id != id {
            assert users[i] == users[1..][i - 1];
          }
        }
      }
      r
  }

  /** Under the UNIQUE constraint the lookup finds the one row with that name. */
  lemma FindByNameUnique(users: seq<User>, i: nat)
    requires UniqueUsernames(users) && i < |users|
    ensures FindByName(users, users[i].username) == Some(users[i])
  {
    var r := FindByName(users, users[i].username);
    var k :| 0 <= k < |users| && users[k] == r.value;
    assert !(k < i) && !(i < k);
  }

  /** Under ascending primary keys the lookup finds the one row with that id. */
  lemma FindByIdUnique(users: seq<User>, i: nat)
    requires UserIdsIncreasing(users) && i < |users|
    ensures FindById(users, users[i].id) == Some(users[i])
  {
    var r := FindById(users, users[i].id);
    var k :| 0 <= k < |users| && users[k] == r.value;
    assert !(k < i) && !(i < k);
  }

  /** The usernames of a users table, in table order. */
  function Usernames(users: seq<User>): seq<string>
  {
    if |users| == 0 then [] else Usernames(users[..|users| - 1]) + [users[|users| - 1].username]
  }

  /** The i-th name of the list is the name of the i-th row. */
  lemma {:induction false} UsernamesAt(users: seq<User>)
    ensures |Usernames(users)| == |users|
    ensures forall i :: 0 <= i < |users| ==> Usernames(users)[i] == users[i].username
  {
    if |users| > 0 {
      UsernamesAt(users[..|users| - 1]);
    }
  }

  /** `[x.username for x in User.query.filter(User.id != id).all()]`: the roster. */
  function Others(users: seq<User>, id: UserId): (r: seq<string>)
    ensures |r| <= |users|
  {
    if |users| == 0 then []
    else
      var last := users[|users| - 1];
      Others(users[..|users| - 1], id) + (if last.id != id then [last.username] else [])
  }

  /** The roster holds exactly the names of the rows whose id differs. */
  lemma {:induction false} OthersMembers(users: seq<User>, id: UserId)
    ensures forall x :: x in Others(users, id) <==> exists i :: 0 <= i < |users| && users[i].id != id && users[i].username == x
  {
    if |users| > 0 {
      var front := users[..|users| - 1];
      OthersMembers(front, id);
      assert forall i :: 0 <= i < |front| ==> front[i] == users[i];
    }
  }

  /** A roster taken for an id no row has is the whole list of usernames. */
  lemma {:induction false} OthersOfAbsentId(users: seq<User>, id: UserId)
    requires forall i :: 0 <= i < |users| ==> users[i].id != id
    ensures Others(users, id) == Usernames(users)
  {
    if |users| > 0 {
      OthersOfAbsentId(users[..|users| - 1], id);
    }
  }

  /** The roster built right after a row is appended, excluding that row,
      lists every username that was there before, in table order. */
  lemma OthersAfterAppend(users: seq<User>, u: User)
    requires forall i :: 0 <= i < |users| ==> users[i].id != u.id
    ensures Others(users + [u], u.id) == Usernames(users)
  {
    assert (users + [u])[..|users|] == users;
    OthersOfAbsentId(users, u.id);
  }

  /** Under the UNIQUE constraint a user's own name is not in their roster,
      and every other user's name is. */
  lemma OwnNameNotInOthers(users: seq<User>, i: nat)
    requires UsersValid(users) && i < |users|
    ensures users[i].username !in Others(users, users[i].id)
    ensures forall j :: 0 <= j < |users| && j != i ==> users[j].username in Others(users, users[i].id)
  {
    OthersMembers(users, users[i].id);
    forall j | 0 <= j < |users| && j != i ensures users[j].id != users[i].id {
    }
  }

  /** The id the store gives the next inserted user: one more than the
      largest id so far, and 1 for an empty table. */
  function NextUserId(users: seq<User>): (r: UserId)
    requires UserIdsIncreasing(users)
    ensures r >= 1
    ensures forall i :: 0 <= i < |users| ==> users[i].id < r
  {
    if |users| == 0 then 1 else users[|users| - 1].id + 1
  }

  /** The id the store gives the next inserted message. */
  function NextMessageId(msgs: seq<Message>): (r: MessageId)
    requires MessageIdsIncreasing(msgs)
    ensures r >= 1
    ensures forall i :: 0 <= i < |msgs| ==> msgs[i].id < r
  {
    if |msgs| == 0 then 1 else msgs[|msgs| - 1].id + 1
  }

  /** Inserting a row with the next id and a name not yet taken keeps the
      users table valid, and keeps every id that was there. */
  lemma InsertUserValid(users: seq<User>, u: User)
    requires UsersValid(users)
    requires u.id == NextUserId(users) && FindByName(users, u.username).None?
    ensures UsersValid(users + [u])
    ensures HasUser(users + [u], u.id)
    ensures forall id :: HasUser(users, id) ==> HasUser(users + [u], id)
  {
    var us := users + [u];
    assert us[|users|] == u;
    forall id | HasUser(users, id) ensures HasUser(us, id) {
      var i :| 0 <= i < |users| && users[i].id == id;
      assert us[i] == users[i];
    }
  }

  /** The messages table stays valid when the users table grows. */
  lemma MessagesValidMonotone(msgs: seq<Message>, users: seq<User>, users': seq<User>)
    requires MessagesValid(msgs, users)
    requires forall id :: HasUser(users, id) ==> HasUser(users', id)
    ensures MessagesValid(msgs, users')
  {
  }

  /** Inserting a message with the next id between existing users keeps the
      messages table valid. */
  lemma InsertMessageValid(msgs: seq<Message>, users: seq<User>, m: Message)
    requires MessagesValid(msgs, users)
    requires m.id == NextMessageId(msgs) && HasUser(users, m.sender) && HasUser(users, m.receiver)
    ensures MessagesValid(msgs + [m], users)
  {
    var ms := msgs + [m];
    assert ms[|msgs|] == m;
    assert forall i :: 0 <= i < |msgs| ==> ms[i] == msgs[i];
  }
}
