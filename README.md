# A verified model of the chat relay in `app.py`

`app.py` is a small real-time chat relay built on Flask, Socket.IO and
SQLAlchemy. Clients register or log in with a username and password. They
open a dialog with another user, which returns the history between the two.
They send text messages, which the server stores and pushes to both users.

This project models the sequential core of that server in Dafny:

- the two tables, `users` and `messages`;
- the in-memory `sid_to_user` map from connection id to user id;
- the room memberships that `join_room` creates, one room `user:<id>` per user;
- the five Socket.IO handlers `on_disconnect`, `register_user`, `login_user`,
  `open_dialog` and `chat_message`.

The handlers change state in place, so they are methods of the class
`Server.ChatServer`. Its fields are `users`, `messages`, `sessions` (the
`sid_to_user` map) and `joined` (every pair of connection and room that a
`join_room` call has made). Each handler takes the connection id and the
payload fields and returns the events it emits. A payload field is an
`Option<string>`: `None` stands for a field that is missing or null.
`OrEmpty` reads both the same way the source does, as the empty string.

The pure parts are functions, with lemmas about them:

- `Text` models `str.strip()` and `str.lower()`, and the username
  normalisation `(name or "").strip().lower()`.
- `Tables` models the rows, the lookups `filter_by(username=…).first()` and
  `query.get(id)`, the roster `filter(User.id != id)`, and the ids the store
  hands out.
- `Dialog` models the history query. It keeps the messages between the two
  users, orders them by id, takes the first 100 and tags each one "me" or
  "them".
- `Events` models the emitted events and who receives them. A reply goes to
  the calling connection. An emit to a room reaches every connection that
  joined that room.
- `Scenarios` combines several handler calls on one server. It covers
  registering then logging in, a duplicate registration, sending then opening
  the dialog, disconnecting, and a first exchange between two fresh users.

`ChatServer.Valid()` is the invariant every handler keeps:

- user ids are positive and ascending;
- usernames are unique;
- message ids are positive and ascending;
- senders and receivers are existing users;
- every session is bound to an existing user;
- the password hasher is sound.

History is ordered by id. In the model that order is a theorem, not a sort:
ids ascend along the log, and the dialog is a subsequence of the log.

Password hashing is a `Passwords.Hasher`, a pair of function values
`hash(password, salt)` and `check(digest, password)`. Its only assumed
property, `Sound`, is a field of the server invariant rather than an axiom.
`Sound` says a hash is never empty and checks against its own password. The
random salt that `generate_password_hash` draws is a parameter of
`RegisterUser`. The insert timestamp `datetime.utcnow` is the `now`
parameter of `ChatMessage`.

Behaviours of the code that the model keeps, and that a reader might not
expect:

- The history takes the **oldest** 100 messages of a dialog. A new message
  is therefore the last history entry only while the dialog holds fewer than
  100 messages. Past that the history no longer changes.
  `Dialog.AppendThenHistory` states both cases.
- Login answers the same error, "invalid username or password", for an
  unknown user, a row without a password and a wrong password.
- A message to oneself is not refused. The payload is then emitted twice to
  the same room, so each of that user's connections receives it twice
  (`Events.ChatFanoutDeliveries`).
- A login never leaves a room. A connection that logs in as another user
  still receives what is sent to the first user
  (`Scenarios.RoomsOutliveRelogin`).

## Model

| member | source | states |
|---|---|---|
| Text.TrimStartSpec | app.py:77 | the leading strip returns a suffix of the input that does not start with whitespace, and everything it drops is whitespace |
| Text.TrimEndSpec | app.py:77 | the trailing strip returns a prefix of the input that does not end with whitespace, and everything it drops is whitespace |
| Text.TrimSpec | app.py:77 | `strip()` never lengthens a string and leaves no whitespace at either end |
| Text.TrimIsInfix | app.py:171 | `strip()` returns an infix `s[i..j]`, and everything before `i` and from `j` on is whitespace |
| Text.TrimStripped | app.py:77 | a string with no whitespace at its ends is returned unchanged by `strip()` |
| Text.TrimEmptyIff | app.py:77-79 | the stripped password is empty exactly when every character is whitespace, which is when register refuses it |
| Text.Trim | app.py:77 | `str.strip()` with no argument: the trailing strip of the leading strip; what it returns is stated by Text.TrimSpec and Text.TrimIsInfix |
| Text.LowerChar | app.py:76 | `lower()` on one character: never an upper-case ASCII letter, whitespace exactly when the input is, and changed only when the input is an upper-case letter |
| Text.Lower | app.py:76 | `str.lower()` on a string, character by character; Text.NormalizeShape states that no upper-case letter is left |
| Text.Normalize | app.py:76 | the username normalisation `strip().lower()` used at app.py:105, 131 and 176 as well; Text.NormalizeIdempotent, Text.NormalizeEmptyIff and Text.NormalizeShape state its properties |
| Text.NormalizeIdempotent | app.py:76 | normalising a username twice gives the same result as normalising it once |
| Text.NormalizeEmptyIff | app.py:76-79 | the normalised username is empty exactly when the raw one holds only whitespace, and it is never longer than the raw one |
| Text.NormalizeShape | app.py:76 | a normalised username has no whitespace at its ends and no upper-case letter |
| Text.NormalizeNormal | app.py:131 | a name already in normal form is its own normalisation |
| Tables.FindByName | app.py:86 | `filter_by(username=…).first()` returns a row of the table with that name, and finds none exactly when no row has it |
| Tables.FindById | app.py:182 | `query.get(id)` returns a row of the table with that id, and finds none exactly when no row has it |
| Tables.FindByNameUnique | app.py:30 | under the UNIQUE constraint on `username`, the lookup by name returns the one row with that name |
| Tables.FindByIdUnique | app.py:29 | under the primary key, the lookup by id returns the one row with that id |
| Tables.Usernames | app.py:97 | the usernames of the table in table order, as the list comprehension builds them; Tables.UsernamesAt states it |
| Tables.Others | app.py:97 | the roster `[x.username for x in User.query.filter(User.id != id)]`: never longer than the table; Tables.OthersMembers states its members |
| Tables.UsernamesAt | app.py:97 | the list of usernames has one entry per row, in table order |
| Tables.OthersMembers | app.py:120 | a name is in the roster exactly when some row with a different id has that name |
| Tables.OthersOfAbsentId | app.py:97 | a roster taken for an id no row has lists every username in table order |
| Tables.OthersAfterAppend | app.py:97 | the roster built right after registration lists every username that existed before it, in table order |
| Tables.OwnNameNotInOthers | app.py:120 | under the UNIQUE constraint your own name is not in your roster, and every other user's name is |
| Tables.NextUserId | app.py:90-92 | the id the store gives a new user is positive and larger than every existing id |
| Tables.NextMessageId | app.py:188-190 | the id the store gives a new message is positive and larger than every earlier message id |
| Tables.InsertUserValid | app.py:90-92 | inserting a user with the next id and a name not yet taken keeps ids ascending and names unique, and keeps every existing id |
| Tables.InsertMessageValid | app.py:188-190 | inserting a message with the next id between existing users keeps the messages table valid |
| Dialog.InDialog | app.py:139-142 | the WHERE clause of the history query: (sender, receiver) is (a, b) or (b, a) |
| Dialog.Tag | app.py:150-152 | one history entry: "me" when the caller sent the message and "them" otherwise, with its text and time |
| Dialog.TagAll | app.py:148-155 | the list comprehension that tags every selected message from the caller's side; Dialog.DialogHistory states the result |
| Dialog.Between | app.py:138-143 | the filter keeps exactly the messages whose (sender, receiver) is (a, b) or (b, a) |
| Dialog.BetweenAscending | app.py:144 | on a log with ascending ids the filtered messages are in ascending id order |
| Dialog.BetweenSymmetric | app.py:139-142 | the dialog of a and b is the dialog of b and a |
| Dialog.BetweenAppend | app.py:138-143 | appending a message to the log extends the dialog by that message exactly when it belongs to it |
| Dialog.DialogMessages | app.py:145 | `.limit(100)` returns a prefix of the ordered dialog, of length min(dialog length, 100) |
| Dialog.DialogMessagesOldest | app.py:137-147 | the history holds only dialog messages, in ascending id order, and they are the oldest ones: every dialog message it leaves out is newer than every message it holds |
| Dialog.TagAllAppend | app.py:148-155 | tagging a list with one more message appends that message's entry |
| Dialog.DialogHistory | app.py:148-155 | at most 100 entries, one per selected message, tagged "me" exactly when the caller sent it, with the message's text and time |
| Dialog.HistoryFromBothSides | app.py:150 | the two users of a dialog see the same texts in the same order, each entry tagged "me" on one side exactly when it is "them" on the other |
| Dialog.AppendThenHistory | app.py:137-147 | a message appended to a dialog with fewer than 100 messages becomes the last history entry, tagged from the caller's side; with 100 or more the history does not change |
| Dialog.AppendOtherDialog | app.py:138-143 | a message outside the dialog does not change its history |
| Events.Receivers | app.py:198 | the connections one emit reaches: the caller for an `emit` in a handler, and every connection that joined the room for `socketio.emit(..., room=r)` |
| Events.ChatFanout | app.py:198-199 | the two emits of a successful send: the same payload to the sender's room and then to the recipient's; Events.ChatFanoutDeliveries states who receives them |
| Events.Deliveries | app.py:198-199 | a connection receives at most one event per emit, and only events that were emitted |
| Events.ChatFanoutDeliveries | app.py:198-199 | a connection receives the payload once for each of the two rooms it joined; it receives it at all exactly when it joined the sender's or the recipient's room, and twice when a user writes to themselves |
| Events.EventsOf | app.py:80 | the events of a run of emits, one per emit and in the same order |
| Events.ReplyReachesCallerOnly | app.py:80 | every `emit` inside a handler reaches the calling connection, all of them in order, and no other connection |
| Server.OrEmpty | app.py:73-77 | `(data or {}).get(key, "")` followed by `(value or "")`: a missing or null field reads as the empty string |
| Server.LoggedIn | app.py:125-126 | the guard `if not me_id`: a connection is logged in when it is bound to a non-zero id |
| Server.PasswordAccepted | app.py:113 | the negation of the refusal test: the row has a non-empty stored hash and the password checks against it |
| Server.ChatServer.Valid | app.py:27-45 | the invariant of the state: positive ascending user ids, unique usernames, positive ascending message ids whose sender and receiver exist, sessions bound to existing users, and a sound hasher |
| Server.ChatServer.constructor | app.py:45 | a fresh process over valid tables has an empty `sid_to_user` and no room memberships |
| Server.ChatServer.OnDisconnect | app.py:67-69 | the connection's binding is removed and nothing else changes; an unbound connection leaves the state unchanged |
| Server.ChatServer.RegisterUser | app.py:71-98 | the three errors (a field empty after normalising, a name longer than 50, a name already taken) change nothing; success appends one row with the next id, the normalised name and the hash of the stripped password, binds the connection, joins room `user:<id>`, and answers with every earlier username; the invariant is kept |
| Server.ChatServer.LoginUser | app.py:100-121 | empty fields give "username & password required"; an unknown name, a row without a password and a failed check all give "invalid username or password" and change nothing; success rebinds the connection, adds the user's room without leaving any other, keeps both tables, and answers with the roster |
| Server.ChatServer.OpenDialog | app.py:123-156 | an unbound connection gets "not logged in", an unknown peer "user not found", otherwise the peer's name and the dialog history seen from the caller; nothing changes |
| Server.ChatServer.ChatMessage | app.py:158-199 | not logged in, an empty text or recipient, and an unknown recipient each give their error and change nothing; success appends one message with the next id, the stripped text and the time, keeps users, sessions and rooms, and emits the same payload to the sender's room and then to the recipient's |
| Scenarios.DisconnectThenRequests | app.py:160-163 | after a disconnect, opening a dialog and sending on that connection both answer "not logged in" and change nothing |
| Scenarios.RegisterThenLogin | app.py:100-121 | after a successful registration, a login with credentials that normalise the same answers the same name and roster, and both connections are bound to the new row |
| Scenarios.LoginAfterRegister | app.py:112-113 | the row a registration appends is the one the login lookup finds, and its stored hash accepts the password |
| Scenarios.DuplicateRegistration | app.py:86-88 | registering two names that normalise the same: the second is refused as a duplicate and exactly one row has that name |
| Scenarios.SendThenOpenDialog | app.py:137-147 | after a successful send, the sender's history with the recipient ends with the new message tagged "me" while the dialog held fewer than 100 messages, and is unchanged otherwise |
| Scenarios.DialogOfOne | app.py:148-156 | a log of one message gives both users a one-entry history |
| Scenarios.RegisterNew | app.py:90-98 | registering a name in normal form that is not taken appends the row, binds the connection and joins its room |
| Scenarios.OneUser | app.py:90-98 | on an empty database the first user registered gets id 1 |
| Scenarios.TwoUsers | app.py:90-98 | two users registered on an empty database get ids 1 and 2, each bound on its own connection |
| Scenarios.ThreeUsers | app.py:90-98 | three users registered on an empty database get ids 1, 2 and 3 |
| Scenarios.SendToKnown | app.py:188-199 | a message to an existing user is stored with the next id and fanned out to both rooms |
| Scenarios.DialogWithKnown | app.py:132-156 | opening the dialog with an existing user answers that user's name and the history between the two |
| Scenarios.LoginKnown | app.py:117-121 | a login the stored hash accepts rebinds the connection and adds the user's room |
| Scenarios.FirstMessage | app.py:188-199 | the first message on an empty database is stored as message 1 from user 1 to user 2 and goes to both rooms |
| Scenarios.TwoRoomsDeliveries | app.py:198-199 | with each connection in its own user's room, a chat between the two users reaches each connection once |
| Scenarios.FirstExchange | app.py:192-199 | ahmed writing "hi" to mona (for any such names and text): each connection receives the payload once, and mona's history with ahmed is one entry tagged "them" |
| Scenarios.ThreeUsersThenRelogin | app.py:117-118 | a connection that logs in as another user is rebound to that user and keeps its old room |
| Scenarios.FirstRoomDeliveries | app.py:118 | after that relogin, a chat to the first user still reaches the relogged connection once |
| Scenarios.RoomsOutliveRelogin | app.py:118 | a connection that registered as a and then logged in as b is bound to b, yet receives what a third user sends to a |

## Left out

- The HTTP routes `/` and `/healthz` and their database ping (app.py:48-60): transport with no logic.
- The `connect` handler and its `server_event` greeting (app.py:63-65), Socket.IO framing, eventlet and CORS: the network layer. Emits are modelled as returned events.
- The SQLAlchemy engine, sessions, commits and `db.create_all` (app.py:14-21, app.py:216-223): the tables are in-memory sequences.
- `ensure_password_column_if_mysql` (app.py:202-214): a schema migration through foreign calls.
- The internals of `generate_password_hash` and `check_password_hash`: a foreign library, kept opaque behind `Passwords.Hasher`.
- `datetime.utcnow` and `isoformat` (app.py:42, app.py:152, app.py:196): the clock is the `now` parameter, and times stay opaque numbers.
- Concurrency: handlers run one at a time. The race between the duplicate check and the insert is not modelled.
- The removal of a closed connection from its rooms: Socket.IO does that itself, not this code, so `joined` only grows.
- Payload values other than a string, null or a missing field. Fields are `Option<string>` here. In the source, `(x or "")` turns any falsy value (0, False, an empty list or dict) into the empty string for the username, the password and the dialog peer (app.py:73-77, app.py:102-106, app.py:130-131), so the handler answers "username & password required" or "user not found". A truthy non-string there raises at `.strip()`. In `chat_message` a non-string text, falsy or not, goes through `str()` (app.py:169-170), and any non-string recipient raises at `.strip()` (app.py:176).
- A payload that is not a dict and not falsy: every handler raises at `.get` (app.py:73, app.py:102, app.py:130, app.py:166) instead of answering.
- A NULL `created_at`: the column is nullable, and only the ORM's insert default fills it (app.py:42). Every row this code inserts has a time, but a row already in the table at start-up may not. For such a row in a dialog, `open_dialog` raises at `.isoformat` (app.py:152) instead of answering `history`. The model gives every message a time (`Message.createdAt` is a number).
- Text.LowerChar: lower-cases only the ASCII letters, whereas `str.lower()` also maps the other Unicode upper-case letters.
- Tables.FindByName: assumes the database compares usernames exactly. A case- or accent-insensitive collation, as MySQL uses by default, is not modelled.
- Tables.NextUserId: the store is modelled as giving a new user exactly one more than the last id, or 1 for an empty table. The handlers and the scenarios rely on that exact value, for instance ids 1, 2 and 3 in Scenarios.ThreeUsers. A database that skips ids, such as MySQL after a failed insert or a deleted last row, is not modelled.
- Tables.NextMessageId: the store is modelled as giving a new message exactly one more than the last message id, or 1 for an empty table. Scenarios.FirstMessage relies on that exact value. Skipped ids are not modelled.
- Tables.Others: lists the roster in table order, while the source leaves the order to the database.
- Integer width: ids are unbounded, so the overflow of the 32-bit `users.id` and the 64-bit `messages.id` columns is not modelled.
- The 255-character limit of the hash column and the 50-character limit of the `username` column at the database level. The handler's own 50-character check is modelled.
