/** What the handlers emit, and who receives it: an `emit` inside a handler
    goes to the calling connection, `socketio.emit(..., room=r)` to every
    connection that joined room r. */
module Events {
  import opened Tables
  import opened Dialog

  /** A Socket.IO connection id (`request.sid`). */
  type Sid = string

  /** The room `f"user:{id}"`; distinct ids name distinct rooms. */
  datatype Room = UserRoom(user: UserId)

  /** The payload of a relayed `chat_message`. */
  datatype ChatPayload = ChatPayload(from: string, to: string, text: string, at: Timestamp)

  /** The server-to-client events, with their data. */
  datatype Event =
    | RegisterOk(me: string, others: seq<string>)
    | RegisterError(error: string)
    | LoginOk(me: string, others: seq<string>)
    | LoginError(error: string)
    | History(peer: string, messages: seq<Entry>)
    | DialogError(error: string)
    | SendError(error: string)
    | Chat(payload: ChatPayload)

  datatype Emit = ToCaller(event: Event) | ToRoom(room: Room, event: Event)

  /** The connections one emit reaches, given the room memberships `joined`. */
  function Receivers(joined: set<(Sid, Room)>, caller: Sid, e: Emit): set<Sid>
  {
    match e
    case ToCaller(_) => {caller}
    case ToRoom(room, _) => set p | p in joined && p.1 == room :: p.0
  }

  /** The events connection `sid` receives from a run of emits, in order. */
  function Deliveries(joined: set<(Sid, Room)>, caller: Sid, emits: seq<Emit>, sid: Sid): (r: seq<Event>)
    ensures |r| <= |emits|
    ensures forall ev :: ev in r ==> exists i :: 0 <= i < |emits| && emits[i].event == ev
  {
    if |emits| == 0 then []
    else
      var rest := Deliveries(joined, caller, emits[1..], sid);
      assert forall ev :: ev in rest ==> exists i :: 0 <= i < |emits| && emits[i].event == ev by {
        forall ev | ev in rest ensures exists i :: 0 <= i < |emits| && emits[i].event == ev {
          var i :| 0 <= i < |emits[1..]| && emits[1..][i].event == ev;
          assert emits[i + 1].event == ev;
        }
      }
      (if sid in Receivers(joined, caller, emits[0]) then [emits[0].event] else []) + rest
  }

  /** The two emits of a successful `chat_message`: the same payload to the
      sender's room and then to the recipient's room. */
  function ChatFanout(me: UserId, you: UserId, p: ChatPayload): seq<Emit>
  {
    [ToRoom(UserRoom(me), Chat(p)), ToRoom(UserRoom(you), Chat(p))]
  }

  /** A connection receives the relayed payload once for each of the two
      rooms it joined: so it receives it at all exactly when it joined the
      sender's or the recipient's room, and twice when a user writes to
      themselves. */
  lemma ChatFanoutDeliveries(joined: set<(Sid, Room)>, caller: Sid, me: UserId, you: UserId, p: ChatPayload, sid: Sid)
    ensures Deliveries(joined, caller, ChatFanout(me, you, p), sid) ==
              (if (sid, UserRoom(me)) in joined then [Chat(p)] else []) +
              (if (sid, UserRoom(you)) in joined then [Chat(p)] else [])
    ensures |Deliveries(joined, caller, ChatFanout(me, you, p), sid)| >= 1 <==>
              (sid, UserRoom(me)) in joined || (sid, UserRoom(you)) in joined
    ensures me == you && (sid, UserRoom(me)) in joined ==>
              Deliveries(joined, caller, ChatFanout(me, you, p), sid) == [Chat(p), Chat(p)]
  {
    var e := ChatFanout(me, you, p);
    assert sid in Receivers(joined, caller, e[0]) <==> (sid, UserRoom(me)) in joined by {
      if (sid, UserRoom(me)) in joined {
        assert (sid, UserRoom(me)).0 == sid;
      }
    }
    assert sid in Receivers(joined, caller, e[1]) <==> (sid, UserRoom(you)) in joined by {
      if (sid, UserRoom(you)) in joined {
        assert (sid, UserRoom(you)).0 == sid;
      }
    }
    assert e[1..][1..] == [];
  }

  /** The events of a run of emits, in order. */
  function EventsOf(emits: seq<Emit>): (r: seq<Event>)
    ensures |r| == |emits|
    ensures forall i :: 0 <= i < |emits| ==> r[i] == emits[i].event
  {
    if |emits| == 0 then [] else [emits[0].event] + EventsOf(emits[1..])
  }

  /** Replies emitted inside a handler reach the caller, all of them and in
      order, and nobody else. */
  lemma {:induction false} ReplyReachesCallerOnly(joined: set<(Sid, Room)>, caller: Sid, emits: seq<Emit>, sid: Sid)
    requires forall i :: 0 <= i < |emits| ==> emits[i].ToCaller?
    ensures Deliveries(joined, caller, emits, sid) == if sid == caller then EventsOf(emits) else []
  {
    if |emits| > 0 {
      assert forall i :: 0 <= i < |emits[1..]| ==> emits[1..][i] == emits[i + 1];
      ReplyReachesCallerOnly(joined, caller, emits[1..], sid);
    }
  }
}
