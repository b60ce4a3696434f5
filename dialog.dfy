/** The history query of open_dialog: the messages between two users,
    ordered by id, cut to the oldest 100, each tagged from the caller's side. */
module Dialog {
  import opened Tables

  /** `.limit(100)` */
  const HistoryLimit := 100

  /** The WHERE clause: (sender, receiver) is (a, b) or (b, a). */
  predicate InDialog(m: Message, a: UserId, b: UserId)
  {
    (m.sender == a && m.receiver == b) || (m.sender == b && m.receiver == a)
  }

  /** The messages of the log that belong to the dialog of a and b, in log order. */
  function Between(msgs: seq<Message>, a: UserId, b: UserId): (r: seq<Message>)
    ensures |r| <= |msgs|
    ensures forall m :: m in r <==> m in msgs && InDialog(m, a, b)
  {
    if |msgs| == 0 then []
    else
      var front := msgs[..|msgs| - 1];
      var last := msgs[|msgs| - 1];
      assert msgs == front + [last];
      Between(front, a, b) + (if InDialog(last, a, b) then [last] else [])
  }

  /** The filter keeps the log's order, so on a log with ascending ids it is
      the ascending order that `.order_by(Message.id.asc())` asks for. */
  lemma {:induction false} BetweenAscending(msgs: seq<Message>, a: UserId, b: UserId)
    requires MessageIdsIncreasing(msgs)
    ensures MessageIdsIncreasing(Between(msgs, a, b))
  {
    if |msgs| > 0 {
      var front := msgs[..|msgs| - 1];
      var last := msgs[|msgs| - 1];
      BetweenAscending(front, a, b);
      var bf := Between(front, a, b);
      forall k | 0 <= k < |bf| ensures bf[k].id < last.id {
        assert bf[k] in front;
      }
    }
  }

  /** The dialog is the same set of messages from either side. */
  lemma {:induction false} BetweenSymmetric(msgs: seq<Message>, a: UserId, b: UserId)
    ensures Between(msgs, a, b) == Between(msgs, b, a)
  {
    if |msgs| > 0 {
      BetweenSymmetric(msgs[..|msgs| - 1], a, b);
    }
  }

  /** Appending a message to the log extends the dialog by that message
      exactly when the message belongs to it. */
  lemma BetweenAppend(msgs: seq<Message>, m: Message, a: UserId, b: UserId)
    ensures Between(msgs + [m], a, b) == Between(msgs, a, b) + (if InDialog(m, a, b) then [m] else [])
  {
    assert (msgs + [m])[..|msgs|] == msgs;
  }

  /** The messages `open_dialog` returns: the first HistoryLimit of the dialog. */
  function DialogMessages(msgs: seq<Message>, me: UserId, other: UserId): (r: seq<Message>)
    ensures |r| <= HistoryLimit
    ensures r <= Between(msgs, me, other)
    ensures |r| == if |Between(msgs, me, other)| <= HistoryLimit then |Between(msgs, me, other)| else HistoryLimit
  {
    var all := Between(msgs, me, other);
    if |all| <= HistoryLimit then all else all[..HistoryLimit]
  }

  /** The history holds only messages of the dialog, in ascending id order,
      and they are its oldest ones: every dialog message it leaves out is
      newer than every message it holds. */
  lemma DialogMessagesOldest(msgs: seq<Message>, me: UserId, other: UserId)
    requires MessageIdsIncreasing(msgs)
    ensures forall m :: m in DialogMessages(msgs, me, other) ==> m in msgs && InDialog(m, me, other)
    ensures MessageIdsIncreasing(DialogMessages(msgs, me, other))
    ensures forall m, k ::
              m in DialogMessages(msgs, me, other) && k in Between(msgs, me, other) && k !in DialogMessages(msgs, me, other)
              ==> m.id < k.id
  {
    BetweenAscending(msgs, me, other);
    var all := Between(msgs, me, other);
    var r := DialogMessages(msgs, me, other);
    forall m, k | m in r && k in all && k !in r ensures m.id < k.id {
      var i :| 0 <= i < |r| && r[i] == m;
      var j :| 0 <= j < |all| && all[j] == k;
      assert all[i] == m;
    }
  }

  /** `"from": "me" if m.sender_id == me_id else "them"` */
  datatype Side = Me | Them

  /** One entry of the `history` event. */
  datatype Entry = Entry(from: Side, text: string, at: Timestamp)

  function Tag(m: Message, me: UserId): Entry
  {
    Entry(if m.sender == me then Me else Them, m.text, m.createdAt)
  }

  /** Tags each message from the side of user `me`. */
  function TagAll(ms: seq<Message>, me: UserId): seq<Entry>
  {
    seq(|ms|, i requires 0 <= i < |ms| => Tag(ms[i], me))
  }

  lemma TagAllAppend(ms: seq<Message>, m: Message, me: UserId)
    ensures TagAll(ms + [m], me) == TagAll(ms, me) + [Tag(m, me)]
  {
    assert TagAll(ms + [m], me)[|ms|] == Tag(m, me);
  }

  /** The `messages` list of the `history` event for caller `me` and peer `other`. */
  function DialogHistory(msgs: seq<Message>, me: UserId, other: UserId): (h: seq<Entry>)
    ensures |h| <= HistoryLimit
    ensures |h| == |DialogMessages(msgs, me, other)|
    ensures forall i :: 0 <= i < |h| ==>
              && (h[i].from == Me <==> DialogMessages(msgs, me, other)[i].sender == me)
              && h[i].text == DialogMessages(msgs, me, other)[i].text
              && h[i].at == DialogMessages(msgs, me, other)[i].createdAt
  {
    TagAll(DialogMessages(msgs, me, other), me)
  }

  /** Two users looking at their dialog see the same texts in the same order,
      each entry tagged "me" on its sender's side and "them" on the other. */
  lemma HistoryFromBothSides(msgs: seq<Message>, a: UserId, b: UserId)
    requires a != b
    ensures |DialogHistory(msgs, a, b)| == |DialogHistory(msgs, b, a)|
    ensures forall i :: 0 <= i < |DialogHistory(msgs, a, b)| ==>
              && DialogHistory(msgs, a, b)[i].text == DialogHistory(msgs, b, a)[i].text
              && (DialogHistory(msgs, a, b)[i].from == Me <==> DialogHistory(msgs, b, a)[i].from == Them)
  {
    BetweenSymmetric(msgs, a, b);
    var dm := DialogMessages(msgs, a, b);
    forall i | 0 <= i < |dm| ensures dm[i].sender == a || dm[i].sender == b {
      assert dm[i] in Between(msgs, a, b);
    }
  }

  /** A message appended to the log shows up as the newest entry of the
      dialog it belongs to while that dialog holds fewer than HistoryLimit
      messages; once the limit is reached the history no longer changes. */
  lemma AppendThenHistory(msgs: seq<Message>, m: Message, me: UserId, other: UserId)
    requires InDialog(m, me, other)
    ensures |Between(msgs, me, other)| < HistoryLimit ==>
              DialogHistory(msgs + [m], me, other) == DialogHistory(msgs, me, other) + [Tag(m, me)]
    ensures |Between(msgs, me, other)| >= HistoryLimit ==>
              DialogHistory(msgs + [m], me, other) == DialogHistory(msgs, me, other)
  {
    BetweenAppend(msgs, m, me, other);
    var all := Between(msgs, me, other);
    if |all| < HistoryLimit {
      assert DialogMessages(msgs + [m], me, other) == all + [m];
      TagAllAppend(all, m, me);
    } else {
      assert (all + [m])[..HistoryLimit] == all[..HistoryLimit];
      assert DialogMessages(msgs + [m], me, other) == DialogMessages(msgs, me, other);
    }
  }

  /** A message outside the dialog does not change its history. */
  lemma AppendOtherDialog(msgs: seq<Message>, m: Message, me: UserId, other: UserId)
    requires !InDialog(m, me, other)
    ensures DialogHistory(msgs + [m], me, other) == DialogHistory(msgs, me, other)
  {
    BetweenAppend(msgs, m, me, other);
  }
}
