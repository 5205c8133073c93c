/** The direct_messages table: saving, offline delivery, chat list and history. */
module Mail {
  import opened Wire
  import opened Protocol
  import opened Sorting
  import U = Users

  datatype Row = Row(id: int, sender: int, recipient: int, createAt: int, text: Bytes, delivered: bool)

  /** nextId is the AUTOINCREMENT counter. */
  datatype Mailbox = Mailbox(rows: seq<Row>, nextId: int)

  /** INSERT with delivered = 0; None when a foreign key is violated. The id returned is the new row's. */
  function SaveMessage(m: Mailbox, users: set<int>, sender: int, recipient: int, text: Bytes, now: int): Option<Mailbox>
  {
    if sender in users && recipient in users
    then Some(Mailbox(m.rows + [Row(m.nextId, sender, recipient, now, text, false)], m.nextId + 1))
    else None
  }

  predicate WaitsFor(r: Row, recipient: int)
  {
    r.recipient == recipient && !r.delivered
  }

  function Waiting(rows: seq<Row>, recipient: int): (s: seq<Row>)
    ensures forall r :: r in s <==> r in rows && WaitsFor(r, recipient)
  {
    if rows == [] then []
    else (if WaitsFor(rows[0], recipient) then [rows[0]] else []) + Waiting(rows[1..], recipient)
  }

  const BY_TIME: Row -> int := (r: Row) => r.createAt

  /** WHERE recipient = ? AND delivered = 0 ORDER BY create_at ASC */
  function Undelivered(rows: seq<Row>, recipient: int): seq<Row>
  {
    SortBy(BY_TIME, Waiting(rows, recipient))
  }

  /** UPDATE direct_messages SET delivered = 1 WHERE id IN (...) */
  function MarkDelivered(rows: seq<Row>, ids: seq<int>): (rows': seq<Row>)
    ensures |rows'| == |rows|
    ensures forall i :: 0 <= i < |rows| ==>
              rows'[i] == if rows[i].id in ids then rows[i].(delivered := true) else rows[i]
  {
    if rows == [] then []
    else [if rows[0].id in ids then rows[0].(delivered := true) else rows[0]] + MarkDelivered(rows[1..], ids)
  }

  function IdsOf(rows: seq<Row>): (ids: seq<int>)
    ensures |ids| == |rows|
    ensures forall i :: 0 <= i < |rows| ==> ids[i] == rows[i].id
  {
    seq(|rows|, i requires 0 <= i < |rows| => rows[i].id)
  }

  predicate RowsInv(m: Mailbox)
  {
    && (forall i :: 0 <= i < |m.rows| ==> m.rows[i].id < m.nextId)
    && (forall i, j :: 0 <= i < j < |m.rows| ==> m.rows[i].id < m.rows[j].id)
  }

  lemma SaveKeepsInv(m: Mailbox, users: set<int>, sender: int, recipient: int, text: Bytes, now: int)
    requires RowsInv(m) && SaveMessage(m, users, sender, recipient, text, now).Some?
    ensures RowsInv(SaveMessage(m, users, sender, recipient, text, now).value)
  {
  }

  lemma MarkKeepsInv(m: Mailbox, ids: seq<int>)
    requires RowsInv(m)
    ensures RowsInv(m.(rows := MarkDelivered(m.rows, ids)))
  {
    var rows' := MarkDelivered(m.rows, ids);
    assert forall i :: 0 <= i < |rows'| ==> rows'[i].id == m.rows[i].id;
  }

  lemma UndeliveredIs(rows: seq<Row>, recipient: int)
    ensures forall r :: r in Undelivered(rows, recipient) <==> r in rows && WaitsFor(r, recipient)
    ensures forall i, j :: 0 <= i < j < |Undelivered(rows, recipient)| ==>
              Undelivered(rows, recipient)[i].createAt <= Undelivered(rows, recipient)[j].createAt
  {
    SortProps(BY_TIME, Waiting(rows, recipient));
    var s := Undelivered(rows, recipient);
    forall i, j | 0 <= i < j < |s| ensures s[i].createAt <= s[j].createAt {
      assert BY_TIME(s[i]) <= BY_TIME(s[j]);
    }
  }

  lemma IdIn(rows: seq<Row>, r: Row)
    requires r in rows
    ensures r.id in IdsOf(rows)
  {
    var i :| 0 <= i < |rows| && rows[i] == r;
    assert IdsOf(rows)[i] == r.id;
  }

  lemma SameId(m: Mailbox, r: Row, s: Row)
    requires RowsInv(m) && r in m.rows && s in m.rows && r.id == s.id
    ensures r == s
  {
    var i :| 0 <= i < |m.rows| && m.rows[i] == r;
    var j :| 0 <= j < |m.rows| && m.rows[j] == s;
    assert !(i < j) && !(j < i);
  }

  /** Marking what is undelivered for one user leaves that user nothing and everybody else what they had. */
  lemma MarkingDelivers(m: Mailbox, recipient: int, other: int)
    requires RowsInv(m)
    ensures var rows' := MarkDelivered(m.rows, IdsOf(Undelivered(m.rows, recipient)));
            && Undelivered(rows', recipient) == []
            && (other != recipient ==> Undelivered(rows', other) == Undelivered(m.rows, other))
            && forall i :: 0 <= i < |m.rows| ==>
                 rows'[i] == m.rows[i].(delivered := m.rows[i].delivered || m.rows[i].recipient == recipient)
  {
    var due := Undelivered(m.rows, recipient);
    var rows' := MarkDelivered(m.rows, IdsOf(due));
    UndeliveredIs(m.rows, recipient);
    forall i | 0 <= i < |m.rows|
      ensures rows'[i] == m.rows[i].(delivered := m.rows[i].delivered || m.rows[i].recipient == recipient)
    {
      var r := m.rows[i];
      if WaitsFor(r, recipient) {
        IdIn(due, r);
      } else if r.id in IdsOf(due) {
        var k :| 0 <= k < |due| && IdsOf(due)[k] == r.id;
        assert due[k] in due;
        SameId(m, due[k], r);
      }
    }
    NoneWaiting(rows', recipient);
    if other != recipient {
      WaitingSame(m.rows, rows', other);
    }
  }

  lemma {:induction false} NoneWaiting(rows: seq<Row>, recipient: int)
    requires forall i :: 0 <= i < |rows| ==> !WaitsFor(rows[i], recipient)
    ensures Undelivered(rows, recipient) == []
  {
    if rows != [] {
      NoneWaiting(rows[1..], recipient);
      UndeliveredIs(rows[1..], recipient);
      SortProps(BY_TIME, Waiting(rows[1..], recipient));
      assert Waiting(rows, recipient) == Waiting(rows[1..], recipient);
    }
  }

  lemma {:induction false} WaitingSame(a: seq<Row>, b: seq<Row>, recipient: int)
    requires |a| == |b|
    requires forall i :: 0 <= i < |a| ==> a[i] == b[i] || (!WaitsFor(a[i], recipient) && !WaitsFor(b[i], recipient))
    ensures Waiting(a, recipient) == Waiting(b, recipient)
  {
    if a != [] {
      WaitingSame(a[1..], b[1..], recipient);
    }
  }

  // ---- the chat list -------------------------------------------------------------------------

  datatype Chat = Chat(peer: int, text: Bytes, time: int)

  predicate Involves(r: Row, user: int)
  {
    r.sender == user || r.recipient == user
  }

  /** CASE WHEN sender = ? THEN recipient ELSE sender END */
  function Peer(r: Row, user: int): int
  {
    if r.sender == user then r.recipient else r.sender
  }

  function ChatOf(r: Row, user: int): Chat
  {
    Chat(Peer(r, user), r.text, r.createAt)
  }

  /** One grouping step: a new peer gets an entry, a later message replaces the entry. */
  function Update(chats: seq<Chat>, c: Chat): seq<Chat>
  {
    if chats == [] then [c]
    else if chats[0].peer == c.peer then (if c.time > chats[0].time then [c] else [chats[0]]) + chats[1..]
    else [chats[0]] + Update(chats[1..], c)
  }

  function Group(rows: seq<Row>, user: int): seq<Chat>
  {
    if rows == [] then []
    else
      var r, before := rows[|rows| - 1], Group(rows[..|rows| - 1], user);
      if Involves(r, user) then Update(before, ChatOf(r, user)) else before
  }

  const LATEST_FIRST: Chat -> int := (c: Chat) => -c.time

  /** GROUP BY peer HAVING create_at = MAX(create_at) ORDER BY create_at DESC */
  function LastMessages(rows: seq<Row>, user: int): seq<Chat>
  {
    SortBy(LATEST_FIRST, Group(rows, user))
  }

  predicate DistinctPeers(chats: seq<Chat>)
  {
    forall i, j :: 0 <= i < j < |chats| ==> chats[i].peer != chats[j].peer
  }

  /** The entry is one of the user's messages with that peer, and none of them is later. */
  predicate IsLatest(c: Chat, rows: seq<Row>, user: int)
  {
    && (exists r :: r in rows && Involves(r, user) && ChatOf(r, user) == c)
    && (forall r :: r in rows && Involves(r, user) && Peer(r, user) == c.peer ==> r.createAt <= c.time)
  }

  predicate Lists(chats: seq<Chat>, peer: int)
  {
    exists c :: c in chats && c.peer == peer
  }

  lemma {:induction false} UpdateProps(chats: seq<Chat>, c: Chat)
    requires DistinctPeers(chats)
    ensures DistinctPeers(Update(chats, c))
    ensures forall p :: Lists(Update(chats, c), p) <==> Lists(chats, p) || p == c.peer
    ensures forall x :: x in Update(chats, c) ==> x == c || x in chats
    ensures forall x :: x in Update(chats, c) && x.peer == c.peer ==>
              c.time <= x.time && forall y :: y in chats && y.peer == c.peer ==> y.time <= x.time
  {
    if chats != [] {
      var rest := chats[1..];
      assert chats == [chats[0]] + rest;
      if chats[0].peer != c.peer {
        UpdateProps(rest, c);
        var u := Update(rest, c);
        forall j | 0 <= j < |u| ensures chats[0].peer != u[j].peer {
          assert u[j] in u;
        }
      } else {
        assert forall x :: x in rest ==> x.peer != c.peer;
      }
      forall p ensures Lists(Update(chats, c), p) <==> Lists(chats, p) || p == c.peer {
        ListsSplit(chats[0], rest, p);
        if chats[0].peer != c.peer {
          ListsSplit(chats[0], Update(rest, c), p);
        } else {
          ListsSplit(Update(chats, c)[0], rest, p);
        }
      }
    } else {
      forall p ensures Lists([c], p) <==> p == c.peer {
        ListsSplit(c, [], p);
      }
    }
  }

  lemma ListsSplit(c: Chat, rest: seq<Chat>, p: int)
    ensures Lists([c] + rest, p) <==> c.peer == p || Lists(rest, p)
  {
    assert c in [c] + rest;
    assert forall x :: x in rest ==> x in [c] + rest;
  }

  lemma {:induction false} GroupProps(rows: seq<Row>, user: int)
    ensures DistinctPeers(Group(rows, user))
    ensures forall c :: c in Group(rows, user) ==> IsLatest(c, rows, user)
    ensures forall r :: r in rows && Involves(r, user) ==> Lists(Group(rows, user), Peer(r, user))
  {
    if rows != [] {
      var before, r := rows[..|rows| - 1], rows[|rows| - 1];
      GroupProps(before, user);
      assert rows == before + [r];
      if Involves(r, user) {
        var e, old' := ChatOf(r, user), Group(before, user);
        UpdateProps(old', e);
        forall c | c in Group(rows, user) ensures IsLatest(c, rows, user) {
          LatestExtends(c, before, r, user);
        }
      } else {
        forall c | c in Group(rows, user) ensures IsLatest(c, rows, user) {
          assert IsLatest(c, before, user);
        }
      }
    }
  }

  lemma LatestExtends(c: Chat, before: seq<Row>, r: Row, user: int)
    requires Involves(r, user)
    requires c == ChatOf(r, user) || IsLatest(c, before, user)
    requires c.peer == Peer(r, user) ==> r.createAt <= c.time
    requires c == ChatOf(r, user) ==>
               forall s :: s in before && Involves(s, user) && Peer(s, user) == c.peer ==> s.createAt <= c.time
    ensures IsLatest(c, before + [r], user)
  {
    if c == ChatOf(r, user) {
      assert r in before + [r];
    } else {
      var s :| s in before && Involves(s, user) && ChatOf(s, user) == c;
      assert s in before + [r];
    }
  }

  /** One entry for each peer the user exchanged messages with, in either direction, each carrying a latest
      message of that conversation, most recent conversation first. */
  lemma ChatListIs(rows: seq<Row>, user: int)
    ensures var chats := LastMessages(rows, user);
            && DistinctPeers(chats)
            && (forall c :: c in chats ==> IsLatest(c, rows, user))
            && (forall r :: r in rows && Involves(r, user) ==> Lists(chats, Peer(r, user)))
            && (forall i, j :: 0 <= i < j < |chats| ==> chats[i].time >= chats[j].time)
  {
    var g, chats := Group(rows, user), LastMessages(rows, user);
    GroupProps(rows, user);
    SortProps(LATEST_FIRST, g);
    forall i, j | 0 <= i < j < |chats| ensures chats[i].time >= chats[j].time {
      assert LATEST_FIRST(chats[i]) <= LATEST_FIRST(chats[j]);
    }
    SortedDistinct(g);
    forall r | r in rows && Involves(r, user) ensures Lists(chats, Peer(r, user)) {
      assert Lists(g, Peer(r, user));
    }
  }

  lemma SortedDistinct(g: seq<Chat>)
    requires DistinctPeers(g)
    ensures DistinctPeers(SortBy(LATEST_FIRST, g))
  {
    var s := SortBy(LATEST_FIRST, g);
    SortProps(LATEST_FIRST, g);
    forall i, j | 0 <= i < j < |s| ensures s[i].peer != s[j].peer {
      assert s[i] in g && s[j] in g;
      if s[i].peer == s[j].peer {
        var a :| 0 <= a < |g| && g[a] == s[i];
        var b :| 0 <= b < |g| && g[b] == s[j];
        assert a == b;
        Repeats(s, i, j);
        Occurs(g, a);
        assert false;
      }
    }
  }

  lemma Repeats(s: seq<Chat>, i: int, j: int)
    requires 0 <= i < j < |s| && s[i] == s[j]
    ensures multiset(s)[s[i]] >= 2
  {
    assert s == s[..i] + [s[i]] + s[i + 1..j] + [s[j]] + s[j + 1..];
  }

  lemma Occurs(g: seq<Chat>, a: int)
    requires DistinctPeers(g) && 0 <= a < |g|
    ensures multiset(g)[g[a]] == 1
  {
    assert g == g[..a] + [g[a]] + g[a + 1..];
    assert g[a] !in g[..a] && g[a] !in g[a + 1..];
  }

  // ---- history -------------------------------------------------------------------------------

  predicate Between(r: Row, a: int, b: int)
  {
    (r.sender == a && r.recipient == b) || (r.sender == b && r.recipient == a)
  }

  function Conversation(rows: seq<Row>, a: int, b: int): (s: seq<Row>)
    ensures forall r :: r in s <==> r in rows && Between(r, a, b)
  {
    if rows == [] then []
    else (if Between(rows[0], a, b) then [rows[0]] else []) + Conversation(rows[1..], a, b)
  }

  /** ORDER BY create_at ASC LIMIT ? */
  function History(rows: seq<Row>, a: int, b: int, limit: nat): seq<Row>
  {
    var s := SortBy(BY_TIME, Conversation(rows, a, b));
    if |s| <= limit then s else s[..limit]
  }

  lemma HistoryRows(rows: seq<Row>, a: int, b: int, limit: nat)
    ensures var h := History(rows, a, b, limit);
            && |h| <= limit
            && (forall r :: r in h ==> r in rows && Between(r, a, b))
            && (forall i, j :: 0 <= i < j < |h| ==> h[i].createAt <= h[j].createAt)
    ensures multiset(History(rows, a, b, limit)) <= multiset(Conversation(rows, a, b))
  {
    var s, h := SortBy(BY_TIME, Conversation(rows, a, b)), History(rows, a, b, limit);
    SortProps(BY_TIME, Conversation(rows, a, b));
    assert s == h + s[|h|..];
    forall i, j | 0 <= i < j < |h| ensures h[i].createAt <= h[j].createAt {
      assert BY_TIME(s[i]) <= BY_TIME(s[j]);
    }
  }

  /** Of the rows exactly those of the conversation, each as often as it is in the table. */
  lemma {:induction false} ConversationIs(rows: seq<Row>, a: int, b: int, r: Row)
    ensures multiset(Conversation(rows, a, b))[r]
         == if (r.sender == a && r.recipient == b) || (r.sender == b && r.recipient == a) then multiset(rows)[r] else 0
  {
    if rows != [] {
      ConversationIs(rows[1..], a, b, r);
      assert rows == [rows[0]] + rows[1..];
    }
  }

  /** The whole conversation, or as many of its messages as the limit allows. */
  lemma HistorySize(rows: seq<Row>, a: int, b: int, limit: nat)
    ensures var all := |Conversation(rows, a, b)|;
            |History(rows, a, b, limit)| == if all <= limit then all else limit
    ensures |Conversation(rows, a, b)| <= limit ==>
              multiset(History(rows, a, b, limit)) == multiset(Conversation(rows, a, b))
  {
    SortProps(BY_TIME, Conversation(rows, a, b));
    assert |multiset(SortBy(BY_TIME, Conversation(rows, a, b)))| == |SortBy(BY_TIME, Conversation(rows, a, b))|;
    assert |multiset(Conversation(rows, a, b))| == |Conversation(rows, a, b)|;
  }

  /** The history keeps the oldest messages of the conversation: whatever is left out is at least as late as
      everything kept, and something is left out only when the limit is reached. */
  lemma HistoryIsOldest(rows: seq<Row>, a: int, b: int, limit: nat, kept: Row, omitted: Row)
    requires kept in History(rows, a, b, limit)
    requires omitted in rows && Between(omitted, a, b) && omitted !in History(rows, a, b, limit)
    ensures |History(rows, a, b, limit)| == limit && kept.createAt <= omitted.createAt
  {
    var s, h := SortBy(BY_TIME, Conversation(rows, a, b)), History(rows, a, b, limit);
    SortProps(BY_TIME, Conversation(rows, a, b));
    assert s == h + s[|h|..];
    assert omitted in s;
    var i :| 0 <= i < |h| && h[i] == kept;
    var j :| 0 <= j < |s| && s[j] == omitted;
    assert BY_TIME(s[i]) <= BY_TIME(s[j]);
  }

  // ---- the repository ------------------------------------------------------------------------

  /** A row as the program gets it: the text ends at its first zero byte. */
  function Read(r: Row): Row
  {
    r.(text := CString(r.text))
  }

  function ReadAll(rows: seq<Row>): (s: seq<Row>)
    ensures |s| == |rows|
    ensures forall i :: 0 <= i < |rows| ==> s[i] == Read(rows[i])
  {
    seq(|rows|, i requires 0 <= i < |rows| => Read(rows[i]))
  }

  datatype Stored = Stored(id: int, sender: int, time: int, text: Bytes)

  function AsStored(r: Row): Stored
  {
    Stored(r.id, r.sender, r.createAt, CString(r.text))
  }

  /** A chat list entry; a peer without a user row would get an empty name. */
  datatype LastMessage = LastMessage(peerLogin: Bytes, text: Bytes, time: int)

  function AsLastMessage(users: seq<U.User>, c: Chat): LastMessage
  {
    var login := U.LoginById(users, c.peer);
    LastMessage(if login.Some? then login.value else [], CString(c.text), c.time)
  }

  function AllLastMessages(users: seq<U.User>, chats: seq<Chat>): (s: seq<LastMessage>)
    ensures |s| == |chats|
    ensures forall i :: 0 <= i < |chats| ==> s[i] == AsLastMessage(users, chats[i])
  {
    seq(|chats|, i requires 0 <= i < |chats| => AsLastMessage(users, chats[i]))
  }

  function AllStored(rows: seq<Row>): (s: seq<Stored>)
    ensures |s| == |rows|
    ensures forall i :: 0 <= i < |rows| ==> s[i] == AsStored(rows[i])
  {
    seq(|rows|, i requires 0 <= i < |rows| => AsStored(rows[i]))
  }

  class MessageRepository {
    var rows: seq<Row>
    var nextId: int

    ghost function Contents(): Mailbox
      reads this
    {
      Mailbox(rows, nextId)
    }

    constructor ()
      ensures Contents() == Mailbox([], 1)
    {
      rows, nextId := [], 1;
    }

    /** users are the ids the foreign keys accept; thrown reports a violated constraint. */
    method Save(users: set<int>, sender: int, recipient: int, message: Bytes, now: int) returns (thrown: bool, id: int)
      modifies this
      ensures var r := SaveMessage(old(Contents()), users, sender, recipient, message, now);
              && thrown == r.None?
              && Contents() == if thrown then old(Contents()) else r.value
      ensures !thrown ==> id == old(nextId)
    {
      if !(sender in users && recipient in users) {
        return true, 0;
      }
      rows := rows + [Row(nextId, sender, recipient, now, message, false)];
      id := nextId;
      nextId := nextId + 1;
      return false, id;
    }

    method GetUndelivered(recipient: int) returns (messages: seq<Stored>)
      ensures messages == AllStored(Undelivered(rows, recipient))
    {
      var stmt := Undelivered(rows, recipient);
      messages := [];
      for i := 0 to |stmt|
        invariant messages == AllStored(stmt)[..i]
      {
        var msg := Stored(stmt[i].id, stmt[i].sender, stmt[i].createAt, CString(stmt[i].text));
        messages := messages + [msg];
      }
    }

    /** The UPDATE visits every row and compares its id with the bound list. */
    method Mark(ids: seq<int>)
      modifies this
      ensures Contents() == old(Contents()).(rows := MarkDelivered(old(rows), ids))
    {
      var updated: seq<Row> := [];
      for i := 0 to |rows|
        invariant rows == old(rows) && nextId == old(nextId)
        invariant |updated| == i
        invariant forall j :: 0 <= j < i ==>
                    updated[j] == if rows[j].id in ids then rows[j].(delivered := true) else rows[j]
      {
        var r := rows[i];
        updated := updated + [if r.id in ids then r.(delivered := true) else r];
      }
      assert updated == MarkDelivered(rows, ids);
      rows := updated;
    }

    /** The statement groups in one pass over the table and then orders; the loop looks up each peer's login. */
    method GetLastMessages(users: U.UserRepository, user: int) returns (history: seq<LastMessage>)
      ensures history == AllLastMessages(users.users, LastMessages(rows, user))
    {
      var stmt := SelectLastMessages(user);
      history := [];
      for i := 0 to |stmt|
        invariant history == AllLastMessages(users.users, stmt)[..i]
      {
        var result := users.GetLoginById(stmt[i].peer);
        var peerLogin: Bytes := [];
        if result.Some? {
          peerLogin := result.value;
        }
        history := history + [LastMessage(peerLogin, CString(stmt[i].text), stmt[i].time)];
      }
    }

    method SelectLastMessages(user: int) returns (chats: seq<Chat>)
      ensures chats == LastMessages(rows, user)
    {
      var groups: seq<Chat> := [];
      assert rows[..0] == [];
      for i := 0 to |rows|
        invariant groups == Group(rows[..i], user)
      {
        assert rows[..i + 1][..i] == rows[..i];
        if Involves(rows[i], user) {
          groups := Update(groups, ChatOf(rows[i], user));
        }
      }
      assert rows[..|rows|] == rows;
      chats := SortBy(LATEST_FIRST, groups);
    }

    method GetHistory(user1: int, user2: int, limit: nat) returns (history: seq<Row>)
      ensures history == ReadAll(History(rows, user1, user2, limit))
    {
      var stmt := SortBy(BY_TIME, Conversation(rows, user1, user2));
      history := [];
      var i := 0;
      while i < |stmt| && i < limit
        invariant i <= |stmt| && i <= limit
        invariant history == ReadAll(stmt)[..i]
      {
        history := history + [stmt[i].(text := CString(stmt[i].text))];
        i := i + 1;
      }
    }
  }
}
