/** What holds in every state the server can reach. */
module ServerSafety {
  import opened Wire
  import opened Protocol
  import opened Server
  import Codec
  import opened Sorting
  import F = Friends
  import U = Users
  import M = Mail
  import R = Registry

  // ---- counting what was queued --------------------------------------------------------------

  predicate IsReplay(p: Posted, id: int)
  {
    p.out.ReplayPush? && p.out.row == id
  }

  predicate IsLive(p: Posted, id: int)
  {
    p.out.LivePush? && p.out.row == id
  }

  /** How often the row was queued by deliver_pending. */
  function ReplayCount(ps: seq<Posted>, id: int): nat
  {
    if ps == [] then 0 else (if IsReplay(ps[0], id) then 1 else 0) + ReplayCount(ps[1..], id)
  }

  /** How often the row was queued when it was saved. */
  function LiveCount(ps: seq<Posted>, id: int): nat
  {
    if ps == [] then 0 else (if IsLive(ps[0], id) then 1 else 0) + LiveCount(ps[1..], id)
  }

  lemma {:induction false} CountsAppend(ps: seq<Posted>, qs: seq<Posted>, id: int)
    ensures ReplayCount(ps + qs, id) == ReplayCount(ps, id) + ReplayCount(qs, id)
    ensures LiveCount(ps + qs, id) == LiveCount(ps, id) + LiveCount(qs, id)
  {
    if ps == [] {
      assert ps + qs == qs;
    } else {
      assert (ps + qs)[1..] == ps[1..] + qs;
      CountsAppend(ps[1..], qs, id);
    }
  }

  predicate NoMessages(ps: seq<Posted>)
  {
    forall p :: p in ps ==> !p.out.ReplayPush? && !p.out.LivePush?
  }

  lemma {:induction false} NoMessagesCount(ps: seq<Posted>, id: int)
    requires NoMessages(ps)
    ensures ReplayCount(ps, id) == 0 && LiveCount(ps, id) == 0
  {
    if ps != [] {
      assert forall p :: p in ps[1..] ==> p in ps;
      NoMessagesCount(ps[1..], id);
    }
  }

  // ---- the invariant, one predicate a concern ------------------------------------------------

  predicate FriendsOk(friends: F.Table, users: seq<U.User>)
  {
    && F.FriendInv(friends)
    && forall r :: r in friends ==> r.user1 in U.Ids(users) && r.user2 in U.Ids(users)
  }

  /** Every stored message joins two distinct existing users who are friends now. */
  predicate MailOk(mail: M.Mailbox, friends: F.Table, users: seq<U.User>)
  {
    && M.RowsInv(mail)
    && forall r :: r in mail.rows ==>
         && r.sender in U.Ids(users) && r.recipient in U.Ids(users)
         && r.sender != r.recipient
         && F.AreFriends(friends, r.sender, r.recipient) == OK
  }

  /** Sends so far of a stored row: at most one live, and one replay exactly when it is marked delivered. */
  predicate RowAccount(r: M.Row, posted: seq<Posted>)
  {
    && LiveCount(posted, r.id) <= 1
    && ReplayCount(posted, r.id) == if r.delivered then 1 else 0
  }

  /** A copy that was queued names a stored row and repeats it; a replay went to its recipient's login. */
  predicate Truthful(o: Out, rows: seq<M.Row>, users: seq<U.User>)
  {
    match o
    case ReplayPush(id, login, sender, text, time) =>
      exists r :: r in rows && r.id == id && CString(r.text) == text && r.createAt == time
               && U.LoginById(users, r.sender) == Some(sender) && NamedBy(users, login, r.recipient)
    case LivePush(id, sender, text) =>
      exists r :: r in rows && r.id == id && r.text == text && NamedBy(users, sender, r.sender)
    case _ => true
  }

  predicate NamedBy(users: seq<U.User>, login: Bytes, id: int)
  {
    U.ByLogin(users, login).Some? && U.ByLogin(users, login).value.id == id
  }

  ghost predicate LedgerOk(mail: M.Mailbox, posted: seq<Posted>, users: seq<U.User>)
  {
    && (forall r :: r in mail.rows ==> RowAccount(r, posted))
    && (forall id :: id >= mail.nextId ==> LiveCount(posted, id) == 0 && ReplayCount(posted, id) == 0)
    && (forall p :: p in posted ==> Truthful(p.out, mail.rows, users))
  }

  predicate SidsOk(online: R.Online, live: map<Sid, Session>, nextSid: Sid, posted: seq<Posted>)
  {
    && R.Distinct(online)
    && (forall e :: e in online ==> e.sid < nextSid)
    && (forall s :: s in live ==> s < nextSid)
    && (forall p :: p in posted ==> p.to < nextSid)
  }

  ghost predicate Inv(w: World)
  {
    && U.AccountsInv(w.accounts)
    && FriendsOk(w.friends, w.accounts.users)
    && MailOk(w.mail, w.friends, w.accounts.users)
    && LedgerOk(w.mail, w.posted, w.accounts.users)
    && SidsOk(w.online, w.live, w.nextSid, w.posted)
  }

  // ---- each concern survives each kind of change ---------------------------------------------

  lemma {:induction false} LookupsExtend(users: seq<U.User>, more: seq<U.User>, login: Bytes)
    requires users <= more
    ensures U.ByLogin(users, login).Some? ==> U.ByLogin(more, login) == U.ByLogin(users, login)
  {
    if users != [] {
      assert users[1..] <= more[1..] && users[0] == more[0];
      LookupsExtend(users[1..], more[1..], login);
    }
  }

  lemma {:induction false} IdsExtend(users: seq<U.User>, more: seq<U.User>, id: int)
    requires users <= more
    ensures U.ById(users, id).Some? ==> U.ById(more, id) == U.ById(users, id)
  {
    if users != [] {
      assert users[1..] <= more[1..] && users[0] == more[0];
      IdsExtend(users[1..], more[1..], id);
    }
  }

  lemma TruthExtends(o: Out, rows: seq<M.Row>, rows': seq<M.Row>, users: seq<U.User>, more: seq<U.User>)
    requires Truthful(o, rows, users) && users <= more
    requires forall r :: r in rows ==> r in rows' || r.(delivered := true) in rows'
    ensures Truthful(o, rows', more)
  {
    match o
    case ReplayPush(id, login, sender, text, time) =>
      var r :| r in rows && r.id == id && CString(r.text) == text && r.createAt == time
            && U.LoginById(users, r.sender) == Some(sender) && NamedBy(users, login, r.recipient);
      IdsExtend(users, more, r.sender);
      LookupsExtend(users, more, login);
      assert NamedBy(more, login, r.recipient);
      var r' := if r in rows' then r else r.(delivered := true);
      assert r' in rows';
    case LivePush(id, sender, text) =>
      var r :| r in rows && r.id == id && r.text == text && NamedBy(users, sender, r.sender);
      LookupsExtend(users, more, sender);
      assert NamedBy(more, sender, r.sender);
      var r' := if r in rows' then r else r.(delivered := true);
      assert r' in rows';
    case _ =>
  }

  /** Only accounts change, and only by adding users or changing tokens. */
  lemma AccountsChange(w: World, a: U.Accounts)
    requires Inv(w) && U.AccountsInv(a) && w.accounts.users <= a.users
    ensures Inv(WithAccounts(w, a))
  {
    assert forall u :: u in w.accounts.users ==> u in a.users;
    forall p | p in w.posted ensures Truthful(p.out, w.mail.rows, a.users) {
      TruthExtends(p.out, w.mail.rows, w.mail.rows, w.accounts.users, a.users);
    }
  }

  /** Packets other than direct messages are posted to known sessions. */
  lemma PushChange(w: World, ps: seq<Posted>)
    requires Inv(w) && NoMessages(ps) && forall p :: p in ps ==> p.to < w.nextSid
    ensures Inv(w.(posted := w.posted + ps))
  {
    forall id ensures ReplayCount(w.posted + ps, id) == ReplayCount(w.posted, id)
                   && LiveCount(w.posted + ps, id) == LiveCount(w.posted, id) {
      CountsAppend(w.posted, ps, id);
      NoMessagesCount(ps, id);
    }
    assert forall r :: r in w.mail.rows && RowAccount(r, w.posted) ==> RowAccount(r, w.posted + ps);
  }

  lemma NoticeChange(w: World, login: Bytes, kind: PacketType)
    requires Inv(w)
    ensures Inv(PostToLogin(w, login, Notice(kind)))
  {
    var s := R.SessionOf(w.online, w.live.Keys, login);
    if s.Some? {
      PushChange(w, [Posted(s.value, Notice(kind))]);
    }
  }

  lemma SendKeepsKnown(t: F.Table, op: F.Op, users: seq<U.User>)
    requires FriendsOk(t, users) && (op.Send? ==> op.users == U.Ids(users))
    ensures FriendsOk(F.Next(t, op), users)
  {
    F.OpKeepsInv(t, op);
    var t' := F.Next(t, op);
    forall r | r in t' ensures r.user1 in U.Ids(users) && r.user2 in U.Ids(users) {
      if op.Accept? && r !in t {
        var i :| 0 <= i < |t'| && t'[i] == r;
        assert t[i] in t;
      }
    }
  }

  lemma FriendChange(w: World, op: F.Op)
    requires Inv(w) && (op.Send? ==> op.users == U.Ids(w.accounts.users))
    ensures Inv(w.(friends := F.Next(w.friends, op)))
  {
    SendKeepsKnown(w.friends, op, w.accounts.users);
    forall r | r in w.mail.rows ensures F.AreFriends(F.Next(w.friends, op), r.sender, r.recipient) == OK {
      F.AcceptedForever(w.friends, op, r.sender, r.recipient);
    }
  }

  lemma FriendsDiffer(t: F.Table, a: int, b: int)
    requires F.FriendInv(t) && F.AreFriends(t, a, b) == OK
    ensures a != b
  {
    var r :| r in t && F.OnPair(r, F.Normalize(a, b)) && r.status == F.ACCEPTED;
    assert F.RowOk(r);
  }

  /** A direct message between friends is saved; no copy is sent yet. */
  lemma SaveChange(w: World, sender: int, recipient: int, text: Bytes, time: int)
    requires Inv(w) && F.AreFriends(w.friends, sender, recipient) == OK
    requires M.SaveMessage(w.mail, U.Ids(w.accounts.users), sender, recipient, text, time).Some?
    ensures Inv(w.(mail := M.SaveMessage(w.mail, U.Ids(w.accounts.users), sender, recipient, text, time).value))
    ensures LiveCount(w.posted, w.mail.nextId) == 0
  {
    var mail' := M.SaveMessage(w.mail, U.Ids(w.accounts.users), sender, recipient, text, time).value;
    M.SaveKeepsInv(w.mail, U.Ids(w.accounts.users), sender, recipient, text, time);
    FriendsDiffer(w.friends, sender, recipient);
    forall p | p in w.posted ensures Truthful(p.out, mail'.rows, w.accounts.users) {
      TruthExtends(p.out, w.mail.rows, mail'.rows, w.accounts.users, w.accounts.users);
    }
  }

  /** The live copy of the row just saved. */
  lemma LiveChange(w: World, to: Sid, r: M.Row, sender: Bytes)
    requires Inv(w) && to in w.live && r in w.mail.rows
    requires LiveCount(w.posted, r.id) == 0 && NamedBy(w.accounts.users, sender, r.sender)
    ensures Inv(Post(w, to, LivePush(r.id, sender, r.text)))
  {
    var p := Posted(to, LivePush(r.id, sender, r.text));
    var posted' := w.posted + [p];
    forall id ensures ReplayCount(posted', id) == ReplayCount(w.posted, id)
                   && LiveCount(posted', id) == LiveCount(w.posted, id) + if id == r.id then 1 else 0 {
      CountsAppend(w.posted, [p], id);
      assert ReplayCount([p], id) == 0 + ReplayCount([], id);
    }
    forall s | s in w.mail.rows ensures RowAccount(s, posted') {
      assert RowAccount(s, w.posted);
    }
    assert r.id < w.mail.nextId;
  }

  // ---- offline delivery ----------------------------------------------------------------------

  function IdCount(rows: seq<M.Row>, id: int): nat
  {
    if rows == [] then 0 else (if rows[0].id == id then 1 else 0) + IdCount(rows[1..], id)
  }

  lemma {:induction false} IdCountInsert(x: M.Row, s: seq<M.Row>, id: int)
    ensures IdCount(Insert(M.BY_TIME, x, s), id) == IdCount(s, id) + if x.id == id then 1 else 0
  {
    if s != [] && !(M.BY_TIME(x) <= M.BY_TIME(s[0])) {
      IdCountInsert(x, s[1..], id);
    }
  }

  lemma {:induction false} IdCountSort(s: seq<M.Row>, id: int)
    ensures IdCount(SortBy(M.BY_TIME, s), id) == IdCount(s, id)
  {
    if s != [] {
      IdCountSort(s[1..], id);
      IdCountInsert(s[0], SortBy(M.BY_TIME, s[1..]), id);
    }
  }

  predicate HasWaiting(rows: seq<M.Row>, recipient: int, id: int)
  {
    exists r :: r in rows && r.id == id && M.WaitsFor(r, recipient)
  }

  lemma HasWaitingSplit(m: M.Mailbox, recipient: int, id: int)
    requires M.RowsInv(m) && m.rows != []
    ensures var here := m.rows[0].id == id && M.WaitsFor(m.rows[0], recipient);
            && (HasWaiting(m.rows, recipient, id) <==> here || HasWaiting(m.rows[1..], recipient, id))
            && (here ==> !HasWaiting(m.rows[1..], recipient, id))
  {
    var r, rest := m.rows[0], m.rows[1..];
    assert m.rows == [r] + rest;
    forall s | s in rest ensures s.id != r.id {
      var k :| 0 <= k < |rest| && rest[k] == s;
      assert m.rows[k + 1] == s;
    }
  }

  /** Each waiting row is listed once, and no other id is. */
  lemma {:induction false} IdCountWaiting(m: M.Mailbox, recipient: int, id: int)
    requires M.RowsInv(m)
    ensures IdCount(M.Waiting(m.rows, recipient), id) == if HasWaiting(m.rows, recipient, id) then 1 else 0
    decreases |m.rows|
  {
    if m.rows != [] {
      hide HasWaiting;
      IdCountWaiting(m.(rows := m.rows[1..]), recipient, id);
      HasWaitingSplit(m, recipient, id);
      var r, later := m.rows[0], M.Waiting(m.rows[1..], recipient);
      assert ([r] + later)[1..] == later && [] + later == later;
    } else {
      assert !HasWaiting(m.rows, recipient, id);
    }
  }

  lemma {:induction false} ReplaysCount(users: seq<U.User>, sid: Sid, login: Bytes, rows: seq<M.Row>, id: int)
    requires Replays(users, sid, login, rows).Some?
    ensures ReplayCount(Replays(users, sid, login, rows).value, id) == IdCount(rows, id)
    ensures LiveCount(Replays(users, sid, login, rows).value, id) == 0
  {
    if rows != [] {
      ReplaysCount(users, sid, login, rows[1..], id);
      var out := Replays(users, sid, login, rows).value;
      assert out[1..] == Replays(users, sid, login, rows[1..]).value;
    }
  }

  /** One packet a row, in the order of the rows, all to one session. */
  lemma {:induction false} ReplaysAre(users: seq<U.User>, sid: Sid, login: Bytes, rows: seq<M.Row>)
    requires Replays(users, sid, login, rows).Some?
    ensures var ps := Replays(users, sid, login, rows).value;
            && |ps| == |rows|
            && forall i :: 0 <= i < |ps| ==>
                 && ps[i].to == sid && ps[i].out.ReplayPush? && ps[i].out.row == rows[i].id
                 && ps[i].out.login == login && ps[i].out.text == CString(rows[i].text)
                 && ps[i].out.time == rows[i].createAt
                 && U.LoginById(users, rows[i].sender) == Some(ps[i].out.sender)
  {
    if rows != [] {
      ReplaysAre(users, sid, login, rows[1..]);
    }
  }

  lemma {:induction false} ReplaysExist(users: seq<U.User>, sid: Sid, login: Bytes, rows: seq<M.Row>)
    requires forall r :: r in rows ==> r.sender in U.Ids(users)
    ensures Replays(users, sid, login, rows).Some?
  {
    if rows != [] {
      assert rows[0] in rows && forall r :: r in rows[1..] ==> r in rows;
      ReplaysExist(users, sid, login, rows[1..]);
    }
  }

  lemma WaitingRow(m: M.Mailbox, me: int, r: M.Row)
    requires M.RowsInv(m) && r in m.rows
    ensures HasWaiting(m.rows, me, r.id) <==> M.WaitsFor(r, me)
  {
    if s :| s in m.rows && s.id == r.id && M.WaitsFor(s, me) {
      M.SameId(m, s, r);
    }
  }

  lemma DeliverRowAccounts(w: World, sid: Sid, me: int, out: seq<Posted>, login: Bytes)
    requires Inv(w)
    requires Replays(w.accounts.users, sid, login, M.Undelivered(w.mail.rows, me)) == Some(out)
    ensures var rows' := M.MarkDelivered(w.mail.rows, M.IdsOf(M.Undelivered(w.mail.rows, me)));
            && (forall r :: r in rows' ==> RowAccount(r, w.posted + out))
            && (forall id :: id >= w.mail.nextId ==>
                  LiveCount(w.posted + out, id) == 0 && ReplayCount(w.posted + out, id) == 0)
  {
    hide ReplayCount, LiveCount, M.WaitsFor, HasWaiting, Inv, M.Undelivered, M.MarkDelivered, M.RowsInv, Replays;
    InvMail(w);
    var rows' := M.MarkDelivered(w.mail.rows, M.IdsOf(M.Undelivered(w.mail.rows, me)));
    M.MarkingDelivers(w.mail, me, me);
    forall r | r in rows' ensures RowAccount(r, w.posted + out) {
      var i :| 0 <= i < |rows'| && rows'[i] == r;
      var before := w.mail.rows[i];
      assert before in w.mail.rows;
      DeliverCounts(w, sid, me, out, login, r.id);
      WaitingRow(w.mail, me, before);
      WaitsIff(before, me);
    }
    forall id | id >= w.mail.nextId
      ensures LiveCount(w.posted + out, id) == 0 && ReplayCount(w.posted + out, id) == 0
    {
      DeliverCounts(w, sid, me, out, login, id);
      NoneWaitingAbove(w.mail, me, id);
    }
  }

  lemma InvMail(w: World)
    requires Inv(w)
    ensures M.RowsInv(w.mail)
    ensures forall r :: r in w.mail.rows ==> RowAccount(r, w.posted)
    ensures forall id :: id >= w.mail.nextId ==> LiveCount(w.posted, id) == 0 && ReplayCount(w.posted, id) == 0
  {
  }

  lemma WaitsIff(r: M.Row, me: int)
    ensures M.WaitsFor(r, me) <==> r.recipient == me && !r.delivered
  {
  }

  lemma NoneWaitingAbove(m: M.Mailbox, me: int, id: int)
    requires M.RowsInv(m) && id >= m.nextId
    ensures !HasWaiting(m.rows, me, id)
  {
  }

  lemma DeliverCounts(w: World, sid: Sid, me: int, out: seq<Posted>, login: Bytes, id: int)
    requires Inv(w)
    requires Replays(w.accounts.users, sid, login, M.Undelivered(w.mail.rows, me)) == Some(out)
    ensures LiveCount(w.posted + out, id) == LiveCount(w.posted, id)
    ensures ReplayCount(w.posted + out, id)
         == ReplayCount(w.posted, id) + if HasWaiting(w.mail.rows, me, id) then 1 else 0
  {
    CountsAppend(w.posted, out, id);
    ReplaysCount(w.accounts.users, sid, login, M.Undelivered(w.mail.rows, me), id);
    IdCountSort(M.Waiting(w.mail.rows, me), id);
    IdCountWaiting(w.mail, me, id);
  }

  lemma DeliverTruthful(w: World, sid: Sid, login: Bytes, me: int, out: seq<Posted>)
    requires Inv(w) && NamedBy(w.accounts.users, login, me)
    requires Replays(w.accounts.users, sid, login, M.Undelivered(w.mail.rows, me)) == Some(out)
    ensures var rows' := M.MarkDelivered(w.mail.rows, M.IdsOf(M.Undelivered(w.mail.rows, me)));
            forall p :: p in w.posted + out ==> Truthful(p.out, rows', w.accounts.users)
  {
    var users, due := w.accounts.users, M.Undelivered(w.mail.rows, me);
    var rows' := M.MarkDelivered(w.mail.rows, M.IdsOf(due));
    forall r | r in w.mail.rows ensures r in rows' || r.(delivered := true) in rows' {
      var i :| 0 <= i < |w.mail.rows| && w.mail.rows[i] == r;
      assert rows'[i] in rows';
    }
    M.UndeliveredIs(w.mail.rows, me);
    ReplaysAre(users, sid, login, due);
    forall p | p in w.posted + out ensures Truthful(p.out, rows', users) {
      if p in out {
        var i :| 0 <= i < |out| && out[i] == p;
        var r := due[i];
        assert r in due;
        assert Truthful(p.out, w.mail.rows, users);
      }
      TruthExtends(p.out, w.mail.rows, rows', users, users);
    }
  }

  /** deliver_pending never fails for a known login and keeps the books. */
  lemma DeliverKeeps(w: World, sid: Sid)
    requires Inv(w) && sid in w.live && U.ByLogin(w.accounts.users, w.live[sid].login).Some?
    ensures DeliverPending(w, sid).Some?
    ensures Inv(DeliverPending(w, sid).value)
    ensures var me := U.ByLogin(w.accounts.users, w.live[sid].login).value.id;
            M.Undelivered(DeliverPending(w, sid).value.mail.rows, me) == []
  {
    hide M.Undelivered, M.MarkDelivered, M.RowsInv, RowAccount, Truthful, F.AreFriends, F.FriendInv, U.AccountsInv;
    hide LiveCount, ReplayCount;
    var login := w.live[sid].login;
    var me := U.ByLogin(w.accounts.users, login).value.id;
    var due := M.Undelivered(w.mail.rows, me);
    M.UndeliveredIs(w.mail.rows, me);
    ReplaysExist(w.accounts.users, sid, login, due);
    var out := Replays(w.accounts.users, sid, login, due).value;
    var rows' := M.MarkDelivered(w.mail.rows, M.IdsOf(due));
    M.MarkingDelivers(w.mail, me, me);
    M.MarkKeepsInv(w.mail, M.IdsOf(due));
    DeliverRowAccounts(w, sid, me, out, login);
    DeliverTruthful(w, sid, login, me, out);
    ReplaysAre(w.accounts.users, sid, login, due);
    forall r | r in rows'
      ensures r.sender in U.Ids(w.accounts.users) && r.recipient in U.Ids(w.accounts.users)
      ensures r.sender != r.recipient && F.AreFriends(w.friends, r.sender, r.recipient) == OK
    {
      var i :| 0 <= i < |rows'| && rows'[i] == r;
      assert w.mail.rows[i] in w.mail.rows;
    }
  }

  /** What follows is_auth_success completes exactly for a known login; otherwise nothing has happened yet. */
  lemma AuthenticateKeeps(w: World, sid: Sid, login: Bytes)
    requires Inv(w) && sid in w.live
    ensures Authenticate(w, sid, login).Some? <==> U.ByLogin(w.accounts.users, login).Some?
    ensures Authenticate(w, sid, login).Some? ==>
              var w' := Authenticate(w, sid, login).value;
              && Inv(w') && sid in w'.live
              && M.Undelivered(w'.mail.rows, U.ByLogin(w.accounts.users, login).value.id) == []
    ensures Authenticate(w, sid, login).None? ==>
              var w' := DeliveryBroken(WithLogin(w, sid, login), sid);
              Inv(w') && w' == WithLogin(w, sid, login)
  {
    var w1 := WithLogin(w, sid, login);
    TokenFieldKeeps(w, sid, w.live[sid].(login := login));
    if U.ByLogin(w.accounts.users, login).Some? {
      DeliverKeeps(w1, sid);
      R.PutKeepsDistinct(w1.online, login, sid);
    }
  }

  // ---- every handler and every event keeps the invariant --------------------------------------

  lemma TokenCheckKeeps(w: World, token: Bytes, now: int)
    requires Inv(w)
    ensures Inv(WithAccounts(w, U.LoginByToken(w.accounts, token, now).accounts))
    ensures U.LoginByToken(w.accounts, token, now).accounts.users == w.accounts.users
  {
    U.LookupKeepsInv(w.accounts, token, now);
    AccountsChange(w, U.LoginByToken(w.accounts, token, now).accounts);
  }

  lemma TokenFieldKeeps(w: World, sid: Sid, s: Session)
    requires Inv(w) && sid in w.live
    ensures Inv(w.(live := w.live[sid := s]))
  {
  }

  lemma RegisterKeeps(w: World, sid: Sid, f: seq<Bytes>, env: Env)
    requires Inv(w) && sid in w.live && |f| == 2
    ensures Inv(HandleRegister(w, sid, f, env).world)
  {
    var r := U.RegisterUser(w.accounts, f[0], f[1], env.salt);
    U.RegisterKeepsInv(w.accounts, f[0], f[1], env.salt);
    AccountsChange(w, r.accounts);
    assert w.accounts.users <= r.accounts.users;
    var v := U.VerifyUser(r.accounts, f[0], f[1], env.token, env.now);
    if r.code == OK && v.Issued? {
      U.VerifyKeepsInv(r.accounts, f[0], f[1], env.token, env.now);
      AccountsChange(w, v.accounts);
      TokenFieldKeeps(WithAccounts(w, v.accounts), sid, w.live[sid].(token := env.token));
    }
  }

  lemma LoginKeeps(w: World, sid: Sid, f: seq<Bytes>, env: Env)
    requires Inv(w) && sid in w.live && |f| == 2
    ensures Inv(HandleLogin(w, sid, f, env).world)
  {
    var v := U.VerifyUser(w.accounts, f[0], f[1], env.token, env.now);
    if v.Issued? {
      U.VerifyKeepsInv(w.accounts, f[0], f[1], env.token, env.now);
      AccountsChange(w, v.accounts);
      TokenFieldKeeps(WithAccounts(w, v.accounts), sid, w.live[sid].(token := env.token));
    }
  }

  lemma {:induction false} ReceiversKnown(reg: R.Online, live: set<nat>, sender: Bytes)
    ensures forall s :: s in R.Receivers(reg, live, sender) ==> s in live
  {
    if reg != [] {
      ReceiversKnown(reg[1..], live, sender);
    }
  }

  lemma MessageKeeps(w: World, f: seq<Bytes>, env: Env)
    requires Inv(w) && |f| == 2
    ensures Inv(HandleMessage(w, f, env).world)
  {
    TokenCheckKeeps(w, f[0], env.now);
    var l := U.LoginByToken(w.accounts, f[0], env.now);
    var w1 := WithAccounts(w, l.accounts);
    if l.result.LoggedIn? {
      var to := R.Receivers(w.online, w.live.Keys, l.result.login);
      ReceiversKnown(w.online, w.live.Keys, l.result.login);
      var ps := PostAll(to, ChatPush(l.result.login, f[1]));
      forall p | p in ps ensures !p.out.ReplayPush? && !p.out.LivePush? && p.to < w.nextSid {
        var i :| 0 <= i < |ps| && ps[i] == p;
        assert to[i] in to;
      }
      PushChange(w1, ps);
    }
  }

  lemma FriendActKeeps(w: World, t: PacketType, sender: int, target: int, login: Bytes)
    requires Inv(w) && (t.FriendRequest? || t.FriendAccept? || t.FriendReject?)
    ensures var r := F.Perform(w.friends, FriendOp(w, t, sender, target));
            r.Done? ==> Inv(w.(friends := r.table))
                        && Inv(PostToLogin(w.(friends := r.table), login, Notice(NoticeOf(t))))
  {
    hide Inv, F.Perform;
    var op := FriendOp(w, t, sender, target);
    FriendChange(w, op);
    NoticeChange(w.(friends := F.Next(w.friends, op)), login, NoticeOf(t));
  }

  lemma FriendKeeps(w: World, t: PacketType, f: seq<Bytes>, env: Env)
    requires Inv(w) && (t.FriendRequest? || t.FriendAccept? || t.FriendReject?) && |f| == 2
    ensures Inv(HandleFriend(w, t, f, env).world)
  {
    hide Inv, F.Perform, PostToLogin, FriendOp;
    TokenCheckKeeps(w, f[0], env.now);
    var l := U.LoginByToken(w.accounts, f[0], env.now);
    var w1 := WithAccounts(w, l.accounts);
    if l.result.LoggedIn? {
      var sender, target := U.ByLogin(w1.accounts.users, l.result.login), U.ByLogin(w1.accounts.users, f[1]);
      if target.Some? && sender.Some? {
        FriendActKeeps(w1, t, sender.value.id, target.value.id, f[1]);
      }
    }
  }

  lemma DirectMessageKeeps(w: World, f: seq<Bytes>, env: Env)
    requires Inv(w) && |f| == 3
    ensures Inv(HandleDirectMessage(w, f, env).world)
  {
    hide Inv;
    TokenCheckKeeps(w, f[0], env.now);
    var l := U.LoginByToken(w.accounts, f[0], env.now);
    var w1 := WithAccounts(w, l.accounts);
    var h := HandleDirectMessage(w, f, env);
    if l.result.LoggedIn? && h.Handled? && h.response == [Codec.CodeV(OK)] {
      var users := w1.accounts.users;
      var recipient, sender := U.ByLogin(users, f[1]).value.id, U.ByLogin(users, l.result.login).value.id;
      SaveChange(w1, sender, recipient, f[2], env.saveTime);
      var w2 := w1.(mail := M.SaveMessage(w1.mail, U.Ids(users), sender, recipient, f[2], env.saveTime).value);
      var row := w2.mail.rows[|w1.mail.rows|];
      assert row in w2.mail.rows && row.id == w1.mail.nextId;
      var s := R.SessionOf(w2.online, w2.live.Keys, f[1]);
      if s.Some? {
        LiveChange(w2, s.value, row, l.result.login);
      }
    }
  }

  lemma LogoutKeeps(w: World, sid: Sid, f: seq<Bytes>)
    requires Inv(w) && sid in w.live && |f| == 1
    ensures Inv(HandleLogout(w, sid, f).world)
  {
    AccountsChange(w, U.RevokeToken(w.accounts, f[0]));
    TokenFieldKeeps(WithAccounts(w, U.RevokeToken(w.accounts, f[0])), sid, Session([], []));
  }

  lemma DispatchKeeps(w: World, sid: Sid, t: PacketType, body: Bytes, env: Env)
    requires Inv(w) && sid in w.live
    ensures Inv(Dispatch(w, sid, t, body, env).world)
  {
    var parsed := ParseRequest(t, body);
    if parsed.Some? {
      var f := parsed.value;
      match t
      case Register => RegisterKeeps(w, sid, f, env);
      case Login => LoginKeeps(w, sid, f, env);
      case Message => MessageKeeps(w, f, env);
      case FriendRequest => FriendKeeps(w, t, f, env);
      case FriendAccept => FriendKeeps(w, t, f, env);
      case FriendReject => FriendKeeps(w, t, f, env);
      case DirectMessage => DirectMessageKeeps(w, f, env);
      case Logout => LogoutKeeps(w, sid, f);
      case TokenVerify =>
        TokenCheckKeeps(w, f[0], env.now);
        TokenFieldKeeps(WithAccounts(w, U.LoginByToken(w.accounts, f[0], env.now).accounts), sid,
                        w.live[sid].(token := f[0]));
      case Upload => TokenCheckKeeps(w, f[0], env.now);
      case Download => TokenCheckKeeps(w, f[0], env.now);
      case FriendList => TokenCheckKeeps(w, f[0], env.now);
      case MessageHistory => TokenCheckKeeps(w, f[0], env.now);
      case ChatList => TokenCheckKeeps(w, f[0], env.now);
      case _ =>
    }
  }

  /** Whether handling a packet completes or throws, what it leaves keeps the invariant. */
  lemma PacketKeeps(w: World, sid: Sid, t: PacketType, body: Bytes, env: Env)
    requires Inv(w) && sid in w.live
    ensures HandlePacket(w, sid, t, body, env).Some? ==> Inv(HandlePacket(w, sid, t, body, env).value)
    ensures HandlePacket(w, sid, t, body, env).None? ==> Inv(BrokenState(w, sid, t, body, env))
  {
    hide Inv, Dispatch, Authenticate, DeliveryBroken;
    DispatchKeeps(w, sid, t, body, env);
    var h := Dispatch(w, sid, t, body, env);
    if h.Handled? {
      var w2 := h.world;
      if h.login.Some? {
        AuthenticateKeeps(h.world, sid, h.login.value);
        if Authenticate(h.world, sid, h.login.value).Some? {
          w2 := Authenticate(h.world, sid, h.login.value).value;
        }
      }
      ReplyChange(w2, sid, Reply(t, h.response));
    }
  }

  lemma ReplyChange(w: World, sid: Sid, o: Out)
    requires Inv(w) && sid in w.live && o.Reply?
    ensures Inv(Post(w, sid, o))
  {
    PushChange(w, [Posted(sid, o)]);
  }

  lemma StepKeeps(w: World, e: Event)
    requires Inv(w) && Step(w, e).Some?
    ensures Inv(Step(w, e).value)
  {
    match e
    case Connect =>
    case Receive(sid, t, body, env) => PacketKeeps(w, sid, t, body, env);
    case Disconnect(sid) => R.EraseKeepsDistinct(w.online, w.live[sid].login);
    case CleanTokens(now) => AccountsChange(w, U.CleanExpired(w.accounts, now));
    case Restart(now) => RestartKeeps(w, now);
    case Crash(sid, t, body, env, later) =>
      PacketKeeps(w, sid, t, body, env);
      RestartKeeps(BrokenState(w, sid, t, body, env), later);
  }

  lemma RestartKeeps(w: World, now: int)
    requires Inv(w)
    ensures Inv(Restarted(w, now))
  {
    AccountsChange(w, U.CleanExpired(w.accounts, now));
  }

  /** The invariant holds in every reachable state, through restarts and crashes. */
  lemma {:induction false} RunKeeps(sha256: Bytes -> ZeroFree, es: seq<Event>)
    requires Run(sha256, es).Some?
    ensures Inv(Run(sha256, es).value)
  {
    if es != [] {
      RunKeeps(sha256, es[..|es| - 1]);
      StepKeeps(Run(sha256, es[..|es| - 1]).value, es[|es| - 1]);
    }
  }
}
