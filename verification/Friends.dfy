/** The friendships table, the three operations that change it and the three that read it. */
module Friends {
  import opened Protocol

  datatype Friendship = Friendship(user1: int, user2: int, status: string, initiator: int)

  type Table = seq<Friendship>

  const PENDING := "pending"
  const ACCEPTED := "accepted"

  function Normalize(a: int, b: int): (int, int)
  {
    if a < b then (a, b) else (b, a)
  }

  /** WHERE user1 = ? AND user2 = ? */
  predicate OnPair(r: Friendship, p: (int, int))
  {
    r.user1 == p.0 && r.user2 == p.1
  }

  /** The first row a SELECT on the pair steps to; pendingOnly adds AND status = 'pending'. */
  function FirstRow(t: Table, p: (int, int), pendingOnly: bool): (r: Option<Friendship>)
    ensures r.Some? ==> r.value in t && OnPair(r.value, p) && (pendingOnly ==> r.value.status == PENDING)
    ensures r.None? ==> forall x :: x in t && OnPair(x, p) ==> pendingOnly && x.status != PENDING
  {
    if t == [] then None
    else if OnPair(t[0], p) && (pendingOnly ==> t[0].status == PENDING) then Some(t[0])
    else FirstRow(t[1..], p, pendingOnly)
  }

  /** UPDATE friendships SET status = 'accepted' WHERE user1 = ? AND user2 = ? -- no condition on status. */
  function SetAccepted(t: Table, p: (int, int)): (t': Table)
    ensures |t'| == |t|
    ensures forall i :: 0 <= i < |t| ==> t'[i] == if OnPair(t[i], p) then t[i].(status := ACCEPTED) else t[i]
  {
    if t == [] then []
    else [if OnPair(t[0], p) then t[0].(status := ACCEPTED) else t[0]] + SetAccepted(t[1..], p)
  }

  /** DELETE FROM friendships WHERE user1 = ? AND user2 = ? -- no condition on status. */
  function DeletePair(t: Table, p: (int, int)): (t': Table)
    ensures forall r :: r in t' <==> r in t && !OnPair(r, p)
  {
    if t == [] then []
    else if OnPair(t[0], p) then DeletePair(t[1..], p) else [t[0]] + DeletePair(t[1..], p)
  }

  /** The table and the code a call returns, or a statement that violates a foreign key and throws. */
  datatype Write = Done(table: Table, code: ErrorCode) | Aborted

  function SendRequest(t: Table, users: set<int>, from: int, to: int): Write
  {
    if from == to then Done(t, REQUEST_TO_YOURSELF)
    else
      var p := Normalize(from, to);
      var row := FirstRow(t, p, false);
      if row.Some? && row.value.status == PENDING then Done(t, ALREADY_SENT)
      else if row.Some? && row.value.status == ACCEPTED then Done(t, ALREADY_FRIENDS)
      else if p.0 in users && p.1 in users then Done(t + [Friendship(p.0, p.1, PENDING, from)], OK)
      else Aborted
  }

  function AcceptRequest(t: Table, acceptor: int, requester: int): Write
  {
    var p := Normalize(acceptor, requester);
    var row := FirstRow(t, p, true);
    if row.None? then Done(t, ACCEPT_NONEXISTENT)
    else if row.value.initiator == acceptor then Done(t, ACCEPT_YOURSELF)
    else Done(SetAccepted(t, p), OK)
  }

  function RejectRequest(t: Table, rejecter: int, requester: int): Write
  {
    var p := Normalize(rejecter, requester);
    var row := FirstRow(t, p, true);
    if row.None? then Done(t, REJECT_NONEXISTENT)
    else if row.value.initiator == rejecter then Done(t, REJECT_YOURSELF)
    else Done(DeletePair(t, p), OK)
  }

  /** SELECT CASE WHEN user1 = ? THEN user2 ELSE user1 END ... AND status = 'accepted' */
  function FriendsOf(t: Table, id: int): seq<int>
  {
    if t == [] then [] else FriendInRow(t[0], id) + FriendsOf(t[1..], id)
  }

  function FriendInRow(r: Friendship, id: int): seq<int>
  {
    if (r.user1 == id || r.user2 == id) && r.status == ACCEPTED
    then [if r.user1 == id then r.user2 else r.user1] else []
  }

  /** SELECT initiator ... AND status = 'pending' AND initiator != ? */
  function PendingFor(t: Table, id: int): seq<int>
  {
    if t == [] then [] else PendingInRow(t[0], id) + PendingFor(t[1..], id)
  }

  function PendingInRow(r: Friendship, id: int): seq<int>
  {
    if (r.user1 == id || r.user2 == id) && r.status == PENDING && r.initiator != id then [r.initiator] else []
  }

  predicate HasAccepted(t: Table, p: (int, int))
  {
    exists r :: r in t && OnPair(r, p) && r.status == ACCEPTED
  }

  function AreFriends(t: Table, a: int, b: int): ErrorCode
  {
    if HasAccepted(t, Normalize(a, b)) then OK else NOT_FRIENDS
  }

  // ---- the table invariant -------------------------------------------------------------------

  predicate RowOk(r: Friendship)
  {
    && r.user1 < r.user2
    && (r.status == "pending" || r.status == "accepted")
    && (r.initiator == r.user1 || r.initiator == r.user2)
  }

  predicate SamePair(r: Friendship, s: Friendship)
  {
    r.user1 == s.user1 && r.user2 == s.user2
  }

  /** What the schema does not enforce: ordered pairs, one row a pair, two states, an initiator of the pair. */
  predicate FriendInv(t: Table)
  {
    && (forall i :: 0 <= i < |t| ==> RowOk(t[i]))
    && (forall i, j :: 0 <= i < j < |t| ==> !SamePair(t[i], t[j]))
  }

  datatype Op =
    | Send(users: set<int>, from: int, to: int)
    | Accept(user: int, requester: int)
    | Reject(user: int, requester: int)

  function Perform(t: Table, op: Op): Write
  {
    match op
    case Send(users, from, to) => SendRequest(t, users, from, to)
    case Accept(user, requester) => AcceptRequest(t, user, requester)
    case Reject(user, requester) => RejectRequest(t, user, requester)
  }

  /** A throwing statement leaves the table alone. */
  function Next(t: Table, op: Op): Table
  {
    var w := Perform(t, op);
    if w.Done? then w.table else t
  }

  predicate Succeeds(t: Table, op: Op)
  {
    Perform(t, op).Done? && Perform(t, op).code == OK
  }

  lemma UniqueRow(t: Table, r: Friendship, s: Friendship)
    requires FriendInv(t) && r in t && s in t && SamePair(r, s)
    ensures r == s
  {
    var i :| 0 <= i < |t| && t[i] == r;
    var j :| 0 <= j < |t| && t[j] == s;
    assert !(i < j) && !(j < i);
  }

  lemma {:induction false} DeleteKeepsInv(t: Table, p: (int, int))
    requires FriendInv(t)
    ensures FriendInv(DeletePair(t, p))
  {
    if t != [] {
      var rest := t[1..];
      DeleteKeepsInv(rest, p);
      var d := DeletePair(rest, p);
      forall j | 0 <= j < |d| ensures !SamePair(t[0], d[j]) && RowOk(t[0]) {
        assert d[j] in rest;
      }
    }
  }

  lemma AcceptKeepsInv(t: Table, p: (int, int))
    requires FriendInv(t)
    ensures FriendInv(SetAccepted(t, p))
  {
    var t' := SetAccepted(t, p);
    forall i | 0 <= i < |t'| ensures RowOk(t'[i]) {
      assert RowOk(t[i]);
    }
    forall i, j | 0 <= i < j < |t'| ensures !SamePair(t'[i], t'[j]) {
      assert !SamePair(t[i], t[j]);
    }
  }

  /** Every operation keeps the invariant, successful or not. */
  lemma OpKeepsInv(t: Table, op: Op)
    requires FriendInv(t)
    ensures FriendInv(Next(t, op))
  {
    match op
    case Send(users, from, to) =>
      var t' := Next(t, op);
      if t' != t {
        forall i | 0 <= i < |t| ensures !SamePair(t[i], t'[|t|]) {
          assert t[i] in t && RowOk(t[i]);
        }
      }
    case Accept(user, requester) => AcceptKeepsInv(t, Normalize(user, requester));
    case Reject(user, requester) => DeleteKeepsInv(t, Normalize(user, requester));
  }

  /** An accepted row is never removed or changed, although UPDATE and DELETE do not look at the status. */
  lemma AcceptedStays(t: Table, op: Op, r: Friendship)
    requires FriendInv(t) && r in t && r.status == ACCEPTED
    ensures r in Next(t, op)
  {
    if (op.Accept? || op.Reject?) && Succeeds(t, op) {
      var p := Normalize(op.user, op.requester);
      var s := FirstRow(t, p, true).value;
      if OnPair(r, p) {
        UniqueRow(t, r, s);
      }
      var i :| 0 <= i < |t| && t[i] == r;
      assert op.Accept? ==> Next(t, op)[i] == r;
    }
  }

  lemma AcceptedForever(t: Table, op: Op, a: int, b: int)
    requires FriendInv(t) && AreFriends(t, a, b) == OK
    ensures AreFriends(Next(t, op), a, b) == OK
  {
    var r :| r in t && OnPair(r, Normalize(a, b)) && r.status == ACCEPTED;
    AcceptedStays(t, op, r);
  }

  // ---- consent over whole runs ---------------------------------------------------------------

  function After(ops: seq<Op>): Table
  {
    if ops == [] then [] else Next(After(ops[..|ops| - 1]), ops[|ops| - 1])
  }

  predicate SentAt(ops: seq<Op>, p: int, from: int, to: int)
    requires 0 <= p < |ops|
  {
    ops[p].Send? && ops[p].from == from && ops[p].to == to && Succeeds(After(ops[..p]), ops[p])
  }

  predicate AcceptedAt(ops: seq<Op>, q: int, user: int, requester: int)
    requires 0 <= q < |ops|
  {
    ops[q] == Accept(user, requester) && Succeeds(After(ops[..q]), ops[q])
  }

  /** A successful reject of the request between a and b, by either of them. */
  predicate RejectedAt(ops: seq<Op>, k: int, a: int, b: int)
    requires 0 <= k < |ops|
  {
    && ops[k].Reject? && Normalize(ops[k].user, ops[k].requester) == Normalize(a, b)
    && Succeeds(After(ops[..k]), ops[k])
  }

  predicate StandingRequest(ops: seq<Op>, p: int, from: int, to: int)
    requires 0 <= p < |ops|
  {
    SentAt(ops, p, from, to) && forall k :: p < k < |ops| ==> !RejectedAt(ops, k, from, to)
  }

  predicate AcceptedAfter(ops: seq<Op>, p: int, user: int, requester: int)
    requires 0 <= p < |ops|
  {
    exists q :: p < q < |ops| && AcceptedAt(ops, q, user, requester)
  }

  function Other(r: Friendship): int
  {
    if r.initiator == r.user1 then r.user2 else r.user1
  }

  lemma {:induction false} AfterInv(ops: seq<Op>)
    ensures FriendInv(After(ops))
  {
    if ops != [] {
      AfterInv(ops[..|ops| - 1]);
      OpKeepsInv(After(ops[..|ops| - 1]), ops[|ops| - 1]);
    }
  }

  lemma HistoryExtends(ops: seq<Op>, last: Op, p: int, from: int, to: int)
    requires 0 <= p < |ops| && StandingRequest(ops, p, from, to)
    requires !RejectedAt(ops + [last], |ops|, from, to)
    ensures StandingRequest(ops + [last], p, from, to)
    ensures AcceptedAfter(ops, p, to, from) ==> AcceptedAfter(ops + [last], p, to, from)
  {
    var more := ops + [last];
    assert forall k :: 0 <= k <= |ops| ==> more[..k] == ops[..k];
    assert forall k :: p < k < |ops| && !RejectedAt(ops, k, from, to) ==> !RejectedAt(more, k, from, to);
    if AcceptedAfter(ops, p, to, from) {
      var q :| p < q < |ops| && AcceptedAt(ops, q, to, from);
      assert AcceptedAt(more, q, to, from);
    }
  }

  /** Where a row of the table comes from: a request its initiator sent, not rejected since, and accepted
      since by the other user when the row says so. */
  lemma {:induction false} RowHistory(ops: seq<Op>, r: Friendship)
    requires r in After(ops)
    ensures exists p :: 0 <= p < |ops| && StandingRequest(ops, p, r.initiator, Other(r))
                     && (r.status == ACCEPTED ==> AcceptedAfter(ops, p, Other(r), r.initiator))
  {
    AfterInv(ops);
    var init, op := ops[..|ops| - 1], ops[|ops| - 1];
    var t := After(init);
    AfterInv(init);
    assert ops == init + [op];
    assert ops[..|init|] == init;
    assert RowOk(r);
    if r in t {
      RowHistory(init, r);
      var p :| 0 <= p < |init| && StandingRequest(init, p, r.initiator, Other(r))
            && (r.status == ACCEPTED ==> AcceptedAfter(init, p, Other(r), r.initiator));
      HistoryExtends(init, op, p, r.initiator, Other(r));
      assert StandingRequest(ops, p, r.initiator, Other(r));
    } else if op.Send? {
      assert SentAt(ops, |init|, r.initiator, Other(r));
      assert StandingRequest(ops, |init|, r.initiator, Other(r));
    } else {
      assert op.Accept? && Succeeds(t, op);
      var pair := Normalize(op.user, op.requester);
      var i :| 0 <= i < |t| && Next(t, op)[i] == r;
      var s := FirstRow(t, pair, true).value;
      UniqueRow(t, t[i], s);
      RowHistory(init, s);
      var p :| 0 <= p < |init| && StandingRequest(init, p, s.initiator, Other(s));
      HistoryExtends(init, op, p, s.initiator, Other(s));
      assert AcceptedAt(ops, |init|, Other(r), r.initiator);
      assert AcceptedAfter(ops, p, Other(r), r.initiator);
      assert StandingRequest(ops, p, r.initiator, Other(r));
    }
  }

  /** Friends by consent: {a, b} is accepted with initiator a exactly when a's request succeeded, b later
      accepted it, and nobody rejected it in between. */
  lemma ConsentExactly(ops: seq<Op>, a: int, b: int)
    requires a != b
    ensures (exists r :: r in After(ops) && r.status == ACCEPTED && r.initiator == a && Other(r) == b)
       <==> (exists p :: 0 <= p < |ops| && StandingRequest(ops, p, a, b) && AcceptedAfter(ops, p, b, a))
  {
    if r :| r in After(ops) && r.status == ACCEPTED && r.initiator == a && Other(r) == b {
      RowHistory(ops, r);
    }
    if p :| 0 <= p < |ops| && StandingRequest(ops, p, a, b) && AcceptedAfter(ops, p, b, a) {
      var q :| p < q < |ops| && AcceptedAt(ops, q, b, a);
      AcceptMakesRow(ops, q, b, a);
    }
  }

  lemma {:induction false} AcceptMakesRow(ops: seq<Op>, q: int, user: int, requester: int)
    requires 0 <= q < |ops| && AcceptedAt(ops, q, user, requester)
    ensures exists r :: r in After(ops) && r.status == ACCEPTED && r.initiator == requester && Other(r) == user
    decreases |ops|
  {
    var init, op := ops[..|ops| - 1], ops[|ops| - 1];
    AfterInv(init);
    if q < |init| {
      assert init[..q] == ops[..q];
      AcceptMakesRow(init, q, user, requester);
      var r :| r in After(init) && r.status == ACCEPTED && r.initiator == requester && Other(r) == user;
      AcceptedStays(After(init), op, r);
    } else {
      var t := After(init);
      assert ops[..q] == init;
      var s := FirstRow(t, Normalize(user, requester), true).value;
      var i :| 0 <= i < |t| && t[i] == s;
      assert RowOk(s);
      var r := After(ops)[i];
      assert r == s.(status := ACCEPTED);
    }
  }

  // ---- views agree with operations -----------------------------------------------------------

  predicate AcceptedOn(r: Friendship, p: (int, int))
  {
    OnPair(r, p) && r.status == ACCEPTED
  }

  lemma CountInRow(r: Friendship, a: int, b: int)
    requires RowOk(r)
    ensures multiset(FriendInRow(r, a))[b] == if AcceptedOn(r, Normalize(a, b)) then 1 else 0
  {
  }

  /** The first row and the rest of the table cannot both be accepted on one pair. */
  lemma OnlyOneAccepted(t: Table, p: (int, int))
    requires FriendInv(t) && t != []
    ensures HasAccepted(t, p) <==> AcceptedOn(t[0], p) || HasAccepted(t[1..], p)
    ensures AcceptedOn(t[0], p) ==> !HasAccepted(t[1..], p)
  {
    var rest := t[1..];
    assert t == [t[0]] + rest;
    if AcceptedOn(t[0], p) {
      forall s | s in rest ensures !OnPair(s, p) {
        var j :| 0 <= j < |rest| && rest[j] == s;
        assert !SamePair(t[0], t[j + 1]);
      }
    }
  }

  lemma {:induction false} CountFriends(t: Table, a: int, b: int)
    requires FriendInv(t)
    ensures multiset(FriendsOf(t, a))[b] == if HasAccepted(t, Normalize(a, b)) then 1 else 0
  {
    if t != [] {
      hide FriendInRow, HasAccepted, Normalize, AcceptedOn;
      CountFriends(t[1..], a, b);
      CountInRow(t[0], a, b);
      OnlyOneAccepted(t, Normalize(a, b));
    } else {
      assert !HasAccepted(t, Normalize(a, b));
    }
  }

  /** getFriends lists b for a once if areFriends says so and otherwise not at all, symmetrically. */
  lemma FriendViewsAgree(t: Table, a: int, b: int)
    requires FriendInv(t)
    ensures multiset(FriendsOf(t, a))[b] == if AreFriends(t, a, b) == OK then 1 else 0
    ensures multiset(FriendsOf(t, a))[b] == multiset(FriendsOf(t, b))[a]
  {
    CountFriends(t, a, b);
    CountFriends(t, b, a);
    assert a != b ==> Normalize(a, b) == Normalize(b, a);
  }

  lemma {:induction false} PendingRows(t: Table, a: int, b: int)
    requires forall i :: 0 <= i < |t| ==> RowOk(t[i])
    ensures b in PendingFor(t, a) <==>
            a != b && exists r :: r in t && OnPair(r, Normalize(a, b)) && r.status == PENDING && r.initiator == b
  {
    if t != [] {
      PendingRows(t[1..], a, b);
      assert RowOk(t[0]);
      assert t == [t[0]] + t[1..];
    }
  }

  /** b is listed as pending for a exactly when a could accept b's request, and exactly when a could reject it. */
  lemma PendingViewAgrees(t: Table, a: int, b: int)
    requires FriendInv(t)
    ensures b in PendingFor(t, a) <==> Succeeds(t, Accept(a, b))
    ensures b in PendingFor(t, a) <==> Succeeds(t, Reject(a, b))
  {
    PendingRows(t, a, b);
    var p := Normalize(a, b);
    var row := FirstRow(t, p, true);
    if row.Some? {
      assert RowOk(row.value);
      forall r | r in t && OnPair(r, p) ensures r == row.value {
        UniqueRow(t, r, row.value);
      }
    }
  }

  /** Nobody can accept or reject a request they made themselves. */
  lemma NotYourOwn(t: Table, r: Friendship)
    requires FriendInv(t) && r in t && r.status == PENDING
    ensures Perform(t, Accept(r.initiator, Other(r))) == Done(t, ACCEPT_YOURSELF)
    ensures Perform(t, Reject(r.initiator, Other(r))) == Done(t, REJECT_YOURSELF)
  {
    assert RowOk(r);
    UniqueRow(t, r, FirstRow(t, Normalize(r.initiator, Other(r)), true).value);
  }

  // ---- what a successful operation achieves --------------------------------------------------

  predicate NothingBetween(t: Table, a: int, b: int)
  {
    forall r :: r in t ==> !OnPair(r, Normalize(a, b))
  }

  /** A request succeeds exactly between two different users with nothing between them (and both known), and then
      the other user has it pending. */
  lemma SendEffect(t: Table, users: set<int>, from: int, to: int)
    requires FriendInv(t) && from in users && to in users
    ensures Succeeds(t, Send(users, from, to)) <==> from != to && NothingBetween(t, from, to)
    ensures Succeeds(t, Send(users, from, to)) ==> from in PendingFor(Next(t, Send(users, from, to)), to)
  {
    var p := Normalize(from, to);
    var row := FirstRow(t, p, false);
    if row.Some? {
      var i :| 0 <= i < |t| && t[i] == row.value;
      assert RowOk(t[i]);
    }
    if Succeeds(t, Send(users, from, to)) {
      var t' := Next(t, Send(users, from, to));
      OpKeepsInv(t, Send(users, from, to));
      assert t'[|t|] in t';
      PendingRows(t', to, from);
    }
  }

  /** The code a call returns, told from the three lists the two users see. */
  function ExpectedCode(t: Table, op: Op): ErrorCode
  {
    match op
    case Send(_, a, b) =>
      if a == b then REQUEST_TO_YOURSELF
      else if b in FriendsOf(t, a) then ALREADY_FRIENDS
      else if b in PendingFor(t, a) || a in PendingFor(t, b) then ALREADY_SENT
      else OK
    case Accept(a, b) =>
      if b in PendingFor(t, a) then OK
      else if a in PendingFor(t, b) then ACCEPT_YOURSELF
      else ACCEPT_NONEXISTENT
    case Reject(a, b) =>
      if b in PendingFor(t, a) then OK
      else if a in PendingFor(t, b) then REJECT_YOURSELF
      else REJECT_NONEXISTENT
  }

  /** Every call between known users completes with the code the users' lists predict. */
  lemma CodesFollowViews(t: Table, op: Op)
    requires FriendInv(t) && (op.Send? ==> op.from in op.users && op.to in op.users)
    ensures Perform(t, op).Done? && Perform(t, op).code == ExpectedCode(t, op)
  {
    var a := if op.Send? then op.from else op.user;
    var b := if op.Send? then op.to else op.requester;
    hide FriendsOf, PendingFor;
    FriendViewsAgree(t, a, b);
    PendingRows(t, a, b);
    PendingRows(t, b, a);
    PairRow(t, Normalize(a, b), true);
    PairRow(t, Normalize(a, b), false);
  }

  /** A SELECT on a pair finds its only row. */
  lemma PairRow(t: Table, p: (int, int), pendingOnly: bool)
    requires FriendInv(t)
    ensures var row := FirstRow(t, p, pendingOnly);
            row.Some? ==> row.value in t && RowOk(row.value) && forall r :: r in t && OnPair(r, p) ==> r == row.value
  {
    var row := FirstRow(t, p, pendingOnly);
    if row.Some? {
      forall r | r in t && OnPair(r, p) ensures r == row.value {
        UniqueRow(t, r, row.value);
      }
    }
  }

  /** After a successful accept each user lists the other once and the request is no longer pending. */
  lemma AcceptEffect(t: Table, user: int, requester: int)
    requires FriendInv(t) && Succeeds(t, Accept(user, requester))
    ensures var t' := Next(t, Accept(user, requester));
            && multiset(FriendsOf(t', user))[requester] == 1 && multiset(FriendsOf(t', requester))[user] == 1
            && requester !in PendingFor(t', user)
  {
    var op := Accept(user, requester);
    var p, t' := Normalize(user, requester), Next(t, op);
    OpKeepsInv(t, op);
    var row := FirstRow(t, p, true).value;
    var i :| 0 <= i < |t| && t[i] == row;
    assert t'[i] in t' && OnPair(t'[i], p) && t'[i].status == ACCEPTED;
    assert HasAccepted(t', p);
    FriendViewsAgree(t', user, requester);
    PendingRows(t', user, requester);
    forall r | r in t' && OnPair(r, p) ensures r.status == ACCEPTED {
      UniqueRow(t', r, t'[i]);
    }
  }

  /** After a successful reject nothing is left between the two users. */
  lemma RejectEffect(t: Table, user: int, requester: int)
    requires FriendInv(t) && Succeeds(t, Reject(user, requester))
    ensures NothingBetween(Next(t, Reject(user, requester)), user, requester)
  {
  }

  /** An operation on one pair leaves every other pair as it was. */
  lemma OtherPairsUnchanged(t: Table, op: Op, r: Friendship)
    requires var a := if op.Send? then op.from else op.user;
             var b := if op.Send? then op.to else op.requester;
             !OnPair(r, Normalize(a, b))
    ensures r in Next(t, op) <==> r in t
  {
    if op.Accept? && Succeeds(t, op) {
      var p, t' := Normalize(op.user, op.requester), Next(t, op);
      if r in t {
        var i :| 0 <= i < |t| && t[i] == r;
        assert t'[i] == r;
      }
      if r in t' {
        var i :| 0 <= i < |t'| && t'[i] == r;
        assert t[i] == r;
      }
    }
  }

  // ---- the repository ------------------------------------------------------------------------

  class FriendRepository {
    var friendships: Table

    constructor ()
      ensures friendships == []
    {
      friendships := [];
    }

    /** users are the ids the foreign keys accept; thrown reports a violated constraint. */
    method SendRequest(users: set<int>, from: int, to: int) returns (thrown: bool, code: ErrorCode)
      modifies this
      ensures friendships == Next(old(friendships), Send(users, from, to))
      ensures thrown <==> Perform(old(friendships), Send(users, from, to)).Aborted?
      ensures !thrown ==> code == Perform(old(friendships), Send(users, from, to)).code
    {
      if from == to {
        return false, REQUEST_TO_YOURSELF;
      }
      var p := Normalize(from, to);
      var check := FirstRow(friendships, p, false);
      if check.Some? {
        if check.value.status == PENDING {
          return false, ALREADY_SENT;
        } else if check.value.status == ACCEPTED {
          return false, ALREADY_FRIENDS;
        }
      }
      if !(p.0 in users && p.1 in users) {
        return true, OK;
      }
      friendships := friendships + [Friendship(p.0, p.1, PENDING, from)];
      return false, OK;
    }

    method AcceptRequest(acceptor: int, requester: int) returns (code: ErrorCode)
      modifies this
      ensures Done(friendships, code) == Perform(old(friendships), Accept(acceptor, requester))
    {
      var p := Normalize(acceptor, requester);
      var check := FirstRow(friendships, p, true);
      if check.None? {
        return ACCEPT_NONEXISTENT;
      }
      if check.value.initiator == acceptor {
        return ACCEPT_YOURSELF;
      }
      friendships := SetAccepted(friendships, p);
      return OK;
    }

    method RejectRequest(rejecter: int, requester: int) returns (code: ErrorCode)
      modifies this
      ensures Done(friendships, code) == Perform(old(friendships), Reject(rejecter, requester))
    {
      var p := Normalize(rejecter, requester);
      var check := FirstRow(friendships, p, true);
      if check.None? {
        return REJECT_NONEXISTENT;
      }
      if check.value.initiator == rejecter {
        return REJECT_YOURSELF;
      }
      friendships := DeletePair(friendships, p);
      return OK;
    }

    method GetFriends(id: int) returns (friends: seq<int>)
      ensures friends == FriendsOf(friendships, id)
    {
      friends := [];
      for i := 0 to |friendships|
        invariant FriendsOf(friendships, id) == friends + FriendsOf(friendships[i..], id)
      {
        var r := friendships[i];
        assert friendships[i..][1..] == friendships[i + 1..];
        assert friends + (FriendInRow(r, id) + FriendsOf(friendships[i + 1..], id))
            == (friends + FriendInRow(r, id)) + FriendsOf(friendships[i + 1..], id);
        if (r.user1 == id || r.user2 == id) && r.status == ACCEPTED {
          friends := friends + [if r.user1 == id then r.user2 else r.user1];
        }
      }
    }

    method GetPendingIncoming(id: int) returns (requests: seq<int>)
      ensures requests == PendingFor(friendships, id)
    {
      requests := [];
      for i := 0 to |friendships|
        invariant PendingFor(friendships, id) == requests + PendingFor(friendships[i..], id)
      {
        var r := friendships[i];
        assert friendships[i..][1..] == friendships[i + 1..];
        assert requests + (PendingInRow(r, id) + PendingFor(friendships[i + 1..], id))
            == (requests + PendingInRow(r, id)) + PendingFor(friendships[i + 1..], id);
        if (r.user1 == id || r.user2 == id) && r.status == PENDING && r.initiator != id {
          requests := requests + [r.initiator];
        }
      }
    }

    method AreFriendsNow(user1: int, user2: int) returns (code: ErrorCode)
      ensures code == AreFriends(friendships, user1, user2)
    {
      var p := Normalize(user1, user2);
      for i := 0 to |friendships|
        invariant forall j :: 0 <= j < i ==> !(OnPair(friendships[j], p) && friendships[j].status == ACCEPTED)
      {
        if OnPair(friendships[i], p) && friendships[i].status == ACCEPTED {
          return OK;
        }
      }
      return NOT_FRIENDS;
    }
  }
}
