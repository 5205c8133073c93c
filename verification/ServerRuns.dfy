/** The main results about whole runs of the server. */
module ServerRuns {
  import opened Wire
  import opened Codec
  import opened Protocol
  import opened Server
  import opened ServerSafety
  import opened ServerOutput
  import F = Friends
  import U = Users
  import M = Mail
  import R = Registry

  // ---- what one event can do to each table ---------------------------------------------------

  predicate FriendKind(t: PacketType)
  {
    t.FriendRequest? || t.FriendAccept? || t.FriendReject?
  }

  /** The friendship operation an event performs, judged before it: the authenticated user's id first. */
  function FriendOpOf(w: World, e: Event): Option<F.Op>
  {
    if e.Receive? && FriendKind(e.kind) then
      var parsed := ParseRequest(e.kind, e.body);
      if parsed.None? then None
      else
        var f := parsed.value;
        var l := U.LoginByToken(w.accounts, f[0], e.env.now).result;
        if l.Refused? then None
        else
          var sender, target := U.ByLogin(w.accounts.users, l.login), U.ByLogin(w.accounts.users, f[1]);
          if sender.None? || target.None? then None
          else Some(FriendOp(w, e.kind, sender.value.id, target.value.id))
    else None
  }

  function NextFriends(t: F.Table, op: Option<F.Op>): F.Table
  {
    if op.Some? then F.Next(t, op.value) else t
  }

  /** Rows are added at the end and nothing but the delivered flag of a row ever changes, from false to true. */
  predicate MailGrows(a: seq<M.Row>, b: seq<M.Row>)
  {
    && |a| <= |b|
    && forall i :: 0 <= i < |a| ==> b[i] == a[i] || b[i] == a[i].(delivered := true)
  }

  lemma LoginKeepsUsers(w: World, token: Bytes, now: int)
    ensures U.LoginByToken(w.accounts, token, now).accounts.users == w.accounts.users
  {
  }

  lemma FriendHandlerTables(w: World, sid: Sid, t: PacketType, body: Bytes, env: Env)
    requires sid in w.live && FriendKind(t) && Dispatch(w, sid, t, body, env).Handled?
    ensures var w' := Dispatch(w, sid, t, body, env).world;
            && w'.friends == NextFriends(w.friends, FriendOpOf(w, Receive(sid, t, body, env)))
            && w'.mail == w.mail && w'.online == w.online && w'.live == w.live
  {
    hide HandleFriend, U.LoginByToken, U.ByLogin, F.Next;
    FriendTables(w, t, ParseRequest(t, body).value, env);
  }

  lemma FriendTables(w: World, t: PacketType, f: seq<Bytes>, env: Env)
    requires FriendKind(t) && |f| == 2 && HandleFriend(w, t, f, env).Handled?
    ensures var w' := HandleFriend(w, t, f, env).world;
            && w'.mail == w.mail && w'.online == w.online && w'.live == w.live
            && var l := U.LoginByToken(w.accounts, f[0], env.now).result;
               var target := U.ByLogin(w.accounts.users, f[1]);
               if l.Refused? || target.None? || U.ByLogin(w.accounts.users, l.login).None? then w'.friends == w.friends
               else
                 var op := FriendOp(w, t, U.ByLogin(w.accounts.users, l.login).value.id, target.value.id);
                 w'.friends == F.Next(w.friends, op)
  {
    LoginKeepsUsers(w, f[0], env.now);
    hide F.Perform, PostToLogin, U.LoginByToken;
  }

  lemma OtherHandlerTables(w: World, sid: Sid, t: PacketType, body: Bytes, env: Env)
    requires sid in w.live && !FriendKind(t) && Dispatch(w, sid, t, body, env).Handled?
    ensures var w' := Dispatch(w, sid, t, body, env).world;
            && w'.friends == w.friends
            && MailGrows(w.mail.rows, w'.mail.rows)
            && w'.online == w.online
            && (forall s :: s in w.live && s != sid ==> w'.live[s] == w.live[s])
            && w'.live[sid].login == if t.Logout? then [] else w.live[sid].login
  {
    hide U.LoginByToken, U.VerifyUser, U.RegisterUser, M.History, M.LastMessages, LoginsOf, HistoryEntries, ChatEntries;
    hide R.Receivers, R.SessionOf, PostAll, ParseRequest, F.AreFriends, U.ByLogin;
  }

  lemma StepTables(w: World, e: Event)
    requires Step(w, e).Some?
    ensures Step(w, e).value.friends == NextFriends(w.friends, FriendOpOf(w, e))
    ensures MailGrows(w.mail.rows, Step(w, e).value.mail.rows)
  {
    if e.Receive? {
      hide Dispatch, Authenticate;
      var h := Dispatch(w, e.sid, e.kind, e.body, e.env);
      if FriendKind(e.kind) {
        FriendHandlerTables(w, e.sid, e.kind, e.body, e.env);
      } else {
        OtherHandlerTables(w, e.sid, e.kind, e.body, e.env);
      }
      if h.login.Some? {
        AuthenticateTables(h.world, e.sid, h.login.value);
      }
    } else if e.Crash? {
      BrokenTables(w, e.sid, e.kind, e.body, e.env);
    }
  }

  /** A handler that throws has changed neither table. */
  lemma BrokenTables(w: World, sid: Sid, t: PacketType, body: Bytes, env: Env)
    requires sid in w.live && HandlePacket(w, sid, t, body, env).None?
    ensures var w' := BrokenState(w, sid, t, body, env);
            w'.friends == w.friends && w'.mail == w.mail && w.accounts.users <= w'.accounts.users
  {
    hide Authenticate, PostToLogin;
    var h := Dispatch(w, sid, t, body, env);
    if h.Threw? {
      ThrownTables(w, sid, t, body, env);
    } else {
      AuthLeavesTables(w, sid, t, body, env);
    }
  }

  lemma ThrownTables(w: World, sid: Sid, t: PacketType, body: Bytes, env: Env)
    requires sid in w.live && Dispatch(w, sid, t, body, env).Threw?
    ensures var w' := Dispatch(w, sid, t, body, env).world;
            w'.friends == w.friends && w'.mail == w.mail && w.accounts.users <= w'.accounts.users
  {
    hide U.VerifyUser, M.History, M.LastMessages, LoginsOf, HistoryEntries, ChatEntries, F.Perform;
    hide R.Receivers, R.SessionOf, PostAll, ParseRequest, F.AreFriends, U.ByLogin;
  }

  lemma AuthLeavesTables(w: World, sid: Sid, t: PacketType, body: Bytes, env: Env)
    requires sid in w.live && Dispatch(w, sid, t, body, env).Handled?
    requires Dispatch(w, sid, t, body, env).login.Some?
    ensures var w' := Dispatch(w, sid, t, body, env).world;
            w'.friends == w.friends && w'.mail == w.mail && w.accounts.users <= w'.accounts.users
  {
    hide M.History, M.LastMessages, LoginsOf, HistoryEntries, ChatEntries, F.Perform, PostToLogin;
    hide R.Receivers, R.SessionOf, PostAll, ParseRequest, F.AreFriends, U.ByLogin;
  }

  lemma AuthenticateTables(w: World, sid: Sid, login: Bytes)
    requires sid in w.live && Authenticate(w, sid, login).Some?
    ensures Authenticate(w, sid, login).value.friends == w.friends
    ensures MailGrows(w.mail.rows, Authenticate(w, sid, login).value.mail.rows)
    ensures |Authenticate(w, sid, login).value.mail.rows| == |w.mail.rows|
  {
  }

  // ---- friends only --------------------------------------------------------------------------

  lemma {:induction false} StoredStays(sha256: Bytes -> ZeroFree, es: seq<Event>, k: nat, r: M.Row)
    requires k <= |es| && Run(sha256, es).Some? && Run(sha256, es[..k]).Some?
    requires r in Run(sha256, es[..k]).value.mail.rows
    ensures var rows := Run(sha256, es).value.mail.rows;
            r in rows || r.(delivered := true) in rows
    decreases |es|
  {
    if k == |es| {
      assert es[..k] == es;
    } else {
      var init := es[..|es| - 1];
      assert init[..k] == es[..k];
      StoredStays(sha256, init, k, r);
      var w := Run(sha256, init).value;
      StepTables(w, es[|es| - 1]);
      var s := if r in w.mail.rows then r else r.(delivered := true);
      var i :| 0 <= i < |w.mail.rows| && w.mail.rows[i] == s;
      assert Run(sha256, es).value.mail.rows[i] in Run(sha256, es).value.mail.rows;
    }
  }

  /** Friends-only messaging: whatever was stored at any moment of a run is still stored at its end, and joins
      two distinct users who are accepted friends at its end, not only when it was saved. */
  lemma FriendsOnly(sha256: Bytes -> ZeroFree, es: seq<Event>, k: nat, r: M.Row)
    requires k <= |es| && Run(sha256, es).Some? && Run(sha256, es[..k]).Some?
    requires r in Run(sha256, es[..k]).value.mail.rows
    ensures var w := Run(sha256, es).value;
            && (r in w.mail.rows || r.(delivered := true) in w.mail.rows)
            && r.sender != r.recipient
            && F.AreFriends(w.friends, r.sender, r.recipient) == OK
  {
    StoredStays(sha256, es, k, r);
    RunKeeps(sha256, es);
    var w := Run(sha256, es).value;
    var s := if r in w.mail.rows then r else r.(delivered := true);
    assert s in w.mail.rows;
  }

  // ---- consent -------------------------------------------------------------------------------

  /** The friendship operations of a run, in order. */
  function OpsOf(sha256: Bytes -> ZeroFree, es: seq<Event>): seq<F.Op>
  {
    if es == [] then []
    else
      var before, w := OpsOf(sha256, es[..|es| - 1]), Run(sha256, es[..|es| - 1]);
      if w.None? then before
      else
        var op := FriendOpOf(w.value, es[|es| - 1]);
        if op.Some? then before + [op.value] else before
  }

  lemma {:induction false} RunFriends(sha256: Bytes -> ZeroFree, es: seq<Event>)
    requires Run(sha256, es).Some?
    ensures Run(sha256, es).value.friends == F.After(OpsOf(sha256, es))
  {
    if es != [] {
      var init := es[..|es| - 1];
      RunFriends(sha256, init);
      StepTables(Run(sha256, init).value, es[|es| - 1]);
      var ops := OpsOf(sha256, es);
      if FriendOpOf(Run(sha256, init).value, es[|es| - 1]).Some? {
        assert ops[..|ops| - 1] == OpsOf(sha256, init);
      }
    }
  }

  predicate Agreed(ops: seq<F.Op>, a: int, b: int)
  {
    exists p :: 0 <= p < |ops| && F.StandingRequest(ops, p, a, b) && F.AcceptedAfter(ops, p, b, a)
  }

  /** Friendship by consent, for the whole server: two users are friends exactly when one of them, as the server
      resolves the tokens presented, sent a request that stood, and the other accepted it. */
  lemma FriendshipByConsent(sha256: Bytes -> ZeroFree, es: seq<Event>, a: int, b: int)
    requires Run(sha256, es).Some? && a != b
    ensures var ops := OpsOf(sha256, es);
            F.AreFriends(Run(sha256, es).value.friends, a, b) == OK <==> Agreed(ops, a, b) || Agreed(ops, b, a)
  {
    var ops, t := OpsOf(sha256, es), Run(sha256, es).value.friends;
    RunFriends(sha256, es);
    F.AfterInv(ops);
    F.ConsentExactly(ops, a, b);
    F.ConsentExactly(ops, b, a);
    if F.AreFriends(t, a, b) == OK {
      var r :| r in t && F.OnPair(r, F.Normalize(a, b)) && r.status == F.ACCEPTED;
      assert F.RowOk(r);
      assert (r.initiator == a && F.Other(r) == b) || (r.initiator == b && F.Other(r) == a);
    }
    if Agreed(ops, a, b) {
      var r :| r in t && r.status == F.ACCEPTED && r.initiator == a && F.Other(r) == b;
      AcceptedRowMeansFriends(t, r, a, b);
    }
    if Agreed(ops, b, a) {
      var r :| r in t && r.status == F.ACCEPTED && r.initiator == b && F.Other(r) == a;
      AcceptedRowMeansFriends(t, r, a, b);
    }
  }

  /** The friendship operation an event performs if the token's owner is the one who acts. */
  function OwnersOp(w: World, e: Event): Option<F.Op>
  {
    if e.Receive? && FriendKind(e.kind) then
      var parsed := ParseRequest(e.kind, e.body);
      if parsed.None? then None
      else
        var owner := U.OwnerOf(w.accounts, parsed.value[0], e.env.now);
        var target := U.ByLogin(w.accounts.users, parsed.value[1]);
        if owner.None? || target.None? then None
        else Some(FriendOp(w, e.kind, owner.value.id, target.value.id))
    else None
  }

  /** The server takes the owner of the token for the acting user if and only if the owner's login has no zero byte. */
  lemma ActsAsOwnerExactly(w: World, e: Event)
    requires Inv(w) && OwnersOp(w, e).Some?
    ensures FriendOpOf(w, e) == OwnersOp(w, e) <==>
            0 !in U.OwnerOf(w.accounts, ParseRequest(e.kind, e.body).value[0], e.env.now).value.login
  {
    hide Inv;
    var f := ParseRequest(e.kind, e.body).value;
    assert U.AccountsInv(w.accounts) by { AccountsOk(w); }
    U.TokenNamesOwnerExactly(w.accounts, f[0], e.env.now);
    var owner := U.OwnerOf(w.accounts, f[0], e.env.now).value;
    var u := U.ByLogin(w.accounts.users, U.LoginByToken(w.accounts, f[0], e.env.now).result.login);
    if u.Some? && u.value.id == owner.id {
      U.UniqueUser(w.accounts.users, w.accounts.nextId, u.value, owner);
    }
  }

  lemma AccountsOk(w: World)
    requires Inv(w)
    ensures U.AccountsInv(w.accounts)
  {
  }

  lemma NoOwnerNoOp(w: World, e: Event)
    requires Inv(w) && OwnersOp(w, e).None?
    ensures FriendOpOf(w, e).None?
  {
    hide Inv;
    assert U.AccountsInv(w.accounts) by { AccountsOk(w); }
    if e.Receive? && FriendKind(e.kind) {
      var parsed := ParseRequest(e.kind, e.body);
      if parsed.Some? {
        U.LookupIsTotal(w.accounts, parsed.value[0], e.env.now);
      }
    }
  }

  predicate LoginsZeroFree(users: seq<U.User>)
  {
    forall u :: u in users ==> 0 !in u.login
  }

  /** The friendship operations of a run, each by the owner of the token presented. */
  function OwnersOpsOf(sha256: Bytes -> ZeroFree, es: seq<Event>): seq<F.Op>
  {
    if es == [] then []
    else
      var before, w := OwnersOpsOf(sha256, es[..|es| - 1]), Run(sha256, es[..|es| - 1]);
      if w.None? then before
      else
        var op := OwnersOp(w.value, es[|es| - 1]);
        if op.Some? then before + [op.value] else before
  }

  /** While no registered login has a zero byte, every operation is its token owner's. */
  lemma {:induction false} OwnersAct(sha256: Bytes -> ZeroFree, es: seq<Event>)
    requires Run(sha256, es).Some? && LoginsZeroFree(Run(sha256, es).value.accounts.users)
    ensures OwnersOpsOf(sha256, es) == OpsOf(sha256, es)
  {
    if es != [] {
      hide FriendOpOf, OwnersOp, Step, Inv;
      var init, e := es[..|es| - 1], es[|es| - 1];
      var w := Run(sha256, init).value;
      UsersStay(w, e);
      RunKeeps(sha256, init);
      OwnersAct(sha256, init);
      if OwnersOp(w, e).Some? {
        OwnerIsUser(w, e);
        ActsAsOwnerExactly(w, e);
      } else {
        NoOwnerNoOp(w, e);
      }
    }
  }

  lemma OwnerIsUser(w: World, e: Event)
    requires OwnersOp(w, e).Some?
    ensures U.OwnerOf(w.accounts, ParseRequest(e.kind, e.body).value[0], e.env.now).value in w.accounts.users
  {
  }

  /** Consent of the owners: in a run in which no login with a zero byte was registered, two users are friends
      exactly when one's own working token was used to send a request that stood and the other's to accept it. */
  lemma FriendshipByOwnersConsent(sha256: Bytes -> ZeroFree, es: seq<Event>, a: int, b: int)
    requires Run(sha256, es).Some? && a != b && LoginsZeroFree(Run(sha256, es).value.accounts.users)
    ensures var ops := OwnersOpsOf(sha256, es);
            F.AreFriends(Run(sha256, es).value.friends, a, b) == OK <==> Agreed(ops, a, b) || Agreed(ops, b, a)
  {
    OwnersAct(sha256, es);
    FriendshipByConsent(sha256, es, a, b);
  }

  /** Users are only ever added. */
  lemma UsersStay(w: World, e: Event)
    requires Step(w, e).Some?
    ensures w.accounts.users <= Step(w, e).value.accounts.users
  {
    if e.Receive? {
      hide Dispatch, DeliverPending;
      var h := Dispatch(w, e.sid, e.kind, e.body, e.env);
      HandlersKeepUsers(w, e.sid, e.kind, e.body, e.env);
      if h.login.Some? {
        AuthenticateKeepsAccounts(h.world, e.sid, h.login.value);
      }
    } else if e.Crash? {
      BrokenTables(w, e.sid, e.kind, e.body, e.env);
    }
  }

  lemma HandlersKeepUsers(w: World, sid: Sid, t: PacketType, body: Bytes, env: Env)
    requires sid in w.live
    ensures w.accounts.users <= Dispatch(w, sid, t, body, env).world.accounts.users
  {
    hide M.History, M.LastMessages, LoginsOf, HistoryEntries, ChatEntries, F.Perform;
    hide R.Receivers, R.SessionOf, PostAll, ParseRequest, F.AreFriends, U.ByLogin;
  }

  lemma AuthenticateKeepsAccounts(w: World, sid: Sid, login: Bytes)
    requires sid in w.live && Authenticate(w, sid, login).Some?
    ensures Authenticate(w, sid, login).value.accounts == w.accounts
  {
  }

  lemma AcceptedRowMeansFriends(t: F.Table, r: F.Friendship, a: int, b: int)
    requires F.FriendInv(t) && r in t && r.status == F.ACCEPTED
    requires (r.initiator == a && F.Other(r) == b) || (r.initiator == b && F.Other(r) == a)
    ensures F.AreFriends(t, a, b) == OK
  {
    assert F.RowOk(r);
    assert F.OnPair(r, F.Normalize(a, b));
  }

  // ---- delivery accounting -------------------------------------------------------------------

  /** At least once, at most twice: a stored message is either still waiting for its recipient and was never
      replayed, or was replayed exactly once; it went out live at most once. */
  lemma DeliveryAccounting(sha256: Bytes -> ZeroFree, es: seq<Event>, r: M.Row)
    requires Run(sha256, es).Some? && r in Run(sha256, es).value.mail.rows
    ensures var w := Run(sha256, es).value;
            && (r in M.Undelivered(w.mail.rows, r.recipient) <==> ReplayCount(w.posted, r.id) == 0)
            && ReplayCount(w.posted, r.id) <= 1 && LiveCount(w.posted, r.id) <= 1
  {
    RunKeeps(sha256, es);
    var w := Run(sha256, es).value;
    M.UndeliveredIs(w.mail.rows, r.recipient);
    assert RowAccount(r, w.posted);
  }

  /** Every copy queued in a run repeats a stored message: its text and its sender's login, for a replay also
      its time, and the login it was replayed to is the recipient's. */
  lemma CopiesAreTrue(sha256: Bytes -> ZeroFree, es: seq<Event>, p: Posted)
    requires Run(sha256, es).Some? && p in Run(sha256, es).value.posted
    ensures var w := Run(sha256, es).value;
            Truthful(p.out, w.mail.rows, w.accounts.users)
  {
    RunKeeps(sha256, es);
  }
}
