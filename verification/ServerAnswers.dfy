/** What the answer to each request says, in terms of the tables and of the other requests. */
module ServerAnswers {
  import opened Wire
  import opened Codec
  import opened Protocol
  import opened Server
  import opened ServerSafety
  import opened ServerOutput
  import F = Friends
  import U = Users
  import M = Mail
  import R = Registry

  /** The token resolves to this login, which is that of the user with this id. By TokenNamesOwnerExactly the user is
      the token's owner if and only if the owner's login has no zero byte. */
  predicate HoldsToken(w: World, token: Bytes, now: int, login: Bytes, me: int)
  {
    U.LoginByToken(w.accounts, token, now).result == U.LoggedIn(login) && NamedBy(w.accounts.users, login, me)
  }

  /** Without authentication the state after a packet is the handler's state plus the RESULT with its response. */
  lemma AnswerSent(w: World, sid: Sid, t: PacketType, body: Bytes, env: Env)
    requires sid in w.live && Answered(t) && Dispatch(w, sid, t, body, env).Handled?
    requires AuthenticatesAs(w, t, body, env).None?
    ensures var h := Dispatch(w, sid, t, body, env);
            HandlePacket(w, sid, t, body, env) == Some(Post(h.world, sid, Reply(t, h.response)))
  {
    hide Dispatch;
    DispatchLogin(w, sid, t, body, env);
    ShapedDispatch(w, sid, t, body, env);
    ResponseNotEmpty(t, Dispatch(w, sid, t, body, env).response);
  }

  // ---- accounts ------------------------------------------------------------------------------

  function WithIssued(w: World, sid: Sid, token: Bytes, id: int, now: int): World
    requires sid in w.live
  {
    w.(accounts := w.accounts.(tokens := w.accounts.tokens[token := U.TokenRow(id, now)]),
       live := w.live[sid := Session(w.live[sid].login, token)])
  }

  /** REGISTER: refused if somebody has the login; otherwise the user is there, and signed in with a new token of its
      own, unless that token exists already. */
  lemma RegisterAnswer(w: World, sid: Sid, body: Bytes, env: Env)
    requires Inv(w) && sid in w.live && ParseRequest(Register, body).Some?
    ensures var f, h := ParseRequest(Register, body).value, Dispatch(w, sid, Register, body, env);
            var row := U.User(w.accounts.nextId, f[0], env.salt, w.accounts.sha256(f[1] + env.salt));
            var w1 := w.(accounts := w.accounts.(users := w.accounts.users + [row], nextId := w.accounts.nextId + 1));
            h == if exists u :: u in w.accounts.users && u.login == f[0] then
                   Handled(w, [TextV([]), CodeV(LOGIN_EXISTS)], None)
                 else if env.token in w.accounts.tokens then Threw(w1)
                 else
                   Handled(WithIssued(w1, sid, env.token, row.id, env.now), [TextV(env.token), CodeV(OK)], Some(f[0]))
  {
    hide Inv, ParseRequest, HandleRegister, WithIssued;
    AccountsIn(w);
    RegisterHandled(w, sid, ParseRequest(Register, body).value, env);
  }

  lemma RegisterHandled(w: World, sid: Sid, f: seq<Bytes>, env: Env)
    requires U.AccountsInv(w.accounts) && sid in w.live && |f| == 2
    ensures var row := U.User(w.accounts.nextId, f[0], env.salt, w.accounts.sha256(f[1] + env.salt));
            var w1 := w.(accounts := w.accounts.(users := w.accounts.users + [row], nextId := w.accounts.nextId + 1));
            HandleRegister(w, sid, f, env)
            == if exists u :: u in w.accounts.users && u.login == f[0] then
                 Handled(w, [TextV([]), CodeV(LOGIN_EXISTS)], None)
               else if env.token in w.accounts.tokens then Threw(w1)
               else
                 Handled(WithIssued(w1, sid, env.token, row.id, env.now), [TextV(env.token), CodeV(OK)], Some(f[0]))
  {
    hide U.AccountsInv, U.VerifyUser, U.RegisterUser;
    var a := w.accounts;
    U.RegisterIs(a, f[0], f[1], env.salt);
    var r := U.RegisterUser(a, f[0], f[1], env.salt);
    if r.code == OK {
      U.RegisterKeepsInv(a, f[0], f[1], env.salt);
      U.VerifyIs(r.accounts, f[0], f[1], env.token, env.now);
      NewUserKnows(a, r.accounts, f[0], f[1], env.salt);
    }
  }

  lemma AccountsIn(w: World)
    requires Inv(w)
    ensures U.AccountsInv(w.accounts)
  {
  }

  lemma NewUserKnows(a: U.Accounts, b: U.Accounts, login: Bytes, password: Bytes, salt: ZeroFree)
    requires U.AccountsInv(b) && b.sha256 == a.sha256
    requires b.users == a.users + [U.User(a.nextId, login, salt, a.sha256(password + salt))]
    ensures U.Knows(b, login, password)
    ensures forall u :: u in b.users && u.login == login ==> u.id == a.nextId
  {
    var row := b.users[|a.users|];
    assert row in b.users;
    forall u | u in b.users && u.login == login ensures u.id == row.id {
      U.UniqueUser(b.users, b.nextId, u, row);
    }
  }

  /** LOGIN: refused exactly if no user has both the login and a digest of this password with its salt; otherwise that
      user is signed in with a new token, unless the token exists already. */
  lemma LoginAnswer(w: World, sid: Sid, body: Bytes, env: Env)
    requires Inv(w) && sid in w.live && ParseRequest(Login, body).Some?
    ensures var f, h := ParseRequest(Login, body).value, Dispatch(w, sid, Login, body, env);
            var a := w.accounts;
            if !exists u :: u in a.users && u.login == f[0] && a.sha256(f[1] + u.salt) == u.password then
              h == Handled(w, [TextV([]), CodeV(INCORRECT_CREDENTIALS)], None)
            else if env.token in a.tokens then h == Threw(w)
            else
              exists u :: u in a.users && u.login == f[0]
                && h == Handled(WithIssued(w, sid, env.token, u.id, env.now), [TextV(env.token), CodeV(OK)], Some(f[0]))
  {
    hide Inv, U.VerifyUser, U.PasswordMatches, ParseRequest;
    var f := ParseRequest(Login, body).value;
    AccountsIn(w);
    U.VerifyIs(w.accounts, f[0], f[1], env.token, env.now);
    var v := U.VerifyUser(w.accounts, f[0], f[1], env.token, env.now);
    if v.Issued? {
      var u :| u in w.accounts.users && u.login == f[0]
            && v.accounts == w.accounts.(tokens := w.accounts.tokens[env.token := U.TokenRow(u.id, env.now)]);
    }
  }

  /** The token a register or login answer carries works from then on, for a week: it resolves to the login as far as
      its first zero byte, which is the same user exactly if there is none. */
  lemma AnsweredTokenWorks(w: World, sid: Sid, t: PacketType, body: Bytes, env: Env, later: int)
    requires Inv(w) && sid in w.live && (t.Register? || t.Login?)
    requires Dispatch(w, sid, t, body, env).Handled? && Dispatch(w, sid, t, body, env).login.Some?
    ensures var h, login := Dispatch(w, sid, t, body, env), Dispatch(w, sid, t, body, env).login.value;
            && h.response == [TextV(env.token), CodeV(OK)] && h.world.live[sid].token == env.token
            && U.LoginByToken(h.world.accounts, env.token, later).result
               == (if later - env.now <= 7 * 24 * 60 * 60 then U.LoggedIn(CString(login)) else U.Refused(TOKEN_EXPIRED))
            && U.ByLogin(h.world.accounts.users, login).Some?
            && (U.ByLogin(h.world.accounts.users, CString(login)) == U.ByLogin(h.world.accounts.users, login)
                <==> 0 !in login)
  {
    hide Inv, U.VerifyUser, U.RegisterUser, U.PasswordMatches, ParseRequest;
    var h := Dispatch(w, sid, t, body, env);
    var login := h.login.value;
    DispatchKeeps(w, sid, t, body, env);
    AccountsIn(h.world);
    AccountsIn(w);
    if t.Register? {
      RegisterAnswer(w, sid, body, env);
    } else {
      LoginAnswer(w, sid, body, env);
    }
    IssuedResolves(h.world.accounts, env.token, login, env.now, later);
    CStringExactly(login);
  }

  lemma IssuedResolves(a: U.Accounts, token: Bytes, login: Bytes, now: int, later: int)
    requires U.AccountsInv(a) && token in a.tokens && a.tokens[token].createdAt == now
    requires exists u :: u in a.users && u.login == login && u.id == a.tokens[token].id
    ensures U.LoginByToken(a, token, later).result
         == if later - now <= 7 * 24 * 60 * 60 then U.LoggedIn(CString(login)) else U.Refused(TOKEN_EXPIRED)
    ensures U.ByLogin(a.users, login).Some?
  {
    var u :| u in a.users && u.login == login && u.id == a.tokens[token].id;
    U.UniqueUser(a.users, a.nextId, u, U.ById(a.users, u.id).value);
  }

  /** TOKEN_VERIFY with a working token: OK, the session takes the token, and is authenticated as what it resolves
      to. */
  lemma TokenVerifyAnswer(w: World, sid: Sid, body: Bytes, env: Env)
    requires Inv(w) && sid in w.live && ParseRequest(TokenVerify, body).Some?
    requires TokenWorks(w, ParseRequest(TokenVerify, body).value[0], env.now)
    ensures var token := ParseRequest(TokenVerify, body).value[0];
            var owner := U.OwnerOf(w.accounts, token, env.now);
            && owner.Some?
            && Dispatch(w, sid, TokenVerify, body, env)
               == Handled(w.(live := w.live[sid := Session(w.live[sid].login, token)]), [CodeV(OK)],
                          Some(CString(owner.value.login)))
  {
    hide Inv, U.LoginByToken, ParseRequest;
    var token := ParseRequest(TokenVerify, body).value[0];
    AccountsIn(w);
    U.LookupIsTotal(w.accounts, token, env.now);
    WorkingLookup(w, token, env.now);
  }

  /** LOGOUT ends the token and the session's login, and nothing else, and is not answered. */
  lemma LogoutEnds(w: World, sid: Sid, body: Bytes, env: Env, now: int)
    requires sid in w.live && ParseRequest(Logout, body).Some?
    ensures var token := ParseRequest(Logout, body).value[0];
            var handled := HandlePacket(w, sid, Logout, body, env);
            && handled.Some?
            && handled.value == w.(accounts := handled.value.accounts, live := w.live[sid := Session([], [])])
            && handled.value.accounts == w.accounts.(tokens := w.accounts.tokens - {token})
            && U.LoginByToken(handled.value.accounts, token, now).result == U.Refused(NON_AUTHORIZED)
  {
    U.RevokedOnly(w.accounts, ParseRequest(Logout, body).value[0], [], now);
  }

  /** Packets of any other type that is not answered are dropped. */
  lemma DroppedPackets(w: World, sid: Sid, t: PacketType, body: Bytes, env: Env)
    requires sid in w.live && !Answered(t) && !t.Logout?
    ensures HandlePacket(w, sid, t, body, env) == Some(w)
  {
    assert DecodeAll([], body, 0) == Ok([], 0);
  }

  // ---- tokens --------------------------------------------------------------------------------

  /** The request types whose first field is a token, and the body of whose answer ends in the error code. */
  predicate NeedsToken(t: PacketType)
  {
    Answered(t) && !t.Register? && !t.Login?
  }

  /** What every handler that checks a token answers when it does not work. */
  function RefusalValues(t: PacketType, code: ErrorCode): seq<Value>
    requires NeedsToken(t)
  {
    match t
    case Download => [BlobV([]), CodeV(code)]
    case FriendList => [VectorV([]), VectorV([]), CodeV(code)]
    case ChatList => [VectorV([]), CodeV(code)]
    case MessageHistory => [VectorV([]), CodeV(code)]
    case _ => [CodeV(code)]
  }

  /** No working token, no effect: whatever the request, it is answered with the reason, nothing is sent to
      anybody else, and nothing in the database or the registry changes but that an expired token goes. */
  lemma NoTokenNoEffect(w: World, sid: Sid, t: PacketType, body: Bytes, env: Env)
    requires Inv(w) && sid in w.live && NeedsToken(t) && ParseRequest(t, body).Some?
    requires !TokenWorks(w, ParseRequest(t, body).value[0], env.now)
    ensures var token := ParseRequest(t, body).value[0];
            var code := if token in w.accounts.tokens then TOKEN_EXPIRED else NON_AUTHORIZED;
            HandlePacket(w, sid, t, body, env)
            == Some(Post(WithAccounts(w, U.RevokeToken(w.accounts, token)), sid, Reply(t, RefusalValues(t, code))))
  {
    hide Inv, U.LoginByToken, M.History, M.LastMessages, F.Perform, R.Receivers, ParseRequest, EncodeAll, HandlePacket;
    var token := ParseRequest(t, body).value[0];
    RefusedLookup(w, token, env.now);
    AnswerSent(w, sid, t, body, env);
  }

  lemma RefusedLookup(w: World, token: Bytes, now: int)
    requires Inv(w) && !TokenWorks(w, token, now)
    ensures U.LoginByToken(w.accounts, token, now)
         == U.Lookup(U.RevokeToken(w.accounts, token),
                     U.Refused(if token in w.accounts.tokens then TOKEN_EXPIRED else NON_AUTHORIZED))
  {
    U.LookupIsTotal(w.accounts, token, now);
  }

  /** With a working token UPLOAD answers OK and DOWNLOAD the file and OK, unless the file operation fails, and neither
      changes anything. */
  lemma FileAnswers(w: World, sid: Sid, t: PacketType, body: Bytes, env: Env)
    requires Inv(w) && sid in w.live && (t.Upload? || t.Download?) && ParseRequest(t, body).Some?
    requires TokenWorks(w, ParseRequest(t, body).value[0], env.now)
    ensures Dispatch(w, sid, t, body, env)
         == if env.fileFails then Threw(w)
            else Handled(w, if t.Upload? then [CodeV(OK)] else [BlobV(env.file), CodeV(OK)], None)
  {
    hide Inv, U.LoginByToken, ParseRequest;
    WorkingLookup(w, ParseRequest(t, body).value[0], env.now);
  }

  /** A token that resolves to nobody: a friend operation on a known user and CHAT_LIST answer not-found. */
  lemma NamelessAnswer(w: World, sid: Sid, t: PacketType, body: Bytes, env: Env)
    requires Inv(w) && sid in w.live && ParseRequest(t, body).Some?
    requires t.ChatList? || t.FriendRequest? || t.FriendAccept? || t.FriendReject?
    requires Nameless(w, ParseRequest(t, body).value[0], env.now)
    ensures Dispatch(w, sid, t, body, env)
         == Handled(w, if t.ChatList? then [VectorV([]), CodeV(USER_NOT_FOUND)] else [CodeV(USER_NOT_FOUND)], None)
  {
    hide Inv, U.LoginByToken, ParseRequest, Nameless;
    ResolvesUnlessNameless(w, ParseRequest(t, body).value[0], env.now);
  }

  // ---- friends -------------------------------------------------------------------------------

  /** What the user whose token it is may do to a known target, and what it changes. */
  lemma FriendAnswer(w: World, sid: Sid, t: PacketType, body: Bytes, env: Env, login: Bytes, me: int, target: int)
    requires Inv(w) && sid in w.live && (t.FriendRequest? || t.FriendAccept? || t.FriendReject?)
    requires ParseRequest(t, body).Some? && HoldsToken(w, ParseRequest(t, body).value[0], env.now, login, me)
    requires NamedBy(w.accounts.users, ParseRequest(t, body).value[1], target)
    ensures var h := Dispatch(w, sid, t, body, env);
            && h.Handled? && h.login == None && |h.response| == 1 && h.response[0].CodeV?
            && (h.response == [CodeV(OK)] <==>
                  if t.FriendRequest? then me != target && F.NothingBetween(w.friends, me, target)
                  else target in F.PendingFor(w.friends, me))
            && (h.response == [CodeV(OK)] ==>
                  if t.FriendRequest? then me in F.PendingFor(h.world.friends, target)
                  else if t.FriendAccept? then
                    multiset(F.FriendsOf(h.world.friends, me))[target] == 1
                    && multiset(F.FriendsOf(h.world.friends, target))[me] == 1
                  else F.NothingBetween(h.world.friends, me, target))
            && (h.response != [CodeV(OK)] ==> h.world.friends == w.friends)
  {
    hide Inv, F.PendingFor, F.FriendsOf, F.NothingBetween, F.Perform, U.LoginByToken, R.SessionOf, ParseRequest;
    var f := ParseRequest(t, body).value;
    TokenCheckKeeps(w, f[0], env.now);
    var op := FriendOp(w, t, me, target);
    FriendTotal(w, t, f, env);
    FriendFacts(w, t, me, target, f[1], login);
    FailureKeepsTable(w.friends, op);
  }

  /** What the answer to a friend request, accept or reject is and who hears of it: the code both users' lists
      predict, and on success one notice of the matching kind to the target's session if it has one. */
  lemma FriendNotice(w: World, sid: Sid, t: PacketType, body: Bytes, env: Env, login: Bytes, me: int, target: int)
    requires Inv(w) && sid in w.live && (t.FriendRequest? || t.FriendAccept? || t.FriendReject?)
    requires ParseRequest(t, body).Some? && HoldsToken(w, ParseRequest(t, body).value[0], env.now, login, me)
    requires NamedBy(w.accounts.users, ParseRequest(t, body).value[1], target)
    ensures var h := Dispatch(w, sid, t, body, env);
            var op := if t.FriendRequest? then F.Send(U.Ids(w.accounts.users), me, target)
                      else if t.FriendAccept? then F.Accept(me, target) else F.Reject(me, target);
            var code := F.ExpectedCode(w.friends, op);
            var to := R.SessionOf(w.online, w.live.Keys, ParseRequest(t, body).value[1]);
            var kind := if t.FriendRequest? then FriendNewRequest
                        else if t.FriendAccept? then FriendRequestAccepted else FriendRequestRejected;
            && h.Handled? && h.response == [CodeV(code)] && h.login == None
            && h.world == w.(friends := h.world.friends, posted := h.world.posted)
            && h.world.posted
               == if code == OK && to.Some? then w.posted + [Posted(to.value, Notice(kind))] else w.posted
  {
    hide Inv, F.Perform, F.ExpectedCode, U.LoginByToken, R.SessionOf, ParseRequest, Nameless;
    var f := ParseRequest(t, body).value;
    ResolvesUnlessNameless(w, f[0], env.now);
    TokenCheckKeeps(w, f[0], env.now);
    FriendTotal(w, t, f, env);
    KnownCode(w, t, login, f[1], me, target);
  }

  lemma KnownCode(w: World, t: PacketType, login: Bytes, targetLogin: Bytes, me: int, target: int)
    requires Inv(w) && (t.FriendRequest? || t.FriendAccept? || t.FriendReject?)
    requires NamedBy(w.accounts.users, login, me) && NamedBy(w.accounts.users, targetLogin, target)
    ensures var op := FriendOp(w, t, me, target);
            F.Perform(w.friends, op).Done? && F.Perform(w.friends, op).code == F.ExpectedCode(w.friends, op)
  {
    hide F.Perform, F.ExpectedCode;
    IdsKnown(w, login);
    IdsKnown(w, targetLogin);
    F.CodesFollowViews(w.friends, FriendOp(w, t, me, target));
  }

  /** A target nobody registered is reported, and nothing else happens. */
  lemma UnknownTarget(w: World, sid: Sid, t: PacketType, body: Bytes, env: Env)
    requires Inv(w) && sid in w.live && ParseRequest(t, body).Some?
    requires t.FriendRequest? || t.FriendAccept? || t.FriendReject? || t.DirectMessage?
    requires TokenWorks(w, ParseRequest(t, body).value[0], env.now)
    requires forall u :: u in w.accounts.users ==> u.login != ParseRequest(t, body).value[1]
    ensures Dispatch(w, sid, t, body, env) == Handled(w, [CodeV(USER_NOT_FOUND)], None)
  {
    hide Inv, ParseRequest, U.LoginByToken;
    WorkingLookup(w, ParseRequest(t, body).value[0], env.now);
  }

  lemma WorkingLookup(w: World, token: Bytes, now: int)
    requires Inv(w) && TokenWorks(w, token, now)
    ensures U.LoginByToken(w.accounts, token, now).result.LoggedIn?
    ensures WithAccounts(w, U.LoginByToken(w.accounts, token, now).accounts) == w
  {
    U.LookupIsTotal(w.accounts, token, now);
  }

  lemma FailureKeepsTable(t: F.Table, op: F.Op)
    ensures F.Perform(t, op).Done? && F.Perform(t, op).code != OK ==> F.Perform(t, op).table == t
  {
  }

  lemma FriendFacts(w: World, t: PacketType, me: int, target: int, targetLogin: Bytes, login: Bytes)
    requires Inv(w) && (t.FriendRequest? || t.FriendAccept? || t.FriendReject?)
    requires NamedBy(w.accounts.users, login, me) && NamedBy(w.accounts.users, targetLogin, target)
    ensures var op := FriendOp(w, t, me, target);
            && (F.Succeeds(w.friends, op) <==>
                  if t.FriendRequest? then me != target && F.NothingBetween(w.friends, me, target)
                  else target in F.PendingFor(w.friends, me))
            && (F.Succeeds(w.friends, op) ==>
                  if t.FriendRequest? then me in F.PendingFor(F.Next(w.friends, op), target)
                  else if t.FriendAccept? then
                    multiset(F.FriendsOf(F.Next(w.friends, op), me))[target] == 1
                    && multiset(F.FriendsOf(F.Next(w.friends, op), target))[me] == 1
                  else F.NothingBetween(F.Next(w.friends, op), me, target))
  {
    hide F.PendingFor, F.FriendsOf, F.NothingBetween, F.Perform;
    IdsKnown(w, login);
    IdsKnown(w, targetLogin);
    match t
    case FriendRequest => F.SendEffect(w.friends, U.Ids(w.accounts.users), me, target);
    case FriendAccept =>
      F.PendingViewAgrees(w.friends, me, target);
      if F.Succeeds(w.friends, F.Accept(me, target)) {
        F.AcceptEffect(w.friends, me, target);
      }
    case FriendReject =>
      F.PendingViewAgrees(w.friends, me, target);
      if F.Succeeds(w.friends, F.Reject(me, target)) {
        F.RejectEffect(w.friends, me, target);
      }
  }

  lemma {:induction false} LoginsListed(users: seq<U.User>, ids: seq<int>, shown: Bytes)
    requires LoginsOf(users, ids).Some?
    ensures TextV(shown) in LoginsOf(users, ids).value <==>
            exists id :: id in ids && U.LoginById(users, id) == Some(shown)
    ensures |LoginsOf(users, ids).value| == |ids|
  {
    if ids != [] {
      LoginsListed(users, ids[1..], shown);
      assert ids == [ids[0]] + ids[1..];
    }
  }

  /** The friend list answer: a name is among the friends exactly when it is the login, as far as its first zero byte,
      of somebody with whom direct messages may be exchanged, and among the pending ones exactly when it is that of
      somebody whose request could be accepted or rejected. */
  lemma FriendListAnswer(w: World, sid: Sid, body: Bytes, env: Env, login: Bytes, me: int, shown: Bytes)
    requires Inv(w) && sid in w.live && ParseRequest(FriendList, body).Some?
    requires HoldsToken(w, ParseRequest(FriendList, body).value[0], env.now, login, me)
    ensures var h := Dispatch(w, sid, FriendList, body, env);
            var users := w.accounts.users;
            && h.Handled? && h.world == w && h.login == None
            && |h.response| == 3 && h.response[0].VectorV? && h.response[1].VectorV? && h.response[2] == CodeV(OK)
            && |h.response[0].items| == |F.FriendsOf(w.friends, me)|
            && |h.response[1].items| == |F.PendingFor(w.friends, me)|
            && (TextV(shown) in h.response[0].items <==>
                  exists id :: F.AreFriends(w.friends, me, id) == OK && U.LoginById(users, id) == Some(shown))
            && (TextV(shown) in h.response[1].items <==>
                  exists id :: F.Succeeds(w.friends, F.Accept(me, id)) && U.LoginById(users, id) == Some(shown))
            && (TextV(shown) in h.response[1].items <==>
                  exists id :: F.Succeeds(w.friends, F.Reject(me, id)) && U.LoginById(users, id) == Some(shown))
  {
    hide Inv, Nameless, F.Succeeds, F.FriendsOf, F.PendingFor, F.AreFriends, U.LoginByToken, U.LoginById, ParseRequest;
    var f := ParseRequest(FriendList, body).value;
    FriendListThrowsExactly(w, f, env);
    ResolvesUnlessNameless(w, f[0], env.now);
    LoginsListed(w.accounts.users, F.FriendsOf(w.friends, me), shown);
    LoginsListed(w.accounts.users, F.PendingFor(w.friends, me), shown);
    FriendsOkIn(w);
    forall id ensures id in F.FriendsOf(w.friends, me) <==> F.AreFriends(w.friends, me, id) == OK {
      F.FriendViewsAgree(w.friends, me, id);
    }
    forall id ensures (id in F.PendingFor(w.friends, me) <==> F.Succeeds(w.friends, F.Accept(me, id)))
                   && (id in F.PendingFor(w.friends, me) <==> F.Succeeds(w.friends, F.Reject(me, id))) {
      F.PendingViewAgrees(w.friends, me, id);
    }
  }

  lemma FriendsOkIn(w: World)
    requires Inv(w)
    ensures F.FriendInv(w.friends)
  {
  }

  // ---- messages ------------------------------------------------------------------------------

  /** One row more than before, with this id, waiting for its recipient, and the others as they were. */
  predicate StoredOne(before: seq<M.Row>, after: seq<M.Row>, id: int, sender: int, recipient: int, text: Bytes,
                      time: int)
  {
    && |after| == |before| + 1 && before <= after
    && var r := after[|before|];
       && r in M.Undelivered(after, recipient)
       && r == M.Row(id, sender, recipient, time, text, false)
  }

  /** A direct message is accepted exactly between friends and otherwise answered with NotFriends. Once accepted,
      the recipient has one more undelivered message, from the user whose token it was, and the rest of the
      table is untouched. */
  lemma DirectMessageAnswer(w: World, sid: Sid, body: Bytes, env: Env, login: Bytes, me: int, target: int)
    requires Inv(w) && sid in w.live && ParseRequest(DirectMessage, body).Some?
    requires HoldsToken(w, ParseRequest(DirectMessage, body).value[0], env.now, login, me)
    requires NamedBy(w.accounts.users, ParseRequest(DirectMessage, body).value[1], target)
    ensures var f, h := ParseRequest(DirectMessage, body).value, Dispatch(w, sid, DirectMessage, body, env);
            && h.Handled? && h.login == None && h.world == w.(mail := h.world.mail, posted := h.world.posted)
            && (h.response == [CodeV(OK)] <==> target in F.FriendsOf(w.friends, me))
            && (h.response == [CodeV(OK)] ==>
                  && StoredOne(w.mail.rows, h.world.mail.rows, w.mail.nextId, me, target, f[2], env.saveTime)
                  && var s, live := R.SessionOf(w.online, w.live.Keys, f[1]), LivePush(w.mail.nextId, login, f[2]);
                     h.world.posted == if s.Some? then w.posted + [Posted(s.value, live)] else w.posted)
            && (h.response != [CodeV(OK)] ==>
                  h.response == [CodeV(NOT_FRIENDS)] && h.world.mail == w.mail && h.world.posted == w.posted)
  {
    hide Inv, M.Undelivered, F.FriendsOf, F.AreFriends, U.LoginByToken, ParseRequest;
    var f := ParseRequest(DirectMessage, body).value;
    DirectMessageThrowsExactly(w, f, env);
    ResolvesUnlessNameless(w, f[0], env.now);
    TokenCheckKeeps(w, f[0], env.now);
    FriendsListed(w, me, target);
    var h := HandleDirectMessage(w, f, env);
    M.UndeliveredIs(h.world.mail.rows, target);
  }

  lemma FriendsListed(w: World, a: int, b: int)
    requires Inv(w)
    ensures F.AreFriends(w.friends, a, b) == if b in F.FriendsOf(w.friends, a) then OK else NOT_FRIENDS
  {
    F.FriendViewsAgree(w.friends, a, b);
  }

  lemma {:induction false} HistoryEntriesAre(users: seq<U.User>, rows: seq<M.Row>)
    requires HistoryEntries(users, rows).Some?
    ensures var es := HistoryEntries(users, rows).value;
            && |es| == |rows|
            && forall i :: 0 <= i < |es| ==>
                 U.LoginById(users, rows[i].sender).Some?
                 && es[i] == EntryV(U.LoginById(users, rows[i].sender).value, rows[i].text, rows[i].createAt)
  {
    if rows != [] {
      HistoryEntriesAre(users, rows[1..]);
    }
  }

  predicate Exchanged(r: M.Row, a: int, b: int)
  {
    (r.sender == a && r.recipient == b) || (r.sender == b && r.recipient == a)
  }

  /** Messages of two users in either direction, oldest first, none twice: all of them up to a hundred, and of more
      the oldest hundred. */
  ghost predicate OldestHundredOf(rows: seq<M.Row>, table: seq<M.Row>, a: int, b: int)
  {
    && |rows| <= 100
    && (forall r :: r in rows ==> r in table && Exchanged(r, a, b))
    && (forall i, j :: 0 <= i < j < |rows| ==> rows[i].createAt <= rows[j].createAt)
    && (forall r :: multiset(rows)[r] <= multiset(table)[r])
    && (forall r :: r in table && Exchanged(r, a, b) && r !in rows ==>
          |rows| == 100 && forall kept :: kept in rows ==> kept.createAt <= r.createAt)
  }

  /** One entry a message: the login of the user who sent it, its text and its time, as the database returns them. */
  predicate EntriesFor(items: seq<Value>, rows: seq<M.Row>, me: int, mine: Bytes, theirs: Bytes)
  {
    && |items| == |rows|
    && forall i :: 0 <= i < |rows| ==>
         var from := if rows[i].sender == me then mine else theirs;
         items[i] == RecordV([TextV(CString(from)), TextV(CString(rows[i].text)), Int64V(Signed(rows[i].createAt))])
  }

  /** The history answer, entry by entry, and how many there are. */
  lemma HistoryAnswer(w: World, sid: Sid, body: Bytes, env: Env, login: Bytes, me: int, peer: int)
      returns (rows: seq<M.Row>)
    requires Inv(w) && sid in w.live && ParseRequest(MessageHistory, body).Some?
    requires HoldsToken(w, ParseRequest(MessageHistory, body).value[0], env.now, login, me)
    requires NamedBy(w.accounts.users, ParseRequest(MessageHistory, body).value[1], peer)
    ensures OldestHundredOf(rows, w.mail.rows, me, peer)
    ensures |rows| == var all := |M.Conversation(w.mail.rows, me, peer)|; if all <= 100 then all else 100
    ensures var h := Dispatch(w, sid, MessageHistory, body, env);
            && h.Handled? && h.world == w && h.login == None
            && |h.response| == 2 && h.response[0].VectorV? && h.response[1] == CodeV(OK)
            && EntriesFor(h.response[0].items, rows, me, login, ParseRequest(MessageHistory, body).value[1])
  {
    hide Inv, M.History, M.Conversation, U.LoginByToken, Nameless, ParseRequest, OldestHundredOf, EntriesFor;
    var f := ParseRequest(MessageHistory, body).value;
    HistoryThrowsExactly(w, f, env);
    ResolvesUnlessNameless(w, f[0], env.now);
    rows := M.History(w.mail.rows, me, peer, 100);
    OldestHundred(w.mail.rows, me, peer);
    HistoryItems(w, rows, me, peer, login, f[1]);
  }

  lemma HistoryItems(w: World, rows: seq<M.Row>, me: int, peer: int, mine: Bytes, theirs: Bytes)
    requires Inv(w) && NamedBy(w.accounts.users, mine, me) && NamedBy(w.accounts.users, theirs, peer)
    requires OldestHundredOf(rows, w.mail.rows, me, peer)
    requires HistoryEntries(w.accounts.users, M.ReadAll(rows)).Some?
    ensures EntriesFor(HistoryEntries(w.accounts.users, M.ReadAll(rows)).value, rows, me, mine, theirs)
  {
    hide Inv, OldestHundredOf;
    HistoryEntriesAre(w.accounts.users, M.ReadAll(rows));
    forall i | 0 <= i < |rows|
      ensures var from := if rows[i].sender == me then mine else theirs;
              U.LoginById(w.accounts.users, rows[i].sender) == Some(CString(from))
    {
      SenderIsOne(rows, w.mail.rows, me, peer, i);
      LoginOfId(w, mine, me);
      LoginOfId(w, theirs, peer);
    }
  }

  lemma SenderIsOne(rows: seq<M.Row>, table: seq<M.Row>, a: int, b: int, i: nat)
    requires OldestHundredOf(rows, table, a, b) && i < |rows|
    ensures rows[i].sender == a || rows[i].sender == b
  {
    assert rows[i] in rows;
  }

  lemma OldestHundred(table: seq<M.Row>, a: int, b: int)
    ensures OldestHundredOf(M.History(table, a, b, 100), table, a, b)
    ensures var all := |M.Conversation(table, a, b)|;
            |M.History(table, a, b, 100)| == if all <= 100 then all else 100
  {
    hide M.History, M.Conversation;
    var rows := M.History(table, a, b, 100);
    M.HistoryRows(table, a, b, 100);
    M.HistorySize(table, a, b, 100);
    NoneTwice(table, a, b);
    forall r | r in table && Exchanged(r, a, b) && r !in rows
      ensures |rows| == 100 && forall kept :: kept in rows ==> kept.createAt <= r.createAt
    {
      OmittedIsLater(table, a, b, r);
    }
  }

  lemma NoneTwice(table: seq<M.Row>, a: int, b: int)
    ensures forall r :: multiset(M.History(table, a, b, 100))[r] <= multiset(table)[r]
  {
    hide M.History, M.Conversation;
    M.HistoryRows(table, a, b, 100);
    forall r ensures multiset(M.History(table, a, b, 100))[r] <= multiset(table)[r] {
      M.ConversationIs(table, a, b, r);
    }
  }

  lemma OmittedIsLater(table: seq<M.Row>, a: int, b: int, r: M.Row)
    requires r in table && r !in M.History(table, a, b, 100) && M.Between(r, a, b)
    ensures |M.History(table, a, b, 100)| == 100
    ensures forall kept :: kept in M.History(table, a, b, 100) ==> kept.createAt <= r.createAt
  {
    hide M.History;
    var rows := M.History(table, a, b, 100);
    assert r in M.Conversation(table, a, b);
    M.HistorySize(table, a, b, 100);
    M.HistoryIsOldest(table, a, b, 100, rows[0], r);
    forall kept | kept in rows ensures kept.createAt <= r.createAt {
      M.HistoryIsOldest(table, a, b, 100, kept, r);
    }
  }

  lemma LoginOfId(w: World, login: Bytes, id: int)
    requires Inv(w) && NamedBy(w.accounts.users, login, id)
    ensures U.ById(w.accounts.users, id).Some? && U.ById(w.accounts.users, id).value.login == login
  {
    U.LookupsInverse(w.accounts, login, id);
  }

  /** The chat list answer, entry by entry: each is the latest message with one peer, that peer's login, its text and
      its time, as the database returns them; no peer is missing or listed twice, and the latest comes first. */
  lemma ChatListAnswer(w: World, sid: Sid, body: Bytes, env: Env, login: Bytes, me: int) returns (rows: seq<M.Row>)
    requires Inv(w) && sid in w.live && ParseRequest(ChatList, body).Some?
    requires HoldsToken(w, ParseRequest(ChatList, body).value[0], env.now, login, me)
    ensures var h := Dispatch(w, sid, ChatList, body, env);
            && h.Handled? && h.world == w && h.login == None
            && |h.response| == 2 && h.response[0].VectorV? && h.response[1] == CodeV(OK)
            && |h.response[0].items| == |rows|
            && forall i :: 0 <= i < |rows| ==>
                 && U.ById(w.accounts.users, PeerOf(rows[i], me)).Some?
                 && h.response[0].items[i]
                    == RecordV([TextV(CString(U.ById(w.accounts.users, PeerOf(rows[i], me)).value.login)),
                                TextV(CString(rows[i].text)), Int64V(Signed(rows[i].createAt))])
    ensures forall r :: r in rows ==> r in w.mail.rows && (r.sender == me || r.recipient == me)
    ensures forall i, j :: 0 <= i < j < |rows| ==>
              rows[i].createAt >= rows[j].createAt && PeerOf(rows[i], me) != PeerOf(rows[j], me)
    ensures forall r :: r in w.mail.rows && (r.sender == me || r.recipient == me) ==>
              exists s :: s in rows && PeerOf(s, me) == PeerOf(r, me) && r.createAt <= s.createAt
  {
    hide Inv, U.LoginByToken, ParseRequest, M.LastMessages, Nameless;
    ResolvesUnlessNameless(w, ParseRequest(ChatList, body).value[0], env.now);
    rows := LatestRows(w.mail.rows, me);
    var chats := M.LastMessages(w.mail.rows, me);
    forall i | 0 <= i < |rows|
      ensures U.ById(w.accounts.users, PeerOf(rows[i], me)).Some?
    {
      assert rows[i] in rows;
      PeersKnown(w, rows[i], me);
    }
  }

  /** The other user of a message. */
  function PeerOf(r: M.Row, me: int): int
  {
    if r.sender == me then r.recipient else r.sender
  }

  lemma PeersKnown(w: World, r: M.Row, me: int)
    requires Inv(w) && r in w.mail.rows
    ensures U.ById(w.accounts.users, PeerOf(r, me)).Some?
  {
    U.KnownId(w.accounts, PeerOf(r, me));
  }

  lemma LatestRows(table: seq<M.Row>, me: int) returns (rows: seq<M.Row>)
    ensures var chats := M.LastMessages(table, me);
            |rows| == |chats| && forall i :: 0 <= i < |rows| ==>
                                   chats[i] == M.Chat(PeerOf(rows[i], me), rows[i].text, rows[i].createAt)
    ensures forall r :: r in rows ==> r in table && (r.sender == me || r.recipient == me)
    ensures forall i, j :: 0 <= i < j < |rows| ==>
              rows[i].createAt >= rows[j].createAt && PeerOf(rows[i], me) != PeerOf(rows[j], me)
    ensures forall r :: r in table && (r.sender == me || r.recipient == me) ==>
              exists s :: s in rows && PeerOf(s, me) == PeerOf(r, me) && r.createAt <= s.createAt
  {
    hide *;
    var chats := M.LastMessages(table, me);
    M.ChatListIs(table, me);
    rows := [];
    for k := 0 to |chats|
      invariant |rows| == k
      invariant forall i :: 0 <= i < k ==> Shows(chats[i], rows[i], table, me)
    {
      assert chats[k] in chats;
      var r := LatestRow(chats[k], table, me);
      rows := rows + [r];
    }
    RowsShown(chats, rows, table, me);
    forall r | r in table && (r.sender == me || r.recipient == me)
      ensures exists s :: s in rows && PeerOf(s, me) == PeerOf(r, me) && r.createAt <= s.createAt
    {
      var s := ShownFor(chats, rows, table, me, r);
    }
  }

  predicate Shows(c: M.Chat, r: M.Row, table: seq<M.Row>, me: int)
  {
    r in table && (r.sender == me || r.recipient == me) && c == M.Chat(PeerOf(r, me), r.text, r.createAt)
  }

  lemma LatestRow(c: M.Chat, table: seq<M.Row>, me: int) returns (r: M.Row)
    requires M.IsLatest(c, table, me)
    ensures Shows(c, r, table, me)
  {
    r :| r in table && M.Involves(r, me) && M.ChatOf(r, me) == c;
  }

  lemma RowsShown(chats: seq<M.Chat>, rows: seq<M.Row>, table: seq<M.Row>, me: int)
    requires |rows| == |chats| && forall i :: 0 <= i < |rows| ==> Shows(chats[i], rows[i], table, me)
    requires M.DistinctPeers(chats) && forall i, j :: 0 <= i < j < |chats| ==> chats[i].time >= chats[j].time
    ensures forall i :: 0 <= i < |rows| ==> chats[i] == M.Chat(PeerOf(rows[i], me), rows[i].text, rows[i].createAt)
    ensures forall r :: r in rows ==> r in table && (r.sender == me || r.recipient == me)
    ensures forall i, j :: 0 <= i < j < |rows| ==>
              rows[i].createAt >= rows[j].createAt && PeerOf(rows[i], me) != PeerOf(rows[j], me)
  {
    hide PeerOf;
    forall i, j | 0 <= i < j < |rows|
      ensures rows[i].createAt >= rows[j].createAt && PeerOf(rows[i], me) != PeerOf(rows[j], me)
    {
      assert Shows(chats[i], rows[i], table, me) && Shows(chats[j], rows[j], table, me);
      assert chats[i].peer != chats[j].peer && chats[i].time >= chats[j].time;
    }
  }

  lemma ShownFor(chats: seq<M.Chat>, rows: seq<M.Row>, table: seq<M.Row>, me: int, r: M.Row) returns (s: M.Row)
    requires |rows| == |chats| && forall i :: 0 <= i < |rows| ==> Shows(chats[i], rows[i], table, me)
    requires forall c :: c in chats ==> M.IsLatest(c, table, me)
    requires forall x :: x in table && M.Involves(x, me) ==> M.Lists(chats, M.Peer(x, me))
    requires r in table && (r.sender == me || r.recipient == me)
    ensures s in rows && PeerOf(s, me) == PeerOf(r, me) && r.createAt <= s.createAt
  {
    assert M.Involves(r, me) && M.Lists(chats, M.Peer(r, me));
    var c :| c in chats && c.peer == M.Peer(r, me);
    var i :| 0 <= i < |chats| && chats[i] == c;
    assert M.IsLatest(c, table, me) && Shows(chats[i], rows[i], table, me);
    s := rows[i];
  }
}
