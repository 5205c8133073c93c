/** What each handled packet makes the server send, and when handling it fails. */
module ServerOutput {
  import opened Wire
  import opened Codec
  import opened Protocol
  import opened Server
  import opened ServerSafety
  import F = Friends
  import U = Users
  import M = Mail
  import R = Registry

  /** Everything but a RESULT; the notices are the three about friend requests. */
  predicate IsPush(o: Out)
  {
    && !o.Reply?
    && (o.Notice? ==> o.kind.FriendNewRequest? || o.kind.FriendRequestAccepted? || o.kind.FriendRequestRejected?)
  }

  predicate OnlyPushes(ps: seq<Posted>)
  {
    forall p :: p in ps ==> IsPush(p.out)
  }

  /** The handler only adds pushes to the log, and its response has the fields of its response message. */
  predicate Shaped(w: World, t: PacketType, h: Handled)
  {
    h.Handled? ==>
      && w.posted <= h.world.posted
      && OnlyPushes(h.world.posted[|w.posted|..])
      && (if Answered(t) then HaveSchemas(h.response, ResponseSchema(t)) else h.response == [])
  }

  lemma Fields1(v: Value, s: Schema)
    requires HasSchema(v, s)
    ensures HaveSchemas([v], [s])
  {
  }

  lemma Fields2(v: Value, w: Value, s: Schema, t: Schema)
    requires HasSchema(v, s) && HasSchema(w, t)
    ensures HaveSchemas([v, w], [s, t])
  {
    Fields1(w, t);
    assert [v, w][1..] == [w] && [s, t][1..] == [t];
  }

  lemma Fields3(v: Value, w: Value, x: Value, s: Schema, t: Schema, u: Schema)
    requires HasSchema(v, s) && HasSchema(w, t) && HasSchema(x, u)
    ensures HaveSchemas([v, w, x], [s, t, u])
  {
    Fields2(w, x, t, u);
    assert [v, w, x][1..] == [w, x] && [s, t, u][1..] == [t, u];
  }

  lemma CodeOnly(c: ErrorCode)
    ensures HaveSchemas([CodeV(c)], [Code])
  {
    Fields1(CodeV(c), Code);
  }

  lemma ListAndCode(vs: seq<Value>, s: Schema, c: ErrorCode)
    requires AllHaveSchema(vs, s)
    ensures HaveSchemas([VectorV(vs), CodeV(c)], [Vector(s), Code])
  {
    Fields2(VectorV(vs), CodeV(c), Vector(s), Code);
  }

  lemma {:induction false} LoginsAreTexts(users: seq<U.User>, ids: seq<int>)
    requires LoginsOf(users, ids).Some?
    ensures AllHaveSchema(LoginsOf(users, ids).value, Text)
  {
    if ids != [] {
      LoginsAreTexts(users, ids[1..]);
    }
  }

  lemma EntryHasSchema(login: Bytes, text: Bytes, time: int)
    ensures HasSchema(EntryV(login, text, time), Record(ENTRY))
  {
    Fields3(TextV(login), TextV(text), Int64V(Signed(time)), Text, Text, Int64);
  }

  lemma {:induction false} HistoryAreEntries(users: seq<U.User>, rows: seq<M.Row>)
    requires HistoryEntries(users, rows).Some?
    ensures AllHaveSchema(HistoryEntries(users, rows).value, Record(ENTRY))
  {
    if rows != [] {
      HistoryAreEntries(users, rows[1..]);
      EntryHasSchema(U.LoginById(users, rows[0].sender).value, rows[0].text, rows[0].createAt);
    }
  }

  lemma {:induction false} ChatsAreEntries(vs: seq<Value>)
    requires forall v :: v in vs ==> exists login, text, time :: v == EntryV(login, text, time)
    ensures AllHaveSchema(vs, Record(ENTRY))
  {
    if vs != [] {
      assert vs[0] in vs && forall v :: v in vs[1..] ==> v in vs;
      ChatsAreEntries(vs[1..]);
      var login, text, time :| vs[0] == EntryV(login, text, time);
      EntryHasSchema(login, text, time);
    }
  }

  lemma PushedOne(w: World, to: Sid, o: Out)
    requires IsPush(o)
    ensures w.posted <= Post(w, to, o).posted && OnlyPushes(Post(w, to, o).posted[|w.posted|..])
  {
    assert Post(w, to, o).posted[|w.posted|..] == [Posted(to, o)];
  }

  lemma PushedToLogin(w: World, login: Bytes, o: Out)
    requires IsPush(o)
    ensures w.posted <= PostToLogin(w, login, o).posted && OnlyPushes(PostToLogin(w, login, o).posted[|w.posted|..])
  {
    var s := R.SessionOf(w.online, w.live.Keys, login);
    if s.Some? {
      PushedOne(w, s.value, o);
    }
  }

  lemma ShapedAuth(token: Bytes, c: ErrorCode)
    ensures HaveSchemas([TextV(token), CodeV(c)], [Text, Code])
  {
    Fields2(TextV(token), CodeV(c), Text, Code);
  }

  lemma ShapedFriendList(w: World, f: seq<Bytes>, env: Env)
    requires |f| == 1
    ensures Shaped(w, FriendList, HandleFriendList(w, f, env))
  {
    var l := U.LoginByToken(w.accounts, f[0], env.now);
    var h := HandleFriendList(w, f, env);
    match l.result
    case Refused(code) => Fields3(VectorV([]), VectorV([]), CodeV(code), Vector(Text), Vector(Text), Code);
    case LoggedIn(login) =>
      if h.Handled? {
        var me := U.ByLogin(l.accounts.users, login).value.id;
        LoginsAreTexts(l.accounts.users, F.FriendsOf(w.friends, me));
        LoginsAreTexts(l.accounts.users, F.PendingFor(w.friends, me));
        Fields3(h.response[0], h.response[1], CodeV(OK), Vector(Text), Vector(Text), Code);
      }
  }

  lemma ShapedChatList(w: World, f: seq<Bytes>, env: Env)
    requires |f| == 1
    ensures Shaped(w, ChatList, HandleChatList(w, f, env))
  {
    var l := U.LoginByToken(w.accounts, f[0], env.now);
    match l.result
    case Refused(code) => ListAndCode([], Record(ENTRY), code);
    case LoggedIn(login) =>
      var me := U.ByLogin(l.accounts.users, login);
      if me.Some? {
        var chats := ChatEntries(M.AllLastMessages(l.accounts.users, M.LastMessages(w.mail.rows, me.value.id)));
        ChatsAreEntries(chats);
        ListAndCode(chats, Record(ENTRY), OK);
      } else {
        ListAndCode([], Record(ENTRY), USER_NOT_FOUND);
      }
  }

  lemma ShapedHistory(w: World, f: seq<Bytes>, env: Env)
    requires |f| == 2
    ensures Shaped(w, MessageHistory, HandleHistory(w, f, env))
  {
    var h := HandleHistory(w, f, env);
    var l := U.LoginByToken(w.accounts, f[0], env.now);
    match l.result
    case Refused(code) => ListAndCode([], Record(ENTRY), code);
    case LoggedIn(login) =>
      if h.Handled? {
        var me, peer := U.ByLogin(l.accounts.users, login).value, U.ByLogin(l.accounts.users, f[1]).value;
        var rows := M.ReadAll(M.History(w.mail.rows, me.id, peer.id, HISTORY_LIMIT));
        HistoryAreEntries(l.accounts.users, rows);
        ListAndCode(HistoryEntries(l.accounts.users, rows).value, Record(ENTRY), OK);
      }
  }

  lemma AnyCode()
    ensures forall c: ErrorCode :: HaveSchemas([CodeV(c)], [Code])
  {
    forall c: ErrorCode ensures HaveSchemas([CodeV(c)], [Code]) {
      CodeOnly(c);
    }
  }

  lemma ShapedMessage(w: World, f: seq<Bytes>, env: Env)
    requires |f| == 2
    ensures Shaped(w, Message, HandleMessage(w, f, env))
  {
    AnyCode();
    var l := U.LoginByToken(w.accounts, f[0], env.now);
    if l.result.LoggedIn? {
      var ps := PostAll(R.Receivers(w.online, w.live.Keys, l.result.login), ChatPush(l.result.login, f[1]));
      assert (w.posted + ps)[|w.posted|..] == ps;
    }
  }

  lemma ShapedFriend(w: World, t: PacketType, f: seq<Bytes>, env: Env)
    requires |f| == 2 && (t.FriendRequest? || t.FriendAccept? || t.FriendReject?)
    ensures Shaped(w, t, HandleFriend(w, t, f, env))
  {
    hide F.Perform, PostToLogin;
    AnyCode();
    forall w2: World | w2.posted == w.posted
      ensures var w3 := PostToLogin(w2, f[1], Notice(NoticeOf(t)));
              w.posted <= w3.posted && OnlyPushes(w3.posted[|w.posted|..])
    {
      PushedToLogin(w2, f[1], Notice(NoticeOf(t)));
    }
  }

  lemma ShapedDirectMessage(w: World, f: seq<Bytes>, env: Env)
    requires |f| == 3
    ensures Shaped(w, DirectMessage, HandleDirectMessage(w, f, env))
  {
    hide PostToLogin;
    AnyCode();
    var l := U.LoginByToken(w.accounts, f[0], env.now);
    if l.result.LoggedIn? {
      var out := LivePush(w.mail.nextId, l.result.login, f[2]);
      forall w2: World | w2.posted == w.posted
        ensures var w3 := PostToLogin(w2, f[1], out);
                w.posted <= w3.posted && OnlyPushes(w3.posted[|w.posted|..])
      {
        PushedToLogin(w2, f[1], out);
      }
    }
  }

  lemma ShapedDispatch(w: World, sid: Sid, t: PacketType, body: Bytes, env: Env)
    requires sid in w.live
    ensures Shaped(w, t, Dispatch(w, sid, t, body, env))
  {
    var parsed := ParseRequest(t, body);
    if parsed.Some? {
      var f := parsed.value;
      var h := Dispatch(w, sid, t, body, env);
      match t
      case FriendList => ShapedFriendList(w, f, env);
      case ChatList => ShapedChatList(w, f, env);
      case MessageHistory => ShapedHistory(w, f, env);
      case Message => ShapedMessage(w, f, env);
      case DirectMessage => ShapedDirectMessage(w, f, env);
      case FriendRequest => ShapedFriend(w, t, f, env);
      case FriendAccept => ShapedFriend(w, t, f, env);
      case FriendReject => ShapedFriend(w, t, f, env);
      case Download =>
        if h.Handled? {
          Fields2(h.response[0], h.response[1], Blob, Code);
        }
      case Register =>
        if h.Handled? {
          ShapedAuth(h.response[0].text, h.response[1].code);
        }
      case Login =>
        if h.Handled? {
          ShapedAuth(h.response[0].text, h.response[1].code);
        }
      case Upload =>
        if h.Handled? {
          CodeOnly(h.response[0].code);
        }
      case TokenVerify =>
        if h.Handled? {
          CodeOnly(h.response[0].code);
        }
      case _ =>
    }
  }

  /** What one handled packet appends to the log: the pushes, then for every answered request exactly one
      RESULT to its own session with the fields of that request's response message, and for every other
      packet no RESULT at all. */
  lemma PacketOutput(w: World, sid: Sid, t: PacketType, body: Bytes, env: Env)
      returns (pushes: seq<Posted>, values: seq<Value>)
    requires sid in w.live && HandlePacket(w, sid, t, body, env).Some?
    ensures OnlyPushes(pushes)
    ensures HandlePacket(w, sid, t, body, env).value.posted
         == w.posted + pushes + if Answered(t) then [Posted(sid, Reply(t, values))] else []
    ensures Answered(t) ==> HaveSchemas(values, ResponseSchema(t))
  {
    hide Dispatch, Authenticate, HandlePacket, Replays, HaveSchemas, OnlyPushes, M.Undelivered;
    PacketSteps(w, sid, t, body, env);
    ShapedDispatch(w, sid, t, body, env);
    var h := Dispatch(w, sid, t, body, env);
    var w' := HandlePacket(w, sid, t, body, env).value;
    values := h.response;
    pushes := h.world.posted[|w.posted|..];
    assert h.world.posted == w.posted + pushes;
    if h.login.Some? {
      var replays := AuthenticateOutput(h.world, sid, h.login.value);
      Regroup(w.posted, pushes, replays);
      OnlyPushesAppend(pushes, replays);
      pushes := pushes + replays;
    }
    if Answered(t) {
      ResponseNotEmpty(t, values);
    }
  }

  lemma OnlyPushesAppend(ps: seq<Posted>, qs: seq<Posted>)
    requires OnlyPushes(ps) && OnlyPushes(qs)
    ensures OnlyPushes(ps + qs)
  {
  }

  lemma AuthenticateOutput(w: World, sid: Sid, login: Bytes) returns (replays: seq<Posted>)
    requires sid in w.live && Authenticate(w, sid, login).Some?
    ensures Authenticate(w, sid, login).value.posted == w.posted + replays
    ensures OnlyPushes(replays)
    ensures var me := U.ByLogin(w.accounts.users, login);
            me.Some? && Replays(w.accounts.users, sid, login, M.Undelivered(w.mail.rows, me.value.id)) == Some(replays)
  {
    var me := U.ByLogin(w.accounts.users, login).value.id;
    var due := M.Undelivered(w.mail.rows, me);
    replays := Replays(w.accounts.users, sid, login, due).value;
    ReplaysAre(w.accounts.users, sid, login, due);
  }

  /** How many of some posts are a given packet to a given session. */
  function TimesPosted(ps: seq<Posted>, p: Posted): nat
  {
    multiset(ps)[p]
  }

  lemma {:induction false} PostAllCount(to: seq<Sid>, out: Out, s: Sid)
    ensures multiset(PostAll(to, out))[Posted(s, out)] == multiset(to)[s]
  {
    if to != [] {
      PostAllCount(to[1..], out, s);
      assert to == [to[0]] + to[1..];
      assert multiset(to) == multiset{to[0]} + multiset(to[1..]);
      assert PostAll(to, out) == [Posted(to[0], out)] + PostAll(to[1..], out);
      assert multiset(PostAll(to, out)) == multiset{Posted(to[0], out)} + multiset(PostAll(to[1..], out));
    } else {
      assert PostAll(to, out) == [];
    }
  }

  /** A chat message with a valid token is posted to every live session once for each login, other than the
      sender's, that the session is registered under, and to nobody else; then the sender gets its RESULT. */
  lemma ChatReachesEverybodyElse(w: World, sid: Sid, body: Bytes, env: Env, s: Sid)
    requires Inv(w) && sid in w.live && ParseRequest(Message, body).Some?
    requires HandlePacket(w, sid, Message, body, env).Some?
    requires U.LoginByToken(w.accounts, ParseRequest(Message, body).value[0], env.now).result.LoggedIn?
    ensures var f := ParseRequest(Message, body).value;
            var login := U.LoginByToken(w.accounts, f[0], env.now).result.login;
            var added := HandlePacket(w, sid, Message, body, env).value.posted[|w.posted|..];
            && added != [] && added[|added| - 1] == Posted(sid, Reply(Message, [CodeV(OK)]))
            && TimesPosted(added, Posted(s, ChatPush(login, f[1]))) == |R.Ears(w.online, w.live.Keys, login, s)|
            && |added| == |R.Receivers(w.online, w.live.Keys, login)| + 1
            && HandlePacket(w, sid, Message, body, env).value == w.(posted := w.posted + added)
  {
    hide R.Ears, R.Receivers, Inv, U.LoginByToken, HandlePacket, PostAll;
    LoggedInKeeps(w, ParseRequest(Message, body).value[0], env.now);
    assert R.Distinct(w.online) by { OnlineDistinct(w); }
    var f := ParseRequest(Message, body).value;
    var login := U.LoginByToken(w.accounts, f[0], env.now).result.login;
    var to, out := R.Receivers(w.online, w.live.Keys, login), ChatPush(login, f[1]);
    R.BroadcastOncePerLogin(w.online, w.live.Keys, login, s);
    PostAllCount(to, out, s);
    MessagePosts(w, sid, body, env);
    var reply := Posted(sid, Reply(Message, [CodeV(OK)]));
    var added := HandlePacket(w, sid, Message, body, env).value.posted[|w.posted|..];
    assert added == PostAll(to, out) + [reply];
    assert multiset([reply])[Posted(s, out)] == 0;
  }

  lemma LoggedInKeeps(w: World, token: Bytes, now: int)
    requires U.LoginByToken(w.accounts, token, now).result.LoggedIn?
    ensures U.LoginByToken(w.accounts, token, now).accounts == w.accounts
  {
  }

  lemma MessagePosts(w: World, sid: Sid, body: Bytes, env: Env)
    requires sid in w.live && ParseRequest(Message, body).Some? && HandlePacket(w, sid, Message, body, env).Some?
    requires U.LoginByToken(w.accounts, ParseRequest(Message, body).value[0], env.now).result.LoggedIn?
    ensures var f := ParseRequest(Message, body).value;
            var login := U.LoginByToken(w.accounts, f[0], env.now).result.login;
            var pushes := PostAll(R.Receivers(w.online, w.live.Keys, login), ChatPush(login, f[1]));
            HandlePacket(w, sid, Message, body, env).value
            == WithAccounts(w, U.LoginByToken(w.accounts, f[0], env.now).accounts)
               .(posted := w.posted + pushes + [Posted(sid, Reply(Message, [CodeV(OK)]))])
  {
    hide U.LoginByToken, R.Receivers, PostAll, EncodeAll;
    CodeOnly(OK);
    ResponseNotEmpty(Message, [CodeV(OK)]);
  }

  lemma OnlineDistinct(w: World)
    requires Inv(w)
    ensures R.Distinct(w.online)
  {
  }

  // ---- authentication ------------------------------------------------------------------------

  /** The login a packet authenticates its session as, judged before the packet is handled. */
  function AuthenticatesAs(w: World, t: PacketType, body: Bytes, env: Env): Option<Bytes>
  {
    var parsed := ParseRequest(t, body);
    if parsed.None? then None
    else
      var f := parsed.value;
      match t
      case Register => if U.ByLogin(w.accounts.users, f[0]).None? then Some(f[0]) else None
      case Login => if U.PasswordMatches(w.accounts, f[0], f[1]) then Some(f[0]) else None
      case TokenVerify =>
        var r := U.LoginByToken(w.accounts, f[0], env.now).result;
        if r.LoggedIn? then Some(r.login) else None
      case _ => None
  }

  lemma DispatchLogin(w: World, sid: Sid, t: PacketType, body: Bytes, env: Env)
    requires sid in w.live && Dispatch(w, sid, t, body, env).Handled?
    ensures Dispatch(w, sid, t, body, env).login == AuthenticatesAs(w, t, body, env)
  {
  }

  /** The log has grown by one replay for each due message, in time order, and then this RESULT, all to one session. */
  predicate Delivers(before: seq<Posted>, log: seq<Posted>, sid: Sid, login: Bytes, due: seq<M.Row>, answer: Out)
  {
    && |log| == |before| + |due| + 1
    && log[..|before|] == before
    && log[|log| - 1] == Posted(sid, answer)
    && (forall i :: 0 <= i < |due| ==>
          var p := log[|before| + i];
          && p.to == sid && p.out.ReplayPush? && p.out.row == due[i].id && p.out.login == login
          && p.out.text == CString(due[i].text) && p.out.time == due[i].createAt)
    && (forall i, j :: 0 <= i < j < |due| ==> due[i].createAt <= due[j].createAt)
  }

  /** A successful authentication queues the user's undelivered messages to that session, oldest first and
      one packet each, then the RESULT, which says OK and carries the new token where one was issued; afterwards
      the user has no undelivered message, the session carries the login and the token, and the registry names
      the session under the login. */
  lemma AuthenticationDelivers(w: World, sid: Sid, t: PacketType, body: Bytes, env: Env)
    requires Inv(w) && sid in w.live && HandlePacket(w, sid, t, body, env).Some?
    requires AuthenticatesAs(w, t, body, env).Some?
    ensures var login := AuthenticatesAs(w, t, body, env).value;
            var w' := HandlePacket(w, sid, t, body, env).value;
            var me := U.ByLogin(w'.accounts.users, login);
            && me.Some?
            && M.Undelivered(w'.mail.rows, me.value.id) == []
            && sid in w'.live
            && w'.live[sid] == Session(login, if t.TokenVerify? then ParseRequest(t, body).value[0] else env.token)
            && R.SessionOf(w'.online, w'.live.Keys, login) == Some(sid)
            && var answer := Reply(t, if t.TokenVerify? then [CodeV(OK)] else [TextV(env.token), CodeV(OK)]);
               Delivers(w.posted, w'.posted, sid, login, M.Undelivered(w.mail.rows, me.value.id), answer)
  {
    hide Inv, Authenticate, M.Undelivered, Dispatch, HandlePacket, HaveSchemas, EncodeAll, AuthenticatesAs, Delivers;
    var login := AuthenticatesAs(w, t, body, env).value;
    var h := Dispatch(w, sid, t, body, env);
    PacketSteps(w, sid, t, body, env);
    DispatchLogin(w, sid, t, body, env);
    DispatchKeeps(w, sid, t, body, env);
    AuthLeavesMail(w, sid, t, body, env);
    AuthenticateKeeps(h.world, sid, login);
    AuthenticateSession(h.world, sid, login);
    AuthenticationLog(w, sid, t, body, env);
  }

  lemma AuthenticationLog(w: World, sid: Sid, t: PacketType, body: Bytes, env: Env)
    requires sid in w.live && HandlePacket(w, sid, t, body, env).Some?
    requires AuthenticatesAs(w, t, body, env).Some?
    ensures var login, h := AuthenticatesAs(w, t, body, env).value, Dispatch(w, sid, t, body, env);
            var me := U.ByLogin(h.world.accounts.users, login);
            && me.Some?
            && Delivers(w.posted, HandlePacket(w, sid, t, body, env).value.posted, sid, login,
                        M.Undelivered(w.mail.rows, me.value.id), Reply(t, h.response))
  {
    hide Authenticate, M.Undelivered, Dispatch, HandlePacket, HaveSchemas, OnlyPushes, Replays, EncodeAll;
    hide AuthenticatesAs, Delivers;
    var login := AuthenticatesAs(w, t, body, env).value;
    var h := Dispatch(w, sid, t, body, env);
    PacketSteps(w, sid, t, body, env);
    DispatchLogin(w, sid, t, body, env);
    ShapedDispatch(w, sid, t, body, env);
    AuthLeavesMail(w, sid, t, body, env);
    ResponseNotEmpty(t, h.response);
    var replays := AuthenticateOutput(h.world, sid, login);
    var due := M.Undelivered(w.mail.rows, U.ByLogin(h.world.accounts.users, login).value.id);
    DeliveryLog(h.world.accounts.users, sid, login, U.ByLogin(h.world.accounts.users, login).value.id, w.mail.rows,
                w.posted, replays, Reply(t, h.response));
  }

  lemma DeliveryLog(users: seq<U.User>, sid: Sid, login: Bytes, me: int, rows: seq<M.Row>, before: seq<Posted>,
                    replays: seq<Posted>, reply: Out)
    requires Replays(users, sid, login, M.Undelivered(rows, me)) == Some(replays)
    ensures Delivers(before, before + replays + [Posted(sid, reply)], sid, login, M.Undelivered(rows, me), reply)
  {
    hide Replays, M.Undelivered;
    ReplaysAre(users, sid, login, M.Undelivered(rows, me));
    M.UndeliveredIs(rows, me);
  }

  lemma AuthLeavesMail(w: World, sid: Sid, t: PacketType, body: Bytes, env: Env)
    requires sid in w.live && Dispatch(w, sid, t, body, env).Handled? && AuthenticatesAs(w, t, body, env).Some?
    ensures var w1 := Dispatch(w, sid, t, body, env).world;
            w1.mail == w.mail && w1.posted == w.posted && w1.online == w.online && Answered(t)
    ensures var h := Dispatch(w, sid, t, body, env);
            && ParseRequest(t, body).Some? && ParseRequest(t, body).value != []
            && (if t.TokenVerify? then
                  h.response == [CodeV(OK)]
                  && h.world.live[sid] == Session(w.live[sid].login, ParseRequest(t, body).value[0])
                else
                  h.response == [TextV(env.token), CodeV(OK)]
                  && h.world.live[sid] == Session(w.live[sid].login, env.token))
  {
  }

  lemma AuthenticateSession(w: World, sid: Sid, login: Bytes)
    requires sid in w.live && Authenticate(w, sid, login).Some?
    ensures var w' := Authenticate(w, sid, login).value;
            && w'.live == w.live[sid := w.live[sid].(login := login)]
            && w'.accounts == w.accounts && w'.friends == w.friends
            && w'.online == R.Put(w.online, login, sid)
            && R.SessionOf(w'.online, w'.live.Keys, login) == Some(sid)
  {
    R.GetPut(w.online, login, sid, login);
  }

  // ---- when handling a packet throws ---------------------------------------------------------

  predicate TokenWorks(w: World, token: Bytes, now: int)
  {
    token in w.accounts.tokens && now - w.accounts.tokens[token].createdAt <= U.TOKEN_TTL
  }

  /** The token works, but its owner's login has a zero byte and what stands before it is nobody's login. */
  predicate Nameless(w: World, token: Bytes, now: int)
  {
    var owner := U.OwnerOf(w.accounts, token, now);
    owner.Some? && 0 in owner.value.login && U.ByLogin(w.accounts.users, CString(owner.value.login)).None?
  }

  /** The only causes, all visible before the packet is handled: a body that does not parse, a generated token
      that is already taken, a file operation that fails, a history request for an unknown peer, and in four
      handlers a token whose owner's login is cut short to a login nobody has. */
  predicate Faulty(w: World, t: PacketType, body: Bytes, env: Env)
  {
    var parsed := ParseRequest(t, body);
    if parsed.None? then true
    else
      var f := parsed.value;
      match t
      case Register => U.ByLogin(w.accounts.users, f[0]).None? && env.token in w.accounts.tokens
      case Login => U.PasswordMatches(w.accounts, f[0], f[1]) && env.token in w.accounts.tokens
      case Upload => TokenWorks(w, f[0], env.now) && env.fileFails
      case Download => TokenWorks(w, f[0], env.now) && env.fileFails
      case FriendList => Nameless(w, f[0], env.now)
      case MessageHistory => HistoryFaulty(w, f[0], f[1], env.now)
      case DirectMessage => Nameless(w, f[0], env.now) && U.ByLogin(w.accounts.users, f[1]).Some?
      case TokenVerify => Nameless(w, f[0], env.now)
      case _ => false
  }

  predicate HistoryFaulty(w: World, token: Bytes, peer: Bytes, now: int)
  {
    TokenWorks(w, token, now) && (Nameless(w, token, now) || U.ByLogin(w.accounts.users, peer).None?)
  }

  /** What a token resolves to: nobody exactly if its owner is nameless. */
  lemma ResolvesUnlessNameless(w: World, token: Bytes, now: int)
    requires Inv(w)
    ensures var l := U.LoginByToken(w.accounts, token, now);
            && (l.result.LoggedIn? <==> TokenWorks(w, token, now))
            && (l.result.LoggedIn? ==>
                  WithAccounts(w, l.accounts) == w
                  && (U.ByLogin(w.accounts.users, l.result.login).None? <==> Nameless(w, token, now)))
            && (Nameless(w, token, now) ==> l.result.LoggedIn?)
  {
    U.LookupIsTotal(w.accounts, token, now);
    if U.OwnerOf(w.accounts, token, now).Some? {
      U.TokenNamesOwnerExactly(w.accounts, token, now);
    }
  }

  lemma {:induction false} LoginsExist(users: seq<U.User>, ids: seq<int>)
    requires forall id :: id in ids ==> id in U.Ids(users)
    ensures LoginsOf(users, ids).Some?
  {
    if ids != [] {
      assert ids[0] in ids && forall id :: id in ids[1..] ==> id in ids;
      LoginsExist(users, ids[1..]);
    }
  }

  lemma {:induction false} HistoryExists(users: seq<U.User>, rows: seq<M.Row>)
    requires forall r :: r in rows ==> r.sender in U.Ids(users)
    ensures HistoryEntries(users, rows).Some?
  {
    if rows != [] {
      assert rows[0] in rows && forall r :: r in rows[1..] ==> r in rows;
      HistoryExists(users, rows[1..]);
    }
  }

  lemma {:induction false} ListedIdsKnown(t: F.Table, users: seq<U.User>, id: int)
    requires forall r :: r in t ==> F.RowOk(r) && r.user1 in U.Ids(users) && r.user2 in U.Ids(users)
    ensures forall x :: x in F.FriendsOf(t, id) ==> x in U.Ids(users)
    ensures forall x :: x in F.PendingFor(t, id) ==> x in U.Ids(users)
  {
    if t != [] {
      assert t[0] in t && forall r :: r in t[1..] ==> r in t;
      ListedIdsKnown(t[1..], users, id);
    }
  }

  lemma FriendListThrowsExactly(w: World, f: seq<Bytes>, env: Env)
    requires Inv(w) && |f| == 1
    ensures HandleFriendList(w, f, env).Threw? <==> Nameless(w, f[0], env.now)
  {
    hide U.LoginByToken, Nameless, TokenWorks;
    ResolvesUnlessNameless(w, f[0], env.now);
    var l := U.LoginByToken(w.accounts, f[0], env.now);
    if l.result.LoggedIn? && U.ByLogin(w.accounts.users, l.result.login).Some? {
      var me := U.ByLogin(w.accounts.users, l.result.login).value.id;
      forall r | r in w.friends ensures F.RowOk(r) {
        var i :| 0 <= i < |w.friends| && w.friends[i] == r;
      }
      ListedIdsKnown(w.friends, w.accounts.users, me);
      LoginsExist(w.accounts.users, F.FriendsOf(w.friends, me));
      LoginsExist(w.accounts.users, F.PendingFor(w.friends, me));
    }
  }

  lemma HistoryThrowsExactly(w: World, f: seq<Bytes>, env: Env)
    requires Inv(w) && |f| == 2
    ensures HandleHistory(w, f, env).Threw? <==> HistoryFaulty(w, f[0], f[1], env.now)
  {
    hide U.LoginByToken, Nameless, TokenWorks;
    ResolvesUnlessNameless(w, f[0], env.now);
    var l := U.LoginByToken(w.accounts, f[0], env.now);
    var users := w.accounts.users;
    if l.result.LoggedIn? && U.ByLogin(users, l.result.login).Some? && U.ByLogin(users, f[1]).Some? {
      var me, peer := U.ByLogin(users, l.result.login).value.id, U.ByLogin(users, f[1]).value.id;
      M.HistoryRows(w.mail.rows, me, peer, HISTORY_LIMIT);
      var rows := M.History(w.mail.rows, me, peer, HISTORY_LIMIT);
      forall r | r in M.ReadAll(rows) ensures r.sender in U.Ids(w.accounts.users) {
        var i :| 0 <= i < |rows| && M.ReadAll(rows)[i] == r;
        assert rows[i] in rows;
      }
      HistoryExists(w.accounts.users, M.ReadAll(rows));
    }
  }

  lemma DirectMessageThrowsExactly(w: World, f: seq<Bytes>, env: Env)
    requires Inv(w) && |f| == 3
    ensures HandleDirectMessage(w, f, env).Threw? <==>
            Nameless(w, f[0], env.now) && U.ByLogin(w.accounts.users, f[1]).Some?
  {
    hide Inv, U.LoginByToken, Nameless, TokenWorks;
    ResolvesUnlessNameless(w, f[0], env.now);
  }

  /** Only TOKEN_VERIFY can authenticate a session as a login nobody has. */
  lemma AuthenticatesKnown(w: World, sid: Sid, t: PacketType, body: Bytes, env: Env)
    requires Inv(w) && sid in w.live && Dispatch(w, sid, t, body, env).Handled?
    requires Dispatch(w, sid, t, body, env).login.Some?
    ensures var h := Dispatch(w, sid, t, body, env);
            U.ByLogin(h.world.accounts.users, h.login.value).None? <==>
            t.TokenVerify? && Nameless(w, ParseRequest(t, body).value[0], env.now)
  {
    hide Inv, Nameless, TokenWorks, ParseRequest, U.RegisterUser, U.LoginByToken;
    var f := ParseRequest(t, body).value;
    match t
    case TokenVerify => ResolvesUnlessNameless(w, f[0], env.now);
    case Register => RegisteredIsKnown(w.accounts, f[0], f[1], env.salt);
    case Login =>
    case _ =>
  }

  lemma RegisteredIsKnown(a: U.Accounts, login: Bytes, password: Bytes, salt: ZeroFree)
    ensures U.ByLogin(U.RegisterUser(a, login, password, salt).accounts.users, login).Some?
  {
    var users' := U.RegisterUser(a, login, password, salt).accounts.users;
    if U.ByLogin(a.users, login).None? {
      assert users'[|a.users|] in users';
    }
  }

  lemma IdsKnown(w: World, login: Bytes)
    ensures U.ByLogin(w.accounts.users, login).Some? ==>
              U.ByLogin(w.accounts.users, login).value.id in U.Ids(w.accounts.users)
  {
  }

  lemma FriendTotal(w: World, t: PacketType, f: seq<Bytes>, env: Env)
    requires |f| == 2 && (t.FriendRequest? || t.FriendAccept? || t.FriendReject?)
    ensures HandleFriend(w, t, f, env).Handled?
  {
    hide U.Ids;
    var l := U.LoginByToken(w.accounts, f[0], env.now);
    IdsKnown(WithAccounts(w, l.accounts), f[1]);
    if l.result.LoggedIn? {
      IdsKnown(WithAccounts(w, l.accounts), l.result.login);
    }
  }

  /** In a reachable state, handling a packet throws exactly when one of the visible causes is present. Every other
      unchecked value() on a looked-up login or id is safe. */
  lemma ThrowsExactly(w: World, sid: Sid, t: PacketType, body: Bytes, env: Env)
    requires Inv(w) && sid in w.live
    ensures HandlePacket(w, sid, t, body, env).None? <==> Faulty(w, t, body, env)
  {
    hide Inv, Authenticate, Dispatch, Faulty, EncodeAll, Nameless;
    DispatchThrowsExactly(w, sid, t, body, env);
    DispatchKeeps(w, sid, t, body, env);
    var h := Dispatch(w, sid, t, body, env);
    if h.Handled? && h.login.Some? {
      AuthenticateKeeps(h.world, sid, h.login.value);
      AuthenticatesKnown(w, sid, t, body, env);
      VerifyIsFaulty(w, sid, t, body, env);
    } else {
      NothingVerified(w, sid, t, body, env);
    }
  }

  lemma VerifyIsFaulty(w: World, sid: Sid, t: PacketType, body: Bytes, env: Env)
    requires sid in w.live && Dispatch(w, sid, t, body, env).Handled?
    requires Dispatch(w, sid, t, body, env).login.Some?
    ensures ParseRequest(t, body).Some?
    ensures t.TokenVerify? ==> (Faulty(w, t, body, env) <==> Nameless(w, ParseRequest(t, body).value[0], env.now))
  {
    hide Nameless;
  }

  lemma NothingVerified(w: World, sid: Sid, t: PacketType, body: Bytes, env: Env)
    requires Inv(w) && sid in w.live
    requires Dispatch(w, sid, t, body, env).Handled? ==> Dispatch(w, sid, t, body, env).login.None?
    ensures t.TokenVerify? && ParseRequest(t, body).Some? ==> !Faulty(w, t, body, env)
  {
    hide Inv, Nameless, TokenWorks;
    if t.TokenVerify? && ParseRequest(t, body).Some? {
      ResolvesUnlessNameless(w, ParseRequest(t, body).value[0], env.now);
    }
  }

  lemma DispatchThrowsExactly(w: World, sid: Sid, t: PacketType, body: Bytes, env: Env)
    requires Inv(w) && sid in w.live
    ensures Dispatch(w, sid, t, body, env).Threw? <==>
            Faulty(w, t, body, env) && (t.TokenVerify? ==> ParseRequest(t, body).None?)
  {
    hide Inv, Nameless, HistoryFaulty, HandleHistory, HandleFriendList, HandleDirectMessage, HandleFriend;
    hide U.LoginByToken, U.VerifyUser;
    var parsed := ParseRequest(t, body);
    if parsed.Some? {
      var f := parsed.value;
      match t
      case Register => RegisterThrowsExactly(w, sid, f, env);
      case Login => LoginThrowsExactly(w, sid, f, env);
      case Upload => FilesThrowExactly(w, f, env);
      case Download => FilesThrowExactly(w, f, env);
      case FriendList => FriendListThrowsExactly(w, f, env);
      case MessageHistory => HistoryThrowsExactly(w, f, env);
      case DirectMessage => DirectMessageThrowsExactly(w, f, env);
      case FriendRequest => FriendTotal(w, t, f, env);
      case FriendAccept => FriendTotal(w, t, f, env);
      case FriendReject => FriendTotal(w, t, f, env);
      case _ =>
    }
  }

  lemma RegisterThrowsExactly(w: World, sid: Sid, f: seq<Bytes>, env: Env)
    requires Inv(w) && sid in w.live && |f| == 2
    ensures HandleRegister(w, sid, f, env).Threw? <==>
            U.ByLogin(w.accounts.users, f[0]).None? && env.token in w.accounts.tokens
  {
    var r := U.RegisterUser(w.accounts, f[0], f[1], env.salt);
    if r.code == OK {
      U.RegisteredUserVerifies(w.accounts, f[0], f[1], env.salt, env.token, env.now, env.now);
    }
  }

  lemma LoginThrowsExactly(w: World, sid: Sid, f: seq<Bytes>, env: Env)
    requires sid in w.live && |f| == 2
    ensures HandleLogin(w, sid, f, env).Threw? <==>
            U.PasswordMatches(w.accounts, f[0], f[1]) && env.token in w.accounts.tokens
  {
  }

  lemma FilesThrowExactly(w: World, f: seq<Bytes>, env: Env)
    requires Inv(w)
    ensures |f| == 3 ==> (HandleUpload(w, f, env).Threw? <==> TokenWorks(w, f[0], env.now) && env.fileFails)
    ensures |f| == 2 ==> (HandleDownload(w, f, env).Threw? <==> TokenWorks(w, f[0], env.now) && env.fileFails)
  {
    if f != [] {
      U.LookupIsTotal(w.accounts, f[0], env.now);
    }
  }
}
