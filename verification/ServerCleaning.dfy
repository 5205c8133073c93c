/** The token cleaner over whole runs of the server: what a run does with its ticks taken out. */
module ServerCleaning {
  import opened Wire
  import opened Codec
  import opened Protocol
  import opened Server
  import opened ServerSafety
  import opened ServerOutput
  import opened ServerAnswers
  import F = Friends
  import U = Users
  import M = Mail
  import R = Registry

  /** Equal packets, except that a RESULT may refuse a token as unknown instead of expired. */
  predicate SamePost(x: Posted, y: Posted)
  {
    x == y
    || (&& x.to == y.to && x.out.Reply? && y.out.Reply? && x.out.origin == y.out.origin && NeedsToken(x.out.origin)
        && x.out.values == RefusalValues(x.out.origin, NON_AUTHORIZED)
        && y.out.values == RefusalValues(y.out.origin, TOKEN_EXPIRED))
  }

  predicate SameLog(xs: seq<Posted>, ys: seq<Posted>)
  {
    |xs| == |ys| && forall i :: 0 <= i < |xs| ==> SamePost(xs[i], ys[i])
  }

  /** w is v with some tokens missing, all of them expired by now, and the log w has instead of v's. */
  ghost predicate Alike(w: World, v: World, now: int)
  {
    && U.Cleaner(w.accounts, v.accounts, now)
    && w == v.(accounts := w.accounts, posted := w.posted)
    && SameLog(w.posted, v.posted)
  }

  /** The same handler result in the other world. */
  function InWorld(h: Handled, a: U.Accounts, log: seq<Posted>): Handled
  {
    if h.Handled? then h.(world := h.world.(accounts := a, posted := log))
    else Threw(h.world.(accounts := a, posted := log))
  }

  /** Both handlers did the same, and added the same packets. */
  ghost predicate InParallel(w: World, h: Handled, v: World, g: Handled, added: seq<Posted>, now: int)
  {
    && h.world.posted == w.posted + added
    && g == InWorld(h, g.world.accounts, v.posted + added)
    && U.Cleaner(h.world.accounts, g.world.accounts, now)
  }

  ghost predicate Twins(w: World, v: World)
  {
    w == v.(accounts := w.accounts, posted := w.posted) && w.accounts.users == v.accounts.users
  }

  // ---- the handlers, when the token works ----------------------------------------------------

  /** In both worlds the token resolves to the same login and stays. */
  ghost predicate BothResolve(w: World, v: World, token: Bytes, now: int)
  {
    && Twins(w, v) && U.Cleaner(w.accounts, v.accounts, now)
    && exists login :: U.LoginByToken(w.accounts, token, now) == U.Lookup(w.accounts, U.LoggedIn(login))
                    && U.LoginByToken(v.accounts, token, now) == U.Lookup(v.accounts, U.LoggedIn(login))
  }

  lemma MessageParallel(w: World, v: World, f: seq<Bytes>, env: Env) returns (added: seq<Posted>)
    requires |f| == 2 && BothResolve(w, v, f[0], env.now)
    ensures InParallel(w, HandleMessage(w, f, env), v, HandleMessage(v, f, env), added, env.now)
  {
    hide U.LoginByToken, R.Receivers, PostAll, U.Cleaner;
    var login := U.LoginByToken(w.accounts, f[0], env.now).result.login;
    added := PostAll(R.Receivers(w.online, w.live.Keys, login), ChatPush(login, f[1]));
  }

  function NoticeTo(w: World, login: Bytes, out: Out): seq<Posted>
  {
    var s := R.SessionOf(w.online, w.live.Keys, login);
    if s.Some? then [Posted(s.value, out)] else []
  }

  lemma PostedToLogin(w: World, login: Bytes, out: Out)
    ensures PostToLogin(w, login, out) == w.(posted := w.posted + NoticeTo(w, login, out))
  {
    assert w.posted + [] == w.posted;
  }

  lemma FriendParallel(w: World, v: World, t: PacketType, f: seq<Bytes>, env: Env) returns (added: seq<Posted>)
    requires |f| == 2 && BothResolve(w, v, f[0], env.now) && (t.FriendRequest? || t.FriendAccept? || t.FriendReject?)
    ensures InParallel(w, HandleFriend(w, t, f, env), v, HandleFriend(v, t, f, env), added, env.now)
  {
    hide U.LoginByToken, F.Perform, PostToLogin, NoticeTo, U.Cleaner;
    var h := HandleFriend(w, t, f, env);
    added := [];
    assert w.posted + [] == w.posted && v.posted + [] == v.posted;
    if h.Handled? && h.response == [CodeV(OK)] {
      added := NoticeTo(w, f[1], Notice(NoticeOf(t)));
      var w2, v2 := w.(friends := h.world.friends), v.(friends := h.world.friends);
      PostedToLogin(w2, f[1], Notice(NoticeOf(t)));
      PostedToLogin(v2, f[1], Notice(NoticeOf(t)));
      SameNotice(w, w2, f[1], Notice(NoticeOf(t)));
      SameNotice(w, v2, f[1], Notice(NoticeOf(t)));
    }
  }

  lemma SameNotice(w: World, v: World, login: Bytes, out: Out)
    requires w.online == v.online && w.live == v.live
    ensures NoticeTo(w, login, out) == NoticeTo(v, login, out)
  {
  }

  lemma DirectMessageParallel(w: World, v: World, f: seq<Bytes>, env: Env) returns (added: seq<Posted>)
    requires |f| == 3 && BothResolve(w, v, f[0], env.now)
    ensures InParallel(w, HandleDirectMessage(w, f, env), v, HandleDirectMessage(v, f, env), added, env.now)
  {
    hide U.LoginByToken, F.AreFriends, PostToLogin, NoticeTo, U.Cleaner;
    var h := HandleDirectMessage(w, f, env);
    var login := U.LoginByToken(w.accounts, f[0], env.now).result.login;
    added := [];
    assert w.posted + [] == w.posted && v.posted + [] == v.posted;
    if h.Handled? && h.response == [CodeV(OK)] {
      var out := LivePush(w.mail.nextId, login, f[2]);
      added := NoticeTo(w, f[1], out);
      var w2, v2 := w.(mail := h.world.mail), v.(mail := h.world.mail);
      PostedToLogin(w2, f[1], out);
      PostedToLogin(v2, f[1], out);
      SameNotice(w, w2, f[1], out);
      SameNotice(w, v2, f[1], out);
    }
  }

  /** The handlers that only read, and TOKEN_VERIFY, which changes its own session. */
  lemma ReadersParallel(w: World, v: World, sid: Sid, t: PacketType, body: Bytes, env: Env)
    requires sid in w.live && Twins(w, v) && ParseRequest(t, body).Some?
    requires t.Upload? || t.Download? || t.FriendList? || t.MessageHistory? || t.ChatList? || t.TokenVerify?
    requires BothResolve(w, v, ParseRequest(t, body).value[0], env.now)
    ensures InParallel(w, Dispatch(w, sid, t, body, env), v, Dispatch(v, sid, t, body, env), [], env.now)
  {
    hide U.LoginByToken, ParseRequest, LoginsOf, HistoryEntries, ChatEntries, F.FriendsOf, F.PendingFor, U.Cleaner;
    assert w.posted + [] == w.posted && v.posted + [] == v.posted;
  }

  // ---- every packet --------------------------------------------------------------------------

  /** A token generated for a sign-in is not one that has expired already. */
  predicate NotStale(v: World, t: PacketType, env: Env)
  {
    (t.Register? || t.Login?) && env.token in v.accounts.tokens
    ==> env.now - v.accounts.tokens[env.token].createdAt <= U.TOKEN_TTL
  }

  lemma SignInParallel(w: World, v: World, sid: Sid, t: PacketType, body: Bytes, env: Env)
    requires sid in w.live && Twins(w, v) && U.Cleaner(w.accounts, v.accounts, env.now) && NotStale(v, t, env)
    requires (t.Register? || t.Login?) && ParseRequest(t, body).Some?
    ensures InParallel(w, Dispatch(w, sid, t, body, env), v, Dispatch(v, sid, t, body, env), [], env.now)
  {
    hide ParseRequest, Server.HandleRegister, Server.HandleLogin, InParallel, NotStale, Twins, U.Cleaner;
    if t.Register? {
      RegisterParallel(w, v, sid, ParseRequest(t, body).value, env);
    } else {
      LoginParallel(w, v, sid, ParseRequest(t, body).value, env);
    }
  }

  lemma RegisterParallel(w: World, v: World, sid: Sid, f: seq<Bytes>, env: Env)
    requires sid in w.live && |f| == 2 && Twins(w, v) && U.Cleaner(w.accounts, v.accounts, env.now)
    requires NotStale(v, Register, env)
    ensures InParallel(w, HandleRegister(w, sid, f, env), v, HandleRegister(v, sid, f, env), [], env.now)
  {
    hide U.ByLogin;
    assert w.posted + [] == w.posted && v.posted + [] == v.posted;
  }

  lemma LoginParallel(w: World, v: World, sid: Sid, f: seq<Bytes>, env: Env)
    requires sid in w.live && |f| == 2 && Twins(w, v) && U.Cleaner(w.accounts, v.accounts, env.now)
    requires NotStale(v, Login, env)
    ensures InParallel(w, HandleLogin(w, sid, f, env), v, HandleLogin(v, sid, f, env), [], env.now)
  {
    hide U.ByLogin;
    assert w.posted + [] == w.posted && v.posted + [] == v.posted;
  }

  /** LOGOUT, the types the server drops, and bodies that do not parse. */
  lemma RestParallel(w: World, v: World, sid: Sid, t: PacketType, body: Bytes, env: Env)
    requires sid in w.live && Twins(w, v) && U.Cleaner(w.accounts, v.accounts, env.now)
    requires ParseRequest(t, body).None? || !Answered(t)
    ensures InParallel(w, Dispatch(w, sid, t, body, env), v, Dispatch(v, sid, t, body, env), [], env.now)
  {
    hide ParseRequest;
    assert w.posted + [] == w.posted && v.posted + [] == v.posted;
  }

  lemma ResolvesInBoth(w: World, v: World, token: Bytes, now: int)
    requires Inv(w) && Inv(v) && Twins(w, v) && U.Cleaner(w.accounts, v.accounts, now) && TokenWorks(v, token, now)
    ensures BothResolve(w, v, token, now)
  {
    hide Inv;
    ResolvesUnlessNameless(v, token, now);
    ResolvesUnlessNameless(w, token, now);
    assert U.LoginByToken(w.accounts, token, now)
        == U.Lookup(w.accounts, U.LoggedIn(U.LoginByToken(w.accounts, token, now).result.login));
  }

  lemma DispatchParallel(w: World, v: World, sid: Sid, t: PacketType, body: Bytes, env: Env)
      returns (added: seq<Posted>)
    requires Inv(w) && Inv(v) && sid in w.live && Twins(w, v) && U.Cleaner(w.accounts, v.accounts, env.now)
    requires NotStale(v, t, env)
    requires NeedsToken(t) && ParseRequest(t, body).Some? ==> TokenWorks(v, ParseRequest(t, body).value[0], env.now)
    ensures InParallel(w, Dispatch(w, sid, t, body, env), v, Dispatch(v, sid, t, body, env), added, env.now)
  {
    hide Inv, InParallel, BothResolve, U.Cleaner, Twins, NotStale, TokenWorks;
    hide Server.HandleMessage, Server.HandleFriend, Server.HandleDirectMessage;
    added := [];
    var parsed := ParseRequest(t, body);
    if parsed.None? || !Answered(t) {
      RestParallel(w, v, sid, t, body, env);
    } else if t.Register? || t.Login? {
      SignInParallel(w, v, sid, t, body, env);
    } else {
      var f := parsed.value;
      ResolvesInBoth(w, v, f[0], env.now);
      match t
      case Message => added := MessageParallel(w, v, f, env);
      case DirectMessage => added := DirectMessageParallel(w, v, f, env);
      case FriendRequest => added := FriendParallel(w, v, t, f, env);
      case FriendAccept => added := FriendParallel(w, v, t, f, env);
      case FriendReject => added := FriendParallel(w, v, t, f, env);
      case _ => ReadersParallel(w, v, sid, t, body, env);
    }
  }

  /** What follows an authentication does not look at tokens. */
  lemma AuthenticateParallel(w: World, v: World, sid: Sid, login: Bytes)
    requires sid in w.live && Twins(w, v)
    ensures Authenticate(w, sid, login).Some? <==> Authenticate(v, sid, login).Some?
    ensures Authenticate(w, sid, login).Some? ==>
              var w', v' := Authenticate(w, sid, login).value, Authenticate(v, sid, login).value;
              exists added :: w'.posted == w.posted + added && v'.posted == v.posted + added && Twins(w', v')
                           && w'.accounts == w.accounts && v'.accounts == v.accounts
    ensures var w', v' := DeliveryBroken(WithLogin(w, sid, login), sid), DeliveryBroken(WithLogin(v, sid, login), sid);
            exists added :: w'.posted == w.posted + added && v'.posted == v.posted + added && Twins(w', v')
                         && w'.accounts == w.accounts && v'.accounts == v.accounts
  {
    hide M.Undelivered, M.MarkDelivered, Replays, ReplaysBefore;
    assert w.posted + [] == w.posted && v.posted + [] == v.posted;
    assert Twins(WithLogin(w, sid, login), WithLogin(v, sid, login));
    var me := U.ByLogin(w.accounts.users, login);
    if me.Some? {
      var due := M.Undelivered(w.mail.rows, me.value.id);
      var out := Replays(w.accounts.users, sid, login, due);
      var before := ReplaysBefore(w.accounts.users, sid, login, due);
      var w', v' := DeliveryBroken(WithLogin(w, sid, login), sid), DeliveryBroken(WithLogin(v, sid, login), sid);
      assert w'.posted == w.posted + before && v'.posted == v.posted + before;
      if out.Some? {
        var w2, v2 := Authenticate(w, sid, login).value, Authenticate(v, sid, login).value;
        assert w2.posted == w.posted + out.value && v2.posted == v.posted + out.value;
      }
    }
  }

  lemma SameLogAppend(xs: seq<Posted>, ys: seq<Posted>, more: seq<Posted>)
    requires SameLog(xs, ys)
    ensures SameLog(xs + more, ys + more)
  {
  }

  lemma SameLogRefusal(xs: seq<Posted>, ys: seq<Posted>, x: Posted, y: Posted)
    requires SameLog(xs, ys) && SamePost(x, y)
    ensures SameLog(xs + [x], ys + [y])
  {
  }

  /** A packet is refused a token in both worlds: the answers may differ in the reason. */
  lemma RefusedAlike(w: World, v: World, sid: Sid, t: PacketType, body: Bytes, env: Env)
    requires Inv(w) && Inv(v) && sid in w.live && Alike(w, v, env.now)
    requires NeedsToken(t) && ParseRequest(t, body).Some? && !TokenWorks(v, ParseRequest(t, body).value[0], env.now)
    ensures HandlePacket(w, sid, t, body, env).Some? && HandlePacket(v, sid, t, body, env).Some?
    ensures Alike(HandlePacket(w, sid, t, body, env).value, HandlePacket(v, sid, t, body, env).value, env.now)
  {
    hide Inv, HandlePacket, ParseRequest, SameLog, RefusalValues;
    NoTokenNoEffect(w, sid, t, body, env);
    NoTokenNoEffect(v, sid, t, body, env);
    var w', v' := HandlePacket(w, sid, t, body, env).value, HandlePacket(v, sid, t, body, env).value;
    SameLogRefusal(w.posted, v.posted, w'.posted[|w.posted|], v'.posted[|v.posted|]);
  }

  lemma ParallelAlike(w: World, h: Handled, v: World, g: Handled, added: seq<Posted>, now: int)
    requires Alike(w, v, now) && InParallel(w, h, v, g, added, now)
    ensures Alike(h.world, g.world, now) && Twins(h.world, g.world)
  {
    hide SameLog;
    SameLogAppend(w.posted, v.posted, added);
  }

  /** A handled packet keeps two such worlds alike, and so does one whose handling throws. */
  lemma PacketAlike(w: World, v: World, sid: Sid, t: PacketType, body: Bytes, env: Env)
    requires Inv(w) && Inv(v) && sid in w.live && Alike(w, v, env.now) && NotStale(v, t, env)
    ensures HandlePacket(w, sid, t, body, env).Some? <==> HandlePacket(v, sid, t, body, env).Some?
    ensures HandlePacket(w, sid, t, body, env).Some? ==>
              Alike(HandlePacket(w, sid, t, body, env).value, HandlePacket(v, sid, t, body, env).value, env.now)
    ensures HandlePacket(w, sid, t, body, env).None? ==>
              Alike(BrokenState(w, sid, t, body, env), BrokenState(v, sid, t, body, env), env.now)
  {
    hide Inv, HandlePacket, Dispatch, Authenticate, ParseRequest, SameLog, EncodeAll, NotStale, TokenWorks, U.Cleaner;
    if NeedsToken(t) && ParseRequest(t, body).Some? && !TokenWorks(v, ParseRequest(t, body).value[0], env.now) {
      RefusedAlike(w, v, sid, t, body, env);
    } else {
      CleanerUsers(w.accounts, v.accounts, env.now);
      var added := DispatchParallel(w, v, sid, t, body, env);
      FinishAlike(w, v, sid, t, body, env, added);
    }
  }

  lemma CleanerUsers(a: U.Accounts, b: U.Accounts, now: int)
    requires U.Cleaner(a, b, now)
    ensures a.users == b.users
  {
  }

  lemma FinishAlike(w: World, v: World, sid: Sid, t: PacketType, body: Bytes, env: Env, added: seq<Posted>)
    requires sid in w.live && Alike(w, v, env.now)
    requires InParallel(w, Dispatch(w, sid, t, body, env), v, Dispatch(v, sid, t, body, env), added, env.now)
    ensures HandlePacket(w, sid, t, body, env).Some? <==> HandlePacket(v, sid, t, body, env).Some?
    ensures HandlePacket(w, sid, t, body, env).Some? ==>
              Alike(HandlePacket(w, sid, t, body, env).value, HandlePacket(v, sid, t, body, env).value, env.now)
    ensures HandlePacket(w, sid, t, body, env).None? ==>
              Alike(BrokenState(w, sid, t, body, env), BrokenState(v, sid, t, body, env), env.now)
  {
    hide HandlePacket, Dispatch, Authenticate, DeliveryBroken, SameLog, EncodeAll, U.Cleaner;
    var h, g := Dispatch(w, sid, t, body, env), Dispatch(v, sid, t, body, env);
    ParallelAlike(w, h, v, g, added, env.now);
    PacketSteps(w, sid, t, body, env);
    PacketSteps(v, sid, t, body, env);
    var reply := if h.Threw? || EncodeAll(h.response) == [] then [] else [Posted(sid, Reply(t, h.response))];
    if h.Handled? && h.login.Some? {
      AuthenticateParallel(h.world, g.world, sid, h.login.value);
      if Authenticate(h.world, sid, h.login.value).Some? {
        var w2, v2 := Authenticate(h.world, sid, h.login.value).value, Authenticate(g.world, sid, h.login.value).value;
        var more :| w2.posted == h.world.posted + more && v2.posted == g.world.posted + more;
        SameLogAppend(h.world.posted, g.world.posted, more);
        SameLogAppend(w2.posted, v2.posted, reply);
      } else {
        var w2 := DeliveryBroken(WithLogin(h.world, sid, h.login.value), sid);
        var v2 := DeliveryBroken(WithLogin(g.world, sid, h.login.value), sid);
        var more :| w2.posted == h.world.posted + more && v2.posted == g.world.posted + more;
        SameLogAppend(h.world.posted, g.world.posted, more);
      }
    } else {
      SameLogAppend(h.world.posted, g.world.posted, reply);
    }
  }

  // ---- whole runs ----------------------------------------------------------------------------

  /** The clock after an event that began when it showed now. */
  function TimeAfter(e: Event, now: int): int
  {
    match e
    case Receive(_, _, _, env) => env.now
    case CleanTokens(t) => t
    case Restart(t) => t
    case Crash(_, _, _, _, later) => later
    case _ => now
  }

  /** The clock does not go back. */
  predicate OnTime(e: Event, now: int)
  {
    now <= TimeAfter(e, now) && (e.Crash? ==> now <= e.env.now <= e.later)
  }

  function ClockAt(start: int, es: seq<Event>): int
  {
    if es == [] then start else TimeAfter(es[|es| - 1], ClockAt(start, es[..|es| - 1]))
  }

  predicate Clocked(start: int, es: seq<Event>)
  {
    es != [] ==>
      Clocked(start, es[..|es| - 1]) && OnTime(es[|es| - 1], ClockAt(start, es[..|es| - 1]))
  }

  function Uncleaned(es: seq<Event>): seq<Event>
  {
    if es == [] then []
    else
      var before, e := Uncleaned(es[..|es| - 1]), es[|es| - 1];
      if e.CleanTokens? then before else before + [e]
  }

  /** No token generated for a sign-in equals one that has expired. */
  predicate NoStaleTokens(sha256: Bytes -> ZeroFree, es: seq<Event>)
  {
    es != [] ==>
      var before, e := es[..|es| - 1], es[|es| - 1];
      && NoStaleTokens(sha256, before)
      && var v := Run(sha256, Uncleaned(before));
         v.Some? && (e.Receive? || e.Crash?) ==> NotStale(v.value, e.kind, e.env)
  }

  lemma StepAlike(w: World, v: World, e: Event, now: int)
    requires Inv(w) && Inv(v) && Alike(w, v, now) && OnTime(e, now) && !e.CleanTokens?
    requires e.Receive? || e.Crash? ==> NotStale(v, e.kind, e.env)
    ensures Step(w, e).Some? <==> Step(v, e).Some?
    ensures Step(w, e).Some? ==> Alike(Step(w, e).value, Step(v, e).value, TimeAfter(e, now))
  {
    hide Inv, HandlePacket, BrokenState, NotStale, SameLog;
    match e
    case Receive(sid, t, body, env) =>
      if sid in w.live {
        PacketAlike(w, v, sid, t, body, env);
      }
    case Crash(sid, t, body, env, later) =>
      if sid in w.live {
        PacketAlike(w, v, sid, t, body, env);
      }
    case _ =>
  }

  /** The cleaner's ticks are invisible: with a clock that does not go back, taking every one of them out of a run
      changes neither whether it can happen nor its tables, sessions and registry, apart from tokens that have expired
      by then, nor any packet the server ever posts, except that a refused token may be called expired instead of
      unknown. */
  lemma {:induction false} CleaningUnseen(sha256: Bytes -> ZeroFree, start: int, es: seq<Event>)
    requires Clocked(start, es) && NoStaleTokens(sha256, es)
    ensures Run(sha256, es).Some? <==> Run(sha256, Uncleaned(es)).Some?
    ensures Run(sha256, es).Some? ==>
              Alike(Run(sha256, es).value, Run(sha256, Uncleaned(es)).value, ClockAt(start, es))
  {
    if es == [] {
      assert SameLog([], []);
    } else {
      hide Step, Alike, OnTime, NotStale, Run, Inv;
      var init, e, now := es[..|es| - 1], es[|es| - 1], ClockAt(start, es[..|es| - 1]);
      CleaningUnseen(sha256, start, init);
      RunLast(sha256, init, e);
      RunLast(sha256, Uncleaned(init), e);
      assert init + [e] == es;
      if Run(sha256, init).Some? {
        RunKeeps(sha256, init);
        RunKeeps(sha256, Uncleaned(init));
        EventAlike(Run(sha256, init).value, Run(sha256, Uncleaned(init)).value, e, now);
      }
    }
  }

  lemma RunLast(sha256: Bytes -> ZeroFree, es: seq<Event>, e: Event)
    ensures Run(sha256, es + [e]) == if Run(sha256, es).Some? then Step(Run(sha256, es).value, e) else None
  {
    assert (es + [e])[..|es|] == es;
  }

  /** One event in both worlds, or a tick in the one that has them. */
  lemma EventAlike(w: World, v: World, e: Event, now: int)
    requires Inv(w) && Inv(v) && Alike(w, v, now) && OnTime(e, now)
    requires e.Receive? || e.Crash? ==> NotStale(v, e.kind, e.env)
    ensures e.CleanTokens? ==> Step(w, e).Some? && Alike(Step(w, e).value, v, TimeAfter(e, now))
    ensures !e.CleanTokens? ==> (Step(w, e).Some? <==> Step(v, e).Some?)
    ensures !e.CleanTokens? && Step(w, e).Some? ==> Alike(Step(w, e).value, Step(v, e).value, TimeAfter(e, now))
  {
    hide Inv, Alike, OnTime, NotStale, Step;
    if e.CleanTokens? {
      TickAlike(w, v, e.now, now);
    } else {
      StepAlike(w, v, e, now);
    }
  }

  lemma TickAlike(w: World, v: World, tick: int, now: int)
    requires Alike(w, v, now) && OnTime(CleanTokens(tick), now)
    ensures Step(w, CleanTokens(tick)).Some? && Alike(Step(w, CleanTokens(tick)).value, v, tick)
  {
  }
}
