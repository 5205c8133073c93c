/** Every copy of a direct message over whole runs: how many there are and which session got each. */
module ServerCopies {
  import opened Wire
  import opened Codec
  import opened Protocol
  import opened Server
  import opened ServerSafety
  import opened ServerOutput
  import opened ServerRuns
  import opened ServerRegistry
  import F = Friends
  import U = Users
  import M = Mail
  import R = Registry

  predicate IsCopy(o: Out)
  {
    o.ReplayPush? || o.LivePush?
  }

  // ---- what one event queues -----------------------------------------------------------------

  /** The only handler that queues a copy is the direct-message handler, and it queues at most one: of the row it
      has just saved, to the session registered for the recipient. */
  lemma HandlerCopies(w: World, sid: Sid, t: PacketType, body: Bytes, env: Env) returns (added: seq<Posted>)
    requires sid in w.live && Dispatch(w, sid, t, body, env).Handled?
    ensures var h := Dispatch(w, sid, t, body, env);
            && h.world.posted == w.posted + added
            && (forall p :: p in added ==> !p.out.ReplayPush?)
            && if Saves(w, t, body, h.world) then
                 var f := ParseRequest(t, body).value;
                 var to := R.SessionOf(w.online, w.live.Keys, f[1]);
                 var r := h.world.mail.rows[|w.mail.rows|];
                 && NamedBy(w.accounts.users, f[1], r.recipient) && r.id == w.mail.nextId
                 && h.world.mail.rows == w.mail.rows + [r]
                 && h.world.accounts.users == w.accounts.users
                 && |added| == (if to.Some? then 1 else 0)
                 && (to.Some? ==> added[0].to == to.value && added[0].out.LivePush? && added[0].out.row == r.id)
               else h.world.mail == w.mail && forall p :: p in added ==> !p.out.LivePush?
  {
    var h := Dispatch(w, sid, t, body, env);
    hide ParseRequest, Server.HandleDirectMessage, R.SessionOf, NamedBy;
    if t.DirectMessage? && ParseRequest(t, body).Some? {
      added := DirectMessageCopies(w, ParseRequest(t, body).value, env);
    } else {
      hide Dispatch;
      ShapedDispatch(w, sid, t, body, env);
      added := h.world.posted[|w.posted|..];
      OtherHandlersQueueNone(w, sid, t, body, env);
    }
  }

  /** The handler added a row. */
  predicate Saves(w: World, t: PacketType, body: Bytes, w': World)
  {
    && t.DirectMessage? && ParseRequest(t, body).Some? && |ParseRequest(t, body).value| == 3
    && |w'.mail.rows| > |w.mail.rows|
  }

  lemma DirectMessageCopies(w: World, f: seq<Bytes>, env: Env) returns (added: seq<Posted>)
    requires |f| == 3 && HandleDirectMessage(w, f, env).Handled?
    ensures var h := HandleDirectMessage(w, f, env);
            && h.world.posted == w.posted + added && (forall p :: p in added ==> p.out.LivePush?)
            && if |h.world.mail.rows| > |w.mail.rows| then
                 var to := R.SessionOf(w.online, w.live.Keys, f[1]);
                 var r := h.world.mail.rows[|w.mail.rows|];
                 && NamedBy(w.accounts.users, f[1], r.recipient) && r.id == w.mail.nextId
                 && h.world.mail.rows == w.mail.rows + [r]
                 && h.world.accounts.users == w.accounts.users
                 && |added| == (if to.Some? then 1 else 0)
                 && (to.Some? ==> added[0].to == to.value && added[0].out.LivePush? && added[0].out.row == r.id)
               else h.world.mail == w.mail && added == []
  {
    hide F.AreFriends, U.ByLogin, R.SessionOf, U.Ids;
    var h := HandleDirectMessage(w, f, env);
    added := h.world.posted[|w.posted|..];
  }

  lemma OtherHandlersQueueNone(w: World, sid: Sid, t: PacketType, body: Bytes, env: Env)
    requires sid in w.live && Dispatch(w, sid, t, body, env).Handled?
    requires t.DirectMessage? ==> ParseRequest(t, body).None?
    ensures var w' := Dispatch(w, sid, t, body, env).world;
            && w.posted <= w'.posted && w'.mail == w.mail
            && forall p :: p in w'.posted[|w.posted|..] ==> !p.out.LivePush? && !p.out.ReplayPush?
  {
    hide U.LoginByToken, U.VerifyUser, U.RegisterUser, M.History, M.LastMessages, LoginsOf, HistoryEntries, ChatEntries;
    hide R.Receivers, R.SessionOf, ParseRequest, F.AreFriends, U.ByLogin, F.Perform;
  }

  /** What a packet does to the log: the handler's packets, then the replays to its own session if it authenticated,
      then the RESULT. */
  lemma PacketPosts(w: World, sid: Sid, t: PacketType, body: Bytes, env: Env)
      returns (handlers: seq<Posted>, replays: seq<Posted>, reply: seq<Posted>)
    requires sid in w.live && HandlePacket(w, sid, t, body, env).Some?
    ensures Dispatch(w, sid, t, body, env).Handled?
    ensures Dispatch(w, sid, t, body, env).world.posted == w.posted + handlers
    ensures HandlePacket(w, sid, t, body, env).value.posted == w.posted + (handlers + replays + reply)
    ensures forall p :: p in replays ==>
              p.out.ReplayPush? && p.to == sid && AuthenticatesAs(w, t, body, env) == Some(p.out.login)
    ensures forall p :: p in reply ==> p.out.Reply?
  {
    hide Dispatch, Authenticate, HandlePacket, Replays, M.Undelivered, EncodeAll;
    PacketSteps(w, sid, t, body, env);
    ShapedDispatch(w, sid, t, body, env);
    var h := Dispatch(w, sid, t, body, env);
    handlers, replays := h.world.posted[|w.posted|..], [];
    reply := if EncodeAll(h.response) == [] then [] else [Posted(sid, Reply(t, h.response))];
    if h.login.Some? {
      DispatchLogin(w, sid, t, body, env);
      replays := AuthenticateOutput(h.world, sid, h.login.value);
      var me := U.ByLogin(h.world.accounts.users, h.login.value).value.id;
      ReplaysAre(h.world.accounts.users, sid, h.login.value, M.Undelivered(h.world.mail.rows, me));
    }
    Regroup(w.posted, handlers, replays);
    Regroup(w.posted, handlers + replays, reply);
    assert handlers + [] == handlers;
  }

  /** In a reachable state a packet whose handling throws has queued nothing. */
  lemma BrokenPosts(w: World, sid: Sid, t: PacketType, body: Bytes, env: Env)
    requires Inv(w) && sid in w.live && HandlePacket(w, sid, t, body, env).None?
    ensures BrokenState(w, sid, t, body, env).posted == w.posted
  {
    hide Inv, Authenticate, DeliveryBroken;
    var h := Dispatch(w, sid, t, body, env);
    if h.Threw? {
      ThrownPosts(w, sid, t, body, env);
    } else {
      DispatchKeeps(w, sid, t, body, env);
      AuthenticateKeeps(h.world, sid, h.login.value);
      DispatchLogin(w, sid, t, body, env);
      AuthLeavesMail(w, sid, t, body, env);
    }
  }

  lemma ThrownPosts(w: World, sid: Sid, t: PacketType, body: Bytes, env: Env)
    requires sid in w.live && Dispatch(w, sid, t, body, env).Threw?
    ensures Dispatch(w, sid, t, body, env).world.posted == w.posted
  {
    hide U.LoginByToken, U.VerifyUser, U.RegisterUser, M.History, M.LastMessages, LoginsOf, HistoryEntries, ChatEntries;
    hide R.Receivers, R.SessionOf, ParseRequest, F.AreFriends, U.ByLogin, F.Perform;
  }

  /** What a packet whose handling throws leaves behind in a reachable state: nothing, except that a REGISTER whose
      generated token exists already has still added the user. */
  lemma ThrowLeaves(w: World, sid: Sid, t: PacketType, body: Bytes, env: Env)
    requires Inv(w) && sid in w.live && HandlePacket(w, sid, t, body, env).None?
    ensures var w', parsed := BrokenState(w, sid, t, body, env), ParseRequest(t, body);
            && w'.friends == w.friends && w'.mail == w.mail && w'.posted == w.posted && w'.online == w.online
            && w'.accounts.tokens == w.accounts.tokens
            && if t.Register? && parsed.Some?
               then |w'.accounts.users| == |w.accounts.users| + 1
                    && U.PasswordMatches(w'.accounts, parsed.value[0], parsed.value[1])
               else w'.accounts == w.accounts
  {
    hide Inv, Dispatch, HandlePacket, BrokenState;
    BrokenTables(w, sid, t, body, env);
    BrokenPosts(w, sid, t, body, env);
    ThrowsExactly(w, sid, t, body, env);
    BrokenAccounts(w, sid, t, body, env);
  }

  lemma BrokenAccounts(w: World, sid: Sid, t: PacketType, body: Bytes, env: Env)
    requires Inv(w) && sid in w.live && HandlePacket(w, sid, t, body, env).None? && Faulty(w, t, body, env)
    ensures var w', parsed := BrokenState(w, sid, t, body, env), ParseRequest(t, body);
            && w'.online == w.online && w'.accounts.tokens == w.accounts.tokens
            && if t.Register? && parsed.Some?
               then |w'.accounts.users| == |w.accounts.users| + 1
                    && U.PasswordMatches(w'.accounts, parsed.value[0], parsed.value[1])
               else w'.accounts == w.accounts
  {
    hide Inv, Nameless, TokenWorks, Authenticate;
    var parsed := ParseRequest(t, body);
    if parsed.Some? {
      var f := parsed.value;
      if t.Register? {
        BrokenRegistration(w, sid, f, env);
      } else if !t.Login? {
        ResolvesUnlessNameless(w, f[0], env.now);
        BrokenLookup(w, f[0], env.now);
      }
    }
  }

  lemma BrokenLookup(w: World, token: Bytes, now: int)
    requires Inv(w)
    ensures Nameless(w, token, now) ==> TokenWorks(w, token, now)
  {
    ResolvesUnlessNameless(w, token, now);
  }

  lemma BrokenRegistration(w: World, sid: Sid, f: seq<Bytes>, env: Env)
    requires Inv(w) && sid in w.live && |f| == 2
    requires U.ByLogin(w.accounts.users, f[0]).None? && env.token in w.accounts.tokens
    ensures var h := HandleRegister(w, sid, f, env);
            && h.Threw? && h.world.online == w.online && h.world.accounts.tokens == w.accounts.tokens
            && |h.world.accounts.users| == |w.accounts.users| + 1 && U.PasswordMatches(h.world.accounts, f[0], f[1])
  {
    RegisterThrowsExactly(w, sid, f, env);
    U.RegisteredUserVerifies(w.accounts, f[0], f[1], env.salt, env.token, env.now, env.now);
  }

  /** No event but a packet queues anything. */
  lemma OthersPostNothing(w: World, e: Event)
    requires Inv(w) && Step(w, e).Some? && !e.Receive?
    ensures Step(w, e).value.posted == w.posted
  {
    hide Inv, BrokenState;
    if e.Crash? {
      BrokenPosts(w, e.sid, e.kind, e.body, e.env);
    }
  }

  lemma SameTail<T>(a: seq<T>, b: seq<T>, c: seq<T>)
    requires a + b == a + c
    ensures b == c
  {
    assert b == (a + b)[|a|..] && c == (a + c)[|a|..];
  }

  // ---- how many live copies ------------------------------------------------------------------

  lemma {:induction false} NoLive(ps: seq<Posted>, id: int)
    requires forall p :: p in ps ==> !IsLive(p, id)
    ensures LiveCount(ps, id) == 0
  {
    if ps != [] {
      assert forall p :: p in ps[1..] ==> p in ps;
      NoLive(ps[1..], id);
    }
  }

  /** A row that exists already gets no further live copy. */
  lemma LiveStays(w: World, e: Event, id: int)
    requires Inv(w) && Step(w, e).Some? && id < w.mail.nextId
    ensures LiveCount(Step(w, e).value.posted, id) == LiveCount(w.posted, id)
  {
    hide Inv, Dispatch, HandlePacket, LiveCount;
    if e.Receive? {
      var handlers, replays, reply := PacketPosts(w, e.sid, e.kind, e.body, e.env);
      var added := HandlerCopies(w, e.sid, e.kind, e.body, e.env);
      SameTail(w.posted, added, handlers);
      var all := handlers + replays + reply;
      forall p | p in all ensures !IsLive(p, id) {
      }
      NoLive(all, id);
      CountsAppend(w.posted, all, id);
    } else {
      OthersPostNothing(w, e);
    }
  }

  /** A row that is new came with a packet, under the next id, and has a live copy exactly if a session was
      registered for its recipient. */
  lemma LiveWhenSaved(w: World, e: Event, r: M.Row)
    requires Inv(w) && Step(w, e).Some? && r in Step(w, e).value.mail.rows && r.id >= w.mail.nextId
    ensures r.id == w.mail.nextId && U.ById(w.accounts.users, r.recipient).Some?
    ensures var login := U.ById(w.accounts.users, r.recipient).value.login;
            LiveCount(Step(w, e).value.posted, r.id)
            == if R.SessionOf(w.online, w.live.Keys, login).Some? then 1 else 0
  {
    hide Inv, Dispatch, HandlePacket, LiveCount, ReplayCount, Authenticate;
    NewRowComesWith(w, e, r);
    var t, body := e.kind, e.body;
    var handlers, replays, reply := PacketPosts(w, e.sid, t, body, e.env);
    var added := HandlerCopies(w, e.sid, t, body, e.env);
    SameTail(w.posted, added, handlers);
    var f := ParseRequest(t, body).value;
    InvMail(w);
    NamedById(w, f[1], r.recipient);
    NoLive(replays + reply, r.id);
    Regroup(handlers, replays, reply);
    CountsAppend(handlers, replays + reply, r.id);
    CountsAppend(w.posted, handlers + replays + reply, r.id);
    OneLive(handlers, r.id);
  }

  lemma OneLive(ps: seq<Posted>, id: int)
    requires |ps| <= 1 && (ps != [] ==> IsLive(ps[0], id))
    ensures LiveCount(ps, id) == |ps|
  {
  }

  lemma NamedById(w: World, login: Bytes, id: int)
    requires Inv(w) && NamedBy(w.accounts.users, login, id)
    ensures U.ById(w.accounts.users, id).Some? && U.ById(w.accounts.users, id).value.login == login
  {
    U.LookupsInverse(w.accounts, login, id);
  }

  lemma NewRowComesWith(w: World, e: Event, r: M.Row)
    requires Inv(w) && Step(w, e).Some? && r in Step(w, e).value.mail.rows && r.id >= w.mail.nextId
    ensures e.Receive? && e.sid in w.live && Dispatch(w, e.sid, e.kind, e.body, e.env).Handled?
    ensures var w1 := Dispatch(w, e.sid, e.kind, e.body, e.env).world;
            && Saves(w, e.kind, e.body, w1)
            && w1.mail.rows[|w.mail.rows|].id == r.id && w1.mail.rows[|w.mail.rows|].recipient == r.recipient
  {
    hide Inv, Dispatch, HandlePacket, Authenticate;
    InvMail(w);
    var rows' := Step(w, e).value.mail.rows;
    var i :| 0 <= i < |rows'| && rows'[i] == r;
    StepTables(w, e);
    assert i >= |w.mail.rows|;
    if e.Receive? {
      PacketSteps(w, e.sid, e.kind, e.body, e.env);
      var h := Dispatch(w, e.sid, e.kind, e.body, e.env);
      var added := HandlerCopies(w, e.sid, e.kind, e.body, e.env);
      if h.login.Some? {
        AuthenticateTables(h.world, e.sid, h.login.value);
      }
    } else if e.Crash? {
      BrokenTables(w, e.sid, e.kind, e.body, e.env);
    }
  }

  lemma {:induction false} PrefixRuns(sha256: Bytes -> ZeroFree, es: seq<Event>, k: nat)
    requires k <= |es| && Run(sha256, es).Some?
    ensures Run(sha256, es[..k]).Some?
    decreases |es|
  {
    if k == |es| {
      assert es[..k] == es;
    } else {
      assert es[..|es| - 1][..k] == es[..k];
      PrefixRuns(sha256, es[..|es| - 1], k);
    }
  }

  /** How often a message went out live, for good: once if a session was registered for its recipient when it was
      saved, and otherwise never. Together with DeliveryAccounting this counts every copy. */
  lemma {:induction false} LiveExactly(sha256: Bytes -> ZeroFree, es: seq<Event>, k: nat, r: M.Row)
    requires k < |es| && Run(sha256, es).Some? && Run(sha256, es[..k]).Some? && Run(sha256, es[..k + 1]).Some?
    requires r in Run(sha256, es[..k + 1]).value.mail.rows && r.id >= Run(sha256, es[..k]).value.mail.nextId
    ensures var w := Run(sha256, es[..k]).value;
            var recipient := U.ById(w.accounts.users, r.recipient);
            && recipient.Some?
            && (LiveCount(Run(sha256, es).value.posted, r.id) == 1
                <==> R.SessionOf(w.online, w.live.Keys, recipient.value.login).Some?)
    decreases |es|
  {
    hide Step, LiveCount, Inv;
    RunKeeps(sha256, es[..k]);
    var w := Run(sha256, es[..k]).value;
    assert es[..k + 1][..k] == es[..k] && es[..k + 1][k] == es[k];
    if k + 1 == |es| {
      assert es[..k + 1] == es;
      LiveWhenSaved(w, es[k], r);
    } else {
      var init := es[..|es| - 1];
      assert init[..k] == es[..k] && init[..k + 1] == es[..k + 1];
      LiveExactly(sha256, init, k, r);
      RunKeeps(sha256, init);
      StoredStays(sha256, init, k + 1, r);
      IdBelow(Run(sha256, init).value, r);
      LiveStays(Run(sha256, init).value, es[|es| - 1], r.id);
    }
  }

  lemma IdBelow(w: World, r: M.Row)
    requires Inv(w) && (r in w.mail.rows || r.(delivered := true) in w.mail.rows)
    ensures r.id < w.mail.nextId
  {
    var s := if r in w.mail.rows then r else r.(delivered := true);
    assert s in w.mail.rows;
  }

  // ---- who got them --------------------------------------------------------------------------

  /** The session authenticated, earlier in the run, as the user with this id. */
  ghost predicate WasAuthenticatedAs(sha256: Bytes -> ZeroFree, es: seq<Event>, sid: Sid, users: seq<U.User>, id: int)
  {
    exists k, login :: 0 <= k < |es| && AuthenticatedAt(sha256, es, k, sid, login) && NamedBy(users, login, id)
  }

  lemma AuthenticationStays(sha256: Bytes -> ZeroFree, es: seq<Event>, e: Event, sid: Sid,
                            users: seq<U.User>, more: seq<U.User>, id: int)
    requires WasAuthenticatedAs(sha256, es, sid, users, id) && users <= more
    ensures WasAuthenticatedAs(sha256, es + [e], sid, more, id)
  {
    hide AuthenticatedLogin;
    var k, login :| 0 <= k < |es| && AuthenticatedAt(sha256, es, k, sid, login) && NamedBy(users, login, id);
    assert (es + [e])[..k] == es[..k] && (es + [e])[..k + 1] == es[..k + 1];
    assert AuthenticatedAt(sha256, es + [e], k, sid, login);
    LookupsExtend(users, more, login);
  }

  /** A copy an event queues is of a stored row. A replay goes to the session that has just authenticated as its
      recipient, a live copy to the session registered for its recipient. */
  lemma NewCopy(w: World, e: Event, p: Posted) returns (r: M.Row, login: Bytes)
    requires Inv(w) && Step(w, e).Some? && IsCopy(p.out)
    requires p in Step(w, e).value.posted && p !in w.posted
    ensures var w' := Step(w, e).value;
            && r in w'.mail.rows && r.id == p.out.row && NamedBy(w'.accounts.users, login, r.recipient)
            && if p.out.ReplayPush? then e.Receive? && p.to == e.sid && AuthenticatedLogin(w, e) == Some(login)
               else R.SessionOf(w.online, w.live.Keys, login) == Some(p.to)
  {
    hide Inv, Dispatch, HandlePacket, Authenticate;
    var w' := Step(w, e).value;
    if !e.Receive? {
      OthersPostNothing(w, e);
    }
    var handlers, replays, reply := PacketPosts(w, e.sid, e.kind, e.body, e.env);
    StepKeeps(w, e);
    if p.out.ReplayPush? {
      var added := HandlerCopies(w, e.sid, e.kind, e.body, e.env);
      SameTail(w.posted, added, handlers);
      login := p.out.login;
      r := ReplayedRow(w', p);
    } else {
      r, login := LiveRow(w, e, p, handlers);
    }
  }

  lemma ReplayedRow(w: World, p: Posted) returns (r: M.Row)
    requires Inv(w) && p in w.posted && p.out.ReplayPush?
    ensures r in w.mail.rows && r.id == p.out.row && NamedBy(w.accounts.users, p.out.login, r.recipient)
  {
    assert Truthful(p.out, w.mail.rows, w.accounts.users);
    r :| r in w.mail.rows && r.id == p.out.row && CString(r.text) == p.out.text && r.createAt == p.out.time
      && U.LoginById(w.accounts.users, r.sender) == Some(p.out.sender)
      && NamedBy(w.accounts.users, p.out.login, r.recipient);
  }

  lemma LiveRow(w: World, e: Event, p: Posted, handlers: seq<Posted>) returns (r: M.Row, login: Bytes)
    requires Inv(w) && e.Receive? && Step(w, e).Some? && p.out.LivePush? && p in handlers && e.sid in w.live
    requires Dispatch(w, e.sid, e.kind, e.body, e.env).Handled?
    requires Dispatch(w, e.sid, e.kind, e.body, e.env).world.posted == w.posted + handlers
    ensures var w' := Step(w, e).value;
            && r in w'.mail.rows && r.id == p.out.row && NamedBy(w'.accounts.users, login, r.recipient)
            && R.SessionOf(w.online, w.live.Keys, login) == Some(p.to)
  {
    hide Inv, Dispatch, Authenticate;
    var h := Dispatch(w, e.sid, e.kind, e.body, e.env);
    var added := HandlerCopies(w, e.sid, e.kind, e.body, e.env);
    SameTail(w.posted, added, handlers);
    login := ParseRequest(e.kind, e.body).value[1];
    r := h.world.mail.rows[|w.mail.rows|];
    DispatchLogin(w, e.sid, e.kind, e.body, e.env);
    assert h.login.None?;
  }

  /** Every copy of a message, live or replayed, went to a session that had authenticated as the user the message
      is for, and no other session ever got one. */
  lemma {:induction false} CopiesReachTheRecipient(sha256: Bytes -> ZeroFree, es: seq<Event>, p: Posted, r: M.Row)
    requires Run(sha256, es).Some? && p in Run(sha256, es).value.posted && IsCopy(p.out)
    requires r in Run(sha256, es).value.mail.rows && r.id == p.out.row
    ensures WasAuthenticatedAs(sha256, es, p.to, Run(sha256, es).value.accounts.users, r.recipient)
    decreases |es|
  {
    hide Step, Inv, AuthenticatedLogin, WasAuthenticatedAs;
    if es != [] {
      var init, e := es[..|es| - 1], es[|es| - 1];
      var w, w' := Run(sha256, init).value, Run(sha256, es).value;
      assert es == init + [e];
      RunKeeps(sha256, init);
      RunKeeps(sha256, es);
      UsersStay(w, e);
      if p in w.posted {
        var s := CopiedRow(w, p);
        CopiesReachTheRecipient(sha256, init, p, s);
        SameRecipient(w, e, s, r);
        AuthenticationStays(sha256, init, e, p.to, w.accounts.users, w'.accounts.users, s.recipient);
      } else {
        var s, login := NewCopy(w, e, p);
        SameRow(w', s, r);
        if p.out.ReplayPush? {
          assert es[..|init|] == init && es[..|init| + 1] == es;
          JustAuthenticated(sha256, es, p.to, login, r.recipient);
        } else {
          R.GetIs(w.online, login);
          RegisteredAuthenticated(sha256, init, R.Entry(login, p.to));
          EarlierAuthenticated(sha256, init, e, p.to, login, w'.accounts.users, r.recipient);
        }
      }
    }
  }

  lemma CopiedRow(w: World, p: Posted) returns (r: M.Row)
    requires Inv(w) && p in w.posted && IsCopy(p.out)
    ensures r in w.mail.rows && r.id == p.out.row
  {
    assert Truthful(p.out, w.mail.rows, w.accounts.users);
    r :| r in w.mail.rows && r.id == p.out.row;
  }

  lemma SameRow(w: World, r: M.Row, s: M.Row)
    requires Inv(w) && r in w.mail.rows && s in w.mail.rows && r.id == s.id
    ensures r == s
  {
    M.SameId(w.mail, r, s);
  }

  lemma SameRecipient(w: World, e: Event, s: M.Row, r: M.Row)
    requires Inv(w) && Step(w, e).Some? && s in w.mail.rows && r in Step(w, e).value.mail.rows && r.id == s.id
    ensures r.recipient == s.recipient
  {
    hide Step, Inv;
    StepTables(w, e);
    StepKeeps(w, e);
    var w' := Step(w, e).value;
    var i :| 0 <= i < |w.mail.rows| && w.mail.rows[i] == s;
    SameRow(w', w'.mail.rows[i], r);
  }

  lemma JustAuthenticated(sha256: Bytes -> ZeroFree, es: seq<Event>, sid: Sid, login: Bytes, id: int)
    requires es != [] && AuthenticatedAt(sha256, es, |es| - 1, sid, login) && Run(sha256, es).Some?
    requires NamedBy(Run(sha256, es).value.accounts.users, login, id)
    ensures WasAuthenticatedAs(sha256, es, sid, Run(sha256, es).value.accounts.users, id)
  {
  }

  lemma EarlierAuthenticated(sha256: Bytes -> ZeroFree, es: seq<Event>, e: Event, sid: Sid, login: Bytes,
                             users: seq<U.User>, id: int)
    requires (exists k :: 0 <= k < |es| && AuthenticatedAt(sha256, es, k, sid, login)) && NamedBy(users, login, id)
    ensures WasAuthenticatedAs(sha256, es + [e], sid, users, id)
  {
    AuthenticationStays(sha256, es, e, sid, users, users, id);
  }
}
