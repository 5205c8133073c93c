/** The online registry over whole runs: when it names the session that carries a login. */
module ServerRegistry {
  import opened Wire
  import opened Codec
  import opened Protocol
  import opened Server
  import opened ServerSafety
  import opened ServerOutput
  import opened ServerRuns
  import R = Registry
  import U = Users

  /** Each live session that carries a login is the one the registry returns for it. */
  predicate RegistryAgrees(w: World)
  {
    forall s :: s in w.live && w.live[s].login != [] ==>
      R.SessionOf(w.online, w.live.Keys, w.live[s].login) == Some(s)
  }

  function AuthenticatedLogin(w: World, e: Event): Option<Bytes>
  {
    if e.Receive? then AuthenticatesAs(w, e.kind, e.body, e.env) else None
  }

  /** The event does not authenticate a session as a login another live session carries. */
  predicate Exclusive(w: World, e: Event)
  {
    var login := AuthenticatedLogin(w, e);
    login.Some? && login.value != [] ==> forall s :: s in w.live && s != e.sid ==> w.live[s].login != login.value
  }

  /** What handling a packet does to the registry and to the sessions' logins. */
  lemma PacketSessions(w: World, sid: Sid, t: PacketType, body: Bytes, env: Env)
    requires sid in w.live && HandlePacket(w, sid, t, body, env).Some?
    ensures var w' := HandlePacket(w, sid, t, body, env).value;
            var login := AuthenticatesAs(w, t, body, env);
            && w'.live.Keys == w.live.Keys
            && (forall s :: s in w.live && s != sid ==> w'.live[s].login == w.live[s].login)
            && w'.online == (if login.Some? then R.Put(w.online, login.value, sid) else w.online)
            && w'.live[sid].login == if login.Some? then login.value else if t.Logout? then [] else w.live[sid].login
  {
    hide Dispatch, Authenticate;
    var h := Dispatch(w, sid, t, body, env);
    DispatchLogin(w, sid, t, body, env);
    if FriendKind(t) {
      FriendHandlerTables(w, sid, t, body, env);
    } else {
      OtherHandlerTables(w, sid, t, body, env);
    }
    if h.login.Some? {
      AuthenticateSession(h.world, sid, h.login.value);
    }
  }

  /** An authentication keeps the registry in agreement exactly when no other live session carries the login. */
  lemma AuthenticationKeepsAgreementExactly(w: World, e: Event)
    requires RegistryAgrees(w) && Step(w, e).Some? && AuthenticatedLogin(w, e).Some?
    ensures RegistryAgrees(Step(w, e).value) <==> Exclusive(w, e)
  {
    hide HandlePacket, AuthenticatesAs, R.Get, R.Put;
    PacketSessions(w, e.sid, e.kind, e.body, e.env);
    var login := AuthenticatedLogin(w, e).value;
    var w' := Step(w, e).value;
    forall k ensures R.Get(w'.online, k) == if k == login then Some(e.sid) else R.Get(w.online, k) {
      R.GetPut(w.online, login, e.sid, k);
    }
    if Exclusive(w, e) {
      forall s | s in w'.live && w'.live[s].login != []
        ensures R.SessionOf(w'.online, w'.live.Keys, w'.live[s].login) == Some(s)
      {
      }
    } else {
      var s :| s in w.live && s != e.sid && w.live[s].login == login && login != [];
      assert R.SessionOf(w'.online, w'.live.Keys, w'.live[s].login) == Some(e.sid);
    }
  }

  /** Every other event keeps it: logouts, disconnections, restarts and all other packets. */
  lemma OtherEventsKeepAgreement(w: World, e: Event)
    requires RegistryAgrees(w) && Step(w, e).Some? && AuthenticatedLogin(w, e).None?
    requires forall s :: s in w.live ==> s < w.nextSid
    ensures RegistryAgrees(Step(w, e).value)
  {
    var w' := Step(w, e).value;
    if e.Receive? {
      PacketSessions(w, e.sid, e.kind, e.body, e.env);
    } else if e.Disconnect? {
      var gone := w.live[e.sid].login;
      forall s | s in w'.live && w'.live[s].login != []
        ensures R.SessionOf(w'.online, w'.live.Keys, w'.live[s].login) == Some(s)
      {
        assert R.SessionOf(w.online, w.live.Keys, w.live[s].login) == Some(s);
        R.GetErase(w.online, gone, w.live[s].login);
      }
    }
  }

  /** One session a login at a time, throughout the run. */
  predicate ExclusiveRun(sha256: Bytes -> ZeroFree, es: seq<Event>)
  {
    forall k :: 0 <= k < |es| && Run(sha256, es[..k]).Some? ==> Exclusive(Run(sha256, es[..k]).value, es[k])
  }

  /** If a session authenticates as a login only while no other live session carries it, the registry agrees
      with the sessions in every reachable state, through logouts, account switches and disconnections. */
  lemma {:induction false} RegistryAgreement(sha256: Bytes -> ZeroFree, es: seq<Event>)
    requires Run(sha256, es).Some? && ExclusiveRun(sha256, es)
    ensures RegistryAgrees(Run(sha256, es).value)
  {
    if es != [] {
      var init, e := es[..|es| - 1], es[|es| - 1];
      forall k | 0 <= k < |init| && Run(sha256, init[..k]).Some?
        ensures Exclusive(Run(sha256, init[..k]).value, init[k])
      {
        assert init[..k] == es[..k] && init[k] == es[k];
      }
      RegistryAgreement(sha256, init);
      RunKeeps(sha256, init);
      var w := Run(sha256, init).value;
      assert Exclusive(Run(sha256, es[..|init|]).value, es[|init|]);
      if AuthenticatedLogin(w, e).Some? {
        AuthenticationKeepsAgreementExactly(w, e);
      } else {
        OtherEventsKeepAgreement(w, e);
      }
    }
  }

  /** Why the hypothesis is needed: when two live sessions carry one login, the end of either leaves the other
      without a registry entry. */
  lemma DisconnectUnregistersTheOther(w: World, s: Sid, t: Sid)
    requires s in w.live && t in w.live && s != t
    requires w.live[s].login == w.live[t].login != []
    ensures var w' := Step(w, Disconnect(s)).value;
            t in w'.live && w'.live[t].login == w.live[t].login
            && R.SessionOf(w'.online, w'.live.Keys, w'.live[t].login) == None
  {
    R.GetErase(w.online, w.live[s].login, w.live[t].login);
  }

  predicate AuthenticatedAt(sha256: Bytes -> ZeroFree, es: seq<Event>, k: int, sid: Sid, login: Bytes)
    requires 0 <= k < |es|
  {
    && es[k].Receive? && es[k].sid == sid
    && Run(sha256, es[..k]).Some? && Run(sha256, es[..k + 1]).Some?
    && AuthenticatedLogin(Run(sha256, es[..k]).value, es[k]) == Some(login)
  }

  lemma StepRegisters(w: World, e: Event, entry: R.Entry)
    requires R.Distinct(w.online) && Step(w, e).Some? && entry in Step(w, e).value.online
    ensures entry in w.online
         || (e.Receive? && e.sid == entry.sid && AuthenticatedLogin(w, e) == Some(entry.login))
  {
    if e.Receive? {
      PacketSessions(w, e.sid, e.kind, e.body, e.env);
      var login := AuthenticatedLogin(w, e);
      if login.Some? {
        R.PutKeepsDistinct(w.online, login.value, e.sid);
      }
    }
  }

  /** Without any hypothesis: whoever is registered under a login authenticated as it earlier in the run. */
  lemma {:induction false} RegisteredAuthenticated(sha256: Bytes -> ZeroFree, es: seq<Event>, e: R.Entry)
    requires Run(sha256, es).Some? && e in Run(sha256, es).value.online
    ensures exists k :: 0 <= k < |es| && AuthenticatedAt(sha256, es, k, e.sid, e.login)
  {
    hide Step, AuthenticatedLogin;
    if es != [] {
      var init, last := es[..|es| - 1], es[|es| - 1];
      var w := Run(sha256, init).value;
      RunKeeps(sha256, init);
      StepRegisters(w, last, e);
      if e in w.online {
        RegisteredAuthenticated(sha256, init, e);
        var k :| 0 <= k < |init| && AuthenticatedAt(sha256, init, k, e.sid, e.login);
        assert init[..k] == es[..k] && init[..k + 1] == es[..k + 1];
        assert AuthenticatedAt(sha256, es, k, e.sid, e.login);
      } else {
        assert es[..|init|] == init && es[..|init| + 1] == es;
        assert AuthenticatedAt(sha256, es, |init|, e.sid, e.login);
      }
    }
  }

  // ---- the other direction: does a registered session still carry the login? ----------------

  predicate RegisteredCarry(w: World)
  {
    forall x :: x in w.online && x.sid in w.live ==> w.live[x.sid].login == x.login
  }

  /** The login a packet gives its session, if it changes it: a logout empties it. */
  function LoginGiven(w: World, e: Event): Option<Bytes>
  {
    if !e.Receive? then None
    else if AuthenticatedLogin(w, e).Some? then AuthenticatedLogin(w, e)
    else if e.kind.Logout? then Some([])
    else None
  }

  /** The packet takes its session away from a login it is registered under. */
  predicate Abandons(w: World, e: Event)
  {
    LoginGiven(w, e).Some? && exists x :: x in w.online && x.sid == e.sid && x.login != LoginGiven(w, e).value
  }

  /** Sessions registered under a login they no longer carry arise in exactly one way: a registered session logs out,
      or authenticates as somebody else. */
  lemma CarryLostExactly(w: World, e: Event)
    requires Inv(w) && RegisteredCarry(w) && Step(w, e).Some?
    ensures RegisteredCarry(Step(w, e).value) <==> !Abandons(w, e)
  {
    hide HandlePacket, AuthenticatesAs, R.Put, R.Erase;
    var w' := Step(w, e).value;
    RegistryOk(w);
    if e.Receive? {
      PacketSessions(w, e.sid, e.kind, e.body, e.env);
      LogoutNeverAuthenticates(w, e);
      var login := AuthenticatedLogin(w, e);
      if login.Some? {
        forall x
          ensures x in w'.online <==> x == R.Entry(login.value, e.sid) || (x in w.online && x.login != login.value)
        {
          R.PutEntries(w.online, login.value, e.sid, x);
        }
      }
      if Abandons(w, e) {
        var x :| x in w.online && x.sid == e.sid && x.login != LoginGiven(w, e).value;
        assert x in w'.online;
      }
    }
  }

  lemma LogoutNeverAuthenticates(w: World, e: Event)
    ensures e.Receive? && e.kind.Logout? ==> AuthenticatedLogin(w, e).None?
  {
  }

  lemma RegistryOk(w: World)
    requires Inv(w)
    ensures R.Distinct(w.online) && forall x :: x in w.online ==> x.sid < w.nextSid
  {
  }

  /** What that means: a session that logged out while registered is still the one the registry returns for its old
      login, so that user's direct messages and notices keep going to it. */
  lemma LoggedOutStillReached(w: World, e: Event)
    requires e.Receive? && e.kind.Logout? && Step(w, e).Some? && e.sid in w.live
    requires R.SessionOf(w.online, w.live.Keys, w.live[e.sid].login) == Some(e.sid)
    ensures var w' := Step(w, e).value;
            && e.sid in w'.live && w'.live[e.sid].login == []
            && R.SessionOf(w'.online, w'.live.Keys, w.live[e.sid].login) == Some(e.sid)
  {
    hide HandlePacket, AuthenticatesAs;
    PacketSessions(w, e.sid, e.kind, e.body, e.env);
    LogoutNeverAuthenticates(w, e);
  }

  /** In a run in which no packet does that, every registered live session carries the login it is registered under. */
  lemma {:induction false} CarryThroughRun(sha256: Bytes -> ZeroFree, es: seq<Event>)
    requires Run(sha256, es).Some?
    requires forall k :: 0 <= k < |es| && Run(sha256, es[..k]).Some? ==> !Abandons(Run(sha256, es[..k]).value, es[k])
    ensures RegisteredCarry(Run(sha256, es).value)
  {
    if es != [] {
      hide Step, Inv, RegisteredCarry, Abandons;
      var init, e := es[..|es| - 1], es[|es| - 1];
      forall k | 0 <= k < |init| && Run(sha256, init[..k]).Some?
        ensures !Abandons(Run(sha256, init[..k]).value, init[k])
      {
        assert init[..k] == es[..k] && init[k] == es[k];
      }
      CarryThroughRun(sha256, init);
      RunKeeps(sha256, init);
      assert !Abandons(Run(sha256, es[..|init|]).value, es[|init|]);
      CarryLostExactly(Run(sha256, init).value, e);
    }
  }

  // ---- the events that are no packets --------------------------------------------------------

  /** A connection adds a session without login and token under a number no session or registry entry ever had. */
  lemma ConnectAdds(w: World)
    requires Inv(w)
    ensures var w' := Step(w, Connect);
            && w'.Some? && w'.value == w.(live := w'.value.live, nextSid := w'.value.nextSid)
            && w.nextSid !in w.live && (forall x :: x in w.online ==> x.sid != w.nextSid)
            && (forall p :: p in w.posted ==> p.to != w.nextSid) && w'.value.nextSid > w.nextSid
            && w'.value.live == w.live[w.nextSid := Session([], [])]
  {
  }

  /** A disconnection ends the session and takes the entry under its login out of the registry, whichever session that
      names; a session without a login leaves the registry alone. */
  lemma DisconnectLeaves(w: World, sid: Sid)
    requires sid in w.live
    ensures var w' := Step(w, Disconnect(sid));
            && w'.Some? && w'.value == w.(online := w'.value.online, live := w.live - {sid})
            && forall x :: x in w'.value.online <==>
                             x in w.online && (w.live[sid].login == [] || x.login != w.live[sid].login)
  {
  }

  /** A restart keeps the database but for the expired tokens, and nobody is connected or registered. */
  lemma RestartLeaves(w: World, now: int, token: Bytes)
    ensures var w' := Step(w, Restart(now));
            && w'.Some? && w'.value.online == [] && w'.value.live == map[]
            && w'.value == w.(online := [], live := map[], accounts := w'.value.accounts)
            && w'.value.accounts == w.accounts.(tokens := w'.value.accounts.tokens)
            && (token in w'.value.accounts.tokens <==>
                  token in w.accounts.tokens && now - w.accounts.tokens[token].createdAt <= 7 * 24 * 60 * 60)
  {
    U.CleanedExactly(w.accounts, token, now);
  }
}
