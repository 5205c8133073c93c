/** Runs from the empty server that reach what the main results exclude or only allow: a login cut at a zero byte,
    a message delivered twice, a login with two sessions. */
module ServerExamples {
  import opened Wire
  import opened Codec
  import opened Protocol
  import opened Server
  import opened ServerSafety
  import opened ServerOutput
  import opened ServerRuns
  import opened ServerRegistry
  import opened ServerCopies
  import opened ServerAnswers
  import F = Friends
  import U = Users
  import M = Mail
  import R = Registry

  const ALICE: Bytes := [97]
  const BOB: Bytes := [98]

  /** Everything happens within one second; a generated token is whatever the event needs. */
  function WithFresh(token: Bytes): Env
  {
    Env(0, 0, [], token, false, [])
  }

  function Request(sid: Sid, t: PacketType, fields: seq<Bytes>, token: Bytes): Event
    requires |fields| == |RequestSchema(t)|
  {
    Receive(sid, t, RequestBody(t, fields), WithFresh(token))
  }

  lemma RunSnoc(sha256: Bytes -> ZeroFree, es: seq<Event>, e: Event)
    requires Run(sha256, es).Some?
    ensures Run(sha256, es + [e]) == Step(Run(sha256, es).value, e)
  {
    assert (es + [e])[..|es|] == es;
  }

  lemma RegisterTables(a: U.Accounts, login: Bytes, token: Bytes)
    requires U.AccountsInv(a) && U.ByLogin(a.users, login).None? && token !in a.tokens
    ensures var row := U.User(a.nextId, login, [], a.sha256([]));
            var b := a.(users := a.users + [row], nextId := a.nextId + 1);
            && U.RegisterUser(a, login, [], []) == U.Registration(b, OK)
            && U.VerifyUser(b, login, [], token, 0)
               == U.Issued(b.(tokens := a.tokens[token := U.TokenRow(a.nextId, 0)]))
            && U.ByLogin(b.users, login) == Some(row)
  {
    var nothing: Bytes := [];
    assert nothing + nothing == nothing;
    U.RegisteredUserVerifies(a, login, [], [], token, 0, 0);
    U.RegisterKeepsInv(a, login, [], []);
    var b := U.RegisterUser(a, login, [], []).accounts;
    var row := b.users[|a.users|];
    assert row in b.users;
    U.UniqueUser(b.users, b.nextId, row, U.ByLogin(b.users, login).value);
  }

  lemma AuthenticateWithoutMail(w: World, sid: Sid, login: Bytes)
    requires sid in w.live && U.ByLogin(w.accounts.users, login).Some? && w.mail.rows == []
    ensures Authenticate(w, sid, login) == Some(WithLogin(w, sid, login).(online := R.Put(w.online, login, sid)))
  {
    var me := U.ByLogin(w.accounts.users, login).value.id;
    M.UndeliveredIs([], me);
    assert M.Undelivered([], me) == [];
    assert w.posted + [] == w.posted;
  }

  /** A new user registers: the account, the token, the session and the registry entry. */
  lemma RegisterStep(w: World, sid: Sid, login: Bytes, token: Bytes) returns (w': World)
    requires Inv(w) && sid in w.live && |login| < U32_LIMIT && w.mail.rows == []
    requires U.ByLogin(w.accounts.users, login).None? && token !in w.accounts.tokens
    ensures Step(w, Request(sid, Register, [login, []], token)) == Some(w')
    ensures var a := w.accounts;
            w'.accounts == a.(users := a.users + [U.User(a.nextId, login, [], a.sha256([]))], nextId := a.nextId + 1,
                              tokens := a.tokens[token := U.TokenRow(a.nextId, 0)])
    ensures w'.online == R.Put(w.online, login, sid) && w'.live == w.live[sid := Session(login, token)]
    ensures w'.friends == w.friends && w'.mail == w.mail && w'.nextSid == w.nextSid
  {
    hide Inv, EncodeAll, ParseRequest, RequestBody, U.VerifyUser, U.RegisterUser, Authenticate, HandlePacket;
    var e := Request(sid, Register, [login, []], token);
    RequestRoundTrip(Register, [login, []]);
    AccountsOk(w);
    RegisterTables(w.accounts, login, token);
    PacketSteps(w, sid, Register, e.body, e.env);
    var h := Dispatch(w, sid, Register, e.body, e.env);
    AuthenticateWithoutMail(h.world, sid, login);
    w' := Step(w, e).value;
    assert w'.live == w.live[sid := Session(login, token)];
  }

  const TWO: seq<Event> := [Connect, Connect]

  lemma Connected(sha256: Bytes -> ZeroFree) returns (w: World)
    ensures Run(sha256, TWO) == Some(w) && Inv(w)
    ensures w.accounts == U.Accounts(sha256, [], 1, map[]) && w.friends == [] && w.mail == M.Mailbox([], 1)
    ensures w.online == [] && w.live == map[0 := Session([], []), 1 := Session([], [])]
  {
    RunSnoc(sha256, [], Connect);
    RunSnoc(sha256, [Connect], Connect);
    assert [] + [Connect] == [Connect] && [Connect] + [Connect] == TWO;
    RunKeeps(sha256, TWO);
    w := Run(sha256, TWO).value;
  }

  /** Two connections, and the first has registered a login. */
  function First(login: Bytes, token: Bytes): seq<Event>
  {
    TWO + [Request(0, Register, [login, []], token)]
  }

  lemma FirstRegisters(sha256: Bytes -> ZeroFree, login: Bytes, token: Bytes) returns (w: World)
    requires |login| < U32_LIMIT
    ensures Run(sha256, First(login, token)) == Some(w) && Inv(w)
    ensures w.accounts == U.Accounts(sha256, [U.User(1, login, [], sha256([]))], 2, map[token := U.TokenRow(1, 0)])
    ensures w.friends == [] && w.mail == M.Mailbox([], 1)
    ensures w.online == [R.Entry(login, 0)] && w.live == map[0 := Session(login, token), 1 := Session([], [])]
  {
    hide Step, Inv;
    var w0 := Connected(sha256);
    w := RegisterStep(w0, 0, login, token);
    RunSnoc(sha256, TWO, Request(0, Register, [login, []], token));
    RunKeeps(sha256, First(login, token));
  }

  /** Then the second registers another. */
  function Both(first: Bytes, second: Bytes, t1: Bytes, t2: Bytes): seq<Event>
  {
    First(first, t1) + [Request(1, Register, [second, []], t2)]
  }

  lemma BothRegister(sha256: Bytes -> ZeroFree, first: Bytes, second: Bytes, t1: Bytes, t2: Bytes) returns (w: World)
    requires |first| < U32_LIMIT && |second| < U32_LIMIT && first != second && t1 != t2
    ensures Run(sha256, Both(first, second, t1, t2)) == Some(w) && Inv(w)
    ensures w.accounts.users == [U.User(1, first, [], sha256([])), U.User(2, second, [], sha256([]))]
    ensures w.accounts.tokens == map[t1 := U.TokenRow(1, 0), t2 := U.TokenRow(2, 0)]
    ensures w.friends == [] && w.mail == M.Mailbox([], 1)
    ensures w.online == [R.Entry(first, 0), R.Entry(second, 1)]
    ensures w.live == map[0 := Session(first, t1), 1 := Session(second, t2)]
  {
    hide Step, Inv, First;
    var w1 := FirstRegisters(sha256, first, t1);
    w := RegisterStep(w1, 1, second, t2);
    RunSnoc(sha256, First(first, t1), Request(1, Register, [second, []], t2));
    RunKeeps(sha256, Both(first, second, t1, t2));
    PutSecond(first, second);
  }

  lemma PutSecond(first: Bytes, second: Bytes)
    requires first != second
    ensures R.Put([R.Entry(first, 0)], second, 1) == [R.Entry(first, 0), R.Entry(second, 1)]
  {
  }

  /** The two accounts and tokens of such a run, looked up. */
  predicate TwoAccounts(a: U.Accounts, first: Bytes, second: Bytes, t1: Bytes, t2: Bytes)
  {
    && first != second && t1 != t2
    && |a.users| == 2
    && a.users[0].id == 1 && a.users[0].login == first && a.users[1].id == 2 && a.users[1].login == second
    && a.tokens == map[t1 := U.TokenRow(1, 0), t2 := U.TokenRow(2, 0)]
  }

  lemma TokensResolve(a: U.Accounts, first: Bytes, second: Bytes, t1: Bytes, t2: Bytes)
    requires TwoAccounts(a, first, second, t1, t2)
    ensures U.ByLogin(a.users, first) == Some(a.users[0]) && U.ByLogin(a.users, second) == Some(a.users[1])
    ensures U.ById(a.users, 1) == Some(a.users[0]) && U.ById(a.users, 2) == Some(a.users[1])
    ensures U.LoginByToken(a, t1, 0) == U.Lookup(a, U.LoggedIn(CString(first)))
    ensures U.LoginByToken(a, t2, 0) == U.Lookup(a, U.LoggedIn(CString(second)))
  {
    assert a.users[1..][0] == a.users[1];
  }

  // ---- a login cut at a zero byte ------------------------------------------------------------

  lemma PlainLogins()
    ensures CString(ALICE) == ALICE && CString(BOB) == BOB
  {
    assert 0 !in ALICE && 0 !in BOB;
    CStringExactly(ALICE);
    CStringExactly(BOB);
  }

  /** A user with any login that has a zero byte registers first, and asks for the friend list with the token just
      answered: the handler throws, because the token resolves to a login nobody has. */
  lemma CutLoginThrows(sha256: Bytes -> ZeroFree, login: Bytes, token: Bytes) returns (w: World, ask: Event)
    requires 0 in login && |login| < U32_LIMIT && |token| < U32_LIMIT
    ensures ask == Request(0, FriendList, [token], [])
    ensures Run(sha256, First(login, token)) == Some(w) && 0 in w.live && Nameless(w, token, 0)
    ensures Step(w, ask).None?
  {
    hide Step, Inv, HandlePacket, First, U.LoginByToken;
    w := FirstRegisters(sha256, login, token);
    CStringExactly(login);
    RequestRoundTrip(FriendList, [token]);
    ask := Request(0, FriendList, [token], []);
    ThrowsExactly(w, 0, FriendList, ask.body, ask.env);
    ReceiveStep(w, ask);
  }

  lemma ReceiveStep(w: World, e: Event)
    requires e.Receive? && e.sid in w.live
    ensures Step(w, e) == HandlePacket(w, e.sid, e.kind, e.body, e.env)
  {
  }

  /** If somebody has the login that stands before the zero byte, the token resolves to that user: presenting it
      authenticates the session as somebody who did not register it. */
  lemma CutLoginNamesAnother(sha256: Bytes -> ZeroFree, login: Bytes, t1: Bytes, t2: Bytes)
      returns (w: World, verify: Event)
    requires 0 in login && |login| < U32_LIMIT && t1 != t2 && |t2| < U32_LIMIT
    ensures verify == Request(1, TokenVerify, [t2], [])
    ensures Run(sha256, Both(CString(login), login, t1, t2)) == Some(w)
    ensures |w.accounts.users| == 2 && U.OwnerOf(w.accounts, t2, 0) == Some(w.accounts.users[1])
    ensures w.accounts.users[1].login == login
    ensures AuthenticatedLogin(w, verify) == Some(CString(login))
    ensures NamedBy(w.accounts.users, CString(login), 1)
  {
    hide Step, Inv, HandlePacket, Both, RequestBody, ParseRequest;
    CStringExactly(login);
    w := BothRegister(sha256, CString(login), login, t1, t2);
    TokensResolve(w.accounts, CString(login), login, t1, t2);
    RequestRoundTrip(TokenVerify, [t2]);
    verify := Request(1, TokenVerify, [t2], []);
  }

  // ---- two sessions under one login ----------------------------------------------------------

  /** A token that works authenticates a session, as long as nothing waits. */
  lemma VerifyStep(w: World, sid: Sid, token: Bytes, login: Bytes) returns (w': World)
    requires Inv(w) && sid in w.live && |token| < U32_LIMIT && w.mail.rows == []
    requires U.LoginByToken(w.accounts, token, 0) == U.Lookup(w.accounts, U.LoggedIn(login))
    requires U.ByLogin(w.accounts.users, login).Some?
    ensures Step(w, Request(sid, TokenVerify, [token], [])) == Some(w')
    ensures w'.online == R.Put(w.online, login, sid) && w'.live == w.live[sid := Session(login, token)]
  {
    hide Inv, EncodeAll, ParseRequest, RequestBody, U.LoginByToken, Authenticate, HandlePacket;
    var e := Request(sid, TokenVerify, [token], []);
    RequestRoundTrip(TokenVerify, [token]);
    PacketSteps(w, sid, TokenVerify, e.body, e.env);
    var h := Dispatch(w, sid, TokenVerify, e.body, e.env);
    AuthenticateWithoutMail(h.world, sid, login);
    w' := Step(w, e).value;
    assert w'.live == w.live[sid := Session(login, token)];
  }

  /** A second session presents the token of the first: both carry one login, and when the first disconnects the
      second is no longer registered. */
  lemma SecondSessionUnregistered(sha256: Bytes -> ZeroFree, token: Bytes) returns (w: World, w': World)
    requires |token| < U32_LIMIT
    ensures Run(sha256, First(ALICE, token) + [Request(1, TokenVerify, [token], [])]) == Some(w)
    ensures 0 in w.live && 1 in w.live && w.live[0].login == w.live[1].login == ALICE
    ensures Step(w, Disconnect(0)) == Some(w')
    ensures 1 in w'.live && w'.live[1].login == ALICE && R.SessionOf(w'.online, w'.live.Keys, ALICE) == None
  {
    hide Inv, HandlePacket, First;
    var w1 := FirstRegisters(sha256, ALICE, token);
    PlainLogins();
    w := VerifyStep(w1, 1, token, ALICE);
    RunSnoc(sha256, First(ALICE, token), Request(1, TokenVerify, [token], []));
    DisconnectUnregistersTheOther(w, 0, 1);
    w' := Step(w, Disconnect(0)).value;
  }

  // ---- a message delivered twice -------------------------------------------------------------

  lemma FriendStep(w: World, sid: Sid, t: PacketType, token: Bytes, login: Bytes, other: Bytes, table: F.Table)
      returns (w': World)
    requires sid in w.live && (t.FriendRequest? || t.FriendAccept?) && |token| < U32_LIMIT && |other| < U32_LIMIT
    requires U.LoginByToken(w.accounts, token, 0) == U.Lookup(w.accounts, U.LoggedIn(login))
    requires U.ByLogin(w.accounts.users, login).Some? && U.ByLogin(w.accounts.users, other).Some?
    requires var me, you := U.ByLogin(w.accounts.users, login).value.id, U.ByLogin(w.accounts.users, other).value.id;
             F.Perform(w.friends, FriendOp(w, t, me, you)) == F.Done(table, OK)
    ensures Step(w, Request(sid, t, [token, other], [])) == Some(w') && w' == w.(friends := table, posted := w'.posted)
  {
    hide EncodeAll, RequestBody, U.LoginByToken, F.Perform, PostToLogin, ParseRequest, HandlePacket;
    var e := Request(sid, t, [token, other], []);
    RequestRoundTrip(t, [token, other]);
    AnswerSent(w, sid, t, e.body, e.env);
    w' := Step(w, e).value;
  }

  lemma MessageStep(w: World, sid: Sid, token: Bytes, login: Bytes, other: Bytes, text: Bytes) returns (w': World)
    requires Inv(w) && sid in w.live && |token| < U32_LIMIT && |other| < U32_LIMIT && |text| < U32_LIMIT
    requires U.LoginByToken(w.accounts, token, 0) == U.Lookup(w.accounts, U.LoggedIn(login))
    requires U.ByLogin(w.accounts.users, login).Some? && U.ByLogin(w.accounts.users, other).Some?
    requires F.AreFriends(w.friends, U.ByLogin(w.accounts.users, login).value.id,
                          U.ByLogin(w.accounts.users, other).value.id) == OK
    ensures Step(w, Request(sid, DirectMessage, [token, other, text], [])) == Some(w')
    ensures var me, you := U.ByLogin(w.accounts.users, login).value.id, U.ByLogin(w.accounts.users, other).value.id;
            var row := M.Row(w.mail.nextId, me, you, 0, text, false);
            w' == w.(mail := M.Mailbox(w.mail.rows + [row], w.mail.nextId + 1), posted := w'.posted)
  {
    hide EncodeAll, RequestBody, U.LoginByToken, F.AreFriends, PostToLogin, ParseRequest, HandlePacket, Inv, U.Ids;
    var e := Request(sid, DirectMessage, [token, other, text], []);
    RequestRoundTrip(DirectMessage, [token, other, text]);
    IdsKnown(w, login);
    IdsKnown(w, other);
    AnswerSent(w, sid, DirectMessage, e.body, e.env);
    w' := Step(w, e).value;
  }

  function Befriended(t1: Bytes, t2: Bytes): seq<Event>
  {
    Both(ALICE, BOB, t1, t2) + [Request(0, FriendRequest, [t1, BOB], [])] + [Request(1, FriendAccept, [t2, ALICE], [])]
  }

  lemma BecomeFriends(sha256: Bytes -> ZeroFree, t1: Bytes, t2: Bytes) returns (w: World)
    requires t1 != t2 && |t1| < U32_LIMIT && |t2| < U32_LIMIT
    ensures Run(sha256, Befriended(t1, t2)) == Some(w) && Inv(w)
    ensures TwoAccounts(w.accounts, ALICE, BOB, t1, t2)
    ensures w.live == map[0 := Session(ALICE, t1), 1 := Session(BOB, t2)]
    ensures w.online == [R.Entry(ALICE, 0), R.Entry(BOB, 1)]
    ensures w.friends == [F.Friendship(1, 2, F.ACCEPTED, 1)] && w.mail == M.Mailbox([], 1)
  {
    hide Step, Both, U.LoginByToken, U.ByLogin, Inv;
    var w0 := BothRegister(sha256, ALICE, BOB, t1, t2);
    TokensResolve(w0.accounts, ALICE, BOB, t1, t2);
    PlainLogins();
    var asked, agreed := [F.Friendship(1, 2, F.PENDING, 1)], [F.Friendship(1, 2, F.ACCEPTED, 1)];
    Befriending(U.Ids(w0.accounts.users), w0.accounts.users[0], w0.accounts.users[1]);
    var es := Both(ALICE, BOB, t1, t2);
    var e1, e2 := Request(0, FriendRequest, [t1, BOB], []), Request(1, FriendAccept, [t2, ALICE], []);
    var w1 := FriendStep(w0, 0, FriendRequest, t1, ALICE, BOB, asked);
    RunSnoc(sha256, es, e1);
    w := FriendStep(w1, 1, FriendAccept, t2, BOB, ALICE, agreed);
    RunSnoc(sha256, es + [e1], e2);
    RunKeeps(sha256, Befriended(t1, t2));
  }

  lemma Befriending(users: set<int>, a: U.User, b: U.User)
    requires 1 in users && 2 in users
    ensures F.Perform([], F.Send(users, 1, 2)) == F.Done([F.Friendship(1, 2, F.PENDING, 1)], OK)
    ensures F.Perform([F.Friendship(1, 2, F.PENDING, 1)], F.Accept(2, 1))
         == F.Done([F.Friendship(1, 2, F.ACCEPTED, 1)], OK)
  {
  }

  lemma OneFriendship(t: F.Table)
    requires t == [F.Friendship(1, 2, F.ACCEPTED, 1)]
    ensures F.AreFriends(t, 1, 2) == OK
  {
    assert t[0] in t;
  }

  function Messaged(t1: Bytes, t2: Bytes): seq<Event>
  {
    Befriended(t1, t2) + [Request(0, DirectMessage, [t1, BOB, [104]], [])]
  }

  /** A message to an online friend is queued live when it is sent and once more when that friend's session next
      authenticates: both bounds of the delivery accounting are reached in one run. */
  lemma DeliveredTwice(sha256: Bytes -> ZeroFree, t1: Bytes, t2: Bytes) returns (w: World, r: M.Row)
    requires t1 != t2 && |t1| < U32_LIMIT && |t2| < U32_LIMIT
    ensures Run(sha256, Messaged(t1, t2) + [Request(1, TokenVerify, [t2], [])]) == Some(w)
    ensures r in w.mail.rows && LiveCount(w.posted, r.id) == 1 && ReplayCount(w.posted, r.id) == 1
  {
    hide Step, Inv, U.LoginByToken, U.ByLogin, U.ById, LiveCount, ReplayCount, F.AreFriends, Befriended, TwoAccounts;
    var w0 := BecomeFriends(sha256, t1, t2);
    AccountsLookUp(w0.accounts, t1, t2);
    OneFriendship(w0.friends);
    var sent, verified := Request(0, DirectMessage, [t1, BOB, [104]], []), Request(1, TokenVerify, [t2], []);
    var w1 := MessageStep(w0, 0, t1, ALICE, BOB, [104]);
    RunSnoc(sha256, Befriended(t1, t2), sent);
    var saved := w1.mail.rows[0];
    var es := Messaged(t1, t2) + [verified];
    RunKeeps(sha256, Messaged(t1, t2));
    w := ReplayStep(w1, t1, t2);
    RunSnoc(sha256, Messaged(t1, t2), verified);
    r := OnlyRow(w1, w, verified, saved);
    var k := |Befriended(t1, t2)|;
    assert es[..k] == Befriended(t1, t2) && es[..k + 1] == Messaged(t1, t2);
    CountedLive(sha256, es, k, w0, t1, t2, saved);
    RunKeeps(sha256, es);
    DeliveryAccounting(sha256, es, r);
    M.UndeliveredIs(w.mail.rows, 2);
  }

  lemma AccountsLookUp(a: U.Accounts, t1: Bytes, t2: Bytes)
    requires TwoAccounts(a, ALICE, BOB, t1, t2)
    ensures U.LoginByToken(a, t1, 0) == U.Lookup(a, U.LoggedIn(ALICE))
    ensures U.LoginByToken(a, t2, 0) == U.Lookup(a, U.LoggedIn(BOB))
    ensures U.ByLogin(a.users, ALICE).Some? && U.ByLogin(a.users, ALICE).value.id == 1
    ensures U.ByLogin(a.users, BOB).Some? && U.ByLogin(a.users, BOB).value.id == 2
    ensures U.ById(a.users, 2).Some? && U.ById(a.users, 2).value.login == BOB
  {
    PlainLogins();
    TokensResolve(a, ALICE, BOB, t1, t2);
  }

  /** Bob's session presents its token again. */
  lemma ReplayStep(w: World, t1: Bytes, t2: Bytes) returns (w': World)
    requires Inv(w) && 1 in w.live && |t2| < U32_LIMIT && TwoAccounts(w.accounts, ALICE, BOB, t1, t2)
    ensures Step(w, Request(1, TokenVerify, [t2], [])) == Some(w') && M.Undelivered(w'.mail.rows, 2) == []
  {
    hide Inv, HandlePacket, U.LoginByToken, U.ByLogin, M.Undelivered, TwoAccounts, ParseRequest, RequestBody, Nameless;
    var e := Request(1, TokenVerify, [t2], []);
    AccountsLookUp(w.accounts, t1, t2);
    RequestRoundTrip(TokenVerify, [t2]);
    ResolvesUnlessNameless(w, t2, 0);
    ThrowsExactly(w, 1, TokenVerify, e.body, e.env);
    AuthenticationDelivers(w, 1, TokenVerify, e.body, e.env);
    w' := Step(w, e).value;
    UsersStay(w, e);
    LookupsExtend(w.accounts.users, w'.accounts.users, BOB);
  }

  lemma OnlyRow(w: World, w': World, e: Event, saved: M.Row) returns (r: M.Row)
    requires Step(w, e) == Some(w') && w.mail.rows == [saved]
    ensures r in w'.mail.rows && r.id == saved.id && r.recipient == saved.recipient
  {
    hide Step;
    StepTables(w, e);
    r := w'.mail.rows[0];
  }

  lemma CountedLive(sha256: Bytes -> ZeroFree, es: seq<Event>, k: nat, w: World, t1: Bytes, t2: Bytes, saved: M.Row)
    requires k < |es| && Run(sha256, es).Some? && Run(sha256, es[..k]) == Some(w) && w.mail == M.Mailbox([], 1)
    requires Run(sha256, es[..k + 1]).Some? && saved in Run(sha256, es[..k + 1]).value.mail.rows
    requires saved.id == 1 && saved.recipient == 2
    requires TwoAccounts(w.accounts, ALICE, BOB, t1, t2) && 1 in w.live
    requires w.online == [R.Entry(ALICE, 0), R.Entry(BOB, 1)]
    ensures LiveCount(Run(sha256, es).value.posted, 1) == 1
  {
    hide Run, LiveCount, TwoAccounts, U.ById;
    AccountsLookUp(w.accounts, t1, t2);
    LiveExactly(sha256, es, k, saved);
    assert w.online[1..][0] == w.online[1];
    assert R.Get(w.online, BOB) == Some(1) && 1 in w.live.Keys;
  }
}
