/**
 The server as one state machine: the database tables, the online registry, the live sessions and
 the log of packets posted to them. Each event is one atomic step, because the server runs on one thread.
 */
module Server {
  import opened Wire
  import opened Codec
  import opened Protocol
  import F = Friends
  import U = Users
  import M = Mail
  import R = Registry

  type Sid = nat

  /** current_login and current_token of a live ClientSession. */
  datatype Session = Session(login: Bytes, token: Bytes)

  /** What send_packet was called with, and why. Only the packet type and the body travel. */
  datatype Out =
    | Reply(origin: PacketType, values: seq<Value>)
    | ChatPush(sender: Bytes, text: Bytes)
    | LivePush(row: int, sender: Bytes, text: Bytes)
    | ReplayPush(row: int, login: Bytes, sender: Bytes, text: Bytes, time: int)
    | Notice(kind: PacketType)

  datatype Posted = Posted(to: Sid, out: Out)

  function IncomingValues(sender: Bytes, text: Bytes, stamp: int): seq<Value>
  {
    [TextV(sender), TextV(text), Int64V(Signed(stamp))]
  }

  function WireType(o: Out): PacketType
  {
    match o
    case Reply(_, _) => Result
    case ChatPush(_, _) => Message
    case LivePush(_, _, _) => DirectMessage
    case ReplayPush(_, _, _, _, _) => DirectMessage
    case Notice(kind) => kind
  }

  /** The fields serialized into the body. A live copy carries the row id as its timestamp. */
  function WireValues(o: Out): seq<Value>
  {
    match o
    case Reply(_, values) => values
    case ChatPush(sender, text) => [TextV(sender), TextV(text)]
    case LivePush(row, sender, text) => IncomingValues(sender, text, row)
    case ReplayPush(_, _, sender, text, time) => IncomingValues(sender, text, time)
    case Notice(_) => []
  }

  datatype World = World(
    accounts: U.Accounts,
    friends: F.Table,
    mail: M.Mailbox,
    online: R.Online,
    live: map<Sid, Session>,
    nextSid: Sid,
    posted: seq<Posted>)

  /** What a step reads from outside: the clock (at the token check and at the save), generated UUIDs,
      and how file input and output goes. */
  datatype Env = Env(now: int, saveTime: int, salt: ZeroFree, token: Bytes, fileFails: bool, file: Bytes)

  /** What a handler leaves behind: an empty response sends nothing, login reports is_auth_success.
      Threw is an exception, or undefined behaviour, in the handler, with what it had done by then. */
  datatype Handled = Handled(world: World, response: seq<Value>, login: Option<Bytes>) | Threw(world: World)

  function Post(w: World, to: Sid, out: Out): World
  {
    w.(posted := w.posted + [Posted(to, out)])
  }

  /** sess->send_packet if the registry has a live session for the login. */
  function PostToLogin(w: World, login: Bytes, out: Out): (r: World)
    ensures r == w.(posted := r.posted) && w.posted <= r.posted
  {
    var s := R.SessionOf(w.online, w.live.Keys, login);
    if s.Some? then Post(w, s.value, out) else w
  }

  function PostAll(to: seq<Sid>, out: Out): (ps: seq<Posted>)
    ensures |ps| == |to|
    ensures forall i :: 0 <= i < |ps| ==> ps[i] == Posted(to[i], out)
  {
    seq(|to|, i requires 0 <= i < |to| => Posted(to[i], out))
  }

  function WithAccounts(w: World, a: U.Accounts): World
  {
    w.(accounts := a)
  }

  function WithToken(w: World, sid: Sid, token: Bytes): World
    requires sid in w.live
  {
    w.(live := w.live[sid := w.live[sid].(token := token)])
  }

  // ---- the handlers --------------------------------------------------------------------------

  function HandleRegister(w: World, sid: Sid, f: seq<Bytes>, env: Env): (h: Handled)
    requires sid in w.live && |f| == 2
    ensures h.world.live.Keys == w.live.Keys
  {
    var r := U.RegisterUser(w.accounts, f[0], f[1], env.salt);
    if r.code == OK then
      match U.VerifyUser(r.accounts, f[0], f[1], env.token, env.now)
      case Issued(a) =>
        Handled(WithToken(WithAccounts(w, a), sid, env.token), [TextV(env.token), CodeV(OK)], Some(f[0]))
      case _ => Threw(WithAccounts(w, r.accounts))
    else Handled(WithAccounts(w, r.accounts), [TextV([]), CodeV(r.code)], None)
  }

  function HandleLogin(w: World, sid: Sid, f: seq<Bytes>, env: Env): (h: Handled)
    requires sid in w.live && |f| == 2
    ensures h.world.live.Keys == w.live.Keys
  {
    match U.VerifyUser(w.accounts, f[0], f[1], env.token, env.now)
    case Issued(a) =>
      Handled(WithToken(WithAccounts(w, a), sid, env.token), [TextV(env.token), CodeV(OK)], Some(f[0]))
    case Denied => Handled(w, [TextV([]), CodeV(INCORRECT_CREDENTIALS)], None)
    case Clash => Threw(w)
  }

  function HandleMessage(w: World, f: seq<Bytes>, env: Env): (h: Handled)
    requires |f| == 2
    ensures h.world.live.Keys == w.live.Keys
  {
    var l := U.LoginByToken(w.accounts, f[0], env.now);
    var w1 := WithAccounts(w, l.accounts);
    match l.result
    case Refused(code) => Handled(w1, [CodeV(code)], None)
    case LoggedIn(login) =>
      var to := R.Receivers(w.online, w.live.Keys, login);
      Handled(w1.(posted := w1.posted + PostAll(to, ChatPush(login, f[1]))), [CodeV(OK)], None)
  }

  function HandleUpload(w: World, f: seq<Bytes>, env: Env): (h: Handled)
    requires |f| == 3
    ensures h.world.live.Keys == w.live.Keys
  {
    var l := U.LoginByToken(w.accounts, f[0], env.now);
    var w1 := WithAccounts(w, l.accounts);
    match l.result
    case Refused(code) => Handled(w1, [CodeV(code)], None)
    case LoggedIn(_) => if env.fileFails then Threw(w1) else Handled(w1, [CodeV(OK)], None)
  }

  function HandleDownload(w: World, f: seq<Bytes>, env: Env): (h: Handled)
    requires |f| == 2
    ensures h.world.live.Keys == w.live.Keys
  {
    var l := U.LoginByToken(w.accounts, f[0], env.now);
    var w1 := WithAccounts(w, l.accounts);
    match l.result
    case Refused(code) => Handled(w1, [BlobV([]), CodeV(code)], None)
    case LoggedIn(_) => if env.fileFails then Threw(w1) else Handled(w1, [BlobV(env.file), CodeV(OK)], None)
  }

  function FriendOp(w: World, t: PacketType, sender: int, target: int): F.Op
    requires t.FriendRequest? || t.FriendAccept? || t.FriendReject?
  {
    match t
    case FriendRequest => F.Send(U.Ids(w.accounts.users), sender, target)
    case FriendAccept => F.Accept(sender, target)
    case FriendReject => F.Reject(sender, target)
  }

  function NoticeOf(t: PacketType): PacketType
    requires t.FriendRequest? || t.FriendAccept? || t.FriendReject?
  {
    match t
    case FriendRequest => FriendNewRequest
    case FriendAccept => FriendRequestAccepted
    case FriendReject => FriendRequestRejected
  }

  /** handle_friend_request, handle_friend_accept and handle_friend_reject differ only in the operation and
      in the notice sent to the other user. */
  function HandleFriend(w: World, t: PacketType, f: seq<Bytes>, env: Env): (h: Handled)
    requires t.FriendRequest? || t.FriendAccept? || t.FriendReject?
    requires |f| == 2
    ensures h.world.live.Keys == w.live.Keys
  {
    var l := U.LoginByToken(w.accounts, f[0], env.now);
    var w1 := WithAccounts(w, l.accounts);
    match l.result
    case Refused(code) => Handled(w1, [CodeV(code)], None)
    case LoggedIn(login) =>
      var sender, target := U.ByLogin(w1.accounts.users, login), U.ByLogin(w1.accounts.users, f[1]);
      if target.None? || sender.None? then Handled(w1, [CodeV(USER_NOT_FOUND)], None)
      else
        match F.Perform(w1.friends, FriendOp(w1, t, sender.value.id, target.value.id))
        case Aborted => Threw(w1)
        case Done(table, code) =>
          var w2 := w1.(friends := table);
          if code != OK then Handled(w2, [CodeV(code)], None)
          else Handled(PostToLogin(w2, f[1], Notice(NoticeOf(t))), [CodeV(OK)], None)
  }

  /** getLoginById(el).value() for every id of a list. */
  function LoginsOf(users: seq<U.User>, ids: seq<int>): Option<seq<Value>>
  {
    if ids == [] then Some([])
    else
      var login, rest := U.LoginById(users, ids[0]), LoginsOf(users, ids[1..]);
      if login.Some? && rest.Some? then Some([TextV(login.value)] + rest.value) else None
  }

  function HandleFriendList(w: World, f: seq<Bytes>, env: Env): (h: Handled)
    requires |f| == 1
    ensures h.world.live.Keys == w.live.Keys
  {
    var l := U.LoginByToken(w.accounts, f[0], env.now);
    var w1 := WithAccounts(w, l.accounts);
    match l.result
    case Refused(code) => Handled(w1, [VectorV([]), VectorV([]), CodeV(code)], None)
    case LoggedIn(login) =>
      var me := U.ByLogin(w1.accounts.users, login);
      if me.None? then Threw(w1)
      else
        var friends := LoginsOf(w1.accounts.users, F.FriendsOf(w1.friends, me.value.id));
        var pending := LoginsOf(w1.accounts.users, F.PendingFor(w1.friends, me.value.id));
        if friends.Some? && pending.Some?
        then Handled(w1, [VectorV(friends.value), VectorV(pending.value), CodeV(OK)], None)
        else Threw(w1)
  }

  function EntryV(login: Bytes, text: Bytes, time: int): Value
  {
    RecordV(IncomingValues(login, text, time))
  }

  function HistoryEntries(users: seq<U.User>, rows: seq<M.Row>): Option<seq<Value>>
  {
    if rows == [] then Some([])
    else
      var from, rest := U.LoginById(users, rows[0].sender), HistoryEntries(users, rows[1..]);
      if from.Some? && rest.Some?
      then Some([EntryV(from.value, rows[0].text, rows[0].createAt)] + rest.value) else None
  }

  /** The limit handle_message_history passes to getHistory. */
  const HISTORY_LIMIT: nat := 100

  function HandleHistory(w: World, f: seq<Bytes>, env: Env): (h: Handled)
    requires |f| == 2
    ensures h.world.live.Keys == w.live.Keys
  {
    var l := U.LoginByToken(w.accounts, f[0], env.now);
    var w1 := WithAccounts(w, l.accounts);
    match l.result
    case Refused(code) => Handled(w1, [VectorV([]), CodeV(code)], None)
    case LoggedIn(login) =>
      var me, peer := U.ByLogin(w1.accounts.users, login), U.ByLogin(w1.accounts.users, f[1]);
      if me.None? || peer.None? then Threw(w1)
      else
        var rows := M.ReadAll(M.History(w1.mail.rows, me.value.id, peer.value.id, HISTORY_LIMIT));
        var entries := HistoryEntries(w1.accounts.users, rows);
        if entries.Some? then Handled(w1, [VectorV(entries.value), CodeV(OK)], None) else Threw(w1)
  }

  /** The checks come in this order: token, recipient, friendship; then the row is saved, always as
      undelivered, and a copy goes out at once if the recipient is online. */
  function HandleDirectMessage(w: World, f: seq<Bytes>, env: Env): (h: Handled)
    requires |f| == 3
    ensures h.world.live.Keys == w.live.Keys
  {
    var l := U.LoginByToken(w.accounts, f[0], env.now);
    var w1 := WithAccounts(w, l.accounts);
    match l.result
    case Refused(code) => Handled(w1, [CodeV(code)], None)
    case LoggedIn(login) =>
      var recipient, sender := U.ByLogin(w1.accounts.users, f[1]), U.ByLogin(w1.accounts.users, login);
      if recipient.None? then Handled(w1, [CodeV(USER_NOT_FOUND)], None)
      else if sender.None? then Threw(w1)
      else
        var code := F.AreFriends(w1.friends, sender.value.id, recipient.value.id);
        if code != OK then Handled(w1, [CodeV(code)], None)
        else
          var saved := M.SaveMessage(w1.mail, U.Ids(w1.accounts.users), sender.value.id, recipient.value.id,
                                     f[2], env.saveTime);
          if saved.None? then Threw(w1)
          else
            var w2 := w1.(mail := saved.value);
            Handled(PostToLogin(w2, f[1], LivePush(w1.mail.nextId, login, f[2])), [CodeV(OK)], None)
  }

  function ChatEntries(ms: seq<M.LastMessage>): (vs: seq<Value>)
    ensures |vs| == |ms|
    ensures forall i :: 0 <= i < |ms| ==> vs[i] == EntryV(ms[i].peerLogin, ms[i].text, ms[i].time)
  {
    seq(|ms|, i requires 0 <= i < |ms| => EntryV(ms[i].peerLogin, ms[i].text, ms[i].time))
  }

  function HandleChatList(w: World, f: seq<Bytes>, env: Env): (h: Handled)
    requires |f| == 1
    ensures h.world.live.Keys == w.live.Keys
  {
    var l := U.LoginByToken(w.accounts, f[0], env.now);
    var w1 := WithAccounts(w, l.accounts);
    match l.result
    case Refused(code) => Handled(w1, [VectorV([]), CodeV(code)], None)
    case LoggedIn(login) =>
      var me := U.ByLogin(w1.accounts.users, login);
      if me.None? then Handled(w1, [VectorV([]), CodeV(USER_NOT_FOUND)], None)
      else
        var chats := M.AllLastMessages(w1.accounts.users, M.LastMessages(w1.mail.rows, me.value.id));
        Handled(w1, [VectorV(ChatEntries(chats)), CodeV(OK)], None)
  }

  function HandleTokenVerify(w: World, sid: Sid, f: seq<Bytes>, env: Env): (h: Handled)
    requires sid in w.live && |f| == 1
    ensures h.world.live.Keys == w.live.Keys
  {
    var l := U.LoginByToken(w.accounts, f[0], env.now);
    var w1 := WithAccounts(w, l.accounts);
    match l.result
    case Refused(code) => Handled(w1, [CodeV(code)], None)
    case LoggedIn(login) => Handled(WithToken(w1, sid, f[0]), [CodeV(OK)], Some(login))
  }

  /** The session forgets its login but stays in the registry. */
  function HandleLogout(w: World, sid: Sid, f: seq<Bytes>): (h: Handled)
    requires sid in w.live && |f| == 1
    ensures h.world.live.Keys == w.live.Keys
  {
    Handled(WithAccounts(w, U.RevokeToken(w.accounts, f[0])).(live := w.live[sid := Session([], [])]), [], None)
  }

  /** The switch of handle_packet. An unparsable body throws; other packet types are dropped. */
  function Dispatch(w: World, sid: Sid, t: PacketType, body: Bytes, env: Env): (h: Handled)
    requires sid in w.live
    ensures h.world.live.Keys == w.live.Keys
  {
    match ParseRequest(t, body)
    case None => Threw(w)
    case Some(f) =>
      match t
      case Register => HandleRegister(w, sid, f, env)
      case Login => HandleLogin(w, sid, f, env)
      case Message => HandleMessage(w, f, env)
      case Upload => HandleUpload(w, f, env)
      case Download => HandleDownload(w, f, env)
      case FriendRequest => HandleFriend(w, t, f, env)
      case FriendAccept => HandleFriend(w, t, f, env)
      case FriendReject => HandleFriend(w, t, f, env)
      case FriendList => HandleFriendList(w, f, env)
      case DirectMessage => HandleDirectMessage(w, f, env)
      case MessageHistory => HandleHistory(w, f, env)
      case TokenVerify => HandleTokenVerify(w, sid, f, env)
      case ChatList => HandleChatList(w, f, env)
      case Logout => HandleLogout(w, sid, f)
      case _ => Handled(w, [], None)
  }

  // ---- after the switch ----------------------------------------------------------------------

  /** The packets deliver_pending sends, one a row; None when a sender's login is missing. */
  function Replays(users: seq<U.User>, sid: Sid, login: Bytes, rows: seq<M.Row>): Option<seq<Posted>>
  {
    if rows == [] then Some([])
    else
      var from, rest := U.LoginById(users, rows[0].sender), Replays(users, sid, login, rows[1..]);
      if from.Some? && rest.Some? then Some([Replay(sid, login, from.value, rows[0])] + rest.value) else None
  }

  function Replay(sid: Sid, login: Bytes, from: Bytes, r: M.Row): Posted
  {
    Posted(sid, ReplayPush(r.id, login, from, CString(r.text), r.createAt))
  }

  /** Those it sends before it throws, if it does. */
  function ReplaysBefore(users: seq<U.User>, sid: Sid, login: Bytes, rows: seq<M.Row>): seq<Posted>
  {
    if rows == [] || U.LoginById(users, rows[0].sender).None? then []
    else
      [Replay(sid, login, U.LoginById(users, rows[0].sender).value, rows[0])]
      + ReplaysBefore(users, sid, login, rows[1..])
  }

  function DeliverPending(w: World, sid: Sid): Option<World>
    requires sid in w.live
  {
    var login := w.live[sid].login;
    var me := U.ByLogin(w.accounts.users, login);
    if me.None? then None
    else
      var due := M.Undelivered(w.mail.rows, me.value.id);
      var out := Replays(w.accounts.users, sid, login, due);
      if out.None? then None
      else Some(w.(mail := w.mail.(rows := M.MarkDelivered(w.mail.rows, M.IdsOf(due))),
                   posted := w.posted + out.value))
  }

  /** What deliver_pending leaves when it throws. */
  function DeliveryBroken(w: World, sid: Sid): World
    requires sid in w.live
  {
    var login := w.live[sid].login;
    var me := U.ByLogin(w.accounts.users, login);
    if me.None? then w
    else
      var due := M.Undelivered(w.mail.rows, me.value.id);
      w.(posted := w.posted + ReplaysBefore(w.accounts.users, sid, login, due))
  }

  function WithLogin(w: World, sid: Sid, login: Bytes): World
    requires sid in w.live
  {
    w.(live := w.live[sid := w.live[sid].(login := login)])
  }

  function Authenticate(w: World, sid: Sid, login: Bytes): Option<World>
    requires sid in w.live
  {
    var w2 := DeliverPending(WithLogin(w, sid, login), sid);
    if w2.None? then None else Some(w2.value.(online := R.Put(w2.value.online, login, sid)))
  }

  /** handle_packet; None when it throws. */
  function HandlePacket(w: World, sid: Sid, t: PacketType, body: Bytes, env: Env): Option<World>
    requires sid in w.live
  {
    match Dispatch(w, sid, t, body, env)
    case Threw(_) => None
    case Handled(w1, response, login) =>
      var w2 := if login.Some? then Authenticate(w1, sid, login.value) else Some(w1);
      if w2.None? then None
      else if EncodeAll(response) == [] then w2
      else Some(Post(w2.value, sid, Reply(t, response)))
  }

  /** handle_packet in its three steps. */
  lemma PacketSteps(w: World, sid: Sid, t: PacketType, body: Bytes, env: Env)
    requires sid in w.live
    ensures var h := Dispatch(w, sid, t, body, env);
            if h.Threw? then HandlePacket(w, sid, t, body, env).None?
            else
              var w2 := if h.login.Some? then Authenticate(h.world, sid, h.login.value) else Some(h.world);
              if w2.None? then HandlePacket(w, sid, t, body, env).None?
              else
                var reply := if EncodeAll(h.response) == [] then [] else [Posted(sid, Reply(t, h.response))];
                HandlePacket(w, sid, t, body, env) == Some(w2.value.(posted := w2.value.posted + reply))
  {
    hide Dispatch, Authenticate, EncodeAll;
    if HandlePacket(w, sid, t, body, env).Some? {
      assert forall ps: seq<Posted> :: ps + [] == ps;
    }
  }

  /** The state in which handle_packet throws. The exception ends io_context.run() and with it the process. */
  function BrokenState(w: World, sid: Sid, t: PacketType, body: Bytes, env: Env): World
    requires sid in w.live && HandlePacket(w, sid, t, body, env).None?
  {
    match Dispatch(w, sid, t, body, env)
    case Threw(w1) => w1
    case Handled(w1, _, login) => DeliveryBroken(WithLogin(w1, sid, login.value), sid)
  }

  /** ~ClientSession: the registry entry under the current login goes, whichever session it names. */
  function Destroy(w: World, sid: Sid): World
    requires sid in w.live
  {
    var login := w.live[sid].login;
    w.(online := if login != [] then R.Erase(w.online, login) else w.online, live := w.live - {sid})
  }

  // ---- runs ----------------------------------------------------------------------------------

  datatype Event =
    | Connect
    | Receive(sid: Sid, kind: PacketType, body: Bytes, env: Env)
    | Disconnect(sid: Sid)
    | CleanTokens(now: int)
    | Restart(now: int)   // the process ends and starts again on the same database
    | Crash(sid: Sid, kind: PacketType, body: Bytes, env: Env, later: int)   // handling a packet throws, then a restart

  /** None when the event cannot happen or the handler throws; nothing follows that. */
  function Step(w: World, e: Event): Option<World>
  {
    match e
    case Connect => Some(w.(live := w.live[w.nextSid := Session([], [])], nextSid := w.nextSid + 1))
    case Receive(sid, t, body, env) => if sid in w.live then HandlePacket(w, sid, t, body, env) else None
    case Disconnect(sid) => if sid in w.live then Some(Destroy(w, sid)) else None
    case CleanTokens(now) => Some(WithAccounts(w, U.CleanExpired(w.accounts, now)))
    case Restart(now) => Some(Restarted(w, now))
    case Crash(sid, t, body, env, later) =>
      if sid in w.live && HandlePacket(w, sid, t, body, env).None?
      then Some(Restarted(BrokenState(w, sid, t, body, env), later)) else None
  }

  /** main: expired tokens are cleaned, and nobody is connected yet. */
  function Restarted(w: World, now: int): World
  {
    WithAccounts(w, U.CleanExpired(w.accounts, now)).(online := [], live := map[])
  }

  function Start(sha256: Bytes -> ZeroFree): World
  {
    World(U.Accounts(sha256, [], 1, map[]), [], M.Mailbox([], 1), [], map[], 0, [])
  }

  function Run(sha256: Bytes -> ZeroFree, es: seq<Event>): Option<World>
  {
    if es == [] then Some(Start(sha256))
    else
      var w := Run(sha256, es[..|es| - 1]);
      if w.None? then None else Step(w.value, es[|es| - 1])
  }

  /** What a session is sent, in the order its queue gets it. */
  function SentTo(posted: seq<Posted>, sid: Sid): seq<Out>
  {
    if posted == [] then []
    else SentTo(posted[..|posted| - 1], sid) + if posted[|posted| - 1].to == sid then [posted[|posted| - 1].out] else []
  }
}
