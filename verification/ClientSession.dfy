/**
 The server's session object: handlers that call the repositories, the registry and send_packet one
 after another, each proved to take the server from one state to the next as module Server defines.
 */
module ClientSessions {
  import opened Wire
  import opened Codec
  import opened Protocol
  import opened Server
  import S = Serializer
  import F = Friends
  import U = Users
  import M = Mail
  import R = Registry

  /** The executor: which sessions are alive, and the packets posted to them in order. The entry of the session
      that is running is out of date until it stops; the session's own fields count. */
  class Executor {
    var sessions: map<Sid, Session>
    var nextSid: Sid
    var posted: seq<Posted>

    constructor ()
      ensures sessions == map[] && nextSid == 0 && posted == []
    {
      sessions, nextSid, posted := map[], 0, [];
    }

    /** The acceptor makes a session for a new connection. */
    method Connect() returns (sid: Sid)
      modifies this`sessions, this`nextSid
      ensures sid == old(nextSid) && nextSid == old(nextSid) + 1
      ensures sessions == old(sessions)[sid := Session([], [])]
    {
      sid, nextSid := nextSid, nextSid + 1;
      sessions := sessions[sid := Session([], [])];
    }

    /** A session has finished with a packet and leaves its fields for the others to see. */
    method Suspend(sid: Sid, s: Session)
      modifies this`sessions
      ensures sessions == old(sessions)[sid := s]
    {
      sessions := sessions[sid := s];
    }

    method SendPacket(to: Sid, out: Out)
      modifies this`posted
      ensures posted == old(posted) + [Posted(to, out)]
    {
      posted := posted + [Posted(to, out)];
    }
  }

  /** A loop has produced the first part of a result that fails as a whole if the rest fails. */
  ghost predicate PartOf<T>(all: Option<seq<T>>, done: seq<T>, rest: Option<seq<T>>)
  {
    if rest.Some? then all == Some(done + rest.value) else all.None?
  }

  lemma PartMoves<T>(all: Option<seq<T>>, done: seq<T>, x: T, rest: Option<seq<T>>)
    requires PartOf(all, done, if rest.Some? then Some([x] + rest.value) else None)
    ensures PartOf(all, done + [x], rest)
  {
    if rest.Some? {
      assert done + ([x] + rest.value) == done + [x] + rest.value;
    }
  }

  lemma NobodyIsPosted(reg: R.Online, live: set<Sid>, login: Bytes, out: Out)
    ensures PostAll([], out) == [] && R.Receivers(reg[|reg|..], live, login) == []
  {
  }

  lemma ReachedIsPosted(done: seq<Sid>, e: R.Entry, live: set<Sid>, login: Bytes, rest: seq<Sid>, out: Out)
    ensures var here := R.Reached(e, live, login);
            && done + (here + rest) == done + here + rest
            && (here == if e.login != login && e.sid in live then [e.sid] else [])
            && PostAll(done + here, out) == PostAll(done, out) + if here == [] then [] else [Posted(e.sid, out)]
  {
  }

  class ClientSession {
    const sid: Sid
    const users: U.UserRepository
    const friends: F.FriendRepository
    const messages: M.MessageRepository
    const manager: R.SessionManager
    const executor: Executor
    var currentLogin: Bytes
    var currentToken: Bytes

    /** The whole server state, seen from the running session. */
    ghost function View(): World
      reads this, users, friends, messages, manager, executor
    {
      World(users.Contents(), friends.friendships, messages.Contents(), manager.onlineUsers,
            executor.sessions[sid := Session(currentLogin, currentToken)], executor.nextSid, executor.posted)
    }

    ghost predicate Running()
      reads executor
    {
      sid in executor.sessions
    }

    /** What a handler call leaves is what the specification says, whether it returns or throws. */
    ghost predicate Leaves(h: Handled, thrown: bool, response: seq<Value>, login: Option<Bytes>)
      reads this, users, friends, messages, manager, executor
    {
      && View() == h.world
      && if h.Threw? then thrown else !thrown && response == h.response && login == h.login
    }

    constructor (sid: Sid, users: U.UserRepository, friends: F.FriendRepository, messages: M.MessageRepository,
                 manager: R.SessionManager, executor: Executor)
      requires sid in executor.sessions && executor.sessions[sid] == Session([], [])
      ensures Running() && View() == Remaining()
      ensures this.sid == sid && currentLogin == [] && currentToken == []
      ensures this.users == users && this.friends == friends && this.messages == messages
      ensures this.manager == manager && this.executor == executor
    {
      this.sid, this.users, this.friends, this.messages := sid, users, friends, messages;
      this.manager, this.executor := manager, executor;
      currentLogin, currentToken := [], [];
      new;
      assert executor.sessions[sid := Session([], [])] == executor.sessions;
    }

    /** XRequest::deserialize(body) for a request message. */
    method Deserialize(t: PacketType, body: Bytes) returns (r: Option<seq<Bytes>>)
      ensures r == ParseRequest(t, body)
    {
      var cursor := new S.Cursor(body);
      var fields := cursor.DeserializeTuple(RequestSchema(t));
      if !fields.Got? {
        return None;
      }
      DecodeAllBounds(RequestSchema(t), body, 0);
      SchemaLength(fields.value, RequestSchema(t));
      var f: seq<Bytes> := [];
      for i := 0 to |fields.value|
        invariant |f| == i && forall j :: 0 <= j < i ==> f[j] == FieldBytes(fields.value[j])
      {
        f := f + [FieldBytes(fields.value[i])];
      }
      assert f == ParseRequest(t, body).value;
      return Some(f);
    }

    method HandleRegister(f: seq<Bytes>, env: Env) returns (thrown: bool, response: seq<Value>, login: Option<Bytes>)
      requires Running() && |f| == 2
      modifies this, users
      ensures Leaves(Server.HandleRegister(old(View()), sid, f, env), thrown, response, login)
    {
      var code := users.RegisterNew(f[0], f[1], env.salt);
      if code == OK {
        var issued, clash := users.VerifyLogin(f[0], f[1], env.token, env.now);
        if !issued {
          return true, [], None;
        }
        currentToken := env.token;
        return false, [TextV(env.token), CodeV(OK)], Some(f[0]);
      }
      return false, [TextV([]), CodeV(code)], None;
    }

    method HandleLogin(f: seq<Bytes>, env: Env) returns (thrown: bool, response: seq<Value>, login: Option<Bytes>)
      requires Running() && |f| == 2
      modifies this, users
      ensures Leaves(Server.HandleLogin(old(View()), sid, f, env), thrown, response, login)
    {
      var issued, clash := users.VerifyLogin(f[0], f[1], env.token, env.now);
      if clash {
        return true, [], None;
      }
      if issued {
        currentToken := env.token;
        return false, [TextV(env.token), CodeV(OK)], Some(f[0]);
      }
      return false, [TextV([]), CodeV(INCORRECT_CREDENTIALS)], None;
    }

    /** SessionManager::broadcast: the loop over the registry. */
    method Broadcast(senderLogin: Bytes, out: Out)
      requires Running()
      modifies executor`posted
      ensures executor.posted
           == old(executor.posted) + PostAll(R.Receivers(manager.onlineUsers, executor.sessions.Keys, senderLogin), out)
    {
      var reg := manager.onlineUsers;
      hide R.Receivers, R.Reached, PostAll;
      ghost var live, start := executor.sessions.Keys, executor.posted;
      ghost var done: seq<Sid> := [];
      assert reg[0..] == reg;
      NobodyIsPosted(reg, live, senderLogin, out);
      for i := 0 to |reg|
        invariant executor.posted == start + PostAll(done, out)
        invariant R.Receivers(reg, live, senderLogin) == done + R.Receivers(reg[i..], live, senderLogin)
      {
        R.ReceiversFrom(reg, i, live, senderLogin);
        ReachedIsPosted(done, reg[i], live, senderLogin, R.Receivers(reg[i + 1..], live, senderLogin), out);
        done := done + R.Reached(reg[i], live, senderLogin);
        if reg[i].login != senderLogin && reg[i].sid in executor.sessions {
          executor.SendPacket(reg[i].sid, out);
        }
      }
      assert done + [] == done;
    }

    method HandleMessage(f: seq<Bytes>, env: Env) returns (thrown: bool, response: seq<Value>, login: Option<Bytes>)
      requires Running() && |f| == 2
      modifies users, executor`posted
      ensures Leaves(Server.HandleMessage(old(View()), f, env), thrown, response, login)
    {
      var l := users.GetLoginByToken(f[0], env.now);
      if l.LoggedIn? {
        assert View().live.Keys == executor.sessions.Keys;
        Broadcast(l.login, ChatPush(l.login, f[1]));
        return false, [CodeV(OK)], None;
      }
      return false, [CodeV(l.code)], None;
    }

    method HandleUpload(f: seq<Bytes>, env: Env) returns (thrown: bool, response: seq<Value>, login: Option<Bytes>)
      requires Running() && |f| == 3
      modifies users
      ensures Leaves(Server.HandleUpload(old(View()), f, env), thrown, response, login)
    {
      var l := users.GetLoginByToken(f[0], env.now);
      if l.Refused? {
        return false, [CodeV(l.code)], None;
      }
      if env.fileFails {
        return true, [], None;
      }
      return false, [CodeV(OK)], None;
    }

    method HandleDownload(f: seq<Bytes>, env: Env) returns (thrown: bool, response: seq<Value>, login: Option<Bytes>)
      requires Running() && |f| == 2
      modifies users
      ensures Leaves(Server.HandleDownload(old(View()), f, env), thrown, response, login)
    {
      var l := users.GetLoginByToken(f[0], env.now);
      if l.Refused? {
        return false, [BlobV([]), CodeV(l.code)], None;
      }
      if env.fileFails {
        return true, [], None;
      }
      return false, [BlobV(env.file), CodeV(OK)], None;
    }

    /** if (sess = getSession(login)) sess->send_packet(...) */
    method NotifyIfOnline(login: Bytes, out: Out)
      requires Running()
      modifies executor`posted
      ensures View() == PostToLogin(old(View()), login, out)
    {
      assert View().live.Keys == executor.sessions.Keys;
      var sess := manager.GetSession(executor.sessions.Keys, login);
      if sess.Some? {
        executor.SendPacket(sess.value, out);
      }
    }

    /** handle_friend_request, handle_friend_accept and handle_friend_reject. */
    method HandleFriend(t: PacketType, f: seq<Bytes>, env: Env)
      returns (thrown: bool, response: seq<Value>, login: Option<Bytes>)
      requires Running() && |f| == 2 && (t.FriendRequest? || t.FriendAccept? || t.FriendReject?)
      modifies users, friends, executor`posted
      ensures Leaves(Server.HandleFriend(old(View()), t, f, env), thrown, response, login)
    {
      var l := users.GetLoginByToken(f[0], env.now);
      if l.Refused? {
        return false, [CodeV(l.code)], None;
      }
      var target := U.ByLogin(users.users, f[1]);
      if target.None? {
        return false, [CodeV(USER_NOT_FOUND)], None;
      }
      var sender := U.ByLogin(users.users, l.login);
      if sender.None? {
        return false, [CodeV(USER_NOT_FOUND)], None;
      }
      var code: ErrorCode;
      match t {
        case FriendRequest =>
          var aborted;
          aborted, code := friends.SendRequest(U.Ids(users.users), sender.value.id, target.value.id);
          if aborted {
            return true, [], None;
          }
        case FriendAccept =>
          code := friends.AcceptRequest(sender.value.id, target.value.id);
        case FriendReject =>
          code := friends.RejectRequest(sender.value.id, target.value.id);
      }
      if code != OK {
        return false, [CodeV(code)], None;
      }
      NotifyIfOnline(f[1], Notice(NoticeOf(t)));
      return false, [CodeV(OK)], None;
    }

    /** The loop that turns a list of ids into logins; a missing user throws. */
    method LoginsById(ids: seq<int>) returns (thrown: bool, logins: seq<Value>)
      ensures thrown <==> LoginsOf(users.users, ids).None?
      ensures !thrown ==> LoginsOf(users.users, ids) == Some(logins)
    {
      logins := [];
      assert ids[0..] == ids;
      for i := 0 to |ids|
        invariant LoginsOf(users.users, ids).Some? <==> LoginsOf(users.users, ids[i..]).Some?
        invariant LoginsOf(users.users, ids).Some? ==>
                    LoginsOf(users.users, ids).value == logins + LoginsOf(users.users, ids[i..]).value
      {
        assert ids[i..][1..] == ids[i + 1..];
        var login := users.GetLoginById(ids[i]);
        if login.None? {
          return true, [];
        }
        logins := logins + [TextV(login.value)];
      }
      assert logins + [] == logins;
      return false, logins;
    }

    method HandleFriendList(f: seq<Bytes>, env: Env) returns (thrown: bool, response: seq<Value>, login: Option<Bytes>)
      requires Running() && |f| == 1
      modifies users
      ensures Leaves(Server.HandleFriendList(old(View()), f, env), thrown, response, login)
    {
      var l := users.GetLoginByToken(f[0], env.now);
      if l.Refused? {
        return false, [VectorV([]), VectorV([]), CodeV(l.code)], None;
      }
      var me := U.ByLogin(users.users, l.login);
      if me.None? {
        return true, [], None;
      }
      var friendIds := friends.GetFriends(me.value.id);
      var missing, friendLogins := LoginsById(friendIds);
      if missing {
        return true, [], None;
      }
      var pendingIds := friends.GetPendingIncoming(me.value.id);
      var missing', pendingLogins := LoginsById(pendingIds);
      if missing' {
        return true, [], None;
      }
      return false, [VectorV(friendLogins), VectorV(pendingLogins), CodeV(OK)], None;
    }

    method HandleMessageHistory(f: seq<Bytes>, env: Env)
      returns (thrown: bool, response: seq<Value>, login: Option<Bytes>)
      requires Running() && |f| == 2
      modifies users
      ensures Leaves(HandleHistory(old(View()), f, env), thrown, response, login)
    {
      var l := users.GetLoginByToken(f[0], env.now);
      if l.Refused? {
        return false, [VectorV([]), CodeV(l.code)], None;
      }
      var me := U.ByLogin(users.users, l.login);
      var peer := U.ByLogin(users.users, f[1]);
      if me.None? || peer.None? {
        return true, [], None;
      }
      var rows := messages.GetHistory(me.value.id, peer.value.id, HISTORY_LIMIT);
      var missing, entries := EntriesOf(rows);
      if missing {
        return true, [], None;
      }
      return false, [VectorV(entries), CodeV(OK)], None;
    }

    /** The loop that fills HistoryResponse; a missing sender throws. */
    method EntriesOf(rows: seq<M.Row>) returns (thrown: bool, entries: seq<Value>)
      ensures thrown <==> HistoryEntries(users.users, rows).None?
      ensures !thrown ==> HistoryEntries(users.users, rows) == Some(entries)
    {
      entries := [];
      assert rows[0..] == rows;
      for i := 0 to |rows|
        invariant HistoryEntries(users.users, rows).Some? <==> HistoryEntries(users.users, rows[i..]).Some?
        invariant HistoryEntries(users.users, rows).Some? ==>
                    HistoryEntries(users.users, rows).value == entries + HistoryEntries(users.users, rows[i..]).value
      {
        assert rows[i..][1..] == rows[i + 1..];
        var from := users.GetLoginById(rows[i].sender);
        if from.None? {
          return true, [];
        }
        entries := entries + [EntryV(from.value, rows[i].text, rows[i].createAt)];
      }
      assert entries + [] == entries;
      return false, entries;
    }

    method HandleDirectMessage(f: seq<Bytes>, env: Env)
      returns (thrown: bool, response: seq<Value>, login: Option<Bytes>)
      requires Running() && |f| == 3
      modifies users, messages, executor`posted
      ensures Leaves(Server.HandleDirectMessage(old(View()), f, env), thrown, response, login)
    {
      var l := users.GetLoginByToken(f[0], env.now);
      if l.Refused? {
        return false, [CodeV(l.code)], None;
      }
      var recipient := U.ByLogin(users.users, f[1]);
      if recipient.None? {
        return false, [CodeV(USER_NOT_FOUND)], None;
      }
      var sender := U.ByLogin(users.users, l.login);
      if sender.None? {
        return true, [], None;
      }
      var code := friends.AreFriendsNow(sender.value.id, recipient.value.id);
      if code != OK {
        return false, [CodeV(code)], None;
      }
      var sess := manager.GetSession(executor.sessions.Keys, f[1]);
      assert View().live.Keys == executor.sessions.Keys;
      var violated, ts := messages.Save(U.Ids(users.users), sender.value.id, recipient.value.id, f[2], env.saveTime);
      if violated {
        return true, [], None;
      }
      if sess.Some? {
        executor.SendPacket(sess.value, LivePush(ts, l.login, f[2]));
      }
      return false, [CodeV(OK)], None;
    }

    method HandleChatList(f: seq<Bytes>, env: Env) returns (thrown: bool, response: seq<Value>, login: Option<Bytes>)
      requires Running() && |f| == 1
      modifies users
      ensures Leaves(Server.HandleChatList(old(View()), f, env), thrown, response, login)
    {
      var l := users.GetLoginByToken(f[0], env.now);
      if l.Refused? {
        return false, [VectorV([]), CodeV(l.code)], None;
      }
      var me := U.ByLogin(users.users, l.login);
      if me.None? {
        return false, [VectorV([]), CodeV(USER_NOT_FOUND)], None;
      }
      var chats := messages.GetLastMessages(users, me.value.id);
      var entries := ChatsOf(chats);
      return false, [VectorV(entries), CodeV(OK)], None;
    }

    /** The loop that fills ChatListResponse. */
    method ChatsOf(chats: seq<M.LastMessage>) returns (entries: seq<Value>)
      ensures entries == ChatEntries(chats)
    {
      entries := [];
      for i := 0 to |chats|
        invariant entries == ChatEntries(chats)[..i]
      {
        entries := entries + [EntryV(chats[i].peerLogin, chats[i].text, chats[i].time)];
      }
    }

    method HandleTokenVerify(f: seq<Bytes>, env: Env) returns (thrown: bool, response: seq<Value>, login: Option<Bytes>)
      requires Running() && |f| == 1
      modifies this, users
      ensures Leaves(Server.HandleTokenVerify(old(View()), sid, f, env), thrown, response, login)
    {
      var l := users.GetLoginByToken(f[0], env.now);
      if l.LoggedIn? {
        currentToken := f[0];
        return false, [CodeV(OK)], Some(l.login);
      }
      return false, [CodeV(l.code)], None;
    }

    method HandleLogout(f: seq<Bytes>)
      requires Running() && |f| == 1
      modifies this, users
      ensures View() == Server.HandleLogout(old(View()), sid, f).world
    {
      users.DropToken(f[0]);
      currentLogin := [];
      currentToken := [];
    }

    /** The loop of deliver_pending: one packet a message, the ids collected on the way. */
    method SendAll(pending: seq<M.Stored>, ghost due: seq<M.Row>) returns (thrown: bool, ids: seq<int>)
      requires pending == M.AllStored(due)
      modifies executor`posted
      ensures var out := Replays(users.users, sid, currentLogin, due);
              && (thrown <==> out.None?)
              && (!thrown ==> ids == M.IdsOf(due) && executor.posted == old(executor.posted) + out.value)
      ensures thrown ==>
                executor.posted == old(executor.posted) + ReplaysBefore(users.users, sid, currentLogin, due)
    {
      ids := [];
      ghost var start := executor.posted;
      ghost var out: seq<Posted> := [];
      ghost var all := Replays(users.users, sid, currentLogin, due);
      ghost var before := ReplaysBefore(users.users, sid, currentLogin, due);
      assert all.Some? ==> out + all.value == all.value;
      assert due[0..] == due && out + before == before;
      for i := 0 to |pending|
        invariant executor.posted == start + out
        invariant ids == M.IdsOf(due)[..i]
        invariant PartOf(all, out, Replays(users.users, sid, currentLogin, due[i..]))
        invariant before == out + ReplaysBefore(users.users, sid, currentLogin, due[i..])
      {
        ghost var rest := Replays(users.users, sid, currentLogin, due[i + 1..]);
        assert due[i..][0] == due[i] && due[i..][1..] == due[i + 1..];
        var el := pending[i];
        var senderLogin := users.GetLoginById(el.sender);
        if senderLogin.None? {
          assert out + [] == out;
          return true, [];
        }
        var incoming := ReplayPush(el.id, currentLogin, senderLogin.value, el.text, el.time);
        executor.SendPacket(sid, incoming);
        PartMoves(all, out, Posted(sid, incoming), rest);
        Regroup(out, [Posted(sid, incoming)], ReplaysBefore(users.users, sid, currentLogin, due[i + 1..]));
        out := out + [Posted(sid, incoming)];
        ids := ids + [el.id];
      }
      assert out + [] == out;
      return false, ids;
    }

    /** deliver_pending */
    method DeliverPendingMessages() returns (thrown: bool)
      requires Running()
      modifies messages, executor`posted
      ensures thrown <==> DeliverPending(old(View()), sid).None?
      ensures !thrown ==> DeliverPending(old(View()), sid) == Some(View())
      ensures thrown ==> DeliveryBroken(old(View()), sid) == View()
    {
      hide Replays, ReplaysBefore, M.Undelivered;
      var me := U.ByLogin(users.users, currentLogin);
      if me.None? {
        return true;
      }
      ghost var due := M.Undelivered(messages.rows, me.value.id);
      var pending := messages.GetUndelivered(me.value.id);
      if pending == [] {
        NothingPending();
        return false;
      }
      var failed, ids := SendAll(pending, due);
      if failed {
        return true;
      }
      messages.Mark(ids);
      return false;
    }

    /** What follows is_auth_success: the login, the delivery, the registration. */
    method FinishAuthentication(login: Bytes) returns (thrown: bool)
      requires Running()
      modifies this`currentLogin, messages, manager, executor`posted
      ensures thrown <==> Authenticate(old(View()), sid, login).None?
      ensures !thrown ==> Authenticate(old(View()), sid, login) == Some(View())
      ensures thrown ==> DeliveryBroken(WithLogin(old(View()), sid, login), sid) == View()
    {
      hide DeliverPending, DeliveryBroken;
      currentLogin := login;
      assert View().live == WithLogin(old(View()), sid, login).live;
      var failed := DeliverPendingMessages();
      if failed {
        return true;
      }
      manager.AddUser(currentLogin, sid);
      return false;
    }

    lemma NothingPending()
      requires Running() && U.ByLogin(users.users, currentLogin).Some?
      requires M.Undelivered(messages.rows, U.ByLogin(users.users, currentLogin).value.id) == []
      ensures DeliverPending(View(), sid) == Some(View())
    {
      assert M.MarkDelivered(messages.rows, M.IdsOf([])) == messages.rows;
      assert executor.posted + [] == executor.posted;
    }

    /** The switch of handle_packet. */
    method DispatchPacket(t: PacketType, body: Bytes, env: Env)
      returns (thrown: bool, response: seq<Value>, login: Option<Bytes>)
      requires Running()
      modifies this, users, friends, messages, executor`posted
      ensures Leaves(Dispatch(old(View()), sid, t, body, env), thrown, response, login)
    {
      hide Server.HandleRegister, Server.HandleLogin, Server.HandleMessage, Server.HandleUpload;
      hide Server.HandleDownload, Server.HandleFriend, Server.HandleFriendList, Server.HandleHistory;
      hide Server.HandleDirectMessage, Server.HandleChatList, Server.HandleTokenVerify;
      thrown, response, login := false, [], None;
      var parsed := Deserialize(t, body);
      if parsed.None? {
        return true, [], None;
      }
      var f := parsed.value;
      match t {
        case Register => thrown, response, login := HandleRegister(f, env);
        case Login => thrown, response, login := HandleLogin(f, env);
        case Message => thrown, response, login := HandleMessage(f, env);
        case Upload => thrown, response, login := HandleUpload(f, env);
        case Download => thrown, response, login := HandleDownload(f, env);
        case FriendRequest => thrown, response, login := HandleFriend(t, f, env);
        case FriendAccept => thrown, response, login := HandleFriend(t, f, env);
        case FriendReject => thrown, response, login := HandleFriend(t, f, env);
        case FriendList => thrown, response, login := HandleFriendList(f, env);
        case DirectMessage => thrown, response, login := HandleDirectMessage(f, env);
        case MessageHistory => thrown, response, login := HandleMessageHistory(f, env);
        case TokenVerify => thrown, response, login := HandleTokenVerify(f, env);
        case ChatList => thrown, response, login := HandleChatList(f, env);
        case Logout => HandleLogout(f);
        case _ =>
      }
    }

    /** handle_packet: the switch, then on success of an authentication the delivery and the registration,
        then the response if there is one. */
    method HandlePacket(t: PacketType, body: Bytes, env: Env) returns (thrown: bool)
      requires Running()
      modifies this, users, friends, messages, manager, executor`posted, executor`sessions
      ensures Running()
      ensures thrown <==> Server.HandlePacket(old(View()), sid, t, body, env).None?
      ensures !thrown ==> Server.HandlePacket(old(View()), sid, t, body, env) == Some(View()) && View() == Remaining()
      ensures thrown ==> BrokenState(old(View()), sid, t, body, env) == View()
    {
      hide Dispatch, Authenticate, DeliveryBroken, EncodeAll, Server.HandlePacket;
      PacketSteps(View(), sid, t, body, env);
      var failed, response, login := DispatchPacket(t, body, env);
      if failed {
        return true;
      }
      if login.Some? {
        var undeliverable := FinishAuthentication(login.value);
        if undeliverable {
          return true;
        }
      }
      ghost var before := View();
      Respond(t, response);
      assert View() == before.(posted := executor.posted);
      ghost var after := View();
      executor.Suspend(sid, Session(currentLogin, currentToken));
      assert View().live == after.live && View().live == executor.sessions;
      return false;
    }

    /** A response without bytes is not sent. */
    method Respond(t: PacketType, response: seq<Value>)
      modifies executor`posted
      ensures executor.posted
           == old(executor.posted) + if EncodeAll(response) == [] then [] else [Posted(sid, Reply(t, response))]
    {
      var buffer := new S.Buffer();
      buffer.SerializeTuple(response);
      if buffer.body != [] {
        executor.SendPacket(sid, Reply(t, response));
      }
    }

    /** The state as everybody but the running session sees it. */
    ghost function Remaining(): World
      reads users, friends, messages, manager, executor
    {
      World(users.Contents(), friends.friendships, messages.Contents(), manager.onlineUsers,
            executor.sessions, executor.nextSid, executor.posted)
    }

    /** ~ClientSession */
    method Destruct()
      requires Running()
      modifies manager, executor`sessions
      ensures Remaining() == Destroy(old(View()), sid)
    {
      if currentLogin != [] {
        manager.RemoveUser(currentLogin);
      }
      executor.sessions := executor.sessions - {sid};
    }
  }
}
