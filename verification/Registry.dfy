/** The online registry: a table from logins to weak references to sessions. */
module Registry {
  import opened Wire
  import opened Protocol

  /** A weak reference is the session's number; it locks while that session is alive. */
  datatype Entry = Entry(login: Bytes, sid: nat)

  type Online = seq<Entry>

  function Get(reg: Online, login: Bytes): Option<nat>
  {
    if reg == [] then None
    else if reg[0].login == login then Some(reg[0].sid) else Get(reg[1..], login)
  }

  /** online_users[login] = session */
  function Put(reg: Online, login: Bytes, sid: nat): Online
  {
    if reg == [] then [Entry(login, sid)]
    else if reg[0].login == login then [Entry(login, sid)] + reg[1..]
    else [reg[0]] + Put(reg[1..], login, sid)
  }

  function Erase(reg: Online, login: Bytes): (r: Online)
    ensures forall e :: e in r <==> e in reg && e.login != login
  {
    if reg == [] then []
    else if reg[0].login == login then Erase(reg[1..], login) else [reg[0]] + Erase(reg[1..], login)
  }

  /** getSession: the entry, if its session can still be locked. */
  function SessionOf(reg: Online, live: set<nat>, login: Bytes): Option<nat>
  {
    var s := Get(reg, login);
    if s.Some? && s.value in live then s else None
  }

  /** broadcast: who gets the packet, in the order the table is walked. */
  function Receivers(reg: Online, live: set<nat>, sender: Bytes): seq<nat>
  {
    if reg == [] then []
    else Reached(reg[0], live, sender) + Receivers(reg[1..], live, sender)
  }

  function Reached(e: Entry, live: set<nat>, sender: Bytes): seq<nat>
  {
    if e.login != sender && e.sid in live then [e.sid] else []
  }

  lemma ReceiversFrom(reg: Online, i: nat, live: set<nat>, sender: Bytes)
    requires i < |reg|
    ensures Receivers(reg[i..], live, sender) == Reached(reg[i], live, sender) + Receivers(reg[i + 1..], live, sender)
  {
    assert reg[i..][0] == reg[i] && reg[i..][1..] == reg[i + 1..];
  }

  predicate Distinct(reg: Online)
  {
    forall i, j :: 0 <= i < j < |reg| ==> reg[i].login != reg[j].login
  }

  lemma {:induction false} GetIs(reg: Online, login: Bytes)
    ensures Get(reg, login).Some? ==> Entry(login, Get(reg, login).value) in reg
    ensures Get(reg, login).None? <==> forall e :: e in reg ==> e.login != login
  {
    if reg != [] {
      GetIs(reg[1..], login);
      assert reg == [reg[0]] + reg[1..];
    }
  }

  /** getSession returns exactly the live session entered under the login. */
  lemma SessionOfIs(reg: Online, live: set<nat>, login: Bytes, sid: nat)
    requires Distinct(reg)
    ensures SessionOf(reg, live, login) == Some(sid) <==> Entry(login, sid) in reg && sid in live
  {
    GetIs(reg, login);
    if Entry(login, sid) in reg {
      var i :| 0 <= i < |reg| && reg[i] == Entry(login, sid);
      var j :| 0 <= j < |reg| && reg[j] == Entry(login, Get(reg, login).value);
      assert !(i < j) && !(j < i);
    }
  }

  lemma {:induction false} GetPut(reg: Online, login: Bytes, sid: nat, other: Bytes)
    ensures Get(Put(reg, login, sid), other) == if other == login then Some(sid) else Get(reg, other)
  {
    if reg != [] && reg[0].login != login {
      GetPut(reg[1..], login, sid, other);
    }
  }

  lemma {:induction false} GetErase(reg: Online, login: Bytes, other: Bytes)
    ensures Get(Erase(reg, login), other) == if other == login then None else Get(reg, other)
  {
    if reg != [] {
      GetErase(reg[1..], login, other);
    }
  }

  lemma {:induction false} PutKeepsDistinct(reg: Online, login: Bytes, sid: nat)
    requires Distinct(reg)
    ensures Distinct(Put(reg, login, sid))
    ensures forall e :: e in Put(reg, login, sid) ==> e in reg || e == Entry(login, sid)
  {
    if reg != [] && reg[0].login != login {
      var rest := reg[1..];
      PutKeepsDistinct(rest, login, sid);
      var r := Put(rest, login, sid);
      forall j | 0 <= j < |r| ensures reg[0].login != r[j].login {
        assert r[j] in r;
        if r[j] in rest {
          var k :| 0 <= k < |rest| && rest[k] == r[j];
          assert reg[k + 1] == r[j];
        }
      }
    }
  }

  /** After an assignment the map has the new entry and the old ones under other logins. */
  lemma {:induction false} PutEntries(reg: Online, login: Bytes, sid: nat, e: Entry)
    requires Distinct(reg)
    ensures e in Put(reg, login, sid) <==> e == Entry(login, sid) || (e in reg && e.login != login)
  {
    if reg != [] {
      var rest := reg[1..];
      assert reg == [reg[0]] + rest;
      if reg[0].login == login {
        forall x | x in rest ensures x.login != login {
          var k :| 0 <= k < |rest| && rest[k] == x;
          assert reg[k + 1] == x;
        }
      } else {
        PutEntries(rest, login, sid, e);
      }
    }
  }

  lemma {:induction false} EraseKeepsDistinct(reg: Online, login: Bytes)
    requires Distinct(reg)
    ensures Distinct(Erase(reg, login))
  {
    if reg != [] {
      var rest := reg[1..];
      EraseKeepsDistinct(rest, login);
      var r := Erase(rest, login);
      forall j | 0 <= j < |r| ensures reg[0].login != r[j].login {
        assert r[j] in rest;
        var k :| 0 <= k < |rest| && rest[k] == r[j];
        assert reg[k + 1] == r[j];
      }
    }
  }

  /** Logins under which a session receives a broadcast of the given sender. */
  function Ears(reg: Online, live: set<nat>, sender: Bytes, sid: nat): set<Bytes>
  {
    set e | e in reg && e.login != sender && e.sid == sid && e.sid in live :: e.login
  }

  lemma EarsSplit(reg: Online, live: set<nat>, sender: Bytes, sid: nat)
    requires Distinct(reg) && reg != []
    ensures var here, there := Ears(reg, live, sender, sid), Ears(reg[1..], live, sender, sid);
            if reg[0].login != sender && reg[0].sid == sid && sid in live
            then here == there + {reg[0].login} && reg[0].login !in there
            else here == there
  {
    var e, rest := reg[0], reg[1..];
    assert reg == [e] + rest;
    forall x | x in rest ensures x.login != e.login {
      var k :| 0 <= k < |rest| && rest[k] == x;
      assert reg[k + 1] == x;
    }
  }

  /** A broadcast reaches a session once for each login, other than the sender's, it is registered under,
      and reaches no dead session. */
  lemma {:induction false} BroadcastOncePerLogin(reg: Online, live: set<nat>, sender: Bytes, sid: nat)
    requires Distinct(reg)
    ensures multiset(Receivers(reg, live, sender))[sid] == |Ears(reg, live, sender, sid)|
    ensures sid in Receivers(reg, live, sender) ==> sid in live
  {
    if reg != [] {
      hide Ears;
      assert Distinct(reg[1..]);
      BroadcastOncePerLogin(reg[1..], live, sender, sid);
      EarsSplit(reg, live, sender, sid);
    }
  }

  class SessionManager {
    var onlineUsers: Online

    constructor ()
      ensures onlineUsers == []
    {
      onlineUsers := [];
    }

    method AddUser(login: Bytes, sid: nat)
      modifies this
      ensures onlineUsers == Put(old(onlineUsers), login, sid)
    {
      onlineUsers := Put(onlineUsers, login, sid);
    }

    method RemoveUser(login: Bytes)
      modifies this
      ensures onlineUsers == Erase(old(onlineUsers), login)
    {
      onlineUsers := Erase(onlineUsers, login);
    }

    method GetSession(live: set<nat>, login: Bytes) returns (session: Option<nat>)
      ensures session == SessionOf(onlineUsers, live, login)
    {
      var it := Get(onlineUsers, login);
      if it.None? {
        return None;
      }
      return if it.value in live then it else None;
    }
  }
}
