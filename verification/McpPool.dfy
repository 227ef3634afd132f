/** Reference counting of tool-server connections that several client managers share. */
module McpPool {
  datatype Entry = Entry(conn: nat, refcount: int)

  /** Connections are numbered as they are opened; `closed` lists them as they are closed. */
  datatype Pool = Pool(entries: map<string, Entry>, nextConn: nat, closed: seq<nat>)

  /** A server to connect to: its pool key, whether it is pooled, and how the attempt turns out. */
  datatype Server = Server(name: string, key: string, pooled: bool, comesUp: bool, listsTools: bool)

  datatype Manager = Manager(
    connected: bool, servers: set<string>, releaseKeys: seq<string>, keyByServer: map<string, string>)

  const NEW_MANAGER: Manager := Manager(false, {}, [], map[])

  // ---- The pool

  function Acquire(p: Pool, s: Server): (Pool, bool) {
    if s.key in p.entries then
      (p.(entries := p.entries[s.key := p.entries[s.key].(refcount := p.entries[s.key].refcount + 1)]), true)
    else if !s.comesUp then (p, false)
    else if !s.listsTools then (p.(nextConn := p.nextConn + 1, closed := p.closed + [p.nextConn]), false)
    else (p.(entries := p.entries[s.key := Entry(p.nextConn, 1)], nextConn := p.nextConn + 1), true)
  }

  function Release(p: Pool, key: string): Pool {
    if key !in p.entries then p
    else
      var e := p.entries[key];
      if e.refcount - 1 <= 0 then p.(entries := p.entries - {key}, closed := p.closed + [e.conn])
      else p.(entries := p.entries[key := e.(refcount := e.refcount - 1)])
  }

  function ReleaseAll(p: Pool, keys: seq<string>): Pool
    decreases |keys|
  {
    if keys == [] then p else ReleaseAll(Release(p, keys[0]), keys[1..])
  }

  // ---- A manager's operations on the pool

  datatype Both = Both(pool: Pool, manager: Manager)

  function ConnectOne(b: Both, s: Server): Both {
    if s.pooled then
      var (p, ok) := Acquire(b.pool, s);
      if !ok then Both(p, b.manager)
      else Both(p, b.manager.(servers := b.manager.servers + {s.name},
                              keyByServer := b.manager.keyByServer[s.name := s.key],
                              releaseKeys := b.manager.releaseKeys + [s.key]))
    else if s.comesUp && s.listsTools then b.(manager := b.manager.(servers := b.manager.servers + {s.name}))
    else if s.comesUp then b.(manager := b.manager.(servers := b.manager.servers - {s.name}))
    else b
  }

  function ConnectEach(b: Both, servers: seq<Server>): Both
    decreases |servers|
  {
    if servers == [] then b else ConnectEach(ConnectOne(b, servers[0]), servers[1..])
  }

  /**
   Connecting to all servers, of which an exception or a cancellation lets it reach the first
   `reached`; only a manager that has gone through all of them counts as connected.
   */
  function Connect(b: Both, servers: seq<Server>, reached: nat): Both {
    if b.manager.connected then b
    else if reached < |servers| then ConnectEach(b, servers[..reached])
    else
      var c := ConnectEach(b, servers);
      c.(manager := c.manager.(connected := true))
  }

  function ConnectServer(b: Both, s: Server): Both {
    if s.name in b.manager.servers then b
    else
      var c := ConnectOne(b, s);
      c.(manager := c.manager.(connected := true))
  }

  /** A list without the first occurrence of `key`. */
  function Without(keys: seq<string>, key: string): seq<string> {
    if keys == [] then []
    else if keys[0] == key then keys[1..]
    else [keys[0]] + Without(keys[1..], key)
  }

  function DisconnectServer(b: Both, name: string): Both {
    var m := b.manager.(servers := b.manager.servers - {name}, keyByServer := b.manager.keyByServer - {name});
    if name !in b.manager.keyByServer || b.manager.keyByServer[name] == "" then Both(b.pool, m)
    else
      var key := b.manager.keyByServer[name];
      Both(Release(b.pool, key), m.(releaseKeys := Without(m.releaseKeys, key)))
  }

  function Close(b: Both): Both {
    if !b.manager.connected then b
    else Both(ReleaseAll(b.pool, b.manager.releaseKeys), NEW_MANAGER)
  }

  // ---- What is counted

  function Count(keys: seq<string>, key: string): nat {
    if keys == [] then 0 else (if keys[0] == key then 1 else 0) + Count(keys[1..], key)
  }

  function Refs(p: Pool, key: string): int {
    if key in p.entries then p.entries[key].refcount else 0
  }

  /** Every connection ever opened is either live, under one key, or closed, once. */
  ghost predicate PoolProper(p: Pool) {
    && (forall k :: k in p.entries ==>
          && p.entries[k].refcount >= 1 && p.entries[k].conn < p.nextConn && p.entries[k].conn !in p.closed)
    && (forall j, k :: j in p.entries && k in p.entries && j != k ==> p.entries[j].conn != p.entries[k].conn)
    && (forall i, j :: 0 <= i < j < |p.closed| ==> p.closed[i] != p.closed[j])
    && (forall c :: c in p.closed ==> c < p.nextConn)
    && (forall c: nat :: c < p.nextConn ==> Accounted(p, c))
  }

  /** The connection is closed or live. */
  ghost predicate Accounted(p: Pool, c: nat) {
    c in p.closed || exists k :: k in p.entries && p.entries[k].conn == c
  }

  /** The names a manager has mapped to a key. */
  function NamesFor(m: Manager, key: string): set<string> {
    set n | n in m.keyByServer && m.keyByServer[n] == key
  }

  /** A manager holds a key at least once per name mapped to it. */
  ghost predicate ManagerProper(m: Manager) {
    && (forall key :: |NamesFor(m, key)| <= Count(m.releaseKeys, key))
    && (forall key :: key in m.releaseKeys ==> key != "")
  }

  /** A manager that is not connected holds nothing. */
  predicate Idle(m: Manager) {
    !m.connected ==> m.releaseKeys == [] && m.keyByServer == map[]
  }

  /** The pool's count of a key is what the others hold of it and what this manager holds. */
  ghost predicate Balanced(b: Both, others: string -> nat) {
    && PoolProper(b.pool)
    && forall key :: Refs(b.pool, key) == others(key) + Count(b.manager.releaseKeys, key)
  }

  lemma {:induction false} CountConcat(a: seq<string>, b: seq<string>, key: string)
    ensures Count(a + b, key) == Count(a, key) + Count(b, key)
  {
    if a == [] {
      assert a + b == b;
    } else {
      assert (a + b)[1..] == a[1..] + b;
      CountConcat(a[1..], b, key);
    }
  }

  lemma {:induction false} CountPositive(keys: seq<string>, key: string)
    ensures Count(keys, key) > 0 <==> key in keys
  {
    if keys != [] {
      CountPositive(keys[1..], key);
    }
  }

  lemma {:induction false} CountWithout(keys: seq<string>, gone: string, key: string)
    ensures Count(Without(keys, gone), key)
         == if key == gone && Count(keys, gone) > 0 then Count(keys, key) - 1 else Count(keys, key)
    ensures forall k :: k in Without(keys, gone) ==> k in keys
  {
    if keys != [] && keys[0] != gone {
      CountWithout(keys[1..], gone, key);
      CountConcat([keys[0]], Without(keys[1..], gone), key);
    }
  }

  lemma EntryCounted(p: Pool, key: string, n: int)
    requires PoolProper(p) && key in p.entries && n >= 1
    ensures PoolProper(p.(entries := p.entries[key := p.entries[key].(refcount := n)]))
  {
    var p' := p.(entries := p.entries[key := p.entries[key].(refcount := n)]);
    forall c: nat | c < p'.nextConn ensures Accounted(p', c) {
      assert Accounted(p, c);
      if k :| k in p.entries && p.entries[k].conn == c {
        assert p'.entries[k].conn == c;
      }
    }
  }

  lemma EntryOpened(p: Pool, key: string)
    requires PoolProper(p) && key !in p.entries
    ensures PoolProper(p.(entries := p.entries[key := Entry(p.nextConn, 1)], nextConn := p.nextConn + 1))
  {
    var p' := p.(entries := p.entries[key := Entry(p.nextConn, 1)], nextConn := p.nextConn + 1);
    forall c: nat | c < p'.nextConn ensures Accounted(p', c) {
      if c == p.nextConn {
        assert p'.entries[key].conn == c;
      } else {
        assert Accounted(p, c);
        if k :| k in p.entries && p.entries[k].conn == c {
          assert p'.entries[k].conn == c;
        }
      }
    }
  }

  lemma ClosedOnce(closed: seq<nat>, c: nat)
    requires c !in closed && forall i, j :: 0 <= i < j < |closed| ==> closed[i] != closed[j]
    ensures forall i, j :: 0 <= i < j < |closed + [c]| ==> (closed + [c])[i] != (closed + [c])[j]
    ensures forall x :: x in closed + [c] <==> x in closed || x == c
  {
    assert forall i :: 0 <= i < |closed| ==> closed[i] in closed;
  }

  /** A connection that could not list its tools is closed again at once. */
  lemma AttemptClosed(p: Pool)
    requires PoolProper(p)
    ensures PoolProper(p.(nextConn := p.nextConn + 1, closed := p.closed + [p.nextConn]))
  {
    var p' := p.(nextConn := p.nextConn + 1, closed := p.closed + [p.nextConn]);
    ClosedOnce(p.closed, p.nextConn);
    forall c: nat | c < p'.nextConn ensures Accounted(p', c) {
      if c < p.nextConn {
        assert Accounted(p, c);
      }
    }
  }

  lemma EntryClosed(p: Pool, key: string)
    requires PoolProper(p) && key in p.entries
    ensures PoolProper(p.(entries := p.entries - {key}, closed := p.closed + [p.entries[key].conn]))
  {
    var conn := p.entries[key].conn;
    var p' := p.(entries := p.entries - {key}, closed := p.closed + [conn]);
    ClosedOnce(p.closed, conn);
    forall c: nat | c < p'.nextConn ensures Accounted(p', c) {
      assert Accounted(p, c);
      if c !in p'.closed {
        var k :| k in p.entries && p.entries[k].conn == c;
        assert k in p'.entries && p'.entries[k].conn == c;
      }
    }
  }

  lemma AcquireProper(p: Pool, s: Server)
    requires PoolProper(p)
    ensures PoolProper(Acquire(p, s).0)
    ensures forall key ::
              Refs(Acquire(p, s).0, key) == Refs(p, key) + (if Acquire(p, s).1 && key == s.key then 1 else 0)
  {
    if s.key in p.entries {
      EntryCounted(p, s.key, p.entries[s.key].refcount + 1);
    } else if s.comesUp && s.listsTools {
      EntryOpened(p, s.key);
    } else if s.comesUp {
      AttemptClosed(p);
    }
  }

  lemma ReleaseProper(p: Pool, key: string)
    requires PoolProper(p)
    ensures PoolProper(Release(p, key))
    ensures forall k :: Refs(Release(p, key), k) == if k == key && key in p.entries then Refs(p, k) - 1 else Refs(p, k)
  {
    if key in p.entries {
      if p.entries[key].refcount == 1 {
        EntryClosed(p, key);
      } else {
        EntryCounted(p, key, p.entries[key].refcount - 1);
      }
    }
  }

  // ---- What each step comes to

  /** Only the entry of the key differs. */
  ghost predicate OtherEntriesStay(p: Pool, p': Pool, key: string) {
    && p'.entries.Keys - {key} == p.entries.Keys - {key}
    && forall k :: k in p.entries && k != key ==> k in p'.entries && p'.entries[k] == p.entries[k]
  }

  /**
   Acquiring succeeds for a live key, whose count goes up by one, and for a server that comes up and
   lists its tools, which gets an entry of its own; a connection opened in vain is closed.
   */
  ghost predicate Acquired(p: Pool, s: Server, p': Pool, ok: bool) {
    && (ok <==> s.key in p.entries || (s.comesUp && s.listsTools))
    && OtherEntriesStay(p, p', s.key)
    && (s.key in p'.entries <==> ok)
    && (ok ==> p'.closed == p.closed)
    && (ok && s.key in p.entries ==>
          && p'.entries[s.key] == Entry(p.entries[s.key].conn, p.entries[s.key].refcount + 1)
          && p'.nextConn == p.nextConn)
    && (ok && s.key !in p.entries ==> p'.entries[s.key] == Entry(p.nextConn, 1) && p'.nextConn == p.nextConn + 1)
    && (!ok && s.comesUp ==> p'.nextConn == p.nextConn + 1 && p'.closed == p.closed + [p.nextConn])
    && (!ok && !s.comesUp ==> p'.nextConn == p.nextConn && p'.closed == p.closed)
  }

  lemma AcquireOutcome(p: Pool, s: Server)
    ensures Acquired(p, s, Acquire(p, s).0, Acquire(p, s).1)
  {
  }

  /** Releasing takes one off the count of a live key; the last reference closes its connection. */
  ghost predicate Released(p: Pool, key: string, p': Pool) {
    && OtherEntriesStay(p, p', key) && p'.nextConn == p.nextConn
    && (key !in p.entries ==> key !in p'.entries && p'.closed == p.closed)
    && (key in p.entries && p.entries[key].refcount <= 1 ==>
          key !in p'.entries && p'.closed == p.closed + [p.entries[key].conn])
    && (key in p.entries && p.entries[key].refcount > 1 ==>
          && key in p'.entries && p'.entries[key] == Entry(p.entries[key].conn, p.entries[key].refcount - 1)
          && p'.closed == p.closed)
  }

  lemma ReleaseOutcome(p: Pool, key: string)
    ensures Released(p, key, Release(p, key))
  {
  }

  /** One server: a pooled one is acquired and, if that works, held under its name; another one is only listed. */
  ghost predicate ConnectedOne(b: Both, s: Server, b': Both) {
    var m, m' := b.manager, b'.manager;
    && m'.connected == m.connected
    && if s.pooled then exists ok ::
         && Acquired(b.pool, s, b'.pool, ok)
         && m'.servers == m.servers + (if ok then {s.name} else {})
         && m'.releaseKeys == m.releaseKeys + (if ok then [s.key] else [])
         && m'.keyByServer == if ok then m.keyByServer[s.name := s.key] else m.keyByServer
       else
         && b'.pool == b.pool && m'.releaseKeys == m.releaseKeys && m'.keyByServer == m.keyByServer
         && m'.servers == if !s.comesUp then m.servers
                          else if s.listsTools then m.servers + {s.name} else m.servers - {s.name}
  }

  lemma ConnectOneOutcome(b: Both, s: Server)
    ensures ConnectedOne(b, s, ConnectOne(b, s))
  {
    hide Acquire, Acquired;
    if s.pooled {
      AcquireOutcome(b.pool, s);
      assert Acquired(b.pool, s, ConnectOne(b, s).pool, Acquire(b.pool, s).1);
    }
  }

  /** The states between the servers, connected one after the other. */
  ghost predicate ConnectedEach(states: seq<Both>, servers: seq<Server>) {
    && |states| == |servers| + 1
    && forall i :: 0 <= i < |servers| ==> ConnectedOne(states[i], servers[i], states[i + 1])
  }

  lemma {:induction false} ConnectEachOutcome(b: Both, servers: seq<Server>) returns (states: seq<Both>)
    ensures ConnectedEach(states, servers) && states[0] == b && states[|servers|] == ConnectEach(b, servers)
    decreases |servers|
  {
    hide ConnectOne, ConnectedOne;
    states := [b];
    if servers != [] {
      ConnectOneOutcome(b, servers[0]);
      var more := ConnectEachOutcome(ConnectOne(b, servers[0]), servers[1..]);
      states := [b] + more;
      forall i | 0 <= i < |servers| ensures ConnectedOne(states[i], servers[i], states[i + 1]) {
        assert i > 0 ==> servers[i] == servers[1..][i - 1];
      }
    }
  }

  /**
   Connecting goes through the servers reached, in order; only a manager that reached them all counts as
   connected, and one that is connected already does nothing.
   */
  ghost predicate Connected(b: Both, servers: seq<Server>, reached: nat, b': Both) {
    if b.manager.connected then b' == b
    else
      var done := if reached < |servers| then servers[..reached] else servers;
      exists states: seq<Both> ::
        && ConnectedEach(states, done) && states[0] == b
        && b'.pool == states[|done|].pool
        && b'.manager == states[|done|].manager.(connected := |servers| <= reached)
  }

  lemma {:induction false} ConnectEachFlag(b: Both, servers: seq<Server>)
    ensures ConnectEach(b, servers).manager.connected == b.manager.connected
    decreases |servers|
  {
    if servers != [] {
      ConnectEachFlag(ConnectOne(b, servers[0]), servers[1..]);
    }
  }

  lemma ConnectOutcome(b: Both, servers: seq<Server>, reached: nat)
    ensures Connected(b, servers, reached, Connect(b, servers, reached))
  {
    hide ConnectEach, ConnectedEach;
    var done := if reached < |servers| then servers[..reached] else servers;
    var states := ConnectEachOutcome(b, done);
    assert |states| == |done| + 1 by { StatesBetween(states, done); }
    ConnectEachFlag(b, done);
  }

  lemma StatesBetween(states: seq<Both>, servers: seq<Server>)
    requires ConnectedEach(states, servers)
    ensures |states| == |servers| + 1
  {
  }

  /** Connecting one more server, unless its name is listed, marks the manager as connected. */
  ghost predicate ConnectedServer(b: Both, s: Server, b': Both) {
    if s.name in b.manager.servers then b' == b
    else b'.manager.connected && ConnectedOne(b, s, b'.(manager := b'.manager.(connected := b.manager.connected)))
  }

  lemma ConnectServerOutcome(b: Both, s: Server)
    ensures ConnectedServer(b, s, ConnectServer(b, s))
  {
    hide ConnectedOne;
    ConnectOneOutcome(b, s);
    assert ConnectOne(b, s).manager.connected == b.manager.connected;
  }

  /** Dropping a server drops its name, and with its key, if it has one, one hold and one reference. */
  ghost predicate Disconnected(b: Both, name: string, b': Both) {
    var m, m' := b.manager, b'.manager;
    && m'.connected == m.connected && m'.servers == m.servers - {name} && m'.keyByServer == m.keyByServer - {name}
    && if name in m.keyByServer && m.keyByServer[name] != "" then
         && Released(b.pool, m.keyByServer[name], b'.pool)
         && multiset(m'.releaseKeys) == multiset(m.releaseKeys) - multiset{m.keyByServer[name]}
       else b'.pool == b.pool && m'.releaseKeys == m.releaseKeys
  }

  lemma DisconnectOutcome(b: Both, name: string)
    ensures Disconnected(b, name, DisconnectServer(b, name))
  {
    hide Release, Released, Without;
    if name in b.manager.keyByServer {
      ReleaseOutcome(b.pool, b.manager.keyByServer[name]);
      WithoutOne(b.manager.releaseKeys, b.manager.keyByServer[name]);
    }
  }

  lemma {:induction false} WithoutOne(keys: seq<string>, key: string)
    ensures multiset(Without(keys, key)) == multiset(keys) - multiset{key}
  {
    if keys != [] {
      assert keys == [keys[0]] + keys[1..];
      if keys[0] != key {
        WithoutOne(keys[1..], key);
      }
    }
  }

  /** The states of the pool while keys are released one after the other. */
  ghost predicate ReleasedEach(pools: seq<Pool>, keys: seq<string>) {
    && |pools| == |keys| + 1
    && forall i :: 0 <= i < |keys| ==> Released(pools[i], keys[i], pools[i + 1])
  }

  lemma {:induction false} ReleaseAllOutcome(p: Pool, keys: seq<string>) returns (pools: seq<Pool>)
    ensures ReleasedEach(pools, keys) && pools[0] == p && pools[|keys|] == ReleaseAll(p, keys)
    decreases |keys|
  {
    hide Release, Released;
    pools := [p];
    if keys != [] {
      ReleaseOutcome(p, keys[0]);
      var more := ReleaseAllOutcome(Release(p, keys[0]), keys[1..]);
      pools := [p] + more;
      forall i | 0 <= i < |keys| ensures Released(pools[i], keys[i], pools[i + 1]) {
        assert i > 0 ==> keys[i] == keys[1..][i - 1];
      }
    }
  }

  /** Closing a connected manager releases each key it holds and leaves it as new. */
  ghost predicate ClosedManager(b: Both, b': Both) {
    if !b.manager.connected then b' == b
    else
      && b'.manager == Manager(false, {}, [], map[])
      && exists pools ::
           ReleasedEach(pools, b.manager.releaseKeys) && pools[0] == b.pool && pools[|pools| - 1] == b'.pool
  }

  lemma CloseOutcome(b: Both)
    ensures ClosedManager(b, Close(b))
  {
    hide Released;
    var pools := ReleaseAllOutcome(b.pool, b.manager.releaseKeys);
  }

  // ---- Every operation keeps the count

  /** Mapping one more name to a key, with one more hold of it. */
  lemma HoldOneMore(m: Manager, name: string, key: string)
    requires ManagerProper(m) && key != ""
    ensures ManagerProper(Manager(m.connected, m.servers + {name}, m.releaseKeys + [key], m.keyByServer[name := key]))
  {
    var m' := Manager(m.connected, m.servers + {name}, m.releaseKeys + [key], m.keyByServer[name := key]);
    forall k ensures |NamesFor(m', k)| <= Count(m'.releaseKeys, k) {
      CountConcat(m.releaseKeys, [key], k);
      var before := NamesFor(m, k);
      assert |before| <= Count(m.releaseKeys, k);
      if k == key {
        assert NamesFor(m', k) == before + {name};
      } else {
        assert NamesFor(m', k) == before - {name};
      }
    }
  }

  /** Dropping a name, and with it one hold of its key. */
  lemma HoldOneLess(m: Manager, name: string)
    requires ManagerProper(m) && name in m.keyByServer
    ensures var key := m.keyByServer[name];
            && Count(m.releaseKeys, key) > 0
            && ManagerProper(m.(servers := m.servers - {name}, keyByServer := m.keyByServer - {name},
                                releaseKeys := Without(m.releaseKeys, key)))
  {
    var key := m.keyByServer[name];
    var m' := m.(servers := m.servers - {name}, keyByServer := m.keyByServer - {name},
                 releaseKeys := Without(m.releaseKeys, key));
    assert name in NamesFor(m, key);
    assert NamesFor(m, key) == (NamesFor(m, key) - {name}) + {name};
    forall k ensures |NamesFor(m', k)| <= Count(m'.releaseKeys, k) {
      CountWithout(m.releaseKeys, key, k);
      assert NamesFor(m', k) == NamesFor(m, k) - {name};
      if k != key {
        assert NamesFor(m', k) == NamesFor(m, k);
      }
    }
    CountWithout(m.releaseKeys, key, key);
  }

  lemma AcquireKeeps(b: Both, s: Server, others: string -> nat)
    requires Balanced(b, others) && s.key != "" && s.pooled && Acquire(b.pool, s).1
    ensures Balanced(ConnectOne(b, s), others)
  {
    AcquireProper(b.pool, s);
    forall key ensures Refs(ConnectOne(b, s).pool, key) == others(key) + Count(b.manager.releaseKeys + [s.key], key) {
      CountConcat(b.manager.releaseKeys, [s.key], key);
    }
  }

  lemma ConnectOneKeeps(b: Both, s: Server, others: string -> nat)
    requires Balanced(b, others) && ManagerProper(b.manager) && s.key != ""
    ensures Balanced(ConnectOne(b, s), others) && ManagerProper(ConnectOne(b, s).manager)
    ensures ConnectOne(b, s).manager.connected == b.manager.connected
  {
    if s.pooled && Acquire(b.pool, s).1 {
      AcquireKeeps(b, s, others);
      HoldOneMore(b.manager, s.name, s.key);
    } else {
      if s.pooled {
        AcquireProper(b.pool, s);
      }
      SameHolds(b.manager, ConnectOne(b, s).manager);
    }
  }

  lemma SameHolds(m: Manager, m': Manager)
    requires ManagerProper(m) && m'.releaseKeys == m.releaseKeys && m'.keyByServer == m.keyByServer
    ensures ManagerProper(m')
  {
    forall key ensures NamesFor(m', key) == NamesFor(m, key) {}
  }

  lemma {:induction false} ConnectEachKeeps(b: Both, servers: seq<Server>, others: string -> nat)
    requires Balanced(b, others) && ManagerProper(b.manager) && forall s :: s in servers ==> s.key != ""
    ensures Balanced(ConnectEach(b, servers), others) && ManagerProper(ConnectEach(b, servers).manager)
    decreases |servers|
  {
    if servers != [] {
      assert servers[0] in servers && forall s :: s in servers[1..] ==> s in servers;
      ConnectOneKeeps(b, servers[0], others);
      ConnectEachKeeps(ConnectOne(b, servers[0]), servers[1..], others);
    }
  }

  lemma MarkConnected(b: Both, others: string -> nat)
    requires Balanced(b, others) && ManagerProper(b.manager)
    ensures var marked := b.(manager := b.manager.(connected := true));
            Balanced(marked, others) && ManagerProper(marked.manager)
  {
    SameHolds(b.manager, b.manager.(connected := true));
  }

  lemma ConnectKeeps(b: Both, servers: seq<Server>, reached: nat, others: string -> nat)
    requires Balanced(b, others) && ManagerProper(b.manager) && forall s :: s in servers ==> s.key != ""
    ensures Balanced(Connect(b, servers, reached), others) && ManagerProper(Connect(b, servers, reached).manager)
  {
    if b.manager.connected {
    } else if reached < |servers| {
      assert forall s :: s in servers[..reached] ==> s in servers;
      ConnectEachKeeps(b, servers[..reached], others);
    } else {
      ConnectEachKeeps(b, servers, others);
      MarkConnected(ConnectEach(b, servers), others);
    }
  }

  lemma ConnectServerKeeps(b: Both, s: Server, others: string -> nat)
    requires Balanced(b, others) && ManagerProper(b.manager) && s.key != ""
    ensures Balanced(ConnectServer(b, s), others) && ManagerProper(ConnectServer(b, s).manager)
  {
    if s.name !in b.manager.servers {
      ConnectOneKeeps(b, s, others);
      MarkConnected(ConnectOne(b, s), others);
    }
  }

  /** Closing gives back all a connected manager holds, and nothing of what an unconnected one does. */
  lemma CloseGivesBack(b: Both, others: string -> nat)
    requires Balanced(b, others) && ManagerProper(b.manager)
    ensures Balanced(Close(b), others) && ManagerProper(Close(b).manager)
    ensures (forall key :: Refs(Close(b).pool, key) == others(key))
       <==> b.manager.connected || b.manager.releaseKeys == []
  {
    if b.manager.connected {
      ReleaseAllProper(b.pool, b.manager.releaseKeys, others);
      assert forall key :: NamesFor(NEW_MANAGER, key) == {};
    } else if b.manager.releaseKeys != [] {
      var key := b.manager.releaseKeys[0];
      assert Refs(b.pool, key) == others(key) + Count(b.manager.releaseKeys, key);
    }
  }

  lemma {:induction false} ReleaseAllProper(p: Pool, keys: seq<string>, others: string -> nat)
    requires PoolProper(p) && forall key :: Refs(p, key) == others(key) + Count(keys, key)
    ensures PoolProper(ReleaseAll(p, keys)) && forall key :: Refs(ReleaseAll(p, keys), key) == others(key)
    decreases |keys|
  {
    if keys != [] {
      assert Refs(p, keys[0]) >= 1;
      ReleaseProper(p, keys[0]);
      ReleaseAllProper(Release(p, keys[0]), keys[1..], others);
    }
  }

  // ---- Many managers

  datatype World = World(pool: Pool, managers: seq<Manager>)

  datatype Op =
    | OpConnect(servers: seq<Server>, reached: nat)
    | OpConnectServer(server: Server)
    | OpDisconnect(name: string)
    | OpClose

  function Apply(b: Both, op: Op): Both {
    match op
    case OpConnect(servers, reached) => Connect(b, servers, reached)
    case OpConnectServer(s) => ConnectServer(b, s)
    case OpDisconnect(name) => DisconnectServer(b, name)
    case OpClose => Close(b)
  }

  /** Pool keys are digests and so never empty. */
  predicate KeysGiven(op: Op) {
    match op
    case OpConnect(servers, _) => forall s :: s in servers ==> s.key != ""
    case OpConnectServer(s) => s.key != ""
    case _ => true
  }

  lemma ApplyKeeps(b: Both, op: Op, others: string -> nat)
    requires Balanced(b, others) && ManagerProper(b.manager) && KeysGiven(op)
    ensures Balanced(Apply(b, op), others) && ManagerProper(Apply(b, op).manager)
  {
    match op {
      case OpConnect(servers, reached) => ConnectKeeps(b, servers, reached, others);
      case OpConnectServer(s) => ConnectServerKeeps(b, s, others);
      case OpDisconnect(name) => DisconnectKeeps(b, name, others);
      case OpClose => CloseGivesBack(b, others);
    }
  }

  lemma DisconnectKeeps(b: Both, name: string, others: string -> nat)
    requires Balanced(b, others) && ManagerProper(b.manager)
    ensures Balanced(DisconnectServer(b, name), others) && ManagerProper(DisconnectServer(b, name).manager)
  {
    if name in b.manager.keyByServer {
      var key, b' := b.manager.keyByServer[name], DisconnectServer(b, name);
      HoldOneLess(b.manager, name);
      CountPositive(b.manager.releaseKeys, key);
      assert Refs(b.pool, key) >= 1;
      ReleaseProper(b.pool, key);
      forall k ensures Refs(b'.pool, k) == others(k) + Count(b'.manager.releaseKeys, k) {
        CountWithout(b.manager.releaseKeys, key, k);
      }
    } else {
      assert b.manager.keyByServer - {name} == b.manager.keyByServer;
      SameHolds(b.manager, DisconnectServer(b, name).manager);
    }
  }

  function Held(ms: seq<Manager>, key: string): nat {
    if ms == [] then 0 else Count(ms[0].releaseKeys, key) + Held(ms[1..], key)
  }

  lemma {:induction false} HeldSplit(ms: seq<Manager>, i: nat, m: Manager, key: string)
    requires i < |ms|
    ensures Held(ms, key) >= Count(ms[i].releaseKeys, key)
    ensures Held(ms[i := m], key) == Held(ms, key) - Count(ms[i].releaseKeys, key) + Count(m.releaseKeys, key)
  {
    if i > 0 {
      HeldSplit(ms[1..], i - 1, m, key);
      assert ms[i := m][1..] == ms[1..][i - 1 := m];
    } else {
      assert ms[i := m][1..] == ms[1..];
    }
  }

  datatype Event = Event(manager: nat, op: Op)

  function Step(w: World, e: Event): World {
    if e.manager >= |w.managers| then w
    else
      var b := Apply(Both(w.pool, w.managers[e.manager]), e.op);
      World(b.pool, w.managers[e.manager := b.manager])
  }

  function Run(w: World, events: seq<Event>): World
    decreases |events|
  {
    if events == [] then w else Run(Step(w, events[0]), events[1..])
  }

  /**
   The pool counts each key as often as all managers hold it, so an entry exists exactly while the
   key is held; and every connection is live or was closed exactly once.
   */
  ghost predicate Inv(w: World) {
    && PoolProper(w.pool)
    && (forall key :: Refs(w.pool, key) == Held(w.managers, key))
    && (forall key :: key in w.pool.entries <==> Held(w.managers, key) > 0)
    && (forall i :: 0 <= i < |w.managers| ==> ManagerProper(w.managers[i]))
  }

  lemma StepKeeps(w: World, e: Event)
    requires Inv(w) && KeysGiven(e.op)
    ensures Inv(Step(w, e))
  {
    hide Apply, Count, Held, PoolProper, ManagerProper;
    if e.manager < |w.managers| {
      var i, b := e.manager, Both(w.pool, w.managers[e.manager]);
      forall key ensures Held(w.managers, key) >= Count(w.managers[i].releaseKeys, key) {
        HeldSplit(w.managers, i, w.managers[i], key);
      }
      var others := (key: string) =>
        if Held(w.managers, key) >= Count(w.managers[i].releaseKeys, key)
        then (Held(w.managers, key) - Count(w.managers[i].releaseKeys, key)) as nat else 0;
      ApplyKeeps(b, e.op, others);
      var w' := Step(w, e);
      forall key
        ensures Refs(w'.pool, key) == Held(w'.managers, key)
        ensures key in w'.pool.entries <==> Held(w'.managers, key) > 0
      {
        HeldSplit(w.managers, i, Apply(b, e.op).manager, key);
        CountedIfLive(w'.pool, key);
      }
    }
  }

  lemma CountedIfLive(p: Pool, key: string)
    requires PoolProper(p)
    ensures key in p.entries <==> Refs(p, key) > 0
  {
  }

  /** Whatever operations any number of managers run in any order, the counts are right in the end. */
  lemma {:induction false} RunKeeps(w: World, events: seq<Event>)
    requires Inv(w) && forall e :: e in events ==> KeysGiven(e.op)
    ensures Inv(Run(w, events))
    decreases |events|
  {
    if events != [] {
      assert events[0] in events && forall e :: e in events[1..] ==> e in events;
      StepKeeps(w, events[0]);
      RunKeeps(Step(w, events[0]), events[1..]);
    }
  }

  /** `n` managers that have not connected yet. */
  function Unconnected(n: nat): seq<Manager> {
    seq(n, _ => NEW_MANAGER)
  }

  lemma {:induction false} HeldNothing(n: nat, key: string)
    ensures Held(Unconnected(n), key) == 0
  {
    if n > 0 {
      HeldNothing(n - 1, key);
      assert Unconnected(n)[1..] == Unconnected(n - 1);
    }
  }

  lemma StartIsProper(n: nat)
    ensures Inv(World(Pool(map[], 0, []), Unconnected(n)))
  {
    forall key ensures Held(Unconnected(n), key) == 0 { HeldNothing(n, key); }
    assert forall key :: NamesFor(NEW_MANAGER, key) == {};
  }

  lemma {:induction false} HeldByNone(ms: seq<Manager>, key: string)
    requires forall i :: 0 <= i < |ms| ==> ms[i].releaseKeys == []
    ensures Held(ms, key) == 0
  {
    if ms != [] {
      HeldByNone(ms[1..], key);
    }
  }

  ghost predicate AllClosed(p: Pool) {
    forall c: nat :: c < p.nextConn ==> c in p.closed
  }

  /** Every connection ever opened has been closed, once each, exactly when no manager has release keys left. */
  lemma AllClosedInTheEnd(w: World)
    requires Inv(w)
    ensures AllClosed(w.pool) <==> forall i :: 0 <= i < |w.managers| ==> w.managers[i].releaseKeys == []
    ensures AllClosed(w.pool) <==> w.pool.entries == map[]
    ensures forall i, j :: 0 <= i < j < |w.pool.closed| ==> w.pool.closed[i] != w.pool.closed[j]
  {
    if forall i :: 0 <= i < |w.managers| ==> w.managers[i].releaseKeys == [] {
      forall key ensures Held(w.managers, key) == 0 { HeldByNone(w.managers, key); }
      assert w.pool.entries.Keys == {};
      forall c: nat | c < w.pool.nextConn ensures c in w.pool.closed {
        assert Accounted(w.pool, c);
      }
    } else {
      var i :| 0 <= i < |w.managers| && w.managers[i].releaseKeys != [];
      var key := w.managers[i].releaseKeys[0];
      HeldSplit(w.managers, i, w.managers[i], key);
      CountPositive(w.managers[i].releaseKeys, key);
      assert key in w.pool.entries;
      assert w.pool.entries[key].conn !in w.pool.closed;
    }
  }

  // ---- Interrupted connects

  /** A connect that does not get through its servers. */
  predicate Interrupted(op: Op) {
    op.OpConnect? && op.reached < |op.servers|
  }

  /** Without interruptions, no manager that is not connected comes to hold anything. */
  lemma ApplyIdle(b: Both, op: Op)
    requires Idle(b.manager) && !Interrupted(op)
    ensures Idle(Apply(b, op).manager)
  {
  }

  lemma {:induction false} RunIdle(w: World, events: seq<Event>)
    requires forall i :: 0 <= i < |w.managers| ==> Idle(w.managers[i])
    requires forall e :: e in events ==> !Interrupted(e.op)
    ensures forall i :: 0 <= i < |Run(w, events).managers| ==> Idle(Run(w, events).managers[i])
    decreases |events|
  {
    if events != [] {
      var e := events[0];
      assert e in events && forall f :: f in events[1..] ==> f in events;
      if e.manager < |w.managers| {
        ApplyIdle(Both(w.pool, w.managers[e.manager]), e.op);
      }
      RunIdle(Step(w, e), events[1..]);
    }
  }

  /** From the start, and without interrupted connects, everything is closed once all managers are closed. */
  lemma UninterruptedAllClosed(n: nat, events: seq<Event>)
    requires forall e :: e in events ==> KeysGiven(e.op) && !Interrupted(e.op)
    ensures var w := Run(World(Pool(map[], 0, []), Unconnected(n)), events);
            (forall i :: 0 <= i < |w.managers| ==> !w.managers[i].connected) ==> AllClosed(w.pool)
  {
    var start := World(Pool(map[], 0, []), Unconnected(n));
    StartIsProper(n);
    RunKeeps(start, events);
    RunIdle(start, events);
    AllClosedInTheEnd(Run(start, events));
  }

  const SHARED: Server := Server("a", "k", true, true, true)

  /** A connect interrupted after its first server leaves a connection that closing the manager does not close. */
  lemma InterruptedLeaks(second: Server)
    ensures var start := World(Pool(map[], 0, []), [NEW_MANAGER]);
            var w := Run(start, [Event(0, OpConnect([SHARED, second], 1)), Event(0, OpClose)]);
            |w.managers| == 1 && !w.managers[0].connected && !AllClosed(w.pool)
  {
    var start := World(Pool(map[], 0, []), [NEW_MANAGER]);
    var connect, close := Event(0, OpConnect([SHARED, second], 1)), Event(0, OpClose);
    FirstOnly(Both(start.pool, NEW_MANAGER), second);
    var w := Step(Step(start, connect), close);
    assert [connect, close][1..] == [close] && [close][1..] == [];
    assert Run(w, []) == w;
    assert Run(Step(start, connect), [close]) == Run(w, [close][1..]);
    assert Run(start, [connect, close]) == Run(Step(start, connect), [connect, close][1..]);
    assert 0 < w.pool.nextConn && 0 !in w.pool.closed;
  }

  lemma FirstOnly(b: Both, second: Server)
    requires !b.manager.connected
    ensures Connect(b, [SHARED, second], 1) == ConnectOne(b, SHARED)
  {
    assert [SHARED, second][..1] == [SHARED] && [SHARED][1..] == [];
    assert ConnectEach(b, [SHARED]) == ConnectEach(ConnectOne(b, SHARED), []);
  }

  lemma {:induction false} ConnectEachSnoc(b: Both, servers: seq<Server>, s: Server)
    ensures ConnectEach(b, servers + [s]) == ConnectOne(ConnectEach(b, servers), s)
    decreases |servers|
  {
    if servers == [] {
      assert [] + [s] == [s] && [s][1..] == [];
    } else {
      assert (servers + [s])[1..] == servers[1..] + [s];
      ConnectEachSnoc(ConnectOne(b, servers[0]), servers[1..], s);
    }
  }

  // ---- The objects

  class SharedMCPPool {
    var entries: map<string, Entry>
    var nextConn: nat
    var closed: seq<nat>

    function State(): Pool
      reads this
    {
      Pool(entries, nextConn, closed)
    }

    constructor ()
      ensures State() == Pool(map[], 0, [])
    {
      entries, nextConn, closed := map[], 0, [];
    }

    /** One more reference to the server's connection, opening it if it is the first. */
    method AcquireFor(s: Server) returns (ok: bool)
      modifies this
      ensures (State(), ok) == Acquire(old(State()), s)
      ensures Acquired(old(State()), s, State(), ok)
    {
      AcquireOutcome(State(), s);
      if s.key !in entries {
        if !s.comesUp {
          return false;
        }
        var conn := nextConn;
        nextConn := nextConn + 1;
        if !s.listsTools {
          closed := closed + [conn];
          return false;
        }
        entries := entries[s.key := Entry(conn, 0)];
      }
      var e := entries[s.key];
      entries := entries[s.key := e.(refcount := e.refcount + 1)];
      assert entries == Acquire(old(State()), s).0.entries;
      return true;
    }

    /** One reference less; the last one closes the connection. */
    method ReleaseKey(key: string)
      modifies this
      ensures State() == Release(old(State()), key)
      ensures Released(old(State()), key, State())
    {
      ReleaseOutcome(State(), key);
      if key !in entries {
        return;
      }
      var e := entries[key];
      e := e.(refcount := e.refcount - 1);
      if e.refcount <= 0 {
        entries := entries - {key};
        closed := closed + [e.conn];
      } else {
        entries := entries[key := e];
      }
    }
  }

  class MCPClientManager {
    const pool: SharedMCPPool
    var connected: bool
    var servers: set<string>
    var pooledReleaseKeys: seq<string>
    var poolKeyByServer: map<string, string>

    function State(): Manager
      reads this
    {
      Manager(connected, servers, pooledReleaseKeys, poolKeyByServer)
    }

    function Here(): Both
      reads this, pool
    {
      Both(pool.State(), State())
    }

    constructor (pool: SharedMCPPool)
      ensures this.pool == pool && State() == NEW_MANAGER
    {
      this.pool := pool;
      connected, servers, pooledReleaseKeys, poolKeyByServer := false, {}, [], map[];
    }

    method ConnectOneServer(s: Server)
      modifies this, pool
      ensures Here() == ConnectOne(old(Here()), s)
    {
      if s.pooled {
        var ok := pool.AcquireFor(s);
        if !ok {
          return;
        }
        servers := servers + {s.name};
        poolKeyByServer := poolKeyByServer[s.name := s.key];
        pooledReleaseKeys := pooledReleaseKeys + [s.key];
        return;
      }
      if !s.comesUp {
        return;
      }
      servers := servers + {s.name};
      if !s.listsTools {
        servers := servers - {s.name};
        assert servers == old(servers) - {s.name};
      }
    }

    /** Connects to the servers in order; `reached` of them are dealt with before something raises. */
    method ConnectAll(configured: seq<Server>, reached: nat) returns (raised: bool)
      modifies this, pool
      ensures Here() == Connect(old(Here()), configured, reached)
      ensures Connected(old(Here()), configured, reached, Here())
      ensures raised <==> !old(connected) && reached < |configured|
    {
      hide Connected;
      ConnectOutcome(Here(), configured, reached);
      if connected {
        return false;
      }
      for i := 0 to |configured|
        invariant i <= reached
        invariant ConnectEach(old(Here()), configured[..i]) == Here()
      {
        if i == reached {
          return true;
        }
        ConnectEachSnoc(old(Here()), configured[..i], configured[i]);
        assert configured[..i + 1] == configured[..i] + [configured[i]];
        ConnectOneServer(configured[i]);
      }
      assert configured[..|configured|] == configured;
      connected := true;
      raised := false;
    }

    method ConnectNamed(s: Server)
      modifies this, pool
      ensures Here() == ConnectServer(old(Here()), s)
      ensures ConnectedServer(old(Here()), s, Here())
    {
      hide ConnectedServer;
      ConnectServerOutcome(Here(), s);
      if s.name in servers {
        return;
      }
      ConnectOneServer(s);
      connected := true;
    }

    method Disconnect(name: string)
      modifies this, pool
      ensures Here() == DisconnectServer(old(Here()), name)
      ensures Disconnected(old(Here()), name, Here())
    {
      hide Disconnected;
      DisconnectOutcome(Here(), name);
      var mapped := name in poolKeyByServer && poolKeyByServer[name] != "";
      var key := if mapped then poolKeyByServer[name] else "";
      poolKeyByServer := poolKeyByServer - {name};
      if mapped {
        pooledReleaseKeys := Without(pooledReleaseKeys, key);
        pool.ReleaseKey(key);
      }
      servers := servers - {name};
    }

    method CloseAll()
      modifies this, pool
      ensures Here() == Close(old(Here()))
      ensures ClosedManager(old(Here()), Here())
    {
      hide ClosedManager;
      CloseOutcome(Here());
      if !connected {
        return;
      }
      for i := 0 to |pooledReleaseKeys|
        invariant State() == old(State())
        invariant ReleaseAll(pool.State(), pooledReleaseKeys[i..]) == ReleaseAll(old(pool.State()), pooledReleaseKeys)
      {
        assert pooledReleaseKeys[i..][0] == pooledReleaseKeys[i]
            && pooledReleaseKeys[i..][1..] == pooledReleaseKeys[i + 1..];
        pool.ReleaseKey(pooledReleaseKeys[i]);
      }
      connected, servers, pooledReleaseKeys, poolKeyByServer := false, {}, [], map[];
    }
  }
}
