/** What every step on the shared tables keeps. */
module RegistryFacts {
  import opened Common
  import opened Store
  import opened StoreFacts
  import opened Registry

  lemma LoadedOrigins(list: seq<Client>, o: string, m: Mapping)
    requires GoodStore(list) && Owns(list, o, m)
    ensures m.id in IssuedBefore(list) && IssuedBefore(list)[m.id] == Origin(o, m.port, m.local)
  {
    var i :| 0 <= i < |list| && list[i].id == o && m in list[i].mappings;
    assert list[i] in list;
    assert m.id in MappingIds(list);
    FindMappingExact(list, m.id, o, m);
  }

  lemma LoadedInv(list: seq<Client>, maxClients: nat)
    requires GoodStore(list)
    ensures RegInv(Loaded(list, maxClients)) && ListenersSound(Loaded(list, maxClients), list)
  {
    forall o, m | Owns(list, o, m)
      ensures m.id in IssuedBefore(list) && IssuedBefore(list)[m.id] == Origin(o, m.port, m.local)
    {
      LoadedOrigins(list, o, m);
    }
  }

  // ----- sessions -----

  /** A new session is the newest of its client, and no other one's standing changes. */
  lemma NewestAfterInsert(all: seq<Session>, session: Session, s: nat)
    requires s <= |all|
    ensures Newest(all + [session], s) <==>
            s == |all| || (Newest(all, s) && all[s].client != session.client)
  {
    var all' := all + [session];
    if s < |all| {
      assert all'[|all|] == session;
      assert forall u | s < u < |all| :: all'[u] == all[u];
    }
  }

  lemma OneMore(m: map<string, nat>, c: string, s: nat)
    ensures |m[c := s]| <= |m| + 1
  {
    assert m[c := s].Keys == m.Keys + {c};
    assert |m[c := s].Keys| == |m[c := s]| && |m.Keys| == |m|;
  }

  lemma InsertRegistered(r: Reg, client: string, s: nat)
    requires Ownership(r) && |r.sessions| < r.maxClients && s <= |r.all|
    ensures Registered(Insert(r, client), s) <==> s == |r.all| || (Registered(r, s) && r.all[s].client != client)
  {
  }

  lemma InsertOwnership(r: Reg, client: string)
    requires Ownership(r)
    ensures Ownership(Insert(r, client))
    ensures forall s: nat | s < |r.all| ::
              Registered(Insert(r, client), s)
              <==> Registered(r, s) && (|r.sessions| >= r.maxClients || r.all[s].client != client)
  {
    var r' := Insert(r, client);
    if |r.sessions| < r.maxClients {
      forall s: nat | s < |r'.all|
        ensures Registered(r', s) <==> Newest(r'.all, s) && !r'.all[s].cleaned
        ensures s < |r.all| ==> (Registered(r', s) <==> Registered(r, s) && r.all[s].client != client)
      {
        NewestAfterInsert(r.all, Session(client, map[], false), s);
        InsertRegistered(r, client, s);
      }
      OneMore(r.sessions, client, |r.all|);
    }
  }

  /** An insert leaves other sessions and all loops as they are. */
  lemma InsertStrays(r: Reg, client: string)
    requires Ownership(r) && TasksGenuine(r) && NoStrays(r)
    ensures NoStrays(Insert(r, client))
  {
    InsertOwnership(r, client);
    var r' := Insert(r, client);
    forall i: nat | i < |r'.tasks|
      ensures r'.tasks[i].finished || r'.tasks[i].aborted || !Registered(r', r'.tasks[i].session) || Filed(r', i)
    {
      assert r.tasks[i].finished || r.tasks[i].aborted || !Registered(r, r.tasks[i].session) || Filed(r, i);
    }
  }

  lemma InsertFiled(r: Reg, client: string)
    requires HandlesFiled(r) && TasksGenuine(r)
    ensures HandlesFiled(Insert(r, client)) && TasksGenuine(Insert(r, client))
  {
  }

  lemma InsertInv(r: Reg, client: string)
    requires RegInv(r)
    ensures RegInv(Insert(r, client))
    ensures ListenersSound(r, r.clients) ==> ListenersSound(Insert(r, client), r.clients)
  {
    InsertOwnership(r, client);
    InsertStrays(r, client);
    InsertFiled(r, client);
    InsertSound(r, client, r.clients);
  }

  lemma InsertSound(r: Reg, client: string, list: seq<Client>)
    requires Ownership(r)
    ensures ListenersSound(r, list) ==> ListenersSound(Insert(r, client), list)
  {
  }

  lemma NewestSame(all: seq<Session>, all': seq<Session>, s: nat)
    requires |all'| == |all| && s < |all| && forall u | 0 <= u < |all| :: all'[u].client == all[u].client
    ensures Newest(all', s) <==> Newest(all, s)
  {
  }

  lemma CleanupRegistered(r: Reg, s: nat, u: nat)
    requires Ownership(r) && s < |r.all| && u < |r.all|
    ensures Registered(Cleanup(r, s), u) <==> Registered(r, u) && u != s
  {
  }

  lemma CleanupOwnership(r: Reg, s: nat)
    requires Ownership(r) && s < |r.all|
    ensures Ownership(Cleanup(r, s))
    ensures forall u: nat | u < |r.all| :: Registered(Cleanup(r, s), u) <==> Registered(r, u) && u != s
  {
    var r' := Cleanup(r, s);
    forall u: nat | u < |r.all|
      ensures Registered(r', u) <==> Newest(r'.all, u) && !r'.all[u].cleaned
      ensures Registered(r', u) <==> Registered(r, u) && u != s
    {
      CleanupRegistered(r, s, u);
      NewestSame(r.all, r'.all, u);
    }
    SmallerMap(r'.sessions, r.sessions);
  }

  lemma CleanupStrays(r: Reg, s: nat)
    requires Ownership(r) && NoStrays(r) && s < |r.all|
    ensures NoStrays(Cleanup(r, s))
  {
    CleanupOwnership(r, s);
    var r' := Cleanup(r, s);
    forall i: nat | i < |r'.tasks|
      ensures r'.tasks[i].finished || r'.tasks[i].aborted || !Registered(r', r'.tasks[i].session) || Filed(r', i)
    {
      assert r.tasks[i].finished || r.tasks[i].aborted || !Registered(r, r.tasks[i].session) || Filed(r, i);
    }
  }

  lemma CleanupFiled(r: Reg, s: nat)
    requires HandlesFiled(r) && TasksGenuine(r) && s < |r.all|
    ensures HandlesFiled(Cleanup(r, s)) && TasksGenuine(Cleanup(r, s))
  {
  }

  lemma CleanupSound(r: Reg, s: nat)
    requires Ownership(r) && ListenersSound(r, r.clients) && s < |r.all|
    ensures ListenersSound(Cleanup(r, s), r.clients)
  {
  }

  lemma CleanupInv(r: Reg, s: nat)
    requires RegInv(r)
    ensures RegInv(Cleanup(r, s))
    ensures ListenersSound(r, r.clients) ==> ListenersSound(Cleanup(r, s), r.clients)
  {
    if s < |r.all| {
      CleanupOwnership(r, s);
      CleanupStrays(r, s);
      CleanupFiled(r, s);
      if ListenersSound(r, r.clients) {
        CleanupSound(r, s);
      }
    }
  }

  lemma SmallerMap(m: map<string, nat>, n: map<string, nat>)
    requires m.Keys <= n.Keys
    ensures |m| <= |n|
  {
    Subset(m.Keys, n.Keys);
    assert |m.Keys| == |m| && |n.Keys| == |n|;
  }

  lemma {:induction false} Subset(a: set<string>, b: set<string>)
    requires a <= b
    ensures |a| <= |b|
  {
    if a == {} {
    } else {
      var x :| x in a;
      Subset(a - {x}, b - {x});
    }
  }

  // ----- listeners -----

  /** A session's listener table replaced and tasks changed in flags only: what stays true. */
  lemma SameSessions(r: Reg, r': Reg)
    requires Ownership(r)
    requires r'.sessions == r.sessions && r'.maxClients == r.maxClients && |r'.all| == |r.all|
    requires forall s | 0 <= s < |r.all| ::
               r'.all[s].client == r.all[s].client && r'.all[s].cleaned == r.all[s].cleaned
    ensures Ownership(r')
    ensures forall s: nat :: Registered(r', s) <==> Registered(r, s)
  {
    forall s: nat | s < |r.all|
      ensures Newest(r'.all, s) <==> Newest(r.all, s)
    {
    }
    forall s: nat
      ensures Registered(r', s) <==> Registered(r, s)
    {
    }
  }

  /** The port was free: what the session had filed for the mapping before is over. */
  lemma ReplacedIsFinished(r: Reg, s: nat, m: Mapping, i: nat)
    requires RegInv(r) && s < |r.all| && PortFree(r.tasks, m.port)
    requires m.id in r.issued && r.issued[m.id].port == m.port
    requires i < |r.tasks| && r.tasks[i].session == s && r.tasks[i].mapping == m.id
    ensures r.tasks[i].finished
  {
    assert r.tasks[i].port == m.port;
  }

  lemma AddListenerStrays(r: Reg, client: string, m: Mapping)
    requires RegInv(r) && client in r.sessions && PortFree(r.tasks, m.port)
    requires m.id in r.issued && r.issued[m.id] == Origin(client, m.port, m.local)
    ensures NoStrays(AddListener(r, client, m, true))
  {
    var r' := AddListener(r, client, m, true);
    var s := r.sessions[client];
    forall i: nat | i < |r'.tasks|
      ensures r'.tasks[i].finished || r'.tasks[i].aborted || !Registered(r', r'.tasks[i].session) || Filed(r', i)
    {
      if i < |r.tasks| {
        assert r.tasks[i].finished || r.tasks[i].aborted || !Registered(r, r.tasks[i].session) || Filed(r, i);
        if r.tasks[i].session == s && r.tasks[i].mapping == m.id {
          ReplacedIsFinished(r, s, m, i);
        }
      }
    }
  }

  lemma AddListenerFiled(r: Reg, client: string, m: Mapping)
    requires HandlesFiled(r) && Ownership(r)
    ensures HandlesFiled(AddListener(r, client, m, true))
  {
  }

  lemma AddListenerGenuine(r: Reg, client: string, m: Mapping)
    requires TasksGenuine(r) && PortsExclusive(r) && Ownership(r) && client in r.sessions
    requires m.id in r.issued && r.issued[m.id] == Origin(client, m.port, m.local)
    ensures TasksGenuine(AddListener(r, client, m, true)) && PortsExclusive(AddListener(r, client, m, true))
  {
  }

  lemma AddListenerSound(r: Reg, client: string, m: Mapping)
    requires Ownership(r) && ListenersSound(r, r.clients) && EnabledMapping(r.clients, client, m.id)
    ensures ListenersSound(AddListener(r, client, m, true), r.clients)
  {
  }

  lemma AddListenerInv(r: Reg, client: string, m: Mapping, bindOk: bool)
    requires RegInv(r)
    requires client in r.sessions ==> m.id in r.issued && r.issued[m.id] == Origin(client, m.port, m.local)
    ensures RegInv(AddListener(r, client, m, bindOk))
    ensures ListenersSound(r, r.clients) && EnabledMapping(r.clients, client, m.id) ==>
              ListenersSound(AddListener(r, client, m, bindOk), r.clients)
  {
    if bindOk && client in r.sessions && PortFree(r.tasks, m.port) {
      SameSessions(r, AddListener(r, client, m, bindOk));
      AddListenerFiled(r, client, m);
      AddListenerGenuine(r, client, m);
      AddListenerStrays(r, client, m);
      if ListenersSound(r, r.clients) && EnabledMapping(r.clients, client, m.id) {
        AddListenerSound(r, client, m);
      }
    }
  }

  lemma {:induction false} AddListenersInv(r: Reg, client: string, ms: seq<Mapping>, binds: set<string>)
    requires RegInv(r)
    requires forall m | m in ms :: m.id in r.issued && r.issued[m.id] == Origin(client, m.port, m.local)
    ensures RegInv(AddListeners(r, client, ms, binds))
    ensures AddListeners(r, client, ms, binds).clients == r.clients
    ensures ListenersSound(r, r.clients) && (forall m | m in ms && m.enabled :: EnabledMapping(r.clients, client, m.id))
            ==> ListenersSound(AddListeners(r, client, ms, binds), r.clients)
    decreases |ms|
  {
    if ms == [] {
    } else {
      var m := ms[0];
      assert m in ms;
      var r' := if m.enabled then AddListener(r, client, m, m.id in binds) else r;
      AddListenerInv(r, client, m, m.id in binds);
      AddListenersInv(r', client, ms[1..], binds);
    }
  }

  lemma StartInv(r: Reg, client: string, binds: set<string>)
    requires RegInv(r)
    ensures RegInv(StartClientListeners(r, client, binds))
    ensures StartClientListeners(r, client, binds).clients == r.clients
    ensures ListenersSound(r, r.clients) ==> ListenersSound(StartClientListeners(r, client, binds), r.clients)
  {
    PositionExact(r.clients, client);
    if Find(r.clients, client).Some? {
      var c := Find(r.clients, client).value;
      var i := Position(r.clients, client);
      assert forall m | m in c.mappings :: Owns(r.clients, client, m);
      AddListenersInv(r, client, c.mappings, binds);
    }
  }

  /** Only one registered session can hold a handle for a mapping: that of the mapping's owner. */
  lemma HolderUnique(r: Reg, c: string, d: string, m: string)
    requires RegInv(r) && c in r.sessions && d in r.sessions
    requires m in r.all[r.sessions[c]].listeners && m in r.all[r.sessions[d]].listeners
    ensures c == d && m in r.issued && r.issued[m].owner == c
  {
    var i, j := r.all[r.sessions[c]].listeners[m], r.all[r.sessions[d]].listeners[m];
    assert r.tasks[i].session == r.sessions[c] && r.tasks[j].session == r.sessions[d];
  }

  /** Handles were taken out, and the loops they belonged to asked to stop; nothing else. */
  predicate Narrows(r: Reg, r': Reg) {
    && r'.clients == r.clients && r'.issued == r.issued && r'.sessions == r.sessions && r'.maxClients == r.maxClients
    && |r'.all| == |r.all| && |r'.tasks| == |r.tasks|
    && (forall s | 0 <= s < |r.all| :: r'.all[s] == r.all[s].(listeners := r'.all[s].listeners))
    && (forall s | 0 <= s < |r.all| :: forall m | m in r'.all[s].listeners ::
          m in r.all[s].listeners && r'.all[s].listeners[m] == r.all[s].listeners[m])
    && (forall i | 0 <= i < |r.tasks| ::
          r'.tasks[i] == r.tasks[i].(aborted := r'.tasks[i].aborted) && (r.tasks[i].aborted ==> r'.tasks[i].aborted))
    && (forall i: nat | i < |r.tasks| && Filed(r, i) && !Filed(r', i) :: r'.tasks[i].aborted)
  }

  lemma NarrowedInv(r: Reg, r': Reg)
    requires RegInv(r) && Narrows(r, r')
    ensures RegInv(r')
  {
    SameSessions(r, r');
    forall i: nat | i < |r'.tasks|
      ensures r'.tasks[i].finished || r'.tasks[i].aborted || !Registered(r', r'.tasks[i].session) || Filed(r', i)
    {
      assert r.tasks[i].finished || r.tasks[i].aborted || !Registered(r, r.tasks[i].session) || Filed(r, i);
    }
  }

  lemma TakeOutNarrows(r: Reg, s: nat, m: string)
    requires HandlesFiled(r) && s < |r.all| && m in r.all[s].listeners
    ensures Narrows(r, TakeOut(r, s, m))
  {
    var r' := TakeOut(r, s, m);
    forall i: nat | i < |r.tasks| && Filed(r, i) && !Filed(r', i)
      ensures r'.tasks[i].aborted
    {
      assert r.tasks[i].session == s && r.tasks[i].mapping == m;
    }
  }

  lemma {:induction false} RemoveListenerNarrows(r: Reg, m: string, order: seq<string>)
    requires HandlesFiled(r)
    ensures Narrows(r, RemoveListener(r, m, order))
    decreases |order|
  {
    if order == [] {
    } else {
      if order[0] in r.sessions && r.sessions[order[0]] < |r.all| && m in r.all[r.sessions[order[0]]].listeners {
        TakeOutNarrows(r, r.sessions[order[0]], m);
      } else {
        RemoveListenerNarrows(r, m, order[1..]);
      }
    }
  }

  lemma RemoveListenerInv(r: Reg, m: string, order: seq<string>)
    requires RegInv(r)
    ensures RegInv(RemoveListener(r, m, order))
    ensures RemoveListener(r, m, order).clients == r.clients
    ensures RemoveListener(r, m, order).sessions == r.sessions
  {
    RemoveListenerNarrows(r, m, order);
    NarrowedInv(r, RemoveListener(r, m, order));
  }

  lemma HolderSession(r: Reg, c: string, d: string, m: string)
    requires RegInv(r) && c in r.sessions && d in r.sessions && c != d && m in r.all[r.sessions[d]].listeners
    ensures r.sessions[c] != r.sessions[d] && m !in r.all[r.sessions[c]].listeners
  {
    if m in r.all[r.sessions[c]].listeners {
      HolderUnique(r, c, d, m);
    }
  }

  lemma TakeOutExact(r: Reg, d: string, m: string)
    requires RegInv(r) && d in r.sessions && m in r.all[r.sessions[d]].listeners
    ensures var r' := TakeOut(r, r.sessions[d], m);
            forall c | c in r.sessions :: r'.all[r.sessions[c]].listeners == r.all[r.sessions[c]].listeners - {m}
  {
    var r' := TakeOut(r, r.sessions[d], m);
    forall c | c in r.sessions
      ensures r'.all[r.sessions[c]].listeners == r.all[r.sessions[c]].listeners - {m}
    {
      if c != d {
        HolderSession(r, c, d, m);
        assert r.all[r.sessions[c]].listeners - {m} == r.all[r.sessions[c]].listeners;
      }
    }
  }

  /** The loop is filed in a registered session. */
  predicate Held(r: Reg, i: nat) {
    i < |r.tasks| && Registered(r, r.tasks[i].session) && Filed(r, i)
  }

  /** The loops held for mapping m are asked to stop, and nothing else happens to any loop. */
  ghost predicate AbortedFor(r: Reg, tasks: seq<Acceptor>, m: string) {
    && |tasks| == |r.tasks|
    && forall i: nat | i < |tasks| ::
         tasks[i] == if Held(r, i) && r.tasks[i].mapping == m then r.tasks[i].(aborted := true) else r.tasks[i]
  }

  lemma TakeOutAborts(r: Reg, d: string, m: string)
    requires RegInv(r) && d in r.sessions && m in r.all[r.sessions[d]].listeners
    ensures AbortedFor(r, TakeOut(r, r.sessions[d], m).tasks, m)
  {
    var k := r.all[r.sessions[d]].listeners[m];
    assert Held(r, k) && r.tasks[k].mapping == m;
    forall i: nat | Held(r, i) && r.tasks[i].mapping == m
      ensures i == k
    {
      HolderUnique(r, r.all[r.tasks[i].session].client, d, m);
    }
  }

  /** The early return is harmless: whatever the order in which sessions are visited, afterwards no
      registered session has a listener for the mapping, every other listener is still there, and
      exactly the loop that was stopped has its abort requested. */
  lemma {:induction false} RemoveListenerExact(r: Reg, m: string, order: seq<string>)
    requires RegInv(r) && forall c | c in r.sessions && m in r.all[r.sessions[c]].listeners :: c in order
    ensures var r' := RemoveListener(r, m, order);
            && |r'.all| == |r.all|
            && (forall c | c in r.sessions ::
                  r'.all[r.sessions[c]].listeners == r.all[r.sessions[c]].listeners - {m})
            && AbortedFor(r, r'.tasks, m)
    decreases |order|
  {
    if order == [] {
      assert forall c | c in r.sessions :: r.all[r.sessions[c]].listeners - {m} == r.all[r.sessions[c]].listeners;
      assert forall i: nat | Held(r, i) :: r.all[r.tasks[i].session].client in r.sessions;
    } else if order[0] in r.sessions && m in r.all[r.sessions[order[0]]].listeners {
      TakeOutExact(r, order[0], m);
      TakeOutAborts(r, order[0], m);
    } else {
      RemoveListenerExact(r, m, order[1..]);
    }
  }

  lemma RemoveClientNarrows(r: Reg, client: string)
    ensures Narrows(r, RemoveClientListeners(r, client))
  {
    var r' := RemoveClientListeners(r, client);
    if client in r.sessions && r.sessions[client] < |r.all| {
      var s := r.sessions[client];
      forall i: nat | i < |r.tasks| && Filed(r, i) && !Filed(r', i)
        ensures r'.tasks[i].aborted
      {
        assert r.tasks[i].session == s;
        assert r.tasks[i].mapping in r.all[s].listeners;
        assert i in r.all[s].listeners.Values;
      }
    }
  }

  lemma RemoveClientInv(r: Reg, client: string)
    requires RegInv(r)
    ensures var r' := RemoveClientListeners(r, client);
            && RegInv(r') && r'.clients == r.clients && r'.sessions == r.sessions && |r'.all| == |r.all|
            && (forall c | c in r.sessions :: r'.all[r.sessions[c]].listeners ==
                  if c == client then map[] else r.all[r.sessions[c]].listeners)
  {
    RemoveClientNarrows(r, client);
    NarrowedInv(r, RemoveClientListeners(r, client));
  }

  lemma FinishStrays(r: Reg, i: nat)
    requires Ownership(r) && NoStrays(r)
    ensures NoStrays(Finish(r, i))
  {
    var r' := Finish(r, i);
    SameSessions(r, r');
    forall k: nat | k < |r'.tasks|
      ensures r'.tasks[k].finished || r'.tasks[k].aborted || !Registered(r', r'.tasks[k].session) || Filed(r', k)
    {
      assert r.tasks[k].finished || r.tasks[k].aborted || !Registered(r, r.tasks[k].session) || Filed(r, k);
    }
  }

  lemma FinishFiled(r: Reg, i: nat)
    requires HandlesFiled(r) && TasksGenuine(r) && PortsExclusive(r)
    ensures HandlesFiled(Finish(r, i)) && TasksGenuine(Finish(r, i)) && PortsExclusive(Finish(r, i))
  {
  }

  lemma FinishInv(r: Reg, i: nat)
    requires RegInv(r)
    ensures RegInv(Finish(r, i))
    ensures ListenersSound(r, r.clients) ==> ListenersSound(Finish(r, i), r.clients)
  {
    SameSessions(r, Finish(r, i));
    FinishStrays(r, i);
    FinishFiled(r, i);
  }

  // ----- handlers -----

  lemma StoredOrigins(r: Reg, op: Op, pepper: string)
    requires GoodStore(r.clients) && OriginsKept(r) && Drawable(r, op, pepper)
    ensures OriginsKept(Stored(r, op, pepper))
  {
    var r' := Stored(r, op, pepper);
    forall o, m | Owns(r'.clients, o, m)
      ensures m.id in r'.issued && r'.issued[m.id] == Origin(o, m.port, m.local)
    {
      ApplyOwns(r.clients, op, pepper, o, m);
      if op.SetMappingEnabled? && m.id == op.id {
        assert Owns(r.clients, o, m.(enabled := true)) || Owns(r.clients, o, m.(enabled := false));
      }
    }
  }

  /** Sessions and loops do not change with the store. */
  lemma SameLoops(r: Reg, r': Reg)
    requires Ownership(r) && HandlesFiled(r) && TasksGenuine(r) && NoStrays(r) && PortsExclusive(r)
    requires r' == r.(clients := r'.clients, issued := r'.issued)
    requires forall m | m in r.issued :: m in r'.issued && r'.issued[m] == r.issued[m]
    ensures Ownership(r') && HandlesFiled(r') && TasksGenuine(r') && NoStrays(r') && PortsExclusive(r')
  {
    SameSessions(r, r');
    forall i: nat | i < |r'.tasks|
      ensures r'.tasks[i].finished || r'.tasks[i].aborted || !Registered(r', r'.tasks[i].session) || Filed(r', i)
    {
      assert r.tasks[i].finished || r.tasks[i].aborted || !Registered(r, r.tasks[i].session) || Filed(r, i);
    }
  }

  lemma StoredInv(r: Reg, op: Op, pepper: string)
    requires RegInv(r) && Drawable(r, op, pepper)
    ensures RegInv(Stored(r, op, pepper))
  {
    ApplyKeepsGood(r.clients, op, pepper);
    StoredOrigins(r, op, pepper);
    SameLoops(r, Stored(r, op, pepper));
  }

  /** After the store's part of a handler, what a new listener is started for is genuine. */
  lemma AddedIsStored(r: Reg, op: Op, pepper: string, m: Mapping)
    requires RegInv(r) && Drawable(r, op, pepper) && op.AddMapping? && Applies(r.clients, op)
    requires m == Mapping(op.newId, op.name, op.port, op.local, true)
    ensures Owns(Stored(r, op, pepper).clients, op.clientId, m)
  {
    ApplyOwns(r.clients, op, pepper, op.clientId, m);
  }

  lemma StartRelistenInv(r1: Reg, id: string, on: bool, binds: set<string>)
    requires RegInv(r1)
    ensures RegInv(if on then StartClientListeners(r1, id, binds) else RemoveClientListeners(r1, id))
  {
    StartInv(r1, id, binds);
    RemoveClientInv(r1, id);
  }

  lemma ToggleRelistenInv(r1: Reg, op: Op, binds: set<string>, order: seq<string>)
    requires RegInv(r1) && op.SetMappingEnabled?
    ensures RegInv(Relisten(r1, op, binds, order))
  {
    if !op.on {
      RemoveListenerInv(r1, op.id, order);
    } else if FindMapping(r1.clients, op.id).Some? {
      var (o, m) := FindMapping(r1.clients, op.id).value;
      FindMappingExact(r1.clients, op.id, o, m);
      AddListenerInv(r1, o, m, op.id in binds);
    }
  }

  lemma RelistenInv(r: Reg, op: Op, pepper: string, binds: set<string>, order: seq<string>)
    requires RegInv(r) && Drawable(r, op, pepper) && Applies(r.clients, op)
    ensures RegInv(Relisten(Stored(r, op, pepper), op, binds, order))
  {
    var r1 := Stored(r, op, pepper);
    StoredInv(r, op, pepper);
    match op {
      case AddClient(_, _, _) =>
      case RegenerateToken(_, _) =>
      case SetClientEnabled(id, on) => StartRelistenInv(r1, id, on, binds);
      case DeleteClient(id) => RemoveClientInv(r1, id);
      case AddMapping(id, name, port, local, newId) =>
        AddListenerInv(r1, id, Mapping(newId, name, port, local, true), newId in binds);
      case SetMappingEnabled(id, on) => ToggleRelistenInv(r1, op, binds, order);
      case DeleteMapping(id) => RemoveListenerInv(r1, id, order);
    }
  }

  lemma AdminInv(r: Reg, op: Op, pepper: string, saved: bool, binds: set<string>, order: seq<string>)
    requires RegInv(r)
    ensures RegInv(Admin(r, op, pepper, saved, binds, order))
  {
    if Drawable(r, op, pepper) {
      StoredInv(r, op, pepper);
      if Applies(r.clients, op) {
        RelistenInv(r, op, pepper, binds, order);
      }
    }
  }

  // ----- registered listeners belong to enabled mappings -----

  /** Whether an operation takes an enabled mapping (or all of a client's) away. */
  predicate TakesAway(op: Op, owner: string, id: string) {
    match op
    case DeleteClient(c) => c == owner
    case DeleteMapping(m) => m == id
    case SetMappingEnabled(m, on) => m == id && !on
    case _ => false
  }

  lemma EnabledAfter(r: Reg, op: Op, pepper: string, owner: string, id: string)
    requires RegInv(r) && Drawable(r, op, pepper) && EnabledMapping(r.clients, owner, id)
    ensures EnabledMapping(Stored(r, op, pepper).clients, owner, id) <==> !TakesAway(op, owner, id)
  {
    var m :| Owns(r.clients, owner, m) && m.id == id && m.enabled;
    var list' := Stored(r, op, pepper).clients;
    ApplyOwns(r.clients, op, pepper, owner, m);
    assert m.(enabled := true) == m;
    if n :| Owns(list', owner, n) && n.id == id && n.enabled {
      ApplyOwns(r.clients, op, pepper, owner, n);
    }
  }

  /** Some registered listener serves what the operation takes away.  A caller can check this
      before the call. */
  predicate Orphans(r: Reg, op: Op) {
    exists c | c in r.sessions :: r.sessions[c] < |r.all|
      && exists m | m in r.all[r.sessions[c]].listeners :: TakesAway(op, c, m)
  }

  /** A store change that is not followed by the listeners' part (because saving it failed) leaves
      the listeners sound exactly when it orphans none of them. */
  lemma UnsavedSoundExactly(r: Reg, op: Op, pepper: string, binds: set<string>, order: seq<string>)
    requires RegInv(r) && ListenersSound(r, r.clients)
    requires Drawable(r, op, pepper) && (op.AddMapping? ==> op.port != 0)
    requires forall c | c in r.sessions :: c in order
    ensures var r' := Admin(r, op, pepper, false, binds, order);
            ListenersSound(r', r'.clients) <==> !Orphans(r, op)
  {
    UnsavedStored(r, op, pepper, binds, order);
    StoredSoundExactly(r, op, pepper);
  }

  lemma UnsavedStored(r: Reg, op: Op, pepper: string, binds: set<string>, order: seq<string>)
    requires Drawable(r, op, pepper) && (op.AddMapping? ==> op.port != 0) && forall c | c in r.sessions :: c in order
    ensures Admin(r, op, pepper, false, binds, order) == Stored(r, op, pepper)
  {
  }

  lemma StoredSoundExactly(r: Reg, op: Op, pepper: string)
    requires RegInv(r) && ListenersSound(r, r.clients) && Drawable(r, op, pepper)
    ensures ListenersSound(Stored(r, op, pepper), Stored(r, op, pepper).clients) <==> !Orphans(r, op)
  {
    StoredExactly(r, op, pepper);
    OrphansUnsound(r, op, Stored(r, op, pepper).clients);
    SameListeners(r, Stored(r, op, pepper), Stored(r, op, pepper).clients);
  }

  lemma SameListeners(r: Reg, r': Reg, list: seq<Client>)
    requires r'.sessions == r.sessions && r'.all == r.all
    ensures ListenersSound(r', list) <==> ListenersSound(r, list)
  {
  }

  lemma StoredExactly(r: Reg, op: Op, pepper: string)
    requires RegInv(r) && ListenersSound(r, r.clients) && Drawable(r, op, pepper)
    ensures forall c, m | c in r.sessions && m in r.all[r.sessions[c]].listeners ::
              EnabledMapping(Stored(r, op, pepper).clients, c, m) <==> !TakesAway(op, c, m)
  {
    forall c, m | c in r.sessions && m in r.all[r.sessions[c]].listeners
      ensures EnabledMapping(Stored(r, op, pepper).clients, c, m) <==> !TakesAway(op, c, m)
    {
      EnabledAfter(r, op, pepper, c, m);
    }
  }

  lemma OrphansUnsound(r: Reg, op: Op, list: seq<Client>)
    requires Ownership(r)
    requires forall c, m | c in r.sessions && m in r.all[r.sessions[c]].listeners ::
               EnabledMapping(list, c, m) <==> !TakesAway(op, c, m)
    ensures ListenersSound(r, list) <==> !Orphans(r, op)
  {
  }

  /** The store part leaves sound every listener that the operation does not take away. */
  lemma StillEnabled(r: Reg, op: Op, pepper: string, c: string, m: string)
    requires RegInv(r) && ListenersSound(r, r.clients) && Drawable(r, op, pepper)
    requires c in r.sessions && m in r.all[r.sessions[c]].listeners && !TakesAway(op, c, m)
    ensures EnabledMapping(Stored(r, op, pepper).clients, c, m)
  {
    EnabledAfter(r, op, pepper, c, m);
  }

  /** What the listeners' part starts from: all registered listeners sound but those the operation
      takes away. */
  ghost predicate SoundBut(r: Reg, op: Op, list: seq<Client>) {
    forall c | c in r.sessions && r.sessions[c] < |r.all| ::
      forall m | m in r.all[r.sessions[c]].listeners && !TakesAway(op, c, m) :: EnabledMapping(list, c, m)
  }

  lemma StoredSoundBut(r: Reg, op: Op, pepper: string)
    requires RegInv(r) && ListenersSound(r, r.clients) && Drawable(r, op, pepper)
    ensures SoundBut(Stored(r, op, pepper), op, Stored(r, op, pepper).clients)
  {
    forall c, m | c in r.sessions && m in r.all[r.sessions[c]].listeners && !TakesAway(op, c, m)
      ensures EnabledMapping(Stored(r, op, pepper).clients, c, m)
    {
      StillEnabled(r, op, pepper, c, m);
    }
  }

  lemma RemovalSound(r1: Reg, op: Op, order: seq<string>)
    requires RegInv(r1) && SoundBut(r1, op, r1.clients) && forall c | c in r1.sessions :: c in order
    requires op.DeleteMapping? || (op.SetMappingEnabled? && !op.on)
    ensures var r2 := RemoveListener(r1, op.id, order); ListenersSound(r2, r2.clients)
  {
    RemoveListenerExact(r1, op.id, order);
    RemoveListenerInv(r1, op.id, order);
  }

  lemma DrainSound(r1: Reg, op: Op, client: string)
    requires RegInv(r1) && SoundBut(r1, op, r1.clients)
    requires op == DeleteClient(client) || op == SetClientEnabled(client, false)
    ensures var r2 := RemoveClientListeners(r1, client); ListenersSound(r2, r2.clients)
  {
    RemoveClientInv(r1, client);
  }

  /** An operation that takes nothing away leaves all listeners sound. */
  lemma StoredSound(r: Reg, op: Op, pepper: string)
    requires RegInv(r) && ListenersSound(r, r.clients) && Drawable(r, op, pepper)
    requires !op.DeleteClient? && !op.DeleteMapping? && (op.SetMappingEnabled? ==> op.on)
    ensures ListenersSound(Stored(r, op, pepper), Stored(r, op, pepper).clients)
  {
    StoredSoundBut(r, op, pepper);
  }

  lemma AddSound(r: Reg, op: Op, pepper: string, binds: set<string>, order: seq<string>)
    requires RegInv(r) && ListenersSound(r, r.clients) && Drawable(r, op, pepper) && Applies(r.clients, op)
    requires op.AddMapping?
    ensures var r2 := Relisten(Stored(r, op, pepper), op, binds, order); ListenersSound(r2, r2.clients)
  {
    var r1 := Stored(r, op, pepper);
    StoredInv(r, op, pepper);
    StoredSound(r, op, pepper);
    var m := Mapping(op.newId, op.name, op.port, op.local, true);
    AddedIsStored(r, op, pepper, m);
    assert EnabledMapping(r1.clients, op.clientId, m.id);
    AddListenerInv(r1, op.clientId, m, op.newId in binds);
  }

  lemma EnableClientSound(r: Reg, op: Op, pepper: string, binds: set<string>, order: seq<string>)
    requires RegInv(r) && ListenersSound(r, r.clients) && Drawable(r, op, pepper)
    requires op.SetClientEnabled? && op.on
    ensures var r2 := Relisten(Stored(r, op, pepper), op, binds, order); ListenersSound(r2, r2.clients)
  {
    StoredInv(r, op, pepper);
    StoredSound(r, op, pepper);
    StartInv(Stored(r, op, pepper), op.id, binds);
  }

  /** The mapping found after it was enabled. */
  lemma FoundEnabled(r: Reg, op: Op, pepper: string)
    requires RegInv(r) && Drawable(r, op, pepper) && op.SetMappingEnabled? && op.on
    ensures var r1 := Stored(r, op, pepper);
            RegInv(r1) && (FindMapping(r1.clients, op.id).Some? ==>
              var (o, m) := FindMapping(r1.clients, op.id).value;
              Owns(r1.clients, o, m) && m.id == op.id && EnabledMapping(r1.clients, o, m.id))
  {
    var r1 := Stored(r, op, pepper);
    StoredInv(r, op, pepper);
    if FindMapping(r1.clients, op.id).Some? {
      var (o, m) := FindMapping(r1.clients, op.id).value;
      FindMappingExact(r1.clients, op.id, o, m);
      ApplyOwns(r.clients, op, pepper, o, m);
    }
  }

  lemma EnableMappingSound(r: Reg, op: Op, pepper: string, binds: set<string>, order: seq<string>)
    requires RegInv(r) && ListenersSound(r, r.clients) && Drawable(r, op, pepper)
    requires op.SetMappingEnabled? && op.on
    ensures var r2 := Relisten(Stored(r, op, pepper), op, binds, order); ListenersSound(r2, r2.clients)
  {
    var r1 := Stored(r, op, pepper);
    StoredSound(r, op, pepper);
    FoundEnabled(r, op, pepper);
    if FindMapping(r1.clients, op.id).Some? {
      var (o, m) := FindMapping(r1.clients, op.id).value;
      AddListenerInv(r1, o, m, op.id in binds);
    }
  }

  lemma StopSound(r: Reg, op: Op, pepper: string, binds: set<string>, order: seq<string>)
    requires RegInv(r) && ListenersSound(r, r.clients) && Drawable(r, op, pepper)
    requires forall c | c in r.sessions :: c in order
    requires op.DeleteClient? || op.DeleteMapping? || ((op.SetClientEnabled? || op.SetMappingEnabled?) && !op.on)
    ensures var r2 := Relisten(Stored(r, op, pepper), op, binds, order); ListenersSound(r2, r2.clients)
  {
    StoredInv(r, op, pepper);
    StoredSoundBut(r, op, pepper);
    if op.DeleteClient? || op.SetClientEnabled? {
      DrainSound(Stored(r, op, pepper), op, op.id);
    } else {
      RemovalSound(Stored(r, op, pepper), op, order);
    }
  }

  lemma RelistenSound(r: Reg, op: Op, pepper: string, binds: set<string>, order: seq<string>)
    requires RegInv(r) && ListenersSound(r, r.clients) && Drawable(r, op, pepper) && Applies(r.clients, op)
    requires forall c | c in r.sessions :: c in order
    ensures var r2 := Relisten(Stored(r, op, pepper), op, binds, order); ListenersSound(r2, r2.clients)
  {
    if op.AddClient? || op.RegenerateToken? {
      StoredSound(r, op, pepper);
    } else if op.AddMapping? {
      AddSound(r, op, pepper, binds, order);
    } else if op.SetClientEnabled? && op.on {
      EnableClientSound(r, op, pepper, binds, order);
    } else if op.SetMappingEnabled? && op.on {
      EnableMappingSound(r, op, pepper, binds, order);
    } else {
      StopSound(r, op, pepper, binds, order);
    }
  }

  /** A handler whose persist succeeds keeps every registered listener backed by an enabled stored
      mapping of its client. */
  lemma AdminSound(r: Reg, op: Op, pepper: string, binds: set<string>, order: seq<string>)
    requires RegInv(r) && ListenersSound(r, r.clients)
    ensures var r' := Admin(r, op, pepper, true, binds, order);
            ListenersSound(r', r'.clients)
  {
    if Drawable(r, op, pepper) && (forall c | c in r.sessions :: c in order) {
      if Applies(r.clients, op) {
        RelistenSound(r, op, pepper, binds, order);
      } else {
        IdleSound(r, op, pepper);
      }
    }
  }

  lemma IdleSound(r: Reg, op: Op, pepper: string)
    requires ListenersSound(r, r.clients) && !Applies(r.clients, op)
    ensures ListenersSound(Stored(r, op, pepper), Stored(r, op, pepper).clients)
  {
    SameListeners(r, Stored(r, op, pepper), r.clients);
  }

  // ----- nothing already given out is ever changed -----

  /** Owner, port and address of a mapping never change after it was created, whatever happens to
      the store, and a task never changes what it serves. */
  predicate Extends(r: Reg, r': Reg) {
    && (forall m | m in r.issued :: m in r'.issued && r'.issued[m] == r.issued[m])
    && |r.all| <= |r'.all| && |r.tasks| <= |r'.tasks|
    && (forall s | 0 <= s < |r.all| :: r'.all[s].client == r.all[s].client && (r.all[s].cleaned ==> r'.all[s].cleaned))
    && (forall i | 0 <= i < |r.tasks| ::
          && r'.tasks[i] == r.tasks[i].(aborted := r'.tasks[i].aborted, finished := r'.tasks[i].finished)
          && (r.tasks[i].aborted ==> r'.tasks[i].aborted) && (r.tasks[i].finished ==> r'.tasks[i].finished))
  }

  /** ... by a handler: no session comes, goes or is cleaned up, and no loop is over yet. */
  predicate Reshapes(r: Reg, r': Reg) {
    && Extends(r, r') && |r'.all| == |r.all| && r'.sessions == r.sessions && r'.maxClients == r.maxClients
    && (forall s | 0 <= s < |r.all| :: r'.all[s].cleaned == r.all[s].cleaned)
    && (forall i | 0 <= i < |r.tasks| :: r'.tasks[i].finished == r.tasks[i].finished)
  }

  lemma ReshapesTwice(r: Reg, r1: Reg, r2: Reg)
    requires Reshapes(r, r1) && Reshapes(r1, r2)
    ensures Reshapes(r, r2)
  {
  }

  lemma AddListenerReshapes(r: Reg, client: string, m: Mapping, bindOk: bool)
    ensures Reshapes(r, AddListener(r, client, m, bindOk))
  {
  }

  lemma {:induction false} AddListenersReshapes(r: Reg, client: string, ms: seq<Mapping>, binds: set<string>)
    ensures Reshapes(r, AddListeners(r, client, ms, binds))
    decreases |ms|
  {
    if ms == [] {
    } else {
      var r' := if ms[0].enabled then AddListener(r, client, ms[0], ms[0].id in binds) else r;
      AddListenerReshapes(r, client, ms[0], ms[0].id in binds);
      AddListenersReshapes(r', client, ms[1..], binds);
      ReshapesTwice(r, r', AddListeners(r, client, ms, binds));
    }
  }

  lemma StartReshapes(r: Reg, client: string, binds: set<string>)
    ensures Reshapes(r, StartClientListeners(r, client, binds))
  {
    if Find(r.clients, client).Some? {
      AddListenersReshapes(r, client, Find(r.clients, client).value.mappings, binds);
    }
  }

  lemma {:induction false} RemoveListenerReshapes(r: Reg, m: string, order: seq<string>)
    ensures Reshapes(r, RemoveListener(r, m, order))
    decreases |order|
  {
    if order == [] {
    } else {
      RemoveListenerReshapes(r, m, order[1..]);
    }
  }

  lemma RemoveClientReshapes(r: Reg, client: string)
    ensures Reshapes(r, RemoveClientListeners(r, client))
  {
  }

  lemma RelistenReshapes(r: Reg, op: Op, binds: set<string>, order: seq<string>)
    ensures Reshapes(r, Relisten(r, op, binds, order))
  {
    match op {
      case AddClient(_, _, _) =>
      case RegenerateToken(_, _) =>
      case SetClientEnabled(id, on) =>
        StartReshapes(r, id, binds);
        RemoveClientReshapes(r, id);
      case DeleteClient(id) => RemoveClientReshapes(r, id);
      case AddMapping(id, name, port, local, newId) =>
        AddListenerReshapes(r, id, Mapping(newId, name, port, local, true), newId in binds);
      case SetMappingEnabled(id, on) =>
        RemoveListenerReshapes(r, id, order);
        if FindMapping(r.clients, id).Some? {
          var (o, m) := FindMapping(r.clients, id).value;
          AddListenerReshapes(r, o, m, id in binds);
        }
      case DeleteMapping(id) => RemoveListenerReshapes(r, id, order);
    }
  }

  lemma AdminReshapes(r: Reg, op: Op, pepper: string, saved: bool, binds: set<string>, order: seq<string>)
    ensures Reshapes(r, Admin(r, op, pepper, saved, binds, order))
  {
    if Drawable(r, op, pepper) {
      var r1 := Stored(r, op, pepper);
      RelistenReshapes(r1, op, binds, order);
      ReshapesTwice(r, r1, Relisten(r1, op, binds, order));
    }
  }

  // ----- a handler takes effect at once -----

  /** A running loop is filed for the mapping in its owner's registered session. */
  predicate Serves(r: Reg, owner: string, m: Mapping) {
    && owner in r.sessions && r.sessions[owner] < |r.all|
    && m.id in r.all[r.sessions[owner]].listeners
    && r.all[r.sessions[owner]].listeners[m.id] < |r.tasks|
    && r.tasks[r.all[r.sessions[owner]].listeners[m.id]]
       == Acceptor(r.sessions[owner], m.id, m.port, m.local, false, false)
  }

  /** A listener can be started: the owner is connected, the port is free and binding it works. */
  predicate Startable(r: Reg, owner: string, m: Mapping, binds: set<string>) {
    owner in r.sessions && r.sessions[owner] < |r.all| && m.id in binds && PortFree(r.tasks, m.port)
  }

  lemma AddListenerServes(r: Reg, client: string, m: Mapping, binds: set<string>)
    ensures Startable(r, client, m, binds) ==> Serves(AddListener(r, client, m, m.id in binds), client, m)
    ensures r.tasks <= AddListener(r, client, m, m.id in binds).tasks
  {
  }

  /** Another listener leaves it running, or startable. */
  lemma AnotherListener(r: Reg, client: string, m: Mapping, n: Mapping, binds: set<string>)
    requires n.id != m.id && n.port != m.port
    ensures Serves(r, client, m) ==> Serves(AddListener(r, client, n, n.id in binds), client, m)
    ensures Startable(r, client, m, binds) ==> Startable(AddListener(r, client, n, n.id in binds), client, m, binds)
  {
  }

  lemma {:induction false} StillServes(r: Reg, client: string, ms: seq<Mapping>, binds: set<string>, m: Mapping)
    requires Serves(r, client, m) && forall n | n in ms :: n.id != m.id && n.port != m.port
    ensures Serves(AddListeners(r, client, ms, binds), client, m)
    decreases |ms|
  {
    if ms == [] {
    } else {
      AnotherListener(r, client, m, ms[0], binds);
      StillServes(if ms[0].enabled then AddListener(r, client, ms[0], ms[0].id in binds) else r,
                  client, ms[1..], binds, m);
    }
  }

  lemma {:induction false} AddListenersServe(r: Reg, client: string, ms: seq<Mapping>, binds: set<string>, m: Mapping)
    requires DistinctWithin(ms) && m in ms && m.enabled && Startable(r, client, m, binds)
    ensures Serves(AddListeners(r, client, ms, binds), client, m)
    decreases |ms|
  {
    var r' := if ms[0].enabled then AddListener(r, client, ms[0], ms[0].id in binds) else r;
    if ms[0] == m {
      AddListenerServes(r, client, m, binds);
      StillServes(r', client, ms[1..], binds, m);
    } else {
      AnotherListener(r, client, m, ms[0], binds);
      AddListenersServe(r', client, ms[1..], binds, m);
    }
  }

  lemma {:induction false} AddListenersAppend(r: Reg, client: string, ms: seq<Mapping>, binds: set<string>)
    ensures r.tasks <= AddListeners(r, client, ms, binds).tasks
    decreases |ms|
  {
    if ms == [] {
    } else {
      AddListenerServes(r, client, ms[0], binds);
      AddListenersAppend(if ms[0].enabled then AddListener(r, client, ms[0], ms[0].id in binds) else r,
                         client, ms[1..], binds);
    }
  }

  /** The mappings that a handler has to start listeners for, given the store after it. */
  ghost predicate ToStart(list: seq<Client>, op: Op, owner: string, m: Mapping) {
    Owns(list, owner, m) && m.enabled &&
    match op
    case SetClientEnabled(id, on) => on && owner == id
    case AddMapping(_, _, _, _, newId) => m.id == newId
    case SetMappingEnabled(id, on) => on && m.id == id
    case _ => false
  }

  lemma ClientStarts(r1: Reg, id: string, binds: set<string>, m: Mapping)
    requires RegInv(r1) && Owns(r1.clients, id, m) && m.enabled && Startable(r1, id, m, binds)
    ensures Serves(StartClientListeners(r1, id, binds), id, m)
  {
    PositionExact(r1.clients, id);
    var i := Position(r1.clients, id);
    OwnsAt(r1.clients, i, m);
    AddListenersServe(r1, id, r1.clients[i].mappings, binds, m);
  }

  lemma MappingStarts(r: Reg, op: Op, pepper: string, binds: set<string>, order: seq<string>, owner: string, m: Mapping)
    requires RegInv(r) && Drawable(r, op, pepper) && Applies(r.clients, op)
    requires op.AddMapping? || op.SetMappingEnabled?
    requires ToStart(Stored(r, op, pepper).clients, op, owner, m) && Startable(r, owner, m, binds)
    ensures Serves(Relisten(Stored(r, op, pepper), op, binds, order), owner, m)
  {
    var r1 := Stored(r, op, pepper);
    StoredInv(r, op, pepper);
    if op.AddMapping? {
      var n := Mapping(op.newId, op.name, op.port, op.local, true);
      AddedIsStored(r, op, pepper, n);
      FindMappingExact(r1.clients, op.newId, owner, m);
      FindMappingExact(r1.clients, op.newId, op.clientId, n);
    } else {
      FindMappingExact(r1.clients, op.id, owner, m);
    }
    AddListenerServes(r1, owner, m, binds);
  }

  /** Enabling a client, enabling a mapping and creating one start, at once, a listener for each
      enabled mapping concerned whose port can be bound ... */
  lemma ReloadStarts(r: Reg, op: Op, pepper: string, binds: set<string>, order: seq<string>, owner: string, m: Mapping)
    requires RegInv(r) && Drawable(r, op, pepper) && Applies(r.clients, op) && (op.AddMapping? ==> op.port != 0)
    requires forall c | c in r.sessions :: c in order
    requires ToStart(Stored(r, op, pepper).clients, op, owner, m) && Startable(r, owner, m, binds)
    ensures Serves(Admin(r, op, pepper, true, binds, order), owner, m)
  {
    StoredInv(r, op, pepper);
    if op.SetClientEnabled? {
      ClientStarts(Stored(r, op, pepper), op.id, binds, m);
    } else {
      MappingStarts(r, op, pepper, binds, order, owner, m);
    }
  }

  /** ... and disturb no loop that is running. */
  lemma ReloadDisturbsNone(r: Reg, op: Op, pepper: string, binds: set<string>, order: seq<string>)
    requires op.AddMapping? || ((op.SetClientEnabled? || op.SetMappingEnabled?) && op.on)
    ensures r.tasks <= Admin(r, op, pepper, true, binds, order).tasks
  {
    var r1 := Stored(r, op, pepper);
    match op {
      case SetClientEnabled(id, on) =>
        if Find(r1.clients, id).Some? {
          AddListenersAppend(r1, id, Find(r1.clients, id).value.mappings, binds);
        }
      case AddMapping(id, name, port, local, newId) =>
        AddListenerServes(r1, id, Mapping(newId, name, port, local, true), binds);
      case SetMappingEnabled(id, on) =>
        if FindMapping(r1.clients, id).Some? {
          var (o, m) := FindMapping(r1.clients, id).value;
          FindsById(r1.clients, id);
          AddListenerServes(r1, o, m, binds);
        }
    }
  }

  lemma {:induction false} FindsById(list: seq<Client>, id: string)
    requires FindMapping(list, id).Some?
    ensures FindMapping(list, id).value.1.id == id
  {
    MappingInExact(list[0].mappings, id);
    if MappingIn(list[0].mappings, id).None? {
      FindsById(list[1..], id);
    }
  }

  /** The mappings, of a client, that a handler takes listeners away from. */
  predicate Stops(op: Op, owner: string, id: string) {
    TakesAway(op, owner, id) || (op.SetClientEnabled? && !op.on && op.id == owner)
  }

  /** The operation stops this loop. */
  predicate Hit(r: Reg, op: Op, i: nat) {
    Held(r, i) && r.tasks[i].session < |r.all| && Stops(op, r.all[r.tasks[i].session].client, r.tasks[i].mapping)
  }

  /** Exactly the handles that the operation stops are gone, exactly their loops are asked to stop, and
      every other handle and loop is as it was. */
  ghost predicate Stopped(r: Reg, after: Reg, op: Op) {
    && after.sessions == r.sessions && |after.all| == |r.all|
    && (forall c | c in r.sessions && r.sessions[c] < |r.all| ::
          HandlesAfter(r.all[r.sessions[c]].listeners, after.all[r.sessions[c]].listeners, op, c))
    && LoopsAfter(r, after.tasks, op)
  }

  ghost predicate HandlesAfter(handles: map<string, nat>, after: map<string, nat>, op: Op, c: string) {
    after == map m | m in handles && !Stops(op, c, m) :: handles[m]
  }

  ghost predicate LoopsAfter(r: Reg, tasks: seq<Acceptor>, op: Op) {
    && |tasks| == |r.tasks|
    && forall i: nat | i < |tasks| ::
         tasks[i] == if Hit(r, op, i) then r.tasks[i].(aborted := true) else r.tasks[i]
  }

  lemma DrainedHit(r: Reg, op: Op, i: nat)
    requires Ownership(r) && HandlesFiled(r) && i < |r.tasks|
    requires op.DeleteClient? || (op.SetClientEnabled? && !op.on)
    ensures op.id in r.sessions ==> (Hit(r, op, i) <==> i in r.all[r.sessions[op.id]].listeners.Values)
    ensures op.id !in r.sessions ==> !Hit(r, op, i)
  {
    StopsAllOf(op);
    if op.id in r.sessions {
      var s := r.sessions[op.id];
      if m :| m in r.all[s].listeners && r.all[s].listeners[m] == i {
        assert r.tasks[i].session == s && r.tasks[i].mapping == m;
      }
    }
  }

  lemma DrainedLoops(r: Reg, op: Op)
    requires Ownership(r) && HandlesFiled(r)
    requires op.DeleteClient? || (op.SetClientEnabled? && !op.on)
    ensures LoopsAfter(r, RemoveClientListeners(r, op.id).tasks, op)
  {
    forall i: nat | i < |r.tasks|
      ensures RemoveClientListeners(r, op.id).tasks[i]
              == if Hit(r, op, i) then r.tasks[i].(aborted := true) else r.tasks[i]
    {
      DrainedHit(r, op, i);
    }
  }

  lemma DrainedHandles(handles: map<string, nat>, op: Op, c: string)
    requires op.DeleteClient? || (op.SetClientEnabled? && !op.on)
    ensures HandlesAfter(handles, if c == op.id then map[] else handles, op, c)
  {
    StopsAllOf(op);
  }

  lemma StopsClient(r: Reg, op: Op)
    requires RegInv(r) && (op.DeleteClient? || (op.SetClientEnabled? && !op.on))
    ensures Stopped(r, RemoveClientListeners(r, op.id), op)
  {
    RemoveClientInv(r, op.id);
    DrainedLoops(r, op);
    forall c | c in r.sessions
      ensures HandlesAfter(r.all[r.sessions[c]].listeners,
                           RemoveClientListeners(r, op.id).all[r.sessions[c]].listeners, op, c)
    {
      DrainedHandles(r.all[r.sessions[c]].listeners, op, c);
    }
  }

  lemma StopsAllOf(op: Op)
    requires op.DeleteClient? || (op.SetClientEnabled? && !op.on)
    ensures forall c, m :: Stops(op, c, m) <==> c == op.id
  {
  }

  lemma RemovedLoops(r: Reg, tasks: seq<Acceptor>, op: Op)
    requires op.DeleteMapping? || (op.SetMappingEnabled? && !op.on)
    requires AbortedFor(r, tasks, op.id)
    ensures LoopsAfter(r, tasks, op)
  {
  }

  lemma RemovedHandles(handles: map<string, nat>, op: Op, c: string)
    requires op.DeleteMapping? || (op.SetMappingEnabled? && !op.on)
    ensures HandlesAfter(handles, handles - {op.id}, op, c)
  {
  }

  lemma StopsMapping(r: Reg, op: Op, order: seq<string>)
    requires RegInv(r) && forall c | c in r.sessions :: c in order
    requires op.DeleteMapping? || (op.SetMappingEnabled? && !op.on)
    ensures Stopped(r, RemoveListener(r, op.id, order), op)
  {
    RemoveListenerExact(r, op.id, order);
    RemoveListenerReshapes(r, op.id, order);
    RemovedLoops(r, RemoveListener(r, op.id, order).tasks, op);
    forall c | c in r.sessions
      ensures HandlesAfter(r.all[r.sessions[c]].listeners,
                           RemoveListener(r, op.id, order).all[r.sessions[c]].listeners, op, c)
    {
      RemovedHandles(r.all[r.sessions[c]].listeners, op, c);
    }
  }

  lemma StoppedSince(r: Reg, r1: Reg, after: Reg, op: Op)
    requires r1 == r.(clients := r1.clients, issued := r1.issued) && Stopped(r1, after, op)
    ensures Stopped(r, after, op)
  {
    assert forall i: nat :: Hit(r1, op, i) <==> Hit(r, op, i);
  }

  /** Deleting or disabling a client or mapping takes away, at once, exactly the handles concerned,
      and requests the abort of each of their loops. */
  lemma ReloadStops(r: Reg, op: Op, pepper: string, binds: set<string>, order: seq<string>)
    requires RegInv(r) && Drawable(r, op, pepper) && Applies(r.clients, op)
    requires forall c | c in r.sessions :: c in order
    requires op.DeleteClient? || op.DeleteMapping? || ((op.SetClientEnabled? || op.SetMappingEnabled?) && !op.on)
    ensures Stopped(r, Admin(r, op, pepper, true, binds, order), op)
  {
    var r1 := Stored(r, op, pepper);
    StoredInv(r, op, pepper);
    if op.DeleteClient? || op.SetClientEnabled? {
      StopsClient(r1, op);
    } else {
      StopsMapping(r1, op, order);
    }
    StoppedSince(r, r1, Admin(r, op, pepper, true, binds, order), op);
  }

  /** The request is carried out: it is allowed, and the store finds what it is about. */
  predicate Happens(r: Reg, op: Op, pepper: string, order: seq<string>) {
    && (op.AddMapping? ==> op.port != 0)
    && Drawable(r, op, pepper)
    && (forall c | c in r.sessions :: c in order)
    && Applies(r.clients, op)
  }

  lemma StopsNothing(r: Reg, op: Op)
    requires op.AddClient? || op.RegenerateToken? || op.AddMapping?
             || ((op.SetClientEnabled? || op.SetMappingEnabled?) && op.on)
    ensures LoopsAfter(r, r.tasks, op)
  {
  }

  lemma HandlerIdle(r: Reg, op: Op, pepper: string, saved: bool, binds: set<string>, order: seq<string>)
    requires !saved || !Happens(r, op, pepper, order)
    ensures Admin(r, op, pepper, saved, binds, order).tasks == r.tasks
  {
  }

  lemma HandlerLoops(r: Reg, op: Op, pepper: string, binds: set<string>, order: seq<string>)
    requires RegInv(r) && Happens(r, op, pepper, order)
    ensures var tasks := Admin(r, op, pepper, true, binds, order).tasks;
            |r.tasks| <= |tasks| && LoopsAfter(r, tasks[..|r.tasks|], op)
  {
    var tasks := Admin(r, op, pepper, true, binds, order).tasks;
    if op.DeleteClient? || op.DeleteMapping? || ((op.SetClientEnabled? || op.SetMappingEnabled?) && !op.on) {
      ReloadStops(r, op, pepper, binds, order);
      assert tasks[..|r.tasks|] == tasks;
    } else {
      StopsNothing(r, op);
      if !op.AddClient? && !op.RegenerateToken? {
        ReloadDisturbsNone(r, op, pepper, binds, order);
      }
      assert tasks[..|r.tasks|] == r.tasks;
    }
  }

  /** Every handler: it asks exactly the loops to stop that its operation takes away, and only once
      the change is saved; every other loop is as it was. */
  lemma AdminLoops(r: Reg, op: Op, pepper: string, saved: bool, binds: set<string>, order: seq<string>)
    requires RegInv(r)
    ensures var tasks := Admin(r, op, pepper, saved, binds, order).tasks;
            |r.tasks| <= |tasks|
            && (if saved && Happens(r, op, pepper, order) then LoopsAfter(r, tasks[..|r.tasks|], op)
                else tasks == r.tasks)
  {
    if saved && Happens(r, op, pepper, order) {
      HandlerLoops(r, op, pepper, binds, order);
    } else {
      HandlerIdle(r, op, pepper, saved, binds, order);
    }
  }

  /** The same of one loop. */
  lemma AdminLoop(r: Reg, op: Op, pepper: string, saved: bool, binds: set<string>, order: seq<string>, i: nat)
    requires RegInv(r) && i < |r.tasks|
    ensures var tasks := Admin(r, op, pepper, saved, binds, order).tasks;
            var asked := saved && Happens(r, op, pepper, order) && Hit(r, op, i);
            i < |tasks| && tasks[i] == r.tasks[i].(aborted := r.tasks[i].aborted || asked)
  {
    var tasks := Admin(r, op, pepper, saved, binds, order).tasks;
    AdminLoops(r, op, pepper, saved, binds, order);
    assert tasks[i] == tasks[..|r.tasks|][i];
  }

  /** A loop that was started for mapping m of the owner. */
  predicate Started(r: Reg, owner: string, m: Mapping, binds: set<string>, a: Acceptor) {
    Startable(r, owner, m, binds) && a == Acceptor(r.sessions[owner], m.id, m.port, m.local, false, false)
  }

  ghost predicate StartedAmong(r: Reg, owner: string, ms: seq<Mapping>, binds: set<string>, a: Acceptor) {
    exists m :: m in ms && m.enabled && Started(r, owner, m, binds, a)
  }

  ghost predicate Wanted(r: Reg, list: seq<Client>, op: Op, binds: set<string>, a: Acceptor) {
    exists owner, m :: ToStart(list, op, owner, m) && Started(r, owner, m, binds, a)
  }

  lemma AddListenerAppends(r: Reg, client: string, m: Mapping, binds: set<string>)
    ensures var tasks := AddListener(r, client, m, m.id in binds).tasks;
            if Startable(r, client, m, binds)
            then |tasks| == |r.tasks| + 1 && r.tasks <= tasks && Started(r, client, m, binds, tasks[|r.tasks|])
            else tasks == r.tasks
    ensures AddListener(r, client, m, m.id in binds).sessions == r.sessions
    ensures |AddListener(r, client, m, m.id in binds).all| == |r.all|
  {
  }

  lemma {:induction false} AddListenersStart(r: Reg, client: string, ms: seq<Mapping>, binds: set<string>, i: nat)
    requires |r.tasks| <= i < |AddListeners(r, client, ms, binds).tasks|
    ensures StartedAmong(r, client, ms, binds, AddListeners(r, client, ms, binds).tasks[i])
    decreases |ms|
  {
    if ms == [] {
      assert false;
    } else {
      var next := if ms[0].enabled then AddListener(r, client, ms[0], ms[0].id in binds) else r;
      var all := AddListeners(r, client, ms, binds);
      AddListenerAppends(r, client, ms[0], binds);
      AddListenersAppend(next, client, ms[1..], binds);
      if i < |next.tasks| {
        assert all.tasks[i] == next.tasks[i];
        assert Started(r, client, ms[0], binds, all.tasks[i]);
      } else {
        AddListenersStart(next, client, ms[1..], binds, i);
        StartedBefore(r, next, client, ms, binds, all.tasks[i]);
      }
    }
  }

  lemma StartedBefore(r: Reg, next: Reg, client: string, ms: seq<Mapping>, binds: set<string>, a: Acceptor)
    requires r.tasks <= next.tasks && next.sessions == r.sessions && |next.all| == |r.all| && ms != []
    requires StartedAmong(next, client, ms[1..], binds, a)
    ensures StartedAmong(r, client, ms, binds, a)
  {
    var m :| m in ms[1..] && m.enabled && Started(next, client, m, binds, a);
    assert PortFree(r.tasks, m.port) by {
      assert forall k | 0 <= k < |r.tasks| :: r.tasks[k] == next.tasks[k];
    }
    assert m in ms && Started(r, client, m, binds, a);
  }

  lemma ClientWanted(r1: Reg, op: Op, binds: set<string>, i: nat)
    requires RegInv(r1) && op.SetClientEnabled? && op.on
    requires |r1.tasks| <= i < |StartClientListeners(r1, op.id, binds).tasks|
    ensures Wanted(r1, r1.clients, op, binds, StartClientListeners(r1, op.id, binds).tasks[i])
  {
    var k := Position(r1.clients, op.id);
    var tasks := StartClientListeners(r1, op.id, binds).tasks;
    PositionExact(r1.clients, op.id);
    AddListenersStart(r1, op.id, r1.clients[k].mappings, binds, i);
    var m :| m in r1.clients[k].mappings && m.enabled && Started(r1, op.id, m, binds, tasks[i]);
    OwnsAt(r1.clients, k, m);
    assert ToStart(r1.clients, op, op.id, m);
  }

  lemma MappingWanted(r: Reg, op: Op, pepper: string, binds: set<string>, order: seq<string>, i: nat)
    requires RegInv(r) && Drawable(r, op, pepper) && Applies(r.clients, op)
    requires op.AddMapping? || (op.SetMappingEnabled? && op.on)
    requires |r.tasks| <= i < |Relisten(Stored(r, op, pepper), op, binds, order).tasks|
    ensures var r1 := Stored(r, op, pepper); Wanted(r1, r1.clients, op, binds, Relisten(r1, op, binds, order).tasks[i])
  {
    var r1 := Stored(r, op, pepper);
    StoredInv(r, op, pepper);
    if op.AddMapping? {
      var m := Mapping(op.newId, op.name, op.port, op.local, true);
      AddedIsStored(r, op, pepper, m);
      AddListenerAppends(r1, op.clientId, m, binds);
      assert ToStart(r1.clients, op, op.clientId, m);
    } else {
      var (o, m) := FindMapping(r1.clients, op.id).value;
      FindMappingExact(r1.clients, op.id, o, m);
      ApplyOwns(r.clients, op, pepper, o, m);
      AddListenerAppends(r1, o, m, binds);
      assert ToStart(r1.clients, op, o, m);
    }
  }

  /** Every loop that a handler starts is one it has to start: for an enabled stored mapping that the
      operation is about, of a connected owner, on a port that was free. */
  lemma AdminStartsOnly(r: Reg, op: Op, pepper: string, saved: bool, binds: set<string>, order: seq<string>, i: nat)
    requires RegInv(r)
    requires |r.tasks| <= i < |Admin(r, op, pepper, saved, binds, order).tasks|
    ensures Wanted(r, Stored(r, op, pepper).clients, op, binds, Admin(r, op, pepper, saved, binds, order).tasks[i])
  {
    var r1 := Stored(r, op, pepper);
    AdminLoops(r, op, pepper, saved, binds, order);
    StoredInv(r, op, pepper);
    var a := Admin(r, op, pepper, saved, binds, order).tasks[i];
    if op.DeleteClient? || op.DeleteMapping? || ((op.SetClientEnabled? || op.SetMappingEnabled?) && !op.on) {
      ReloadStops(r, op, pepper, binds, order);
      assert false;
    } else if op.SetClientEnabled? {
      ClientWanted(r1, op, binds, i);
      WantedSince(r, r1, op, binds, a);
    } else {
      MappingWanted(r, op, pepper, binds, order, i);
      WantedSince(r, r1, op, binds, a);
    }
  }

  lemma WantedSince(r: Reg, r1: Reg, op: Op, binds: set<string>, a: Acceptor)
    requires r1 == r.(clients := r1.clients, issued := r1.issued) && Wanted(r1, r1.clients, op, binds, a)
    ensures Wanted(r, r1.clients, op, binds, a)
  {
    var owner, m :| ToStart(r1.clients, op, owner, m) && Started(r1, owner, m, binds, a);
    assert Started(r, owner, m, binds, a);
  }
}
