/** The tables as the server keeps them: a session map, session records and accept-loop handles that
    handlers update in place (src/tunnel/listener.rs, src/tunnel/session.rs, src/web/routes.rs).
    Each method is proved to do what the step of module Registry says. */
module Server {
  import opened Common
  import opened Store
  import opened StoreFacts
  import opened Registry
  import opened Names
  import P = Persistence

  /** How a handler answers. */
  datatype Reply = Done | NotFound | Conflict | BadRequest | Failed

  class TunnelServer {
    const store: P.ClientStore
    const maxClients: nat
    var sessions: map<string, nat>
    var all: seq<Session>
    var tasks: seq<Acceptor>
    ghost var issued: map<string, Origin>

    ghost function State(): Reg
      reads this, store
    {
      Reg(store.list, maxClients, sessions, all, tasks, issued)
    }

    /** Every entry and every handle refers to something that exists. */
    ghost predicate Valid()
      reads this
    {
      && (forall c | c in sessions :: sessions[c] < |all|)
      && (forall s | 0 <= s < |all| :: forall m | m in all[s].listeners :: all[s].listeners[m] < |tasks|)
    }

    constructor (store: P.ClientStore, maxClients: nat)
      ensures Valid() && this.store == store && State() == Loaded(store.list, maxClients)
    {
      this.store := store;
      this.maxClients := maxClients;
      sessions, all, tasks, issued := map[], [], [], IssuedBefore(store.list);
    }

    /** The check against the limit and the insert, under one write lock. */
    method InsertSession(client: string) returns (rejected: bool, s: nat)
      requires Valid()
      modifies this
      ensures Valid() && State() == Insert(old(State()), client)
      ensures rejected <==> |old(sessions)| >= maxClients
      ensures !rejected ==> s < |all| && Registered(State(), s) && all[s].client == client && all[s].listeners == map[]
    {
      s := |all|;
      if |sessions| >= maxClients {
        return true, s;
      }
      sessions := sessions[client := s];
      all := all + [Session(client, map[], false)];
      rejected := false;
    }

    method StartListener(client: string, m: Mapping, bindOk: bool) returns (started: bool)
      requires Valid()
      modifies this
      ensures Valid() && State() == AddListener(old(State()), client, m, bindOk)
      ensures sessions == old(sessions) && issued == old(issued)
      ensures started <==> client in sessions && bindOk && PortFree(old(tasks), m.port)
    {
      if client !in sessions {
        return false;
      }
      var s := sessions[client];
      if !bindOk || !PortFree(tasks, m.port) {
        return false;
      }
      var handle := |tasks|;
      tasks := tasks + [Acceptor(s, m.id, m.port, m.local, false, false)];
      var session := all[s];
      all := all[s := session.(listeners := session.listeners[m.id := handle])];
      started := true;
    }

    /** A listener for every enabled mapping of a client. */
    method StartListeners(client: string, binds: set<string>)
      requires Valid()
      modifies this
      ensures Valid() && State() == StartClientListeners(old(State()), client, binds)
    {
      var found := Find(store.list, client);
      if found.None? {
        return;
      }
      var ms := found.value.mappings;
      var i := 0;
      while i < |ms|
        invariant 0 <= i <= |ms| && Valid()
        invariant AddListeners(State(), client, ms[i..], binds) == AddListeners(old(State()), client, ms, binds)
      {
        assert ms[i..][0] == ms[i] && ms[i..][1..] == ms[i + 1..];
        if ms[i].enabled {
          var _ := StartListener(client, ms[i], ms[i].id in binds);
        }
        i := i + 1;
      }
    }

    /** Asks the registered sessions in turn for the mapping's handle; stops at the first that has it. */
    method StopListener(mapping: string, order: seq<string>)
      requires Valid()
      modifies this
      ensures Valid() && State() == RemoveListener(old(State()), mapping, order)
    {
      var i := 0;
      while i < |order|
        invariant 0 <= i <= |order| && Valid() && State() == old(State())
        invariant RemoveListener(State(), mapping, order[i..]) == RemoveListener(old(State()), mapping, order)
      {
        assert order[i..][0] == order[i] && order[i..][1..] == order[i + 1..];
        if order[i] in sessions && mapping in all[sessions[order[i]]].listeners {
          var s := sessions[order[i]];
          var session := all[s];
          var handle := session.listeners[mapping];
          all := all[s := session.(listeners := session.listeners - {mapping})];
          tasks := tasks[handle := tasks[handle].(aborted := true)];
          return;
        }
        i := i + 1;
      }
    }

    /** Drains a client's handles, aborting each. */
    method StopClientListeners(client: string)
      requires Valid()
      modifies this
      ensures Valid() && State() == RemoveClientListeners(old(State()), client)
    {
      if client !in sessions {
        return;
      }
      var s := sessions[client];
      var drained := all[s].listeners;
      all := all[s := all[s].(listeners := map[])];
      AbortHandles(drained);
    }

    /** Aborts the handles of a drained map one after the other. */
    method AbortHandles(drained: map<string, nat>)
      requires forall m | m in drained :: drained[m] < |tasks|
      modifies this`tasks
      ensures tasks == AbortAll(old(tasks), drained.Values)
    {
      var left := drained.Keys;
      ghost var done: set<nat> := {};
      while left != {}
        invariant left <= drained.Keys && done == set m | m in drained.Keys - left :: drained[m]
        invariant tasks == AbortAll(old(tasks), done)
        decreases left
      {
        var m :| m in left;
        var handle := drained[m];
        assert drained.Keys - (left - {m}) == (drained.Keys - left) + {m};
        assert (set k | k in (drained.Keys - left) + {m} :: drained[k]) == done + {handle};
        tasks := tasks[handle := tasks[handle].(aborted := true)];
        left, done := left - {m}, done + {handle};
      }
      assert done == drained.Values by {
        assert drained.Keys - left == drained.Keys;
      }
    }

    /** The end of a driver: removes the session's entry if a reconnect has not replaced it. */
    method CleanupSession(s: nat)
      requires Valid() && s < |all|
      modifies this
      ensures Valid() && State() == Cleanup(old(State()), s)
    {
      var client := all[s].client;
      if client in sessions && sessions[client] == s {
        sessions := sessions - {client};
      }
      all := all[s := all[s].(cleaned := true)];
    }

    // ----- the admin handlers -----

    /** What each handler does to the tables. */
    twostate predicate Handled(op: Op, saved: bool, binds: set<string>, order: seq<string>)
      reads this, store
    {
      State() == Admin(old(State()), op, store.pepper, saved, binds, order)
    }

    method UpdateClient(id: string, on: bool, io: P.Io, binds: set<string>, ghost order: seq<string>)
      returns (reply: Reply)
      requires Valid() && forall c | c in sessions :: c in order
      modifies this, store
      ensures Valid() && Handled(SetClientEnabled(id, on), io.Fine?, binds, order)
      ensures reply == if !P.HasPosition(old(store.list), id) then NotFound else if io.Fine? then Done else Failed
    {
      var found := store.SetClientEnabled(id, on, io);
      if found.Err? {
        return Failed;
      }
      if !found.value {
        return NotFound;
      }
      if on {
        StartListeners(id, binds);
      } else {
        StopClientListeners(id);
      }
      reply := Done;
    }

    method DeleteClient(id: string, io: P.Io, ghost binds: set<string>, ghost order: seq<string>) returns (reply: Reply)
      requires Valid() && forall c | c in sessions :: c in order
      modifies this, store
      ensures Valid() && Handled(Op.DeleteClient(id), io.Fine?, binds, order)
      ensures reply == if !P.HasPosition(old(store.list), id) then NotFound else if io.Fine? then Done else Failed
    {
      var found := store.DeleteClient(id, io);
      if found.Err? {
        return Failed;
      }
      if !found.value {
        return NotFound;
      }
      StopClientListeners(id);
      reply := Done;
    }

    /** `parses` tells whether the local address has the form IP:port. */
    method CreateMapping(client: string, name: string, port: Port, local: string, parses: bool, newId: string, io: P.Io,
                         binds: set<string>, ghost order: seq<string>) returns (reply: Reply)
      requires Valid() && forall c | c in sessions :: c in order
      requires Drawable(State(), AddMapping(client, Trim(name), port, local, newId), store.pepper)
      modifies this, store
      ensures Valid()
      ensures if Trim(name) == [] || port == 0 || !parses then reply == BadRequest && State() == old(State())
              else Handled(AddMapping(client, Trim(name), port, local, newId), io.Fine?, binds, order)
      ensures Trim(name) != [] && port != 0 && parses ==>
                reply == if PortTaken(old(store.list), port, None) || !P.HasPosition(old(store.list), client)
                         then Conflict
                         else if io.Fine? then Done else Failed
    {
      var trimmed := Trim(name);
      if trimmed == [] || port == 0 || !parses {
        return BadRequest;
      }
      ghost var applies := Applies(store.list, AddMapping(client, trimmed, port, local, newId));
      var made := store.AddMapping(client, trimmed, port, local, newId, io);
      if applies {
        issued := issued[newId := Origin(client, port, local)];
      }
      if made.Err? {
        return Failed;
      }
      if made.value.None? {
        return Conflict;
      }
      var _ := StartListener(client, made.value.value, newId in binds);
      reply := Done;
    }

    method UpdateMapping(id: string, on: bool, io: P.Io, binds: set<string>, order: seq<string>) returns (reply: Reply)
      requires Valid() && forall c | c in sessions :: c in order
      modifies this, store
      ensures Valid() && Handled(SetMappingEnabled(id, on), io.Fine?, binds, order)
      ensures reply == if FindMapping(old(store.list), id).None? then NotFound else if io.Fine? then Done else Failed
    {
      var found := store.SetMappingEnabled(id, on, io);
      if found.Err? {
        return Failed;
      }
      if !found.value {
        return NotFound;
      }
      if on {
        var m := FindMapping(store.list, id);
        if m.Some? {
          var _ := StartListener(m.value.0, m.value.1, id in binds);
        }
      } else {
        StopListener(id, order);
      }
      reply := Done;
    }

    method DeleteMapping(id: string, io: P.Io, ghost binds: set<string>, order: seq<string>) returns (reply: Reply)
      requires Valid() && forall c | c in sessions :: c in order
      modifies this, store
      ensures Valid() && Handled(Op.DeleteMapping(id), io.Fine?, binds, order)
      ensures reply == if FindMapping(old(store.list), id).None? then NotFound else if io.Fine? then Done else Failed
    {
      var found := store.DeleteMapping(id, io);
      if found.Err? {
        return Failed;
      }
      if !found.value {
        return NotFound;
      }
      StopListener(id, order);
      reply := Done;
    }
  }
}
