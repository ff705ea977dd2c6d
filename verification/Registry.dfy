/** The shared tables of the tunnel server: the session map, the accept loops and their handles
    (src/tunnel/listener.rs), and the admin handlers that change store and listeners together
    (src/web/routes.rs).  Everything here happens under a lock and is one step. */
module Registry {
  import opened Common
  import opened Store
  import opened StoreFacts

  /** An accept loop.  `aborted` is a request; the loop holds its port until it is `finished`. */
  datatype Acceptor = Acceptor(session: nat, mapping: string, port: Port, local: string,
                               aborted: bool, finished: bool)

  /** A SessionInfo.  `cleaned` records that the session's own cleanup has run. */
  datatype Session = Session(client: string, listeners: map<string, nat>, cleaned: bool)

  /** Where a mapping came from: its owner, and the port and address it was created with. */
  datatype Origin = Origin(owner: string, port: Port, local: string)

  /** `sessions` is the session map; `all` are all sessions ever inserted and `tasks` all accept
      loops ever spawned, each known by its index; `issued` records every mapping ever created. */
  datatype Reg = Reg(clients: seq<Client>, maxClients: nat, sessions: map<string, nat>, all: seq<Session>,
                     tasks: seq<Acceptor>, issued: map<string, Origin>)

  /** What is known of the mappings of a client list that was loaded: each is as it was created. */
  function IssuedBefore(list: seq<Client>): map<string, Origin> {
    map id | id in MappingIds(list) && FindMapping(list, id).Some? ::
      Origin(FindMapping(list, id).value.0, FindMapping(list, id).value.1.port, FindMapping(list, id).value.1.local)
  }

  function MappingIds(list: seq<Client>): set<string> {
    set c, m | c in list && m in c.mappings :: m.id
  }

  /** The server has just started over a client list that was loaded or is new. */
  function Loaded(list: seq<Client>, maxClients: nat): Reg {
    Reg(list, maxClients, map[], [], [], IssuedBefore(list))
  }

  predicate Registered(r: Reg, s: nat) {
    s < |r.all| && r.all[s].client in r.sessions && r.sessions[r.all[s].client] == s
  }

  // ----- the steps of the listener and session code -----

  /** The capped insert of a verified client: refused at capacity, also for a reconnect. */
  function Insert(r: Reg, client: string): Reg {
    if |r.sessions| >= r.maxClients then r
    else r.(sessions := r.sessions[client := |r.all|], all := r.all + [Session(client, map[], false)])
  }

  predicate PortFree(tasks: seq<Acceptor>, port: Port) {
    forall i | 0 <= i < |tasks| :: tasks[i].finished || tasks[i].port != port
  }

  /** Binding can succeed only on a free port; `bindOk` is false when it fails all the same. */
  function AddListener(r: Reg, client: string, m: Mapping, bindOk: bool): Reg {
    if client !in r.sessions || r.sessions[client] >= |r.all| || !bindOk || !PortFree(r.tasks, m.port) then r
    else
      var s := r.sessions[client];
      var session := r.all[s];
      r.(tasks := r.tasks + [Acceptor(s, m.id, m.port, m.local, false, false)],
         all := r.all[s := session.(listeners := session.listeners[m.id := |r.tasks|])])
  }

  function AddListeners(r: Reg, client: string, ms: seq<Mapping>, binds: set<string>): Reg
    decreases |ms|
  {
    if ms == [] then r
    else AddListeners(if ms[0].enabled then AddListener(r, client, ms[0], ms[0].id in binds) else r,
                      client, ms[1..], binds)
  }

  function StartClientListeners(r: Reg, client: string, binds: set<string>): Reg {
    match Find(r.clients, client)
    case None => r
    case Some(c) => AddListeners(r, client, c.mappings, binds)
  }

  function Abort(tasks: seq<Acceptor>, i: nat): seq<Acceptor> {
    if i < |tasks| then tasks[i := tasks[i].(aborted := true)] else tasks
  }

  /** A handle taken out of its session, and its loop asked to stop. */
  function TakeOut(r: Reg, s: nat, mapping: string): Reg
    requires s < |r.all| && mapping in r.all[s].listeners
  {
    var listeners := r.all[s].listeners;
    r.(all := r.all[s := r.all[s].(listeners := listeners - {mapping})], tasks := Abort(r.tasks, listeners[mapping]))
  }

  /** Visits the registered sessions in the order given and stops at the first that has it. */
  function RemoveListener(r: Reg, mapping: string, order: seq<string>): Reg
    decreases |order|
  {
    if order == [] then r
    else if order[0] in r.sessions && r.sessions[order[0]] < |r.all|
            && mapping in r.all[r.sessions[order[0]]].listeners then
      TakeOut(r, r.sessions[order[0]], mapping)
    else RemoveListener(r, mapping, order[1..])
  }

  function AbortAll(tasks: seq<Acceptor>, handles: set<nat>): (r: seq<Acceptor>)
    ensures |r| == |tasks|
  {
    seq(|tasks|, i requires 0 <= i < |tasks| => if i in handles then tasks[i].(aborted := true) else tasks[i])
  }

  function RemoveClientListeners(r: Reg, client: string): Reg {
    if client !in r.sessions || r.sessions[client] >= |r.all| then r
    else
      var s := r.sessions[client];
      r.(all := r.all[s := r.all[s].(listeners := map[])],
         tasks := AbortAll(r.tasks, r.all[s].listeners.Values))
  }

  /** The end of a driver: the map entry goes only if it is still this session's. */
  function Cleanup(r: Reg, s: nat): Reg {
    if s >= |r.all| then r
    else r.(sessions := if Registered(r, s) then r.sessions - {r.all[s].client} else r.sessions,
            all := r.all[s := r.all[s].(cleaned := true)])
  }

  function Finish(r: Reg, i: nat): Reg {
    if i < |r.tasks| then r.(tasks := r.tasks[i := r.tasks[i].(finished := true)]) else r
  }

  // ----- the admin handlers -----

  /** Identities drawn at random do not collide with any in use or any mapping id ever given out. */
  predicate Drawable(r: Reg, op: Op, pepper: string) {
    FreshDraw(r.clients, op) && FreshToken(r.clients, op, pepper) && (op.AddMapping? ==> op.newId !in r.issued)
  }

  /** The store's part of a handler. */
  function Stored(r: Reg, op: Op, pepper: string): Reg {
    r.(clients := Apply(r.clients, op, pepper),
       issued := if op.AddMapping? && Applies(r.clients, op)
                 then r.issued[op.newId := Origin(op.clientId, op.port, op.local)] else r.issued)
  }

  /** The listeners' part, reached only if the store found its object and persisted the change. */
  function Relisten(r: Reg, op: Op, binds: set<string>, order: seq<string>): Reg {
    match op
    case AddClient(_, _, _) => r
    case RegenerateToken(_, _) => r
    case SetClientEnabled(id, on) =>
      if on then StartClientListeners(r, id, binds) else RemoveClientListeners(r, id)
    case DeleteClient(id) => RemoveClientListeners(r, id)
    case AddMapping(id, name, port, local, newId) =>
      AddListener(r, id, Mapping(newId, name, port, local, true), newId in binds)
    case SetMappingEnabled(id, on) =>
      if on then
        match FindMapping(r.clients, id)
        case Some(found) => AddListener(r, found.0, found.1, id in binds)
        case None => r
      else RemoveListener(r, id, order)
    case DeleteMapping(id) => RemoveListener(r, id, order)
  }

  /** A handler.  A request for port 0 is refused; `saved` tells whether the persist succeeded;
      `order` is the session map's iteration order, which visits every entry. */
  function Admin(r: Reg, op: Op, pepper: string, saved: bool, binds: set<string>, order: seq<string>): Reg {
    if (op.AddMapping? && op.port == 0) || !Drawable(r, op, pepper)
       || !(forall c | c in r.sessions :: c in order) then r
    else if Applies(r.clients, op) && saved then Relisten(Stored(r, op, pepper), op, binds, order)
    else Stored(r, op, pepper)
  }

  // ----- invariants -----

  /** Every stored mapping is one that was created, with the same owner, port and address. */
  ghost predicate OriginsKept(r: Reg) {
    forall o, m | Owns(r.clients, o, m) :: m.id in r.issued && r.issued[m.id] == Origin(o, m.port, m.local)
  }

  /** The map holds, for each client, its newest session, and holds it until that session's own
      cleanup; it never outgrows the limit. */
  predicate Newest(all: seq<Session>, s: nat) {
    forall u | s < u < |all| :: all[u].client != (if s < |all| then all[s].client else "")
  }

  ghost predicate Ownership(r: Reg) {
    && (forall c | c in r.sessions :: r.sessions[c] < |r.all| && r.all[r.sessions[c]].client == c)
    && (forall s: nat | s < |r.all| :: Registered(r, s) <==> Newest(r.all, s) && !r.all[s].cleaned)
    && |r.sessions| <= r.maxClients
  }

  /** Handles are filed in their own session under their own mapping. */
  predicate HandlesFiled(r: Reg) {
    forall s | 0 <= s < |r.all| :: forall m | m in r.all[s].listeners ::
      r.all[s].listeners[m] < |r.tasks|
      && r.tasks[r.all[s].listeners[m]].session == s && r.tasks[r.all[s].listeners[m]].mapping == m
  }

  /** Every accept loop works for a created mapping, for a session of its owner, on its port and
      with its address. */
  predicate TasksGenuine(r: Reg) {
    forall i | 0 <= i < |r.tasks| ::
      && r.tasks[i].session < |r.all|
      && r.tasks[i].mapping in r.issued
      && r.issued[r.tasks[i].mapping] == Origin(r.all[r.tasks[i].session].client, r.tasks[i].port, r.tasks[i].local)
  }

  predicate Filed(r: Reg, i: nat) {
    i < |r.tasks| && r.tasks[i].session < |r.all|
    && r.tasks[i].mapping in r.all[r.tasks[i].session].listeners
    && r.all[r.tasks[i].session].listeners[r.tasks[i].mapping] == i
  }

  /** Every accept loop still running is in its session's map, or has its abort requested, or
      belongs to a session that is no longer registered. */
  predicate NoStrays(r: Reg) {
    forall i: nat | i < |r.tasks| ::
      r.tasks[i].finished || r.tasks[i].aborted || !Registered(r, r.tasks[i].session) || Filed(r, i)
  }

  predicate PortsExclusive(r: Reg) {
    forall i, j | 0 <= i < j < |r.tasks| ::
      r.tasks[i].finished || r.tasks[j].finished || r.tasks[i].port != r.tasks[j].port
  }

  ghost predicate RegInv(r: Reg) {
    && GoodStore(r.clients)
    && OriginsKept(r)
    && Ownership(r)
    && HandlesFiled(r)
    && TasksGenuine(r)
    && NoStrays(r)
    && PortsExclusive(r)
  }

  ghost predicate EnabledMapping(list: seq<Client>, owner: string, id: string) {
    exists m :: Owns(list, owner, m) && m.id == id && m.enabled
  }

  /** Every listener of a registered session belongs to an enabled stored mapping of its client. */
  ghost predicate ListenersSound(r: Reg, list: seq<Client>) {
    forall c | c in r.sessions && r.sessions[c] < |r.all| ::
      forall m | m in r.all[r.sessions[c]].listeners :: EnabledMapping(list, c, m)
  }
}
