/** What the mutations of the client list keep, undo and leave alone, over whole histories. */
module StoreFacts {
  import opened Common
  import opened Store

  // ----- small steps: one client of the list replaced -----

  /** A client replaced by one with the same id, its mappings changed to `ms`. */
  lemma OwnsReplaced(list: seq<Client>, i: nat, c: Client, owner: string, m: Mapping)
    requires GoodStore(list) && i < |list| && c.id == list[i].id
    ensures Owns(list[i := c], owner, m) <==>
            if owner == c.id then m in c.mappings else Owns(list, owner, m)
  {
    var list' := list[i := c];
    if owner == c.id {
      if k :| 0 <= k < |list'| && list'[k].id == owner && m in list'[k].mappings {
        assert k == i;
      }
      if m in c.mappings {
        assert list'[i].id == owner && m in list'[i].mappings;
      }
    } else {
      if k :| 0 <= k < |list| && list[k].id == owner && m in list[k].mappings {
        assert list'[k].id == owner && m in list'[k].mappings;
      }
      if k :| 0 <= k < |list'| && list'[k].id == owner && m in list'[k].mappings {
        assert list[k].id == owner && m in list[k].mappings;
      }
    }
  }

  lemma OwnsAt(list: seq<Client>, i: nat, m: Mapping)
    requires GoodStore(list) && i < |list|
    ensures Owns(list, list[i].id, m) <==> m in list[i].mappings
  {
    if k :| 0 <= k < |list| && list[k].id == list[i].id && m in list[k].mappings {
      assert k == i;
    }
  }

  lemma GoodReplaced(list: seq<Client>, i: nat, c: Client)
    requires GoodStore(list) && i < |list| && c.id == list[i].id && DistinctWithin(c.mappings)
    requires forall k | 0 <= k < |list| && k != i :: Apart(list[k].mappings, c.mappings)
    ensures GoodStore(list[i := c])
  {
    var list' := list[i := c];
    forall k, l | 0 <= k < l < |list'|
      ensures Apart(list'[k].mappings, list'[l].mappings)
    {
      assert Apart(list[k].mappings, list[l].mappings);
      if k == i {
        assert Apart(list[l].mappings, c.mappings);
      }
    }
  }

  lemma SameMappingsGood(list: seq<Client>, i: nat, c: Client)
    requires GoodStore(list) && i < |list| && c.id == list[i].id && c.mappings == list[i].mappings
    ensures GoodStore(list[i := c])
  {
    forall k | 0 <= k < |list| && k != i
      ensures Apart(list[k].mappings, c.mappings)
    {
      if k < i {
        assert Apart(list[k].mappings, list[i].mappings);
      } else {
        assert Apart(list[i].mappings, list[k].mappings);
      }
    }
    GoodReplaced(list, i, c);
  }

  // ----- mapping operations over the whole list -----

  lemma WithoutMappingGood(list: seq<Client>, id: string)
    requires GoodStore(list)
    ensures GoodStore(WithoutMapping(list, id))
  {
    var r := WithoutMapping(list, id);
    forall i | 0 <= i < |r|
      ensures DistinctWithin(r[i].mappings)
    {
      RetainDistinct(list[i].mappings, id);
    }
    forall i, j | 0 <= i < j < |r|
      ensures Apart(r[i].mappings, r[j].mappings)
    {
      assert Apart(list[i].mappings, list[j].mappings);
      RetainExact(list[i].mappings, id);
      RetainExact(list[j].mappings, id);
    }
  }

  lemma WithoutMappingOwns(list: seq<Client>, id: string, owner: string, m: Mapping)
    ensures Owns(WithoutMapping(list, id), owner, m) <==> Owns(list, owner, m) && m.id != id
  {
    var r := WithoutMapping(list, id);
    forall i | 0 <= i < |list|
      ensures m in r[i].mappings <==> m in list[i].mappings && m.id != id
    {
      RetainExact(list[i].mappings, id);
    }
    assert forall i | 0 <= i < |list| :: r[i].id == list[i].id;
    if i :| 0 <= i < |list| && list[i].id == owner && m in list[i].mappings && m.id != id {
      assert r[i].id == owner && m in r[i].mappings;
    }
  }

  lemma ToggleMembers(ms: seq<Mapping>, id: string, on: bool, m: Mapping)
    requires DistinctWithin(ms)
    ensures DistinctWithin(Toggle(ms, id, on))
    ensures m in Toggle(ms, id, on) <==>
            if m.id != id then m in ms
            else m.enabled == on && (m.(enabled := true) in ms || m.(enabled := false) in ms)
  {
    var r := Toggle(ms, id, on);
    ToggleExact(ms, id, on);
    if k :| 0 <= k < |r| && r[k] == m {
      assert ms[k] in ms && m == (if ms[k].id == id then ms[k].(enabled := on) else ms[k]);
      assert m.id == id ==> ms[k] == m.(enabled := ms[k].enabled);
    }
    var from := if m.id != id then m else if m.(enabled := true) in ms then m.(enabled := true)
                else m.(enabled := false);
    if k :| 0 <= k < |ms| && ms[k] == from && (m.id == id ==> m.enabled == on) {
      assert r[k] == m;
    }
  }

  /** Every id and port of r comes from a mapping of ms. */
  predicate KeysFrom(r: seq<Mapping>, ms: seq<Mapping>) {
    forall m | m in r :: exists source | source in ms :: source.id == m.id && source.port == m.port
  }

  /** Toggling keeps ids and ports ... */
  lemma {:induction false} ToggleKeys(ms: seq<Mapping>, id: string, on: bool)
    ensures KeysFrom(Toggle(ms, id, on), ms)
  {
    if ms == [] {
    } else {
      ToggleKeys(ms[1..], id, on);
      forall m | m in Toggle(ms, id, on)
        ensures exists source | source in ms :: source.id == m.id && source.port == m.port
      {
        if m in ms[1..] || m == ms[0] {
          assert m in ms;
        } else if ms[0].id == id {
          assert ms[0] in ms;
        } else {
          var source :| source in ms[1..] && source.id == m.id && source.port == m.port;
          assert source in ms;
        }
      }
    }
  }

  /** ... so what was apart stays apart. */
  lemma StillApart(ms: seq<Mapping>, ns: seq<Mapping>, r: seq<Mapping>, s: seq<Mapping>)
    requires Apart(ms, ns) && KeysFrom(r, ms) && KeysFrom(s, ns)
    ensures Apart(r, s)
  {
  }

  lemma WithToggledGood(list: seq<Client>, id: string, on: bool)
    requires GoodStore(list)
    ensures GoodStore(WithToggled(list, id, on))
  {
    var r := WithToggled(list, id, on);
    forall i | 0 <= i < |r|
      ensures DistinctWithin(r[i].mappings)
    {
      ToggleExact(list[i].mappings, id, on);
    }
    forall i, j | 0 <= i < j < |r|
      ensures Apart(r[i].mappings, r[j].mappings)
    {
      ToggleKeys(list[i].mappings, id, on);
      ToggleKeys(list[j].mappings, id, on);
      StillApart(list[i].mappings, list[j].mappings, r[i].mappings, r[j].mappings);
    }
  }

  lemma WithToggledOwns(list: seq<Client>, id: string, on: bool, owner: string, m: Mapping)
    requires GoodStore(list)
    ensures Owns(WithToggled(list, id, on), owner, m) <==>
            if m.id != id then Owns(list, owner, m)
            else m.enabled == on && (Owns(list, owner, m.(enabled := true)) || Owns(list, owner, m.(enabled := false)))
  {
    var r := WithToggled(list, id, on);
    forall i | 0 <= i < |list|
      ensures r[i].id == list[i].id
      ensures m in r[i].mappings <==>
              if m.id != id then m in list[i].mappings
              else m.enabled == on
                   && (m.(enabled := true) in list[i].mappings || m.(enabled := false) in list[i].mappings)
    {
      ToggleMembers(list[i].mappings, id, on, m);
    }
    var from := if m.id != id then m
                else if Owns(list, owner, m.(enabled := true)) then m.(enabled := true)
                else m.(enabled := false);
    if i :| 0 <= i < |list| && list[i].id == owner && from in list[i].mappings && (m.id == id ==> m.enabled == on) {
      assert r[i].id == owner && m in r[i].mappings;
    }
  }

  // ----- every operation -----

  /** What an operation does to the stored mappings, for each of them. */
  ghost predicate OwnsAfter(list: seq<Client>, op: Op, owner: string, m: Mapping) {
    match op
    case DeleteClient(id) => Owns(list, owner, m) && owner != id
    case AddMapping(id, name, port, local, newId) =>
      Owns(list, owner, m)
      || (Applies(list, op) && owner == id && m == Mapping(newId, name, port, local, true))
    case DeleteMapping(id) => Owns(list, owner, m) && m.id != id
    case SetMappingEnabled(id, on) =>
      if m.id != id then Owns(list, owner, m)
      else m.enabled == on && (Owns(list, owner, m.(enabled := true)) || Owns(list, owner, m.(enabled := false)))
    case _ => Owns(list, owner, m)
  }

  lemma DeleteClientOwns(list: seq<Client>, id: string, owner: string, m: Mapping)
    ensures Owns(WithoutClient(list, id), owner, m) <==> Owns(list, owner, m) && owner != id
  {
    var r := WithoutClient(list, id);
    WithoutClientExact(list, id);
    if i :| 0 <= i < |r| && r[i].id == owner && m in r[i].mappings {
      assert r[i] in list;
      var k :| 0 <= k < |list| && list[k] == r[i];
      assert list[k].id == owner && m in list[k].mappings;
    }
    if i :| 0 <= i < |list| && list[i].id == owner && m in list[i].mappings && owner != id {
      assert list[i] in r;
      var k :| 0 <= k < |r| && r[k] == list[i];
      assert r[k].id == owner && m in r[k].mappings;
    }
  }

  /** Enabling, disabling, deleting and adding touch exactly the mapping they name: everything
      else keeps its owner, name, port, address and flag. */
  lemma ApplyOwns(list: seq<Client>, op: Op, pepper: string, owner: string, m: Mapping)
    requires GoodStore(list)
    ensures Owns(Apply(list, op, pepper), owner, m) <==> OwnsAfter(list, op, owner, m)
  {
    match op {
      case AddClient(name, newId, token) =>
        var r := Apply(list, op, pepper);
        if i :| 0 <= i < |list| && list[i].id == owner && m in list[i].mappings {
          assert r[i].id == owner && m in r[i].mappings;
        }
      case DeleteClient(id) =>
        DeleteClientOwns(list, id, owner, m);
        PositionExact(list, id);
      case SetClientEnabled(id, on) =>
        PositionExact(list, id);
        ReplaceOwns(list, op, pepper, owner, m);
      case RegenerateToken(id, token) =>
        PositionExact(list, id);
        ReplaceOwns(list, op, pepper, owner, m);
      case AddMapping(id, name, port, local, newId) =>
        PositionExact(list, id);
        ReplaceOwns(list, op, pepper, owner, m);
      case DeleteMapping(id) =>
        WithoutMappingOwns(list, id, owner, m);
        FindMappingNone(list, id);
      case SetMappingEnabled(id, on) =>
        WithToggledOwns(list, id, on, owner, m);
        FindMappingNone(list, id);
        if FindMapping(list, id).None? && m.id == id {
          assert !Owns(list, owner, m.(enabled := true)) && !Owns(list, owner, m.(enabled := false));
          assert !Owns(list, owner, m);
        }
    }
  }

  lemma ReplaceOwns(list: seq<Client>, op: Op, pepper: string, owner: string, m: Mapping)
    requires GoodStore(list)
    requires op.SetClientEnabled? || op.RegenerateToken? || op.AddMapping?
    ensures Owns(Apply(list, op, pepper), owner, m) <==> OwnsAfter(list, op, owner, m)
  {
    var i := Position(list, if op.AddMapping? then op.clientId else op.id);
    PositionExact(list, if op.AddMapping? then op.clientId else op.id);
    if Applies(list, op) {
      OwnsReplaced(list, i, Apply(list, op, pepper)[i], owner, m);
      OwnsAt(list, i, m);
    }
  }

  lemma AddMappingGood(list: seq<Client>, op: Op, pepper: string)
    requires GoodStore(list) && op.AddMapping? && FreshDraw(list, op) && Applies(list, op)
    ensures GoodStore(Apply(list, op, pepper))
  {
    var i := Position(list, op.clientId);
    PositionExact(list, op.clientId);
    var n := Mapping(op.newId, op.name, op.port, op.local, true);
    forall k | 0 <= k < |list|
      ensures forall m | m in list[k].mappings :: m.id != n.id && m.port != n.port
    {
      FreshIsNew(list, op, k);
      forall m | m in list[k].mappings
        ensures m.port != n.port
      {
        assert Owns(list, list[k].id, m);
        PortTakenExact(list, op.port, None);
      }
    }
    var c := list[i].(mappings := list[i].mappings + [n]);
    assert forall k | 0 <= k < |list[i].mappings| :: list[i].mappings[k] in list[i].mappings;
    forall k | 0 <= k < |list| && k != i
      ensures Apart(list[k].mappings, c.mappings)
    {
      if k < i {
        assert Apart(list[k].mappings, list[i].mappings);
      } else {
        assert Apart(list[i].mappings, list[k].mappings);
      }
    }
    GoodReplaced(list, i, c);
  }

  lemma AddClientGood(list: seq<Client>, op: Op, pepper: string)
    requires GoodStore(list) && FreshDraw(list, op) && op.AddClient?
    ensures GoodStore(Apply(list, op, pepper))
  {
    PositionExact(list, op.newId);
    assert forall k | 0 <= k < |list| :: list[k].id != op.newId;
  }

  lemma ClientUpdateGood(list: seq<Client>, op: Op, pepper: string)
    requires GoodStore(list) && Applies(list, op) && (op.SetClientEnabled? || op.RegenerateToken?)
    ensures GoodStore(Apply(list, op, pepper))
  {
    var i := Position(list, op.id);
    PositionExact(list, op.id);
    SameMappingsGood(list, i, if op.SetClientEnabled? then list[i].(enabled := op.on)
                              else list[i].(digest := Hmac(pepper, op.token)));
  }

  lemma ApplyKeepsGood(list: seq<Client>, op: Op, pepper: string)
    requires GoodStore(list) && FreshDraw(list, op)
    ensures GoodStore(Apply(list, op, pepper))
  {
    if Applies(list, op) {
      match op {
        case AddClient(name, newId, token) => AddClientGood(list, op, pepper);
        case DeleteClient(id) => WithoutClientGood(list, id);
        case SetClientEnabled(id, on) => ClientUpdateGood(list, op, pepper);
        case RegenerateToken(id, token) => ClientUpdateGood(list, op, pepper);
        case AddMapping(_, _, _, _, _) => AddMappingGood(list, op, pepper);
        case DeleteMapping(id) => WithoutMappingGood(list, id);
        case SetMappingEnabled(id, on) => WithToggledGood(list, id, on);
      }
    }
  }

  // ----- every operation, client by client -----

  /** The mapping with this id is gone, and the others keep their places. */
  ghost predicate MappingGone(ms: seq<Mapping>, after: seq<Mapping>, id: string) {
    && (forall k: nat | k < |ms| && ms[k].id == id :: after == ms[..k] + ms[k + 1..])
    && ((forall m | m in ms :: m.id != id) ==> after == ms)
  }

  /** The mapping with this id has the flag, and nothing else is different. */
  ghost predicate MappingFlagged(ms: seq<Mapping>, after: seq<Mapping>, id: string, on: bool) {
    && |after| == |ms|
    && forall k: nat | k < |ms| :: after[k] == if ms[k].id == id then ms[k].(enabled := on) else ms[k]
  }

  ghost predicate PortUnused(list: seq<Client>, port: Port) {
    forall o, m | Owns(list, o, m) :: m.port != port
  }

  /** A client after an operation: the one that is named differs in one field, every other one in none. */
  ghost predicate ClientAfter(list: seq<Client>, c: Client, after: Client, op: Op, pepper: string) {
    match op
    case SetClientEnabled(id, on) => after == if c.id == id then c.(enabled := on) else c
    case RegenerateToken(id, token) => after == if c.id == id then c.(digest := Hmac(pepper, token)) else c
    case AddMapping(id, name, port, local, newId) =>
      var added := Mapping(newId, name, port, local, true);
      after == if c.id == id && PortUnused(list, port) then c.(mappings := c.mappings + [added]) else c
    case DeleteMapping(id) =>
      after == c.(mappings := after.mappings) && MappingGone(c.mappings, after.mappings, id)
    case SetMappingEnabled(id, on) =>
      after == c.(mappings := after.mappings) && MappingFlagged(c.mappings, after.mappings, id, on)
    case _ => after == c
  }

  /** The list after an operation: clients come only at the end, one at a time, go only by their id,
      and keep their places. */
  ghost predicate ClientsAfter(list: seq<Client>, after: seq<Client>, op: Op, pepper: string) {
    match op
    case AddClient(name, newId, token) => after == list + [Client(newId, name, Hmac(pepper, token), true, [])]
    case DeleteClient(id) =>
      && (forall k: nat | k < |list| && list[k].id == id :: after == list[..k] + list[k + 1..])
      && ((forall c | c in list :: c.id != id) ==> after == list)
    case _ =>
      |after| == |list| && forall k: nat | k < |list| :: ClientAfter(list, list[k], after[k], op, pepper)
  }

  lemma DeleteClients(list: seq<Client>, id: string, pepper: string)
    requires GoodStore(list)
    ensures ClientsAfter(list, Apply(list, DeleteClient(id), pepper), DeleteClient(id), pepper)
  {
    PositionExact(list, id);
    forall k: nat | k < |list| && list[k].id == id
      ensures Apply(list, DeleteClient(id), pepper) == list[..k] + list[k + 1..]
    {
      assert HasClient(list, id);
      WithoutClientOrder(list, id, k);
    }
    if Position(list, id) < |list| {
      assert list[Position(list, id)] in list;
    }
  }

  lemma ReplaceClients(list: seq<Client>, op: Op, pepper: string)
    requires GoodStore(list)
    requires op.SetClientEnabled? || op.RegenerateToken?
    ensures ClientsAfter(list, Apply(list, op, pepper), op, pepper)
  {
    PositionExact(list, op.id);
    assert forall k: nat | k < |list| && list[k].id == op.id :: HasClient(list, op.id) && k == Position(list, op.id);
  }

  lemma AddMappingClients(list: seq<Client>, op: Op, pepper: string)
    requires GoodStore(list) && op.AddMapping?
    ensures ClientsAfter(list, Apply(list, op, pepper), op, pepper)
  {
    PositionExact(list, op.clientId);
    PortTakenExact(list, op.port, None);
    assert PortUnused(list, op.port) <==> !PortTaken(list, op.port, None);
    assert forall k: nat | k < |list| && list[k].id == op.clientId ::
        HasClient(list, op.clientId) && k == Position(list, op.clientId);
  }

  lemma NowhereStored(list: seq<Client>, id: string, k: nat)
    requires GoodStore(list) && FindMapping(list, id).None? && k < |list|
    ensures forall m | m in list[k].mappings :: m.id != id
  {
    FindMappingNone(list, id);
    forall m | m in list[k].mappings
      ensures m.id != id
    {
      assert Owns(list, list[k].id, m);
    }
  }

  lemma RetainGone(ms: seq<Mapping>, id: string)
    requires DistinctWithin(ms)
    ensures MappingGone(ms, Retain(ms, id), id)
  {
    forall k: nat | k < |ms| && ms[k].id == id
      ensures Retain(ms, id) == ms[..k] + ms[k + 1..]
    {
      RetainOrder(ms, id, k);
    }
    if forall m | m in ms :: m.id != id {
      RetainAbsent(ms, id);
    }
  }

  lemma MappingClients(list: seq<Client>, op: Op, pepper: string)
    requires GoodStore(list)
    requires op.DeleteMapping? || op.SetMappingEnabled?
    ensures ClientsAfter(list, Apply(list, op, pepper), op, pepper)
  {
    var r := Apply(list, op, pepper);
    forall k: nat | k < |list|
      ensures ClientAfter(list, list[k], r[k], op, pepper)
    {
      if FindMapping(list, op.id).None? {
        NowhereStored(list, op.id, k);
        assert forall j: nat | j < |list[k].mappings| :: list[k].mappings[j] in list[k].mappings;
      } else if op.DeleteMapping? {
        RetainGone(list[k].mappings, op.id);
      } else {
        ToggleExact(list[k].mappings, op.id, op.on);
      }
    }
  }

  /** No operation touches a client it does not name, or a field it is not about. */
  lemma ApplyClients(list: seq<Client>, op: Op, pepper: string)
    requires GoodStore(list)
    ensures ClientsAfter(list, Apply(list, op, pepper), op, pepper)
  {
    match op {
      case AddClient(_, _, _) =>
      case DeleteClient(id) => DeleteClients(list, id, pepper);
      case SetClientEnabled(_, _) => ReplaceClients(list, op, pepper);
      case RegenerateToken(_, _) => ReplaceClients(list, op, pepper);
      case AddMapping(_, _, _, _, _) => AddMappingClients(list, op, pepper);
      case DeleteMapping(_) => MappingClients(list, op, pepper);
      case SetMappingEnabled(_, _) => MappingClients(list, op, pepper);
    }
  }

  /** An operation applies exactly when what it is about is there, and for a new mapping when its port
      is nobody's. */
  lemma AppliesExact(list: seq<Client>, op: Op)
    requires GoodStore(list)
    ensures Applies(list, op) <==>
            match op
            case AddClient(_, _, _) => true
            case DeleteClient(id) => HasClient(list, id)
            case SetClientEnabled(id, _) => HasClient(list, id)
            case RegenerateToken(id, _) => HasClient(list, id)
            case AddMapping(id, _, port, _, _) => HasClient(list, id) && PortUnused(list, port)
            case DeleteMapping(id) => exists o, m :: Owns(list, o, m) && m.id == id
            case SetMappingEnabled(id, _) => exists o, m :: Owns(list, o, m) && m.id == id
  {
    match op {
      case AddClient(_, _, _) =>
      case AddMapping(id, _, port, _, _) =>
        PositionExact(list, id);
        PortTakenExact(list, port, None);
        assert PortUnused(list, port) <==> !PortTaken(list, port, None);
      case DeleteMapping(id) => FindMappingNone(list, id);
      case SetMappingEnabled(id, _) => FindMappingNone(list, id);
      case _ => PositionExact(list, op.id);
    }
  }

  // ----- undoing -----

  lemma FreshIsNew(list: seq<Client>, op: Op, k: nat)
    requires GoodStore(list) && op.AddMapping? && FreshDraw(list, op) && k < |list|
    ensures forall m | m in list[k].mappings :: m.id != op.newId
  {
    FindMappingNone(list, op.newId);
    forall m | m in list[k].mappings
      ensures m.id != op.newId
    {
      assert Owns(list, list[k].id, m);
    }
  }

  lemma AddedIsFound(list: seq<Client>, op: Op, pepper: string)
    requires GoodStore(list) && op.AddMapping? && FreshDraw(list, op) && Applies(list, op)
    ensures FindMapping(Apply(list, op, pepper), op.newId).Some?
  {
    var i := Position(list, op.clientId);
    PositionExact(list, op.clientId);
    var added := Apply(list, op, pepper);
    var n := Mapping(op.newId, op.name, op.port, op.local, true);
    AddMappingGood(list, op, pepper);
    assert added[i].id == op.clientId && added[i].mappings[|list[i].mappings|] == n;
    assert Owns(added, op.clientId, n);
    FindMappingExact(added, op.newId, op.clientId, n);
  }

  /** Deleting a mapping that was just added gives back the list, to the last field. */
  lemma DeleteUndoesAdd(list: seq<Client>, op: Op, pepper: string)
    requires GoodStore(list) && op.AddMapping? && FreshDraw(list, op) && Applies(list, op)
    ensures Apply(Apply(list, op, pepper), DeleteMapping(op.newId), pepper) == list
  {
    var i := Position(list, op.clientId);
    AddedIsFound(list, op, pepper);
    var r := WithoutMapping(Apply(list, op, pepper), op.newId);
    forall k | 0 <= k < |list|
      ensures r[k] == list[k]
    {
      FreshIsNew(list, op, k);
      RetainAbsent(list[k].mappings, op.newId);
      RetainLast(list[i].mappings, Mapping(op.newId, op.name, op.port, op.local, true));
    }
  }

  lemma {:induction false} RetainLast(ms: seq<Mapping>, n: Mapping)
    ensures Retain(ms + [n], n.id) == Retain(ms, n.id)
  {
    if ms == [] {
      assert [n][1..] == [];
    } else {
      RetainLast(ms[1..], n);
      assert (ms + [n])[1..] == ms[1..] + [n];
    }
  }

  lemma {:induction false} DeleteUndoesAddClient(list: seq<Client>, name: string, newId: string,
                                                 token: string, pepper: string)
    requires Position(list, newId) == |list|
    ensures Apply(Apply(list, AddClient(name, newId, token), pepper), DeleteClient(newId), pepper) == list
  {
    var c := Client(newId, name, Hmac(pepper, token), true, []);
    PositionExact(list + [c], newId);
    assert (list + [c])[|list|].id == newId;
    assert HasClient(list + [c], newId);
    WithoutLast(list, c);
  }

  lemma {:induction false} WithoutLast(list: seq<Client>, c: Client)
    requires Position(list, c.id) == |list|
    ensures WithoutClient(list + [c], c.id) == list
  {
    if list == [] {
      assert [c][1..] == [];
    } else {
      assert (list + [c])[1..] == list[1..] + [c];
      WithoutLast(list[1..], c);
    }
  }

  // ----- token lookup refines a map -----

  /** What the administrator did to a client: the last token issued to it, and its flag. */
  datatype Account = Account(token: string, enabled: bool)

  /** A drawn token is nobody's current token. */
  predicate FreshToken(list: seq<Client>, op: Op, pepper: string) {
    match op
    case AddClient(_, _, token) => forall c | c in list :: c.digest != Hmac(pepper, token)
    case RegenerateToken(_, token) => forall c | c in list :: c.digest != Hmac(pepper, token)
    case _ => true
  }

  /** The store after a history of operations; a draw that collides does not happen. */
  function StoreRun(ops: seq<Op>, pepper: string): seq<Client> {
    if ops == [] then []
    else
      var list := StoreRun(ops[..|ops| - 1], pepper);
      var op := ops[|ops| - 1];
      if FreshDraw(list, op) && FreshToken(list, op, pepper) then Apply(list, op, pepper) else list
  }

  function AccountStep(acc: map<string, Account>, op: Op): map<string, Account> {
    match op
    case AddClient(_, id, token) =>
      if id in acc || exists i | i in acc :: acc[i].token == token then acc else acc[id := Account(token, true)]
    case DeleteClient(id) => acc - {id}
    case SetClientEnabled(id, on) => if id in acc then acc[id := acc[id].(enabled := on)] else acc
    case RegenerateToken(id, token) =>
      if id !in acc || exists i | i in acc :: acc[i].token == token then acc else acc[id := acc[id].(token := token)]
    case _ => acc
  }

  /** The reference: a map from client ids, which knows nothing of the list. */
  function Accounts(ops: seq<Op>): map<string, Account> {
    if ops == [] then map[] else AccountStep(Accounts(ops[..|ops| - 1]), ops[|ops| - 1])
  }

  /** Every client has its account ... */
  predicate Matches(list: seq<Client>, acc: map<string, Account>, pepper: string) {
    forall c | c in list ::
      c.id in acc && acc[c.id] == Account(c.digest.token, c.enabled) && c.digest.pepper == pepper
  }

  /** ... and every account its client. */
  predicate Covered(list: seq<Client>, acc: map<string, Account>) {
    forall id | id in acc :: Position(list, id) < |list|
  }

  predicate TokensDiffer(acc: map<string, Account>) {
    forall i, j | i in acc && j in acc && i != j :: acc[i].token != acc[j].token
  }

  ghost predicate Represents(list: seq<Client>, acc: map<string, Account>, pepper: string) {
    GoodStore(list) && Matches(list, acc, pepper) && Covered(list, acc) && TokensDiffer(acc)
  }

  lemma RepresentsTokens(list: seq<Client>, acc: map<string, Account>, pepper: string, token: string)
    requires Represents(list, acc, pepper)
    ensures (forall c | c in list :: c.digest != Hmac(pepper, token)) <==> !exists i | i in acc :: acc[i].token == token
  {
    forall i | i in acc && acc[i].token == token
      ensures exists c :: c in list && c.digest == Hmac(pepper, token)
    {
      PositionExact(list, i);
      var c := list[Position(list, i)];
      assert c in list && c.digest == Hmac(pepper, token);
    }
  }

  /** Mappings come and go without touching ids, hashes and flags of clients. */
  lemma MappingOpsKeepClients(list: seq<Client>, op: Op, pepper: string)
    requires op.AddMapping? || op.DeleteMapping? || op.SetMappingEnabled?
    ensures var r := Apply(list, op, pepper);
            |r| == |list|
            && (forall i | 0 <= i < |list| :: r[i] == list[i].(mappings := r[i].mappings))
            && forall id :: Position(r, id) == Position(list, id)
  {
    var r := Apply(list, op, pepper);
    forall id
      ensures Position(r, id) == Position(list, id)
    {
      SamePosition(list, r, id);
    }
  }

  lemma {:induction false} SamePosition(list: seq<Client>, r: seq<Client>, id: string)
    requires |r| == |list| && forall i | 0 <= i < |list| :: r[i].id == list[i].id
    ensures Position(r, id) == Position(list, id)
  {
    if list == [] {
    } else {
      SamePosition(list[1..], r[1..], id);
    }
  }

  lemma RepresentsMappingOp(list: seq<Client>, acc: map<string, Account>, op: Op, pepper: string)
    requires Represents(list, acc, pepper) && FreshDraw(list, op)
    requires op.AddMapping? || op.DeleteMapping? || op.SetMappingEnabled?
    ensures Represents(Apply(list, op, pepper), acc, pepper)
  {
    var r := Apply(list, op, pepper);
    MappingOpsKeepClients(list, op, pepper);
    ApplyKeepsGood(list, op, pepper);
    forall c | c in r
      ensures c.id in acc && acc[c.id] == Account(c.digest.token, c.enabled) && c.digest.pepper == pepper
    {
      var i :| 0 <= i < |r| && r[i] == c;
      assert list[i] in list;
    }
  }

  /** The store with one client replaced (same id, same mappings) represents the updated map. */
  lemma RepresentsReplaced(list: seq<Client>, acc: map<string, Account>, i: nat, c: Client, pepper: string)
    requires Represents(list, acc, pepper) && i < |list|
    requires c.id == list[i].id && c.mappings == list[i].mappings && c.digest.pepper == pepper
    requires c.digest.token == list[i].digest.token || forall j | j in acc :: acc[j].token != c.digest.token
    ensures Represents(list[i := c], acc[c.id := Account(c.digest.token, c.enabled)], pepper)
  {
    var r := list[i := c];
    assert list[i] in list;
    SameMappingsGood(list, i, c);
    forall id
      ensures Position(r, id) == Position(list, id)
    {
      SamePosition(list, r, id);
    }
    forall d | d in r
      ensures d == c || (d in list && d.id != c.id)
    {
      var k :| 0 <= k < |r| && r[k] == d;
      if k != i {
        assert list[k] == d;
      }
    }
  }

  lemma AddedCovered(list: seq<Client>, acc: map<string, Account>, c: Client, a: Account)
    requires Covered(list, acc)
    ensures Covered(list + [c], acc[c.id := a])
  {
    var r := list + [c];
    forall j | j in acc || j == c.id
      ensures Position(r, j) < |r|
    {
      PositionExact(list, j);
      PositionExact(r, j);
      var k := if j == c.id then |list| else Position(list, j);
      assert r[k].id == j;
    }
  }

  lemma AddedMatches(list: seq<Client>, acc: map<string, Account>, c: Client, pepper: string)
    requires Matches(list, acc, pepper) && c.id !in acc && c.digest.pepper == pepper
    ensures Matches(list + [c], acc[c.id := Account(c.digest.token, c.enabled)], pepper)
  {
  }

  lemma RepresentsAdded(list: seq<Client>, acc: map<string, Account>, op: Op, pepper: string)
    requires Represents(list, acc, pepper) && op.AddClient?
    ensures var drawn := FreshDraw(list, op) && FreshToken(list, op, pepper);
            Represents(if drawn then Apply(list, op, pepper) else list, AccountStep(acc, op), pepper)
  {
    var id := op.newId;
    RepresentsTokens(list, acc, pepper, op.token);
    KnownExactly(list, acc, pepper, id);
    if FreshDraw(list, op) && FreshToken(list, op, pepper) {
      var c := Client(id, op.name, Hmac(pepper, op.token), true, []);
      AddClientGood(list, op, pepper);
      AddedMatches(list, acc, c, pepper);
      AddedCovered(list, acc, c, Account(op.token, true));
    }
  }

  lemma KnownExactly(list: seq<Client>, acc: map<string, Account>, pepper: string, id: string)
    requires Matches(list, acc, pepper) && Covered(list, acc)
    ensures id in acc <==> Position(list, id) < |list|
  {
    PositionExact(list, id);
    if Position(list, id) < |list| {
      assert list[Position(list, id)] in list;
    }
  }

  lemma DeletedMatches(list: seq<Client>, acc: map<string, Account>, id: string, pepper: string)
    requires Matches(list, acc, pepper)
    ensures Matches(WithoutClient(list, id), acc - {id}, pepper)
  {
    WithoutClientExact(list, id);
  }

  lemma DeletedCovered(list: seq<Client>, acc: map<string, Account>, id: string)
    requires Covered(list, acc)
    ensures Covered(WithoutClient(list, id), acc - {id})
  {
    forall j | j in acc && j != id
      ensures Position(WithoutClient(list, id), j) < |WithoutClient(list, id)|
    {
      StillThere(list, id, j);
    }
  }

  lemma RepresentsDeleted(list: seq<Client>, acc: map<string, Account>, id: string, pepper: string)
    requires Represents(list, acc, pepper)
    ensures Represents(Apply(list, DeleteClient(id), pepper), AccountStep(acc, DeleteClient(id)), pepper)
  {
    if Position(list, id) == |list| {
      assert id !in acc;
      assert acc - {id} == acc;
    } else {
      ApplyKeepsGood(list, DeleteClient(id), pepper);
      DeletedMatches(list, acc, id, pepper);
      DeletedCovered(list, acc, id);
    }
  }

  lemma StillThere(list: seq<Client>, id: string, j: string)
    requires Position(list, j) < |list| && j != id
    ensures Position(WithoutClient(list, id), j) < |WithoutClient(list, id)|
  {
    var r := WithoutClient(list, id);
    WithoutClientExact(list, id);
    PositionExact(list, j);
    PositionExact(r, j);
    var c := list[Position(list, j)];
    assert c in r;
    var k :| 0 <= k < |r| && r[k] == c;
    assert r[k].id == j;
  }

  lemma RepresentsRegenerated(list: seq<Client>, acc: map<string, Account>, op: Op, pepper: string)
    requires Represents(list, acc, pepper) && op.RegenerateToken?
    ensures var drawn := FreshToken(list, op, pepper);
            Represents(if drawn then Apply(list, op, pepper) else list, AccountStep(acc, op), pepper)
  {
    var i := Position(list, op.id);
    PositionExact(list, op.id);
    RepresentsTokens(list, acc, pepper, op.token);
    if i < |list| {
      assert list[i] in list;
      if FreshToken(list, op, pepper) {
        RepresentsReplaced(list, acc, i, Apply(list, op, pepper)[i], pepper);
        assert Apply(list, op, pepper) == list[i := Apply(list, op, pepper)[i]];
      }
    }
  }

  lemma RepresentsEnabled(list: seq<Client>, acc: map<string, Account>, op: Op, pepper: string)
    requires Represents(list, acc, pepper) && op.SetClientEnabled?
    ensures Represents(Apply(list, op, pepper), AccountStep(acc, op), pepper)
  {
    var i := Position(list, op.id);
    PositionExact(list, op.id);
    if i < |list| {
      assert list[i] in list;
      RepresentsReplaced(list, acc, i, list[i].(enabled := op.on), pepper);
    }
  }

  lemma {:induction false} StoreRefinesAccounts(ops: seq<Op>, pepper: string)
    ensures Represents(StoreRun(ops, pepper), Accounts(ops), pepper)
  {
    if ops == [] {
    } else {
      var prior, op := ops[..|ops| - 1], ops[|ops| - 1];
      StoreRefinesAccounts(prior, pepper);
      var list, acc := StoreRun(prior, pepper), Accounts(prior);
      match op {
        case AddClient(_, _, _) => RepresentsAdded(list, acc, op, pepper);
        case DeleteClient(id) => RepresentsDeleted(list, acc, id, pepper);
        case SetClientEnabled(_, _) => RepresentsEnabled(list, acc, op, pepper);
        case RegenerateToken(_, _) => RepresentsRegenerated(list, acc, op, pepper);
        case _ =>
          if FreshDraw(list, op) {
            RepresentsMappingOp(list, acc, op, pepper);
          }
      }
    }
  }

  lemma {:induction false} VerifyTokenExact(list: seq<Client>, token: string, pepper: string)
    ensures VerifyToken(list, token, pepper).Some? ==>
              exists c :: c in list && c.id == VerifyToken(list, token, pepper).value
                          && c.digest == Hmac(pepper, token) && c.enabled
    ensures VerifyToken(list, token, pepper).None? ==>
              forall c | c in list :: !(c.digest == Hmac(pepper, token) && c.enabled)
  {
    if list == [] {
    } else {
      VerifyTokenExact(list[1..], token, pepper);
      if list[0].digest == Hmac(pepper, token) && list[0].enabled {
        assert list[0] in list;
      } else if VerifyToken(list[1..], token, pepper).Some? {
        var c :| c in list[1..] && c.id == VerifyToken(list, token, pepper).value
                 && c.digest == Hmac(pepper, token) && c.enabled;
        assert c in list;
      }
    }
  }

  /** Over every history: a token is accepted as a client's exactly when the client exists, is
      enabled, and that is the last token issued to it. */
  lemma TokenLookup(ops: seq<Op>, pepper: string, token: string, id: string)
    ensures var acc := Accounts(ops);
            VerifyToken(StoreRun(ops, pepper), token, pepper) == Some(id)
            <==> id in acc && acc[id].enabled && acc[id].token == token
  {
    var list, acc := StoreRun(ops, pepper), Accounts(ops);
    StoreRefinesAccounts(ops, pepper);
    VerifyTokenExact(list, token, pepper);
    var found := VerifyToken(list, token, pepper);
    if id in acc && acc[id].enabled && acc[id].token == token {
      PositionExact(list, id);
      var c := list[Position(list, id)];
      assert c in list && c.digest == Hmac(pepper, token) && c.enabled;
      var d :| d in list && d.id == found.value && d.digest == Hmac(pepper, token) && d.enabled;
      assert acc[d.id].token == acc[c.id].token;
    }
  }

  /** Over every history ids and ports stay distinct, so each lookup has at most one answer. */
  lemma StoreStaysGood(ops: seq<Op>, pepper: string)
    ensures GoodStore(StoreRun(ops, pepper))
  {
    StoreRefinesAccounts(ops, pepper);
  }
}
