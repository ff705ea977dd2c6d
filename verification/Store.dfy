/** The client list of src/state.rs as a value: its lookups, and what each mutation does to it. */
module Store {
  import opened Common

  /** HMAC-SHA-256 of a token under the server's pepper, taken to be injective. */
  datatype Digest = Hmac(pepper: string, token: string)

  type Port = x: int | 0 <= x < 0x1_0000

  datatype Mapping = Mapping(id: string, name: string, port: Port, local: string, enabled: bool)

  datatype Client = Client(id: string, name: string, digest: Digest, enabled: bool, mappings: seq<Mapping>)

  // ----- lookups -----

  /** The index of the first client with this id; the length of the list if there is none. */
  function Position(list: seq<Client>, id: string): (i: nat)
    ensures i <= |list|
  {
    if list == [] then 0
    else if list[0].id == id then 0
    else 1 + Position(list[1..], id)
  }

  function Find(list: seq<Client>, id: string): Option<Client> {
    var i := Position(list, id);
    if i < |list| then Some(list[i]) else None
  }

  function MappingIn(ms: seq<Mapping>, id: string): Option<Mapping> {
    if ms == [] then None
    else if ms[0].id == id then Some(ms[0])
    else MappingIn(ms[1..], id)
  }

  function FindMapping(list: seq<Client>, id: string): Option<(string, Mapping)> {
    if list == [] then None
    else match MappingIn(list[0].mappings, id)
      case Some(m) => Some((list[0].id, m))
      case None => FindMapping(list[1..], id)
  }

  /** The first enabled client whose stored hash is that of the token. */
  function VerifyToken(list: seq<Client>, token: string, pepper: string): Option<string> {
    if list == [] then None
    else if list[0].digest == Hmac(pepper, token) && list[0].enabled then Some(list[0].id)
    else VerifyToken(list[1..], token, pepper)
  }

  predicate PortTaken(list: seq<Client>, port: Port, ignore: Option<string>) {
    exists c | c in list :: exists m | m in c.mappings :: m.port == port && Some(m.id) != ignore
  }

  // ----- mutations -----

  /** `retain` of the mappings with another id. */
  function Retain(ms: seq<Mapping>, id: string): seq<Mapping> {
    if ms == [] then []
    else (if ms[0].id == id then [] else [ms[0]]) + Retain(ms[1..], id)
  }

  /** Sets the flag of the first mapping with this id. */
  function Toggle(ms: seq<Mapping>, id: string, on: bool): seq<Mapping> {
    if ms == [] then []
    else if ms[0].id == id then [ms[0].(enabled := on)] + ms[1..]
    else [ms[0]] + Toggle(ms[1..], id, on)
  }

  function WithoutClient(list: seq<Client>, id: string): seq<Client> {
    if list == [] then []
    else (if list[0].id == id then [] else [list[0]]) + WithoutClient(list[1..], id)
  }

  function WithoutMapping(list: seq<Client>, id: string): (r: seq<Client>)
    ensures |r| == |list|
  {
    seq(|list|, i requires 0 <= i < |list| => list[i].(mappings := Retain(list[i].mappings, id)))
  }

  function WithToggled(list: seq<Client>, id: string, on: bool): (r: seq<Client>)
    ensures |r| == |list|
  {
    seq(|list|, i requires 0 <= i < |list| => list[i].(mappings := Toggle(list[i].mappings, id, on)))
  }

  /** The mutations, with the values drawn at random for them. */
  datatype Op =
    | AddClient(name: string, newId: string, token: string)
    | DeleteClient(id: string)
    | SetClientEnabled(id: string, on: bool)
    | RegenerateToken(id: string, token: string)
    | AddMapping(clientId: string, name: string, port: Port, local: string, newId: string)
    | DeleteMapping(id: string)
    | SetMappingEnabled(id: string, on: bool)

  /** Whether the operation finds what it is about (and so changes the list and persists it). */
  predicate Applies(list: seq<Client>, op: Op) {
    match op
    case AddClient(_, _, _) => true
    case DeleteClient(id) => Position(list, id) < |list|
    case SetClientEnabled(id, _) => Position(list, id) < |list|
    case RegenerateToken(id, _) => Position(list, id) < |list|
    case AddMapping(id, _, port, _, _) => !PortTaken(list, port, None) && Position(list, id) < |list|
    case DeleteMapping(id) => FindMapping(list, id).Some?
    case SetMappingEnabled(id, _) => FindMapping(list, id).Some?
  }

  function Apply(list: seq<Client>, op: Op, pepper: string): seq<Client> {
    if !Applies(list, op) then list
    else match op
      case AddClient(name, newId, token) => list + [Client(newId, name, Hmac(pepper, token), true, [])]
      case DeleteClient(id) => WithoutClient(list, id)
      case SetClientEnabled(id, on) =>
        var i := Position(list, id); list[i := list[i].(enabled := on)]
      case RegenerateToken(id, token) =>
        var i := Position(list, id); list[i := list[i].(digest := Hmac(pepper, token))]
      case AddMapping(id, name, port, local, newId) =>
        var i := Position(list, id);
        list[i := list[i].(mappings := list[i].mappings + [Mapping(newId, name, port, local, true)])]
      case DeleteMapping(id) => WithoutMapping(list, id)
      case SetMappingEnabled(id, on) => WithToggled(list, id, on)
  }

  // ----- the store invariant -----

  predicate DistinctWithin(ms: seq<Mapping>) {
    forall i, j | 0 <= i < j < |ms| :: ms[i].id != ms[j].id && ms[i].port != ms[j].port
  }

  predicate Apart(ms: seq<Mapping>, ns: seq<Mapping>) {
    forall m, n | m in ms && n in ns :: m.id != n.id && m.port != n.port
  }

  /** Client ids, mapping ids and public ports are distinct across the whole store. */
  predicate GoodStore(list: seq<Client>) {
    && (forall i, j | 0 <= i < j < |list| :: list[i].id != list[j].id)
    && (forall i, j | 0 <= i < j < |list| :: Apart(list[i].mappings, list[j].mappings))
    && (forall i | 0 <= i < |list| :: DistinctWithin(list[i].mappings))
  }

  /** Mapping m is stored under the client with id `owner`. */
  ghost predicate Owns(list: seq<Client>, owner: string, m: Mapping) {
    exists i :: 0 <= i < |list| && list[i].id == owner && m in list[i].mappings
  }

  ghost predicate HasClient(list: seq<Client>, id: string) {
    exists i :: 0 <= i < |list| && list[i].id == id
  }

  /** The values drawn for an operation collide with nothing stored. */
  predicate FreshDraw(list: seq<Client>, op: Op) {
    match op
    case AddClient(_, newId, _) => Position(list, newId) == |list|
    case AddMapping(_, _, _, _, newId) => FindMapping(list, newId).None?
    case _ => true
  }

  // ----- lookups find exactly what is stored -----

  lemma {:induction false} PositionExact(list: seq<Client>, id: string)
    ensures Position(list, id) < |list| <==> HasClient(list, id)
    ensures Position(list, id) < |list| ==> list[Position(list, id)].id == id
    ensures forall k | 0 <= k < Position(list, id) :: list[k].id != id
  {
    if list == [] {
    } else {
      PositionExact(list[1..], id);
      forall k | 0 <= k < Position(list, id)
        ensures list[k].id != id
      {
        if k > 0 {
          assert list[k] == list[1..][k - 1];
        }
      }
      if i :| 0 <= i < |list| && list[i].id == id && list[0].id != id {
        assert list[1..][i - 1].id == id;
      }
    }
  }

  lemma {:induction false} MappingInExact(ms: seq<Mapping>, id: string)
    ensures MappingIn(ms, id).Some? ==> MappingIn(ms, id).value in ms && MappingIn(ms, id).value.id == id
    ensures MappingIn(ms, id).None? <==> forall m | m in ms :: m.id != id
    ensures DistinctWithin(ms) ==> forall m | m in ms && m.id == id :: MappingIn(ms, id) == Some(m)
  {
    if ms == [] {
    } else {
      MappingInExact(ms[1..], id);
      assert forall m :: m in ms <==> m == ms[0] || m in ms[1..];
    }
  }

  lemma {:induction false} GoodTail(list: seq<Client>)
    requires GoodStore(list) && list != []
    ensures GoodStore(list[1..])
  {
    forall i, j | 0 <= i < j < |list[1..]|
      ensures Apart(list[1..][i].mappings, list[1..][j].mappings)
    {
      assert Apart(list[i + 1].mappings, list[j + 1].mappings);
    }
  }

  lemma OwnsTail(list: seq<Client>, owner: string, m: Mapping)
    requires list != []
    ensures Owns(list, owner, m) <==> (list[0].id == owner && m in list[0].mappings) || Owns(list[1..], owner, m)
  {
    if i :| 0 <= i < |list| && list[i].id == owner && m in list[i].mappings {
      if i > 0 {
        assert list[1..][i - 1].id == owner && m in list[1..][i - 1].mappings;
      }
    }
    if i :| 0 <= i < |list[1..]| && list[1..][i].id == owner && m in list[1..][i].mappings {
      assert list[i + 1].id == owner && m in list[i + 1].mappings;
    }
  }

  /** `find_mapping` yields (owner, m) exactly when m has that id and is stored under that owner:
      at most one mapping in the whole store has a given id. */
  lemma {:induction false} FindMappingExact(list: seq<Client>, id: string, owner: string, m: Mapping)
    requires GoodStore(list)
    ensures FindMapping(list, id) == Some((owner, m)) <==> Owns(list, owner, m) && m.id == id
  {
    if list == [] {
    } else {
      GoodTail(list);
      FindMappingExact(list[1..], id, owner, m);
      OwnsTail(list, owner, m);
      MappingInExact(list[0].mappings, id);
      if MappingIn(list[0].mappings, id).Some? {
        forall i | 0 <= i < |list[1..]|
          ensures forall q | q in list[1..][i].mappings :: q.id != id
        {
          assert Apart(list[0].mappings, list[i + 1].mappings);
        }
      }
    }
  }

  lemma FindMappingNone(list: seq<Client>, id: string)
    requires GoodStore(list)
    ensures FindMapping(list, id).None? <==> forall o, m | Owns(list, o, m) :: m.id != id
  {
    forall o, m | Owns(list, o, m) && m.id == id
      ensures FindMapping(list, id).Some?
    {
      FindMappingExact(list, id, o, m);
    }
    if FindMapping(list, id).Some? {
      var (o, m) := FindMapping(list, id).value;
      FindMappingExact(list, id, o, m);
    }
  }

  lemma PortTakenExact(list: seq<Client>, port: Port, ignore: Option<string>)
    ensures PortTaken(list, port, ignore) <==> exists o, m :: Owns(list, o, m) && m.port == port && Some(m.id) != ignore
  {
    if PortTaken(list, port, ignore) {
      var c :| c in list && exists m | m in c.mappings :: m.port == port && Some(m.id) != ignore;
      var m :| m in c.mappings && m.port == port && Some(m.id) != ignore;
      var i :| 0 <= i < |list| && list[i] == c;
      assert Owns(list, c.id, m);
    }
    if o, m :| Owns(list, o, m) && m.port == port && Some(m.id) != ignore {
      var i :| 0 <= i < |list| && list[i].id == o && m in list[i].mappings;
      assert list[i] in list;
    }
  }

  // ----- what the mutations do to the stored mappings -----

  lemma {:induction false} RetainExact(ms: seq<Mapping>, id: string)
    ensures forall m :: m in Retain(ms, id) <==> m in ms && m.id != id
  {
    if ms == [] {
    } else {
      RetainExact(ms[1..], id);
      assert forall m :: m in ms <==> m == ms[0] || m in ms[1..];
    }
  }

  lemma {:induction false} RetainDistinct(ms: seq<Mapping>, id: string)
    requires DistinctWithin(ms)
    ensures DistinctWithin(Retain(ms, id))
  {
    if ms == [] {
    } else {
      RetainDistinct(ms[1..], id);
      RetainExact(ms[1..], id);
      assert forall n | n in ms[1..] :: n.id != ms[0].id && n.port != ms[0].port;
      assert forall k | 0 <= k < |Retain(ms[1..], id)| :: Retain(ms[1..], id)[k] in ms[1..];
    }
  }

  lemma {:induction false} RetainAbsent(ms: seq<Mapping>, id: string)
    requires forall m | m in ms :: m.id != id
    ensures Retain(ms, id) == ms
  {
    if ms == [] {
    } else {
      assert forall m | m in ms[1..] :: m in ms;
      RetainAbsent(ms[1..], id);
    }
  }

  /** With distinct ids `retain` takes out the one mapping with this id and leaves the others in order. */
  lemma {:induction false} RetainOrder(ms: seq<Mapping>, id: string, k: nat)
    requires DistinctWithin(ms) && k < |ms| && ms[k].id == id
    ensures Retain(ms, id) == ms[..k] + ms[k + 1..]
  {
    if k == 0 {
      assert forall m | m in ms[1..] :: m.id != ms[0].id;
      RetainAbsent(ms[1..], id);
      assert ms[..0] == [];
    } else {
      RetainOrder(ms[1..], id, k - 1);
      assert ms[1..][..k - 1] == ms[1..k] && ms[1..][k..] == ms[k + 1..];
      assert ms[..k] == [ms[0]] + ms[1..k];
    }
  }

  lemma {:induction false} ToggleExact(ms: seq<Mapping>, id: string, on: bool)
    requires DistinctWithin(ms)
    ensures |Toggle(ms, id, on)| == |ms|
    ensures forall k | 0 <= k < |ms| ::
              Toggle(ms, id, on)[k] == if ms[k].id == id then ms[k].(enabled := on) else ms[k]
  {
    if ms == [] {
    } else {
      ToggleExact(ms[1..], id, on);
      forall k | 0 <= k < |ms|
        ensures Toggle(ms, id, on)[k] == if ms[k].id == id then ms[k].(enabled := on) else ms[k]
      {
        if k > 0 {
          assert ms[k] == ms[1..][k - 1];
        }
      }
    }
  }

  lemma {:induction false} WithoutClientExact(list: seq<Client>, id: string)
    ensures forall c :: c in WithoutClient(list, id) <==> c in list && c.id != id
  {
    if list == [] {
    } else {
      WithoutClientExact(list[1..], id);
      assert list == [list[0]] + list[1..];
    }
  }

  lemma {:induction false} WithoutClientAbsent(list: seq<Client>, id: string)
    requires forall c | c in list :: c.id != id
    ensures WithoutClient(list, id) == list
  {
    if list == [] {
    } else {
      assert forall c | c in list[1..] :: c in list;
      WithoutClientAbsent(list[1..], id);
    }
  }

  ghost predicate ClientIdsDiffer(list: seq<Client>) {
    forall i, j | 0 <= i < j < |list| :: list[i].id != list[j].id
  }

  /** With distinct ids the one client with this id goes, and the others stay in order. */
  lemma {:induction false} WithoutClientOrder(list: seq<Client>, id: string, k: nat)
    requires ClientIdsDiffer(list) && k < |list| && list[k].id == id
    ensures WithoutClient(list, id) == list[..k] + list[k + 1..]
  {
    var rest := list[1..];
    if k == 0 {
      assert forall c | c in rest :: c.id != list[0].id;
      WithoutClientAbsent(rest, id);
      assert list[..0] == [];
    } else {
      assert ClientIdsDiffer(rest);
      WithoutClientOrder(rest, id, k - 1);
      assert rest[..k - 1] == list[1..k] && rest[k..] == list[k + 1..];
      assert list[..k] == [list[0]] + list[1..k];
    }
  }

  lemma GoodCons(c: Client, list: seq<Client>)
    requires GoodStore(list) && DistinctWithin(c.mappings)
    requires forall d | d in list :: d.id != c.id && Apart(c.mappings, d.mappings)
    ensures GoodStore([c] + list)
  {
    var r := [c] + list;
    forall i, j | 0 <= i < j < |r|
      ensures r[i].id != r[j].id && Apart(r[i].mappings, r[j].mappings)
    {
      assert r[j] == list[j - 1] && list[j - 1] in list;
      if i > 0 {
        assert r[i] == list[i - 1];
      }
    }
  }

  lemma GoodHead(list: seq<Client>, d: Client)
    requires GoodStore(list) && list != [] && d in list[1..]
    ensures d.id != list[0].id && Apart(list[0].mappings, d.mappings)
  {
    var k :| 0 <= k < |list[1..]| && list[1..][k] == d;
    assert list[k + 1] == d;
  }

  lemma {:induction false} WithoutClientGood(list: seq<Client>, id: string)
    requires GoodStore(list)
    ensures GoodStore(WithoutClient(list, id))
  {
    if list == [] {
    } else {
      GoodTail(list);
      WithoutClientGood(list[1..], id);
      WithoutClientExact(list[1..], id);
      forall d | d in WithoutClient(list[1..], id)
        ensures d.id != list[0].id && Apart(list[0].mappings, d.mappings)
      {
        GoodHead(list, d);
      }
      GoodCons(list[0], WithoutClient(list[1..], id));
    }
  }
}
