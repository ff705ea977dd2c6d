/** The client store over its file: every mutation is followed by a write to a temporary file and
    a rename.  A crash may come after any of these file-system actions. */
module Persistence {
  import opened Common
  import opened Store
  import opened StoreFacts

  /** A file holds nothing, a cut-off document, or a whole one (serialisation round-trips). */
  datatype File = Missing | Torn | Whole(list: seq<Client>)

  /** clients.json and clients.json.tmp. */
  datatype Fs = Fs(main: File, tmp: File)

  /** How the file system answers one persist. */
  datatype Io = Fine | WriteFails | RenameFails

  datatype Outcome<+T> = Ok(value: T) | Err

  /** The states a persist takes the file system through, the last one included. */
  function PersistTrace(fs: Fs, list: seq<Client>, io: Io): seq<Fs> {
    [fs.(tmp := Torn)]
    + (if io.WriteFails? then [] else [fs.(tmp := Whole(list))])
    + (if io.Fine? then [Fs(Whole(list), Missing)] else [])
  }

  /** The states of a load: the first start writes clients.json in place. */
  function LoadTrace(fs: Fs): seq<Fs> {
    if fs.main.Missing? then [fs.(main := Torn), fs.(main := Whole([]))] else []
  }

  function LoadResult(fs: Fs): Outcome<seq<Client>> {
    match fs.main
    case Missing => Ok([])
    case Torn => Err
    case Whole(list) => Ok(list)
  }

  function Last(fs: Fs, trace: seq<Fs>): Fs {
    if trace == [] then fs else trace[|trace| - 1]
  }

  class ClientStore {
    var list: seq<Client>
    var fs: Fs
    const pepper: string
    /** Every state the file system has been in since the store was opened. */
    ghost var trail: seq<Fs>

    /** Wraps a file system whose clients.json is whole or absent; `Load` reports a torn one. */
    constructor (pepper: string, fs: Fs)
      ensures this.pepper == pepper && this.fs == fs && list == [] && trail == [fs]
    {
      this.pepper := pepper;
      this.fs := fs;
      this.list := [];
      this.trail := [fs];
    }

    /** One file-system action. */
    method Act(next: Fs)
      modifies this`fs, this`trail
      ensures fs == next && trail == old(trail) + [next]
    {
      fs := next;
      trail := trail + [next];
    }

    method Load() returns (r: Outcome<()>)
      modifies this
      ensures r.Ok? <==> LoadResult(old(fs)).Ok?
      ensures r.Ok? ==> Ok(list) == LoadResult(old(fs)) && fs.main == Whole(list)
      ensures trail == old(trail) + LoadTrace(old(fs))
    {
      match fs.main {
        case Whole(stored) =>
          list := stored;
          r := Ok(());
        case Torn =>
          r := Err;
        case Missing =>
          Act(fs.(main := Torn));
          Act(fs.(main := Whole([])));
          list := [];
          r := Ok(());
      }
    }

    method Persist(io: Io) returns (r: Outcome<()>)
      modifies this`fs, this`trail
      ensures trail == old(trail) + PersistTrace(old(fs), list, io)
      ensures fs == Last(old(fs), PersistTrace(old(fs), list, io))
      ensures r.Ok? <==> io.Fine?
    {
      Act(fs.(tmp := Torn));
      if io.WriteFails? {
        return Err;
      }
      Act(fs.(tmp := Whole(list)));
      if io.RenameFails? {
        return Err;
      }
      Act(Fs(fs.tmp, Missing));
      r := Ok(());
    }

    /** What every mutation does to memory and to the file. */
    twostate predicate Performed(op: Op, io: Io)
      reads this
    {
      && list == Apply(old(list), op, pepper)
      && (if Applies(old(list), op) then
            trail == old(trail) + PersistTrace(old(fs), list, io)
            && fs == Last(old(fs), PersistTrace(old(fs), list, io))
          else trail == old(trail) && fs == old(fs))
    }

    method AddClient(name: string, newId: string, token: string, io: Io) returns (r: Outcome<(Client, string)>)
      modifies this
      ensures Performed(Op.AddClient(name, newId, token), io)
      ensures r == if io.Fine? then Ok((Client(newId, name, Hmac(pepper, token), true, []), token)) else Err
    {
      var client := Client(newId, name, Hmac(pepper, token), true, []);
      list := list + [client];
      var saved := Persist(io);
      r := if saved.Err? then Err else Ok((client, token));
    }

    /** `retain` of the clients with another id. */
    method RetainClients(id: string)
      modifies this`list
      ensures list == WithoutClient(old(list), id)
    {
      var kept := [];
      var i := 0;
      while i < |list|
        invariant 0 <= i <= |list| && list == old(list)
        invariant kept + WithoutClient(list[i..], id) == WithoutClient(list, id)
      {
        RetainOne(list, i, kept, id);
        if list[i].id != id {
          kept := kept + [list[i]];
        }
        i := i + 1;
      }
      list := kept;
    }

    method DeleteClient(id: string, io: Io) returns (r: Outcome<bool>)
      modifies this
      ensures Performed(Op.DeleteClient(id), io)
      ensures r == if !HasPosition(old(list), id) then Ok(false) else if io.Fine? then Ok(true) else Err
    {
      WithoutClientLength(list, id);
      var before := |list|;
      RetainClients(id);
      var changed := |list| != before;
      if changed {
        var saved := Persist(io);
        if saved.Err? {
          return Err;
        }
      }
      r := Ok(changed);
    }

    method SetClientEnabled(id: string, on: bool, io: Io) returns (r: Outcome<bool>)
      modifies this
      ensures Performed(Op.SetClientEnabled(id, on), io)
      ensures r == if !HasPosition(old(list), id) then Ok(false) else if io.Fine? then Ok(true) else Err
    {
      var i := Position(list, id);
      if i == |list| {
        return Ok(false);
      }
      list := list[i := list[i].(enabled := on)];
      var saved := Persist(io);
      r := if saved.Err? then Err else Ok(true);
    }

    method RegenerateToken(id: string, token: string, io: Io) returns (r: Outcome<Option<string>>)
      modifies this
      ensures Performed(Op.RegenerateToken(id, token), io)
      ensures r == if !HasPosition(old(list), id) then Ok(None) else if io.Fine? then Ok(Some(token)) else Err
    {
      var i := Position(list, id);
      if i == |list| {
        return Ok(None);
      }
      list := list[i := list[i].(digest := Hmac(pepper, token))];
      var saved := Persist(io);
      r := if saved.Err? then Err else Ok(Some(token));
    }

    method AddMapping(clientId: string, name: string, port: Port, local: string, newId: string, io: Io)
      returns (r: Outcome<Option<Mapping>>)
      modifies this
      ensures Performed(Op.AddMapping(clientId, name, port, local, newId), io)
      ensures r == if PortTaken(old(list), port, None) || !HasPosition(old(list), clientId) then Ok(None)
                   else if io.Fine? then Ok(Some(Mapping(newId, name, port, local, true))) else Err
    {
      if PortTaken(list, port, None) {
        return Ok(None);
      }
      var i := Position(list, clientId);
      if i == |list| {
        return Ok(None);
      }
      var m := Mapping(newId, name, port, local, true);
      list := list[i := list[i].(mappings := list[i].mappings + [m])];
      var saved := Persist(io);
      r := if saved.Err? then Err else Ok(Some(m));
    }

    /** `retain` of the mappings with another id, client by client. */
    method RetainMappings(id: string) returns (changed: bool)
      modifies this`list
      ensures list == WithoutMapping(old(list), id)
      ensures changed <==> HasMapping(old(list), id, |old(list)|)
    {
      ghost var before := list;
      changed := false;
      var i := 0;
      while i < |list|
        invariant 0 <= i <= |list| == |before|
        invariant forall k | 0 <= k < i :: list[k] == before[k].(mappings := Retain(before[k].mappings, id))
        invariant forall k | i <= k < |list| :: list[k] == before[k]
        invariant changed <==> HasMapping(before, id, i)
      {
        var ms := list[i].mappings;
        RetainLength(ms, id);
        list := list[i := list[i].(mappings := Retain(ms, id))];
        if |list[i].mappings| != |ms| {
          changed := true;
        }
        i := i + 1;
      }
      assert list == WithoutMapping(before, id);
    }

    method DeleteMapping(id: string, io: Io) returns (r: Outcome<bool>)
      modifies this
      ensures Performed(Op.DeleteMapping(id), io)
      ensures r == if FindMapping(old(list), id).None? then Ok(false) else if io.Fine? then Ok(true) else Err
    {
      FindMappingSome(list, id);
      ghost var before := list;
      var changed := RetainMappings(id);
      if changed {
        var saved := Persist(io);
        if saved.Err? {
          return Err;
        }
      } else {
        UntouchedRetain(before, id);
      }
      r := Ok(changed);
    }

    /** Sets the flag of the mapping with this id, client by client. */
    method ToggleMappings(id: string, on: bool) returns (found: bool)
      modifies this`list
      ensures list == WithToggled(old(list), id, on)
      ensures found <==> HasMapping(old(list), id, |old(list)|)
    {
      ghost var before := list;
      found := false;
      var i := 0;
      while i < |list|
        invariant 0 <= i <= |list| == |before|
        invariant forall k | 0 <= k < i :: list[k] == before[k].(mappings := Toggle(before[k].mappings, id, on))
        invariant forall k | i <= k < |list| :: list[k] == before[k]
        invariant found <==> HasMapping(before, id, i)
      {
        var ms := list[i].mappings;
        if MappingIn(ms, id).Some? {
          list := list[i := list[i].(mappings := Toggle(ms, id, on))];
          found := true;
        } else {
          ToggleAbsent(ms, id, on);
        }
        i := i + 1;
      }
      assert list == WithToggled(before, id, on);
    }

    method SetMappingEnabled(id: string, on: bool, io: Io) returns (r: Outcome<bool>)
      modifies this
      ensures Performed(Op.SetMappingEnabled(id, on), io)
      ensures r == if FindMapping(old(list), id).None? then Ok(false) else if io.Fine? then Ok(true) else Err
    {
      FindMappingSome(list, id);
      ghost var before := list;
      var found := ToggleMappings(id, on);
      if found {
        var saved := Persist(io);
        if saved.Err? {
          return Err;
        }
      } else {
        UntouchedToggle(before, id, on);
      }
      r := Ok(found);
    }
  }

  // ----- the loops and the functions find the same things -----

  predicate HasPosition(list: seq<Client>, id: string) {
    Position(list, id) < |list|
  }

  /** Some of the first n clients has a mapping with this id. */
  predicate HasMapping(list: seq<Client>, id: string, n: nat)
    requires n <= |list|
  {
    exists k | 0 <= k < n :: MappingIn(list[k].mappings, id).Some?
  }

  lemma RetainOne(list: seq<Client>, i: nat, kept: seq<Client>, id: string)
    requires i < |list|
    ensures kept + WithoutClient(list[i..], id)
            == (if list[i].id != id then kept + [list[i]] else kept) + WithoutClient(list[i + 1..], id)
  {
    var rest := WithoutClient(list[i + 1..], id);
    assert list[i..][0] == list[i] && list[i..][1..] == list[i + 1..];
    assert kept + ([list[i]] + rest) == kept + [list[i]] + rest;
  }

  lemma {:induction false} WithoutClientLength(list: seq<Client>, id: string)
    ensures |WithoutClient(list, id)| <= |list|
    ensures |WithoutClient(list, id)| == |list| <==> !HasPosition(list, id)
    ensures !HasPosition(list, id) ==> WithoutClient(list, id) == list
  {
    if list == [] {
    } else {
      WithoutClientLength(list[1..], id);
    }
  }

  lemma {:induction false} RetainLength(ms: seq<Mapping>, id: string)
    ensures |Retain(ms, id)| <= |ms|
    ensures |Retain(ms, id)| == |ms| <==> MappingIn(ms, id).None?
    ensures MappingIn(ms, id).None? ==> Retain(ms, id) == ms
  {
    if ms == [] {
    } else {
      RetainLength(ms[1..], id);
    }
  }

  lemma {:induction false} ToggleAbsent(ms: seq<Mapping>, id: string, on: bool)
    requires MappingIn(ms, id).None?
    ensures Toggle(ms, id, on) == ms
  {
    if ms == [] {
    } else {
      ToggleAbsent(ms[1..], id, on);
    }
  }

  lemma {:induction false} FindMappingSome(list: seq<Client>, id: string)
    ensures FindMapping(list, id).Some? <==> HasMapping(list, id, |list|)
  {
    if list == [] {
    } else {
      FindMappingSome(list[1..], id);
      assert forall k | 0 < k < |list| :: list[k] == list[1..][k - 1];
    }
  }

  lemma UntouchedRetain(list: seq<Client>, id: string)
    requires FindMapping(list, id).None?
    ensures WithoutMapping(list, id) == list
  {
    FindMappingSome(list, id);
    forall k | 0 <= k < |list|
      ensures list[k].(mappings := Retain(list[k].mappings, id)) == list[k]
    {
      RetainLength(list[k].mappings, id);
    }
  }

  lemma UntouchedToggle(list: seq<Client>, id: string, on: bool)
    requires FindMapping(list, id).None?
    ensures WithToggled(list, id, on) == list
  {
    FindMappingSome(list, id);
    forall k | 0 <= k < |list|
      ensures list[k].(mappings := Toggle(list[k].mappings, id, on)) == list[k]
    {
      ToggleAbsent(list[k].mappings, id, on);
    }
  }

  // ----- crashes -----

  /** One mutation and the file system's answer to it. */
  datatype Call = Call(op: Op, io: Io)

  /** Memory after a sequence of calls. */
  function Memory(start: seq<Client>, calls: seq<Call>, pepper: string): seq<Client> {
    if calls == [] then start
    else Apply(Memory(start, calls[..|calls| - 1], pepper), calls[|calls| - 1].op, pepper)
  }

  /** The states a call takes the file system through, after the one it finds. */
  function CallTrace(list: seq<Client>, fs: Fs, call: Call, pepper: string): seq<Fs> {
    if Applies(list, call.op) then PersistTrace(fs, Apply(list, call.op, pepper), call.io) else []
  }

  /** All states of the file system from a start through a sequence of calls. */
  function Trace(start: seq<Client>, fs: Fs, calls: seq<Call>, pepper: string): seq<Fs> {
    if calls == [] then [fs]
    else
      var prior := calls[..|calls| - 1];
      var t := Trace(start, fs, prior, pepper);
      t + CallTrace(Memory(start, prior, pepper), Last(fs, t), calls[|calls| - 1], pepper)
  }

  /** How many calls had been made when the last one that was persisted returned. */
  function LastSaved(start: seq<Client>, calls: seq<Call>, pepper: string): (k: nat)
    ensures k <= |calls|
  {
    if calls == [] then 0
    else
      var n := |calls| - 1;
      if Applies(Memory(start, calls[..n], pepper), calls[n].op) && calls[n].io.Fine? then n + 1
      else LastSaved(start, calls[..n], pepper)
  }

  lemma {:induction false} FileIsLastSaved(start: seq<Client>, fs: Fs, calls: seq<Call>, pepper: string)
    requires fs.main == Whole(start)
    ensures Trace(start, fs, calls, pepper) != []
    ensures Last(fs, Trace(start, fs, calls, pepper)).main
            == Whole(Memory(start, calls[..LastSaved(start, calls, pepper)], pepper))
  {
    if calls == [] {
      assert calls[..0] == calls;
    } else {
      var n := |calls| - 1;
      var k := LastSaved(start, calls, pepper);
      FileIsLastSaved(start, fs, calls[..n], pepper);
      TraceLast(start, fs, calls, pepper);
      var was := Last(fs, Trace(start, fs, calls[..n], pepper));
      FileAfterCall(Memory(start, calls[..n], pepper), was, calls[n], pepper);
      if k == n + 1 {
        assert calls[..k] == calls;
      } else {
        assert calls[..n][..k] == calls[..k];
      }
    }
  }

  lemma TraceLast(start: seq<Client>, fs: Fs, calls: seq<Call>, pepper: string)
    requires calls != [] && Trace(start, fs, calls[..|calls| - 1], pepper) != []
    ensures var prior := calls[..|calls| - 1];
            var was := Last(fs, Trace(start, fs, prior, pepper));
            && Trace(start, fs, calls, pepper) != []
            && Last(fs, Trace(start, fs, calls, pepper))
               == Last(was, CallTrace(Memory(start, prior, pepper), was, calls[|calls| - 1], pepper))
  {
  }

  lemma FileAfterCall(list: seq<Client>, fs: Fs, call: Call, pepper: string)
    ensures Last(fs, CallTrace(list, fs, call, pepper)).main
            == if Applies(list, call.op) && call.io.Fine? then Whole(Apply(list, call.op, pepper)) else fs.main
  {
  }

  lemma TraceExtends(start: seq<Client>, fs: Fs, calls: seq<Call>, pepper: string)
    requires calls != []
    ensures Trace(start, fs, calls[..|calls| - 1], pepper) <= Trace(start, fs, calls, pepper)
  {
  }

  /** During a call the file is as the call found it, or holds what the call saves. */
  lemma DuringCall(list: seq<Client>, fs: Fs, call: Call, pepper: string, j: nat)
    requires j < |CallTrace(list, fs, call, pepper)|
    ensures CallTrace(list, fs, call, pepper)[j].main == fs.main
            || CallTrace(list, fs, call, pepper)[j].main == Whole(Apply(list, call.op, pepper))
  {
  }

  lemma TraceOfLastCall(start: seq<Client>, fs: Fs, calls: seq<Call>, pepper: string, i: nat)
    requires calls != []
    requires |Trace(start, fs, calls[..|calls| - 1], pepper)| <= i < |Trace(start, fs, calls, pepper)|
    ensures var prior := calls[..|calls| - 1];
            var t := Trace(start, fs, prior, pepper);
            var during := CallTrace(Memory(start, prior, pepper), Last(fs, t), calls[|calls| - 1], pepper);
            i - |t| < |during| && Trace(start, fs, calls, pepper)[i] == during[i - |t|]
  {
  }

  /** A moment of the last call: the file is as it was after the call saved last, or as this one saves it. */
  lemma MomentOfLastCall(start: seq<Client>, fs: Fs, calls: seq<Call>, pepper: string, i: nat)
    requires fs.main == Whole(start) && calls != []
    requires |Trace(start, fs, calls[..|calls| - 1], pepper)| <= i < |Trace(start, fs, calls, pepper)|
    ensures var prior := calls[..|calls| - 1];
            var file := Trace(start, fs, calls, pepper)[i].main;
            || file == Whole(Memory(start, prior[..LastSaved(start, prior, pepper)], pepper))
            || file == Whole(Memory(start, calls, pepper))
  {
    var prior := calls[..|calls| - 1];
    var t := Trace(start, fs, prior, pepper);
    FileIsLastSaved(start, fs, prior, pepper);
    TraceOfLastCall(start, fs, calls, pepper, i);
    DuringCall(Memory(start, prior, pepper), Last(fs, t), calls[|calls| - 1], pepper, i - |t|);
  }

  lemma {:induction false} TracePrefix(start: seq<Client>, fs: Fs, calls: seq<Call>, pepper: string, m: nat)
    requires m <= |calls|
    ensures Trace(start, fs, calls[..m], pepper) <= Trace(start, fs, calls, pepper)
  {
    if m == |calls| {
      assert calls[..m] == calls;
    } else {
      var prior := calls[..|calls| - 1];
      TracePrefix(start, fs, prior, pepper, m);
      assert prior[..m] == calls[..m];
      TraceExtends(start, fs, calls, pepper);
    }
  }

  /** Moment i falls into call n; 0 is the time before the first one. */
  predicate Falls(start: seq<Client>, fs: Fs, calls: seq<Call>, pepper: string, i: nat, n: nat) {
    && n <= |calls| && i < |Trace(start, fs, calls[..n], pepper)|
    && (n > 0 ==> |Trace(start, fs, calls[..n - 1], pepper)| <= i)
  }

  lemma FallsLater(start: seq<Client>, fs: Fs, calls: seq<Call>, pepper: string, i: nat, n: nat)
    requires calls != [] && Falls(start, fs, calls[..|calls| - 1], pepper, i, n)
    ensures Falls(start, fs, calls, pepper, i, n)
  {
    PrefixOfPrior(calls, n);
    if n > 0 {
      PrefixOfPrior(calls, n - 1);
    }
  }

  lemma PrefixOfPrior(calls: seq<Call>, n: nat)
    requires n < |calls|
    ensures calls[..|calls| - 1][..n] == calls[..n]
  {
  }

  lemma {:induction false} CallOfMoment(start: seq<Client>, fs: Fs, calls: seq<Call>, pepper: string, i: nat)
    returns (n: nat)
    requires i < |Trace(start, fs, calls, pepper)|
    ensures Falls(start, fs, calls, pepper, i, n)
  {
    n := |calls|;
    assert calls[..n] == calls;
    if calls != [] && i < |Trace(start, fs, calls[..n - 1], pepper)| {
      n := CallOfMoment(start, fs, calls[..|calls| - 1], pepper, i);
      FallsLater(start, fs, calls, pepper, i, n);
    }
  }

  /** Moment i of the history falls into call n (before the first one, for n == 0), and then
      clients.json holds, and a restart loads, memory as it was after k calls: a state saved by the end
      of call n, and not older than the last one saved before it. */
  ghost predicate HoldsSaved(start: seq<Client>, fs: Fs, calls: seq<Call>, pepper: string, i: nat, n: nat, k: nat) {
    && Falls(start, fs, calls, pepper, i, n) && k <= n
    && i < |Trace(start, fs, calls, pepper)|
    && (n > 0 ==> k == n || k == LastSaved(start, calls[..n - 1], pepper))
    && Trace(start, fs, calls, pepper)[i].main == Whole(Memory(start, calls[..k], pepper))
    && LoadResult(Trace(start, fs, calls, pepper)[i]) == Ok(Memory(start, calls[..k], pepper))
  }

  lemma CrashPoint(start: seq<Client>, fs: Fs, calls: seq<Call>, pepper: string, i: nat)
    returns (n: nat, k: nat)
    requires fs.main == Whole(start) && i < |Trace(start, fs, calls, pepper)|
    ensures HoldsSaved(start, fs, calls, pepper, i, n, k)
  {
    n := CallOfMoment(start, fs, calls, pepper, i);
    k := 0;
    TracePrefix(start, fs, calls, pepper, n);
    if n > 0 {
      MomentOfCall(start, fs, calls, pepper, i, n);
      k := LastSaved(start, calls[..n - 1], pepper);
      if Trace(start, fs, calls[..n], pepper)[i].main != Whole(Memory(start, calls[..k], pepper)) {
        k := n;
      }
    }
  }

  lemma LastSavedPrefix(start: seq<Client>, calls: seq<Call>, pepper: string, m: nat)
    requires m <= |calls|
    ensures var k := LastSaved(start, calls[..m], pepper);
            k <= m && calls[..m][..k] == calls[..k]
  {
  }

  /** The same of a moment of any call. */
  lemma MomentOfCall(start: seq<Client>, fs: Fs, calls: seq<Call>, pepper: string, i: nat, n: nat)
    requires fs.main == Whole(start) && 0 < n <= |calls|
    requires |Trace(start, fs, calls[..n - 1], pepper)| <= i < |Trace(start, fs, calls[..n], pepper)|
    ensures var file := Trace(start, fs, calls[..n], pepper)[i].main;
            || file == Whole(Memory(start, calls[..LastSaved(start, calls[..n - 1], pepper)], pepper))
            || file == Whole(Memory(start, calls[..n], pepper))
  {
    var now := calls[..n];
    assert now[..|now| - 1] == calls[..n - 1];
    LastSavedPrefix(start, calls, pepper, n - 1);
    MomentOfLastCall(start, fs, now, pepper, i);
  }

  /** At every moment clients.json is whole and holds what memory was after the last saved call, or
      after the very call being saved; so that is what a restart loads. */
  lemma CrashSafe(start: seq<Client>, fs: Fs, calls: seq<Call>, pepper: string, i: nat)
    requires fs.main == Whole(start) && i < |Trace(start, fs, calls, pepper)|
    ensures exists n: nat, k: nat :: HoldsSaved(start, fs, calls, pepper, i, n, k)
  {
    var n, k := CrashPoint(start, fs, calls, pepper, i);
    assert HoldsSaved(start, fs, calls, pepper, i, n, k);
  }

  /** The call returned Ok: it changed nothing, or what it changed was saved. */
  predicate ReturnedOk(start: seq<Client>, calls: seq<Call>, pepper: string, j: nat)
    requires j < |calls|
  {
    Applies(Memory(start, calls[..j], pepper), calls[j].op) ==> calls[j].io.Fine?
  }

  /** The call changed memory and its save failed. */
  predicate Lost(start: seq<Client>, calls: seq<Call>, pepper: string, j: nat)
    requires j < |calls|
  {
    Applies(Memory(start, calls[..j], pepper), calls[j].op) && !calls[j].io.Fine?
  }

  /** Without a failed save since then, memory is as it was after the last saved call. */
  lemma {:induction false} NoneLost(start: seq<Client>, calls: seq<Call>, pepper: string)
    requires forall j | LastSaved(start, calls, pepper) <= j < |calls| :: !Lost(start, calls, pepper, j)
    ensures Memory(start, calls[..LastSaved(start, calls, pepper)], pepper) == Memory(start, calls, pepper)
  {
    var k := LastSaved(start, calls, pepper);
    if k == |calls| {
      assert calls[..k] == calls;
    } else {
      var n := |calls| - 1;
      var prior := calls[..n];
      assert !Lost(start, calls, pepper, n);
      forall j | k <= j < n
        ensures !Lost(start, prior, pepper, j)
      {
        assert prior[..j] == calls[..j];
        assert !Lost(start, calls, pepper, j);
      }
      NoneLost(start, prior, pepper);
      assert prior[..k] == calls[..k];
    }
  }

  lemma IdleCall(start: seq<Client>, fs: Fs, calls: seq<Call>, pepper: string)
    requires calls != [] && !Applies(Memory(start, calls[..|calls| - 1], pepper), calls[|calls| - 1].op)
    ensures Memory(start, calls, pepper) == Memory(start, calls[..|calls| - 1], pepper)
    ensures Trace(start, fs, calls, pepper) == Trace(start, fs, calls[..|calls| - 1], pepper)
  {
  }

  lemma SavedCall(start: seq<Client>, calls: seq<Call>, pepper: string)
    requires calls != [] && Applies(Memory(start, calls[..|calls| - 1], pepper), calls[|calls| - 1].op)
    requires calls[|calls| - 1].io.Fine?
    ensures LastSaved(start, calls, pepper) == |calls| && calls[..|calls|] == calls
  {
  }

  /** After any history of calls the file holds memory as it was after the last saved call.  So it equals
      memory if that was the last call, or if no save failed since; and a call that finds nothing to do
      and returns Ok leaves it as good or as bad as it was. */
  lemma OkMeansSaved(start: seq<Client>, fs: Fs, calls: seq<Call>, pepper: string)
    requires fs.main == Whole(start) && calls != [] && ReturnedOk(start, calls, pepper, |calls| - 1)
    ensures var n, k := |calls| - 1, LastSaved(start, calls, pepper);
            var prior := calls[..n];
            var file := Last(fs, Trace(start, fs, calls, pepper)).main;
            && file == Whole(Memory(start, calls[..k], pepper))
            && (Applies(Memory(start, prior, pepper), calls[n].op) ==> file == Whole(Memory(start, calls, pepper)))
            && ((forall j | k <= j < |calls| :: !Lost(start, calls, pepper, j))
                 ==> file == Whole(Memory(start, calls, pepper)))
            && (!Applies(Memory(start, prior, pepper), calls[n].op) ==>
                  (file == Whole(Memory(start, calls, pepper))
                   <==> Last(fs, Trace(start, fs, prior, pepper)).main == Whole(Memory(start, prior, pepper))))
  {
    FileIsLastSaved(start, fs, calls, pepper);
    if Applies(Memory(start, calls[..|calls| - 1], pepper), calls[|calls| - 1].op) {
      SavedCall(start, calls, pepper);
    } else {
      IdleCall(start, fs, calls, pepper);
    }
    if forall j | LastSaved(start, calls, pepper) <= j < |calls| :: !Lost(start, calls, pepper, j) {
      NoneLost(start, calls, pepper);
    }
  }

  /** The case that breaks "Ok means saved": a failed save, then a call with nothing to do. */
  lemma OkWithoutSaving(pepper: string)
    ensures var calls := [Call(Op.AddClient("n", "a", "t"), WriteFails), Call(Op.DeleteClient("b"), Fine)];
            Last(Fs(Whole([]), Missing), Trace([], Fs(Whole([]), Missing), calls, pepper)).main
            != Whole(Memory([], calls, pepper))
  {
    var fs := Fs(Whole([]), Missing);
    var c1, c2 := Call(Op.AddClient("n", "a", "t"), WriteFails), Call(Op.DeleteClient("b"), Fine);
    assert [c1, c2][..1] == [c1] && [c1][..0] == [];
    var list := [Client("a", "n", Hmac(pepper, "t"), true, [])];
    assert Memory([], [c1], pepper) == list;
    assert list[0].id != "b" && list[1..] == [];
    assert Position(list, "b") == 1;
    assert Memory([], [c1, c2], pepper) == list;
    FileIsLastSaved([], fs, [c1, c2], pepper);
    assert LastSaved([], [c1], pepper) == 0;
    assert LastSaved([], [c1, c2], pepper) == 0;
  }

  /** The file system from the moment the server starts: the load, then the calls. */
  function Life(fs: Fs, calls: seq<Call>, pepper: string): seq<Fs>
    requires LoadResult(fs).Ok?
  {
    [fs] + LoadTrace(fs) + Trace(LoadResult(fs).value, Last(fs, LoadTrace(fs)), calls, pepper)
  }

  lemma LifeParts(fs: Fs, calls: seq<Call>, pepper: string, i: nat)
    requires LoadResult(fs).Ok? && i < |Life(fs, calls, pepper)|
    ensures var head, loaded := [fs] + LoadTrace(fs), Last(fs, LoadTrace(fs));
            var t := Trace(LoadResult(fs).value, loaded, calls, pepper);
            loaded.main == Whole(LoadResult(fs).value)
            && Life(fs, calls, pepper)[i] == if i < |head| then head[i] else t[i - |head|]
  {
  }

  lemma DuringLoad(fs: Fs, i: nat)
    requires LoadResult(fs).Ok? && i < 1 + |LoadTrace(fs)|
    ensures LoadResult(([fs] + LoadTrace(fs))[i]).Err? <==> fs.main.Missing? && i == 1
  {
  }

  lemma AlwaysLoads(start: seq<Client>, fs: Fs, calls: seq<Call>, pepper: string, i: nat)
    requires fs.main == Whole(start) && i < |Trace(start, fs, calls, pepper)|
    ensures LoadResult(Trace(start, fs, calls, pepper)[i]).Ok?
  {
    CrashSafe(start, fs, calls, pepper, i);
  }

  /** From the first start on: a crash leaves a clients.json that cannot be loaded exactly if it
      comes between the two actions that create the file in place. */
  lemma UnloadableOnlyAtFirstStart(fs: Fs, calls: seq<Call>, pepper: string, i: nat)
    requires LoadResult(fs).Ok? && i < |Life(fs, calls, pepper)|
    ensures LoadResult(Life(fs, calls, pepper)[i]).Err? <==> fs.main.Missing? && i == 1
  {
    var n := 1 + |LoadTrace(fs)|;
    LifeParts(fs, calls, pepper, i);
    if i < n {
      DuringLoad(fs, i);
    } else {
      AlwaysLoads(LoadResult(fs).value, Last(fs, LoadTrace(fs)), calls, pepper, i - n);
    }
  }
}
