/** Which token opens the door: the one last drawn for a client, in memory, against the one the
    administrator was last given, which a failed save sets apart. */
module Tokens {
  import opened Common
  import opened Store
  import opened StoreFacts
  import opened Persistence

  function Ops(calls: seq<Call>): (ops: seq<Op>)
    ensures |ops| == |calls|
  {
    seq(|calls|, i requires 0 <= i < |calls| => calls[i].op)
  }

  /** The tokens an operation draws: at most one. */
  function Draws(op: Op): set<string> {
    match op
    case AddClient(_, _, token) => {token}
    case RegenerateToken(_, token) => {token}
    case _ => {}
  }

  /** All tokens drawn in a history. */
  function DrawnIn(calls: seq<Call>): set<string> {
    if calls == [] then {} else DrawnIn(calls[..|calls| - 1]) + Draws(calls[|calls| - 1].op)
  }

  /** Random values are fresh: no token is drawn twice, and no id that is in use. */
  predicate FreshDraws(calls: seq<Call>, pepper: string) {
    && (forall n | 0 <= n < |calls| :: DrawnIn(calls[..n]) !! Draws(calls[n].op))
    && (forall n | 0 <= n < |calls| :: FreshDraw(Memory([], calls[..n], pepper), calls[n].op))
  }

  /** What the administrator knows.  `handed` is the last token returned for each client there is;
      `spoiled` are the clients for which a regeneration was answered with an error after that. */
  datatype Ledger = Ledger(handed: map<string, string>, spoiled: set<string>)

  /** The administrator's books after a call, `known` being the clients there are: a new token is returned only
      if the save succeeded. */
  function Book(l: Ledger, known: set<string>, call: Call): Ledger {
    match call.op
    case AddClient(_, id, token) =>
      if id in known then l
      else Ledger(if call.io.Fine? then l.handed[id := token] else l.handed - {id}, l.spoiled - {id})
    case RegenerateToken(id, token) =>
      if id !in known then l
      else if call.io.Fine? then Ledger(l.handed[id := token], l.spoiled - {id})
      else l.(spoiled := l.spoiled + {id})
    case DeleteClient(id) => Ledger(l.handed - {id}, l.spoiled - {id})
    case _ => l
  }

  function Books(calls: seq<Call>): Ledger {
    if calls == [] then Ledger(map[], {})
    else
      var prior, call := calls[..|calls| - 1], calls[|calls| - 1];
      Book(Books(prior), Accounts(Ops(prior)).Keys, call)
  }

  /** Accounts hold drawn tokens; a handed token is the account's exactly if it is not spoiled. */
  predicate BooksMatch(drawn: set<string>, acc: map<string, Account>, l: Ledger) {
    && (forall id | id in acc :: acc[id].token in drawn)
    && (forall id | id in l.handed :: id in acc && l.handed[id] in drawn)
    && (forall id | id in l.handed :: acc[id].token == l.handed[id] <==> id !in l.spoiled)
  }

  lemma AddBooked(drawn: set<string>, call: Call, acc: map<string, Account>, l: Ledger)
    requires BooksMatch(drawn, acc, l) && call.op.AddClient? && drawn !! Draws(call.op)
    ensures BooksMatch(drawn + Draws(call.op), AccountStep(acc, call.op), Book(l, acc.Keys, call))
  {
  }

  lemma RegenerationBooked(drawn: set<string>, call: Call, acc: map<string, Account>, l: Ledger)
    requires BooksMatch(drawn, acc, l) && call.op.RegenerateToken? && drawn !! Draws(call.op)
    ensures BooksMatch(drawn + Draws(call.op), AccountStep(acc, call.op), Book(l, acc.Keys, call))
  {
  }

  lemma OtherBooked(drawn: set<string>, call: Call, acc: map<string, Account>, l: Ledger)
    requires BooksMatch(drawn, acc, l) && !call.op.AddClient? && !call.op.RegenerateToken? && drawn !! Draws(call.op)
    ensures BooksMatch(drawn + Draws(call.op), AccountStep(acc, call.op), Book(l, acc.Keys, call))
  {
  }

  lemma BooksStep(drawn: set<string>, call: Call, acc: map<string, Account>, l: Ledger)
    requires BooksMatch(drawn, acc, l) && drawn !! Draws(call.op)
    ensures BooksMatch(drawn + Draws(call.op), AccountStep(acc, call.op), Book(l, acc.Keys, call))
  {
    match call.op {
      case AddClient(_, _, _) => AddBooked(drawn, call, acc, l);
      case RegenerateToken(_, _) => RegenerationBooked(drawn, call, acc, l);
      case _ => OtherBooked(drawn, call, acc, l);
    }
  }

  lemma FreshBefore(calls: seq<Call>, pepper: string)
    requires calls != [] && FreshDraws(calls, pepper)
    ensures FreshDraws(calls[..|calls| - 1], pepper)
  {
    var prior := calls[..|calls| - 1];
    forall n | 0 <= n < |prior|
      ensures FreshDraw(Memory([], prior[..n], pepper), prior[n].op)
      ensures DrawnIn(prior[..n]) !! Draws(prior[n].op)
    {
      assert prior[..n] == calls[..n] && prior[n] == calls[n];
    }
  }

  lemma {:induction false} BooksKept(calls: seq<Call>, pepper: string)
    requires FreshDraws(calls, pepper)
    ensures BooksMatch(DrawnIn(calls), Accounts(Ops(calls)), Books(calls))
  {
    if calls == [] {
    } else {
      var prior, call := calls[..|calls| - 1], calls[|calls| - 1];
      FreshBefore(calls, pepper);
      BooksKept(prior, pepper);
      assert Ops(calls)[..|calls| - 1] == Ops(prior);
      BooksStep(DrawnIn(prior), call, Accounts(Ops(prior)), Books(prior));
    }
  }

  lemma FreshTokenDrawn(drawn: set<string>, pepper: string, op: Op, list: seq<Client>, acc: map<string, Account>)
    requires Represents(list, acc, pepper) && drawn !! Draws(op) && forall id | id in acc :: acc[id].token in drawn
    ensures FreshToken(list, op, pepper)
  {
    if op.AddClient? || op.RegenerateToken? {
      RepresentsTokens(list, acc, pepper, op.token);
      assert op.token in Draws(op);
    }
  }

  /** With fresh draws nothing is in the way of a call: memory is the run of the operations, saved
      or not. */
  lemma {:induction false} MemoryIsRun(calls: seq<Call>, pepper: string)
    requires FreshDraws(calls, pepper)
    ensures Memory([], calls, pepper) == StoreRun(Ops(calls), pepper)
  {
    if calls == [] {
    } else {
      var prior, call := calls[..|calls| - 1], calls[|calls| - 1];
      FreshBefore(calls, pepper);
      MemoryIsRun(prior, pepper);
      BooksKept(prior, pepper);
      StoreRefinesAccounts(Ops(prior), pepper);
      FreshTokenDrawn(DrawnIn(prior), pepper, call.op, StoreRun(Ops(prior), pepper), Accounts(Ops(prior)));
      assert Ops(calls)[..|calls| - 1] == Ops(prior);
    }
  }

  /** Over every history of calls, with any outcome of their saves: the token that the administrator was
      last given for a client is the one accepted, as that client, if and only if the client is enabled
      and no regeneration of its token failed to save since. */
  lemma HandedTokenAccepted(calls: seq<Call>, pepper: string, id: string)
    requires FreshDraws(calls, pepper) && id in Books(calls).handed
    ensures id in Accounts(Ops(calls))
    ensures VerifyToken(Memory([], calls, pepper), Books(calls).handed[id], pepper) == Some(id)
            <==> Accounts(Ops(calls))[id].enabled && id !in Books(calls).spoiled
  {
    BooksKept(calls, pepper);
    MemoryIsRun(calls, pepper);
    TokenLookup(Ops(calls), pepper, Books(calls).handed[id], id);
  }

  /** The case: a regeneration whose save fails returns an error and no token, but the token it drew
      replaces the one the administrator holds. */
  lemma FailedRegeneration(pepper: string)
    ensures var calls := [Call(Op.AddClient("n", "a", "t1"), Fine), Call(Op.RegenerateToken("a", "t2"), WriteFails)];
            && FreshDraws(calls, pepper) && Books(calls) == Ledger(map["a" := "t1"], {"a"})
            && VerifyToken(Memory([], calls, pepper), "t1", pepper) == None
            && VerifyToken(Memory([], calls, pepper), "t2", pepper) == Some("a")
  {
    var c1, c2 := Call(Op.AddClient("n", "a", "t1"), Fine), Call(Op.RegenerateToken("a", "t2"), WriteFails);
    assert [c1, c2][..1] == [c1] && [c1][..0] == [];
    var first, second := Client("a", "n", Hmac(pepper, "t1"), true, []), Client("a", "n", Hmac(pepper, "t2"), true, []);
    assert Memory([], [c1], pepper) == [first];
    assert Memory([], [c1, c2], pepper) == [second];
    assert [second][1..] == [];
    assert "t1"[1] != "t2"[1];
    assert Ops([c1]) == [c1.op] && [c1.op][..0] == [];
    assert Accounts([c1.op]) == map["a" := Account("t1", true)];
  }
}
