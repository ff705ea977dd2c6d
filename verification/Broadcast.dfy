/** WsBroadcaster of src/state.rs: a list of senders, pruned as their receivers go away. */
module Broadcast {

  datatype Message = Stats(tick: nat) | Other(text: string)

  /** A subscriber is its index in `inboxes`, which holds everything its channel was handed;
      `closed` are the receivers that were dropped.  `sent` and `joined` are history: all
      broadcasts, and how many there had been when each subscriber came. */
  datatype Hub = Hub(clients: seq<nat>, inboxes: seq<seq<Message>>, closed: set<nat>,
                     sent: seq<Message>, joined: seq<nat>)

  datatype HubEvent = Subscribe | Drop(id: nat) | CountSubscribers | Send(msg: Message)

  const EMPTY := Hub([], [], {}, [], [])

  predicate Live(h: Hub, id: nat) {
    id < |h.inboxes| && id !in h.closed
  }

  /** `retain` of the senders whose receiver still exists. */
  function Prune(clients: seq<nat>, closed: set<nat>): seq<nat> {
    if clients == [] then []
    else Prune(clients[..|clients| - 1], closed)
         + (if clients[|clients| - 1] in closed then [] else [clients[|clients| - 1]])
  }

  /** The inboxes after a message went to each of the given senders. */
  function Deliver(inboxes: seq<seq<Message>>, clients: seq<nat>, closed: set<nat>, msg: Message): seq<seq<Message>>
    ensures |Deliver(inboxes, clients, closed, msg)| == |inboxes|
  {
    if clients == [] then inboxes
    else
      var r := Deliver(inboxes, clients[..|clients| - 1], closed, msg);
      var c := clients[|clients| - 1];
      if c in closed || c >= |r| then r else r[c := r[c] + [msg]]
  }

  function HubStep(h: Hub, e: HubEvent): Hub {
    match e
    case Subscribe =>
      h.(clients := h.clients + [|h.inboxes|], inboxes := h.inboxes + [[]], joined := h.joined + [|h.sent|])
    case Drop(id) => if id < |h.inboxes| then h.(closed := h.closed + {id}) else h
    case CountSubscribers => h.(clients := Prune(h.clients, h.closed))
    case Send(msg) =>
      h.(clients := Prune(h.clients, h.closed),
         inboxes := Deliver(h.inboxes, h.clients, h.closed, msg),
         sent := h.sent + [msg])
  }

  function HubRun(h: Hub, events: seq<HubEvent>): Hub {
    if events == [] then h else HubStep(HubRun(h, events[..|events| - 1]), events[|events| - 1])
  }

  // ----- every live subscriber has every broadcast since it came -----

  predicate NoDuplicates(s: seq<nat>) {
    forall i, j | 0 <= i < j < |s| :: s[i] != s[j]
  }

  ghost predicate HubInv(h: Hub) {
    && NoDuplicates(h.clients)
    && (forall c | c in h.clients :: c < |h.inboxes|)
    && (forall id | Live(h, id) :: id in h.clients)
    && |h.joined| == |h.inboxes|
    && (forall id | 0 <= id < |h.inboxes| ::
          h.joined[id] <= |h.sent| && h.inboxes[id] <= h.sent[h.joined[id]..])
    && (forall id | 0 <= id < |h.inboxes| && id !in h.closed :: h.inboxes[id] == h.sent[h.joined[id]..])
  }

  lemma {:induction false} PruneKeeps(clients: seq<nat>, closed: set<nat>)
    ensures forall c :: c in Prune(clients, closed) <==> c in clients && c !in closed
    ensures NoDuplicates(clients) ==> NoDuplicates(Prune(clients, closed))
  {
    if clients == [] {
    } else {
      var n := |clients| - 1;
      PruneKeeps(clients[..n], closed);
      assert clients == clients[..n] + [clients[n]];
    }
  }

  lemma {:induction false} DeliverOnce(inboxes: seq<seq<Message>>, clients: seq<nat>, closed: set<nat>, msg: Message)
    requires NoDuplicates(clients)
    ensures var r := Deliver(inboxes, clients, closed, msg);
            forall id | 0 <= id < |inboxes| ::
              r[id] == if id in clients && id !in closed then inboxes[id] + [msg] else inboxes[id]
  {
    if clients == [] {
    } else {
      var n := |clients| - 1;
      DeliverOnce(inboxes, clients[..n], closed, msg);
      assert clients == clients[..n] + [clients[n]];
      assert clients[n] !in clients[..n];
    }
  }

  lemma SubscribeKeepsInv(h: Hub)
    requires HubInv(h)
    ensures HubInv(HubStep(h, Subscribe))
  {
    assert forall i | 0 <= i < |h.clients| :: h.clients[i] in h.clients;
  }

  lemma PruningKeepsInv(h: Hub, e: HubEvent)
    requires HubInv(h) && (e.Drop? || e.CountSubscribers?)
    ensures HubInv(HubStep(h, e))
  {
    PruneKeeps(h.clients, h.closed);
  }

  /** A broadcast reaches a live subscriber's inbox, and no inbox ever holds anything else. */
  lemma SendDelivers(h: Hub, msg: Message, id: nat)
    requires HubInv(h) && id < |h.inboxes|
    ensures var h' := HubStep(h, Send(msg));
            && h.joined[id] <= |h'.sent| && h'.inboxes[id] <= h'.sent[h.joined[id]..]
            && (id !in h.closed ==> h'.inboxes[id] == h'.sent[h.joined[id]..])
  {
    DeliverOnce(h.inboxes, h.clients, h.closed, msg);
    assert (h.sent + [msg])[h.joined[id]..] == h.sent[h.joined[id]..] + [msg];
    assert Live(h, id) ==> id in h.clients;
  }

  lemma SendKeepsInv(h: Hub, msg: Message)
    requires HubInv(h)
    ensures HubInv(HubStep(h, Send(msg)))
  {
    PruneKeeps(h.clients, h.closed);
    var h' := HubStep(h, Send(msg));
    forall id | 0 <= id < |h.inboxes|
      ensures h'.joined[id] <= |h'.sent| && h'.inboxes[id] <= h'.sent[h'.joined[id]..]
      ensures id !in h'.closed ==> h'.inboxes[id] == h'.sent[h'.joined[id]..]
    {
      SendDelivers(h, msg, id);
    }
  }

  lemma HubStepKeepsInv(h: Hub, e: HubEvent)
    requires HubInv(h)
    ensures HubInv(HubStep(h, e))
  {
    match e {
      case Subscribe => SubscribeKeepsInv(h);
      case Send(msg) => SendKeepsInv(h, msg);
      case _ => PruningKeepsInv(h, e);
    }
  }

  /** In every run: a live subscriber's channel was handed exactly the broadcasts since it
      subscribed, in order; a closed one a gapless prefix of them. */
  lemma {:induction false} NoGaps(events: seq<HubEvent>)
    ensures HubInv(HubRun(EMPTY, events))
  {
    if events == [] {
    } else {
      NoGaps(events[..|events| - 1]);
      HubStepKeepsInv(HubRun(EMPTY, events[..|events| - 1]), events[|events| - 1]);
    }
  }

  class WsBroadcaster {
    var clients: seq<nat>
    var inboxes: seq<seq<Message>>
    var closed: set<nat>
    ghost var sent: seq<Message>
    ghost var joined: seq<nat>

    constructor ()
      ensures State() == EMPTY
    {
      clients, inboxes, closed := [], [], {};
      sent, joined := [], [];
    }

    ghost function State(): Hub
      reads this
    {
      Hub(clients, inboxes, closed, sent, joined)
    }

    method SubscribeNow() returns (id: nat)
      modifies this
      ensures State() == HubStep(old(State()), Subscribe) && id == |old(inboxes)|
    {
      id := |inboxes|;
      clients, inboxes := clients + [id], inboxes + [[]];
      joined := joined + [|sent|];
    }

    method DropReceiver(id: nat)
      modifies this
      ensures State() == HubStep(old(State()), Drop(id))
    {
      if id < |inboxes| {
        closed := closed + {id};
      }
    }

    method SubscriberCount() returns (n: nat)
      modifies this
      ensures State() == HubStep(old(State()), CountSubscribers) && n == |clients|
    {
      var kept := [];
      var i := 0;
      while i < |clients|
        invariant 0 <= i <= |clients|
        invariant kept == Prune(clients[..i], closed)
      {
        assert clients[..i + 1][..i] == clients[..i];
        if clients[i] !in closed {
          kept := kept + [clients[i]];
        }
        i := i + 1;
      }
      assert clients[..i] == clients;
      clients := kept;
      n := |clients|;
    }

    method BroadcastMessage(msg: Message)
      modifies this
      ensures State() == HubStep(old(State()), Send(msg))
    {
      var kept := [];
      var i := 0;
      while i < |clients|
        invariant 0 <= i <= |clients|
        invariant clients == old(clients) && closed == old(closed) && sent == old(sent) && joined == old(joined)
        invariant kept == Prune(clients[..i], closed)
        invariant inboxes == Deliver(old(inboxes), clients[..i], closed, msg)
      {
        assert clients[..i + 1][..i] == clients[..i];
        var c := clients[i];
        if c !in closed {
          kept := kept + [c];
          if c < |inboxes| {
            inboxes := inboxes[c := inboxes[c] + [msg]];
          }
        }
        i := i + 1;
      }
      assert clients[..i] == clients;
      clients := kept;
      sent := sent + [msg];
    }
  }
}
