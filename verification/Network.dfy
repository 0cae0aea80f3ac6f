/**
 * Any number of LAN nodes on one network (src/signaling/lan.rs). The network may lose, repeat and reorder datagrams,
 * hand them to any node, and report any source address; all it cannot do is make them up.
 */
module Network {
  import opened Wrappers
  import opened Octets
  import opened Utf8
  import opened Decimal
  import opened Signals
  import opened Crypto
  import opened Packets
  import opened Tables
  import opened Lan
  import opened TwoNodes
  import Servers = ServerDatas

  datatype Node = Node(
    addresses: Addresses,
    discovered: Discovered,
    pong: Option<Servers.ServerData>,
    broadcast: seq<Signal>)

  /** What a node meant by a datagram that it sent. */
  datatype Intent =
    | Said(sender: u64, recipient: u64, signal: Signal)
    | Asked(sender: u64)
    | Answered(sender: u64, server: Servers.ServerData)
  {
    function Packet(): Packet {
      match this
      case Said(_, recipient, signal) => Message(recipient, ToText(signal))
      case Asked(_) => Request
      case Answered(_, server) => if Servers.Encodable(server) then ResponseTo(server) else Request
    }

    predicate Valid() {
      Fits(Packet()) && (Answered? ==> Servers.Encodable(server))
    }
  }

  /** A datagram handed to a node, and the server data that the node had then. */
  datatype Delivery = Delivery(index: nat, to: u64, pong: Option<Servers.ServerData>)

  /** `sent` are all datagrams so far; history: `intents`, what each was meant to say, and `deliveries`. */
  datatype Net = Net(nodes: map<u64, Node>, sent: seq<Bytes>, intents: seq<Intent>, deliveries: seq<Delivery>)

  datatype Step =
    | Configure(id: u64, pong: Option<Servers.ServerData>)
    | Say(id: u64, signal: Signal)
    | TickAt(id: u64, now: Instant, asks: bool)
    | Deliver(index: nat, to: u64, from: SocketAddr, now: Instant)

  predicate Enabled(n: Net, step: Step) {
    match step
    case Configure(id, pong) => id in n.nodes && (pong.Some? ==> Servers.Encodable(pong.value))
    case Say(id, _) => id in n.nodes
    case TickAt(id, _, _) => id in n.nodes
    case Deliver(index, to, _, _) => index < |n.sent| && to in n.nodes && |n.sent[index]| <= RECEIVE_BUFFER
  }

  function Put(n: Net, id: u64, node: Node): Net {
    n.(nodes := n.nodes[id := node])
  }

  function Send(n: Net, data: Bytes, intent: Intent): Net {
    n.(sent := n.sent + [data], intents := n.intents + [intent])
  }

  /** The node's own part of receiving a datagram. */
  function Heard(suite: Suite, id: u64, node: Node, data: Bytes, from: SocketAddr, now: Instant): Node {
    var o := Observe(suite, id, data, from, now);
    node.(addresses := AddressesAfter(node.addresses, o), discovered := DiscoveredAfter(node.discovered, o),
          broadcast := node.broadcast + Emitted(suite, id, data))
  }

  function Next(suite: Suite, n: Net, step: Step): Net
    requires Enabled(n, step)
  {
    match step
    case Configure(id, pong) => Put(n, id, n.nodes[id].(pong := pong))
    case Say(id, signal) =>
      var outgoing := Outgoing(suite, id, n.nodes[id].addresses, signal);
      if outgoing.Err? then n
      else
        ParseMeaning(signal.networkId, U64_MAX);
        Send(n, outgoing.value.1, Said(id, ParseUnsigned(signal.networkId, U64_MAX).value, signal))
    case TickAt(id, now, asks) =>
      var node := n.nodes[id];
      var cleaned := Put(n, id, node.(addresses := AddressesAfter(node.addresses, Tick(now))));
      if asks then Send(cleaned, Datagram(suite, Request, id), Asked(id)) else cleaned
    case Deliver(index, to, from, now) =>
      var data, node := n.sent[index], n.nodes[to];
      var heard := Put(n, to, Heard(suite, to, node, data, from, now))
                   .(deliveries := n.deliveries + [Delivery(index, to, node.pong)]);
      var replies := Replies(suite, to, node.pong, data, from);
      if replies == [] then heard else Send(heard, replies[0].1, Answered(to, node.pong.value))
  }

  /** Nodes with empty tables, and nothing sent. */
  ghost predicate Fresh(n: Net) {
    && n.sent == [] && n.intents == [] && n.deliveries == []
    && forall id :: id in n.nodes ==> n.nodes[id] == Node(map[], map[], None, [])
  }

  ghost predicate Reaches(suite: Suite, steps: seq<Step>, n: Net) {
    if steps == [] then Fresh(n)
    else
      var last := |steps| - 1;
      exists before ::
        Reaches(suite, steps[..last], before) && Enabled(before, steps[last]) && n == Next(suite, before, steps[last])
  }

  // ----- What a node should broadcast -----

  /** A signal meant for `id` by another node, under that node's id. */
  function Meant(intent: Intent, id: u64): seq<Signal> {
    if intent.Said? && intent.recipient == id && intent.sender != id then
      [intent.signal.(networkId := IdText(intent.sender))]
    else []
  }

  /** The signals meant for `id`, once for each delivery, in the order of the deliveries. */
  function Due(intents: seq<Intent>, deliveries: seq<Delivery>, id: u64): seq<Signal> {
    if deliveries == [] then []
    else
      var last := deliveries[|deliveries| - 1];
      Due(intents, deliveries[..|deliveries| - 1], id)
      + if last.to == id && last.index < |intents| then Meant(intents[last.index], id) else []
  }

  lemma {:induction false} DueWithMoreIntents(
    intents: seq<Intent>, more: seq<Intent>, deliveries: seq<Delivery>, id: u64)
    requires forall d :: d in deliveries ==> d.index < |intents|
    ensures Due(intents + more, deliveries, id) == Due(intents, deliveries, id)
  {
    if deliveries != [] {
      DueWithMoreIntents(intents, more, deliveries[..|deliveries| - 1], id);
    }
  }

  lemma DueAfterDelivery(intents: seq<Intent>, deliveries: seq<Delivery>, d: Delivery, id: u64)
    requires d.index < |intents|
    ensures Due(intents, deliveries + [d], id)
            == Due(intents, deliveries, id) + if d.to == id then Meant(intents[d.index], id) else []
  {
    assert (deliveries + [d])[..|deliveries|] == deliveries;
  }

  // ----- The invariant -----

  /** Every datagram says what its sender meant. */
  ghost predicate SentAsMeant(suite: Suite, n: Net) {
    && |n.sent| == |n.intents|
    && forall i :: 0 <= i < |n.intents| ==>
         n.intents[i].Valid() && n.sent[i] == Datagram(suite, n.intents[i].Packet(), n.intents[i].sender)
  }

  /** A server known under `id` was advertised by `id`. */
  ghost predicate Advertised(intents: seq<Intent>, own: u64, discovered: Discovered) {
    forall id :: id in discovered ==> id != own && Answered(id, discovered[id]) in intents
  }

  ghost predicate NodeSound(n: Net, id: u64)
    requires id in n.nodes
  {
    && n.nodes[id].broadcast == Due(n.intents, n.deliveries, id)
    && Advertised(n.intents, id, n.nodes[id].discovered)
  }

  ghost predicate Inv(suite: Suite, n: Net) {
    && SentAsMeant(suite, n)
    && (forall d :: d in n.deliveries ==> d.index < |n.intents|)
    && forall id :: id in n.nodes ==> NodeSound(n, id)
  }

  /** What each kind of datagram does, sent by another node. */
  lemma QuestionIsMeant(suite: Suite, sender: u64, id: u64, from: SocketAddr, now: Instant)
    requires suite.Valid() && sender != id
    ensures Emitted(suite, id, Datagram(suite, Request, sender)) == []
    ensures Observe(suite, id, Datagram(suite, Request, sender), from, now) == Accepted(sender, from, now, None)
  {
    DatagramRoundTrip(suite, Request, sender);
  }

  lemma AnswerIsMeant(
    suite: Suite, sender: u64, server: Servers.ServerData, id: u64, from: SocketAddr, now: Instant)
    requires suite.Valid() && sender != id && Servers.Encodable(server)
    ensures Emitted(suite, id, Datagram(suite, ResponseTo(server), sender)) == []
    ensures Observe(suite, id, Datagram(suite, ResponseTo(server), sender), from, now)
            == Accepted(sender, from, now, Some(server))
  {
    DatagramRoundTrip(suite, ResponseTo(server), sender);
    ResponseIsLearned(suite, id, sender, server, from, now);
  }

  lemma OwnIsIgnored(suite: Suite, p: Packet, id: u64, from: SocketAddr, now: Instant)
    requires suite.Valid() && Fits(p)
    ensures Emitted(suite, id, Datagram(suite, p, id)) == []
    ensures Observe(suite, id, Datagram(suite, p, id), from, now) == Ignored
  {
    DatagramRoundTrip(suite, p, id);
  }

  /** What a delivered datagram does is what its sender meant. */
  lemma DeliveryIsMeant(suite: Suite, intent: Intent, id: u64, from: SocketAddr, now: Instant)
    requires suite.Valid() && intent.Valid()
    ensures var data := Datagram(suite, intent.Packet(), intent.sender);
            && Emitted(suite, id, data) == Meant(intent, id)
            && Observe(suite, id, data, from, now)
               == if intent.sender == id then Ignored
                  else Accepted(intent.sender, from, now, if intent.Answered? then Some(intent.server) else None)
  {
    if intent.sender == id {
      OwnIsIgnored(suite, intent.Packet(), id, from, now);
    } else {
      match intent
      case Said(sender, recipient, signal) => SignalArrives(suite, sender, recipient, signal, id, from, now);
      case Asked(sender) => QuestionIsMeant(suite, sender, id, from, now);
      case Answered(sender, server) => AnswerIsMeant(suite, sender, server, id, from, now);
    }
  }

  /** One more datagram, sent as meant. */
  lemma SendKeepsInv(suite: Suite, n: Net, data: Bytes, intent: Intent)
    requires Inv(suite, n) && intent.Valid() && data == Datagram(suite, intent.Packet(), intent.sender)
    ensures Inv(suite, Send(n, data, intent))
  {
    var n' := Send(n, data, intent);
    forall id | id in n'.nodes
      ensures NodeSound(n', id)
    {
      assert NodeSound(n, id);
      DueWithMoreIntents(n.intents, [intent], n.deliveries, id);
    }
  }

  /** A node changes its addresses or its own server data. */
  lemma PutKeepsInv(suite: Suite, n: Net, id: u64, node: Node)
    requires Inv(suite, n) && id in n.nodes
    requires node.broadcast == n.nodes[id].broadcast && node.discovered == n.nodes[id].discovered
    ensures Inv(suite, Put(n, id, node))
  {
    var n' := Put(n, id, node);
    forall other | other in n'.nodes
      ensures NodeSound(n', other)
    {
      assert NodeSound(n, other);
    }
  }

  function AfterHearing(suite: Suite, n: Net, index: nat, to: u64, from: SocketAddr, now: Instant): Net
    requires index < |n.sent| && to in n.nodes
  {
    Put(n, to, Heard(suite, to, n.nodes[to], n.sent[index], from, now))
      .(deliveries := n.deliveries + [Delivery(index, to, n.nodes[to].pong)])
  }

  lemma HearingKeepsInv(suite: Suite, n: Net, index: nat, to: u64, from: SocketAddr, now: Instant)
    requires suite.Valid() && Inv(suite, n) && index < |n.sent| && to in n.nodes
    ensures Inv(suite, AfterHearing(suite, n, index, to, from, now))
  {
    var n', intent := AfterHearing(suite, n, index, to, from, now), n.intents[index];
    DeliveryIsMeant(suite, intent, to, from, now);
    forall id | id in n'.nodes
      ensures NodeSound(n', id)
    {
      assert NodeSound(n, id);
      DueAfterDelivery(n.intents, n.deliveries, Delivery(index, to, n.nodes[to].pong), id);
      if id == to && intent.Answered? {
        assert intent == Answered(intent.sender, intent.server) && intent in n.intents;
      }
    }
  }

  lemma SayKeepsInv(suite: Suite, n: Net, id: u64, signal: Signal)
    requires Inv(suite, n) && Enabled(n, Say(id, signal))
    ensures Inv(suite, Next(suite, n, Say(id, signal)))
  {
    var outgoing := Outgoing(suite, id, n.nodes[id].addresses, signal);
    if outgoing.Ok? {
      ParseMeaning(signal.networkId, U64_MAX);
      SendKeepsInv(suite, n, outgoing.value.1, Said(id, ParseUnsigned(signal.networkId, U64_MAX).value, signal));
    }
  }

  lemma DeliverKeepsInv(suite: Suite, n: Net, index: nat, to: u64, from: SocketAddr, now: Instant)
    requires suite.Valid() && Inv(suite, n) && Enabled(n, Deliver(index, to, from, now))
    ensures Inv(suite, Next(suite, n, Deliver(index, to, from, now)))
  {
    var pong := n.nodes[to].pong;
    HearingKeepsInv(suite, n, index, to, from, now);
    var replies := Replies(suite, to, pong, n.sent[index], from);
    if replies != [] {
      SendKeepsInv(suite, AfterHearing(suite, n, index, to, from, now), replies[0].1, Answered(to, pong.value));
    }
  }

  lemma {:induction false} ReachableInv(suite: Suite, steps: seq<Step>, n: Net)
    requires suite.Valid() && Reaches(suite, steps, n)
    ensures Inv(suite, n)
  {
    if steps != [] {
      var last := |steps| - 1;
      var before :| Reaches(suite, steps[..last], before) && Enabled(before, steps[last])
                    && n == Next(suite, before, steps[last]);
      ReachableInv(suite, steps[..last], before);
      match steps[last] {
        case Configure(id, pong) => PutKeepsInv(suite, before, id, before.nodes[id].(pong := pong));
        case Say(id, signal) => SayKeepsInv(suite, before, id, signal);
        case TickAt(id, now, asks) =>
          var node := before.nodes[id].(addresses := AddressesAfter(before.nodes[id].addresses, Tick(now)));
          PutKeepsInv(suite, before, id, node);
          if asks {
            SendKeepsInv(suite, Put(before, id, node), Datagram(suite, Request, id), Asked(id));
          }
        case Deliver(index, to, from, now) => DeliverKeepsInv(suite, before, index, to, from, now);
      }
    }
  }

  // ----- Answers -----

  function Answers(intents: seq<Intent>): seq<Intent> {
    if intents == [] then []
    else
      var last := intents[|intents| - 1];
      Answers(intents[..|intents| - 1]) + if last.Answered? then [last] else []
  }

  /** What a delivered datagram should make its receiver answer: its server data, to another node's request only. */
  function AnswerTo(intent: Intent, d: Delivery): seq<Intent> {
    if intent.Asked? && intent.sender != d.to && d.pong.Some? && Servers.Encodable(d.pong.value) then
      [Answered(d.to, d.pong.value)]
    else []
  }

  function DueAnswers(intents: seq<Intent>, deliveries: seq<Delivery>): seq<Intent> {
    if deliveries == [] then []
    else
      var last := deliveries[|deliveries| - 1];
      DueAnswers(intents, deliveries[..|deliveries| - 1])
      + if last.index < |intents| then AnswerTo(intents[last.index], last) else []
  }

  lemma {:induction false} DueAnswersWithMoreIntents(
    intents: seq<Intent>, more: seq<Intent>, deliveries: seq<Delivery>)
    requires forall d :: d in deliveries ==> d.index < |intents|
    ensures DueAnswers(intents + more, deliveries) == DueAnswers(intents, deliveries)
  {
    if deliveries != [] {
      DueAnswersWithMoreIntents(intents, more, deliveries[..|deliveries| - 1]);
    }
  }

  lemma OneMoreIntent(intents: seq<Intent>, intent: Intent, deliveries: seq<Delivery>)
    requires forall d :: d in deliveries ==> d.index < |intents|
    ensures Answers(intents + [intent]) == Answers(intents) + if intent.Answered? then [intent] else []
    ensures DueAnswers(intents + [intent], deliveries) == DueAnswers(intents, deliveries)
  {
    assert (intents + [intent])[..|intents|] == intents;
    DueAnswersWithMoreIntents(intents, [intent], deliveries);
  }

  lemma OneMoreDelivery(intents: seq<Intent>, deliveries: seq<Delivery>, d: Delivery)
    requires d.index < |intents|
    ensures DueAnswers(intents, deliveries + [d]) == DueAnswers(intents, deliveries) + AnswerTo(intents[d.index], d)
  {
    assert (deliveries + [d])[..|deliveries|] == deliveries;
  }

  /** Only a request from another node is answered. */
  lemma RepliesAreDue(
    suite: Suite, intent: Intent, id: u64, pong: Option<Servers.ServerData>, index: nat, from: SocketAddr)
    requires suite.Valid() && intent.Valid() && (pong.Some? ==> Servers.Encodable(pong.value))
    ensures var data := Datagram(suite, intent.Packet(), intent.sender);
            |Replies(suite, id, pong, data, from)| == |AnswerTo(intent, Delivery(index, id, pong))|
  {
    DatagramRoundTrip(suite, intent.Packet(), intent.sender);
    RepliesIff(suite, id, pong, Datagram(suite, intent.Packet(), intent.sender), from);
  }

  ghost predicate AnswersMatch(n: Net) {
    && Answers(n.intents) == DueAnswers(n.intents, n.deliveries)
    && forall id :: id in n.nodes && n.nodes[id].pong.Some? ==> Servers.Encodable(n.nodes[id].pong.value)
  }

  lemma SendKeepsAnswers(suite: Suite, n: Net, data: Bytes, intent: Intent)
    requires Inv(suite, n) && AnswersMatch(n) && !intent.Answered?
    ensures AnswersMatch(Send(n, data, intent))
  {
    OneMoreIntent(n.intents, intent, n.deliveries);
  }

  /** The intents and deliveries after a delivery, from those before. */
  lemma DeliveryAnswered(intents: seq<Intent>, deliveries: seq<Delivery>, d: Delivery)
    requires d.index < |intents| && forall e :: e in deliveries ==> e.index < |intents|
    requires Answers(intents) == DueAnswers(intents, deliveries)
    ensures var answer := AnswerTo(intents[d.index], d);
            Answers(intents + answer) == DueAnswers(intents + answer, deliveries + [d])
  {
    var answer, deliveries' := AnswerTo(intents[d.index], d), deliveries + [d];
    OneMoreDelivery(intents, deliveries, d);
    assert forall e :: e in deliveries' ==> e == d || e in deliveries;
    if answer == [] {
      assert intents + answer == intents;
    } else {
      OneMoreIntent(intents, answer[0], deliveries');
    }
  }

  lemma DeliverRecords(suite: Suite, n: Net, index: nat, to: u64, from: SocketAddr, now: Instant)
    requires suite.Valid() && Inv(suite, n) && AnswersMatch(n) && Enabled(n, Deliver(index, to, from, now))
    ensures var n', d := Next(suite, n, Deliver(index, to, from, now)), Delivery(index, to, n.nodes[to].pong);
            && n'.deliveries == n.deliveries + [d] && n'.intents == n.intents + AnswerTo(n.intents[index], d)
            && n'.nodes.Keys == n.nodes.Keys && forall id :: id in n'.nodes ==> n'.nodes[id].pong == n.nodes[id].pong
  {
    RepliesAreDue(suite, n.intents[index], to, n.nodes[to].pong, index, from);
  }

  lemma DeliverKeepsAnswers(suite: Suite, n: Net, index: nat, to: u64, from: SocketAddr, now: Instant)
    requires suite.Valid() && Inv(suite, n) && AnswersMatch(n) && Enabled(n, Deliver(index, to, from, now))
    ensures AnswersMatch(Next(suite, n, Deliver(index, to, from, now)))
  {
    DeliverRecords(suite, n, index, to, from, now);
    DeliveryAnswered(n.intents, n.deliveries, Delivery(index, to, n.nodes[to].pong));
  }

  lemma StepKeepsAnswers(suite: Suite, n: Net, step: Step)
    requires suite.Valid() && Inv(suite, n) && AnswersMatch(n) && Enabled(n, step)
    ensures AnswersMatch(Next(suite, n, step))
  {
    match step
    case Configure(_, _) =>
    case Say(id, signal) =>
      var outgoing := Outgoing(suite, id, n.nodes[id].addresses, signal);
      if outgoing.Ok? {
        ParseMeaning(signal.networkId, U64_MAX);
        var recipient := ParseUnsigned(signal.networkId, U64_MAX).value;
        SendKeepsAnswers(suite, n, outgoing.value.1, Said(id, recipient, signal));
      }
    case TickAt(id, now, asks) =>
      var node := n.nodes[id].(addresses := AddressesAfter(n.nodes[id].addresses, Tick(now)));
      PutKeepsInv(suite, n, id, node);
      if asks {
        SendKeepsAnswers(suite, Put(n, id, node), Datagram(suite, Request, id), Asked(id));
      }
    case Deliver(index, to, from, now) => DeliverKeepsAnswers(suite, n, index, to, from, now);
  }

  // ----- The theorems -----

  /**
   * In every run, the answers sent are exactly those that deliveries were due: one for each delivery of a request to
   * another node that had server data then, with that data and in that order. Nothing else is answered.
   */
  lemma {:induction false} AnswersAreToRequests(suite: Suite, steps: seq<Step>, n: Net)
    requires suite.Valid() && Reaches(suite, steps, n)
    ensures Answers(n.intents) == DueAnswers(n.intents, n.deliveries)
    ensures AnswersMatch(n)
  {
    if steps != [] {
      var last := |steps| - 1;
      var before :| Reaches(suite, steps[..last], before) && Enabled(before, steps[last])
                    && n == Next(suite, before, steps[last]);
      ReachableInv(suite, steps[..last], before);
      AnswersAreToRequests(suite, steps[..last], before);
      StepKeepsAnswers(suite, before, steps[last]);
    }
  }

  /**
   * In every run, what a node has broadcast is exactly the signals that other nodes sent to it, each under its
   * sender's id, once for every delivery and in the order of the deliveries; nobody else's, and nothing changed.
   */
  lemma BroadcastsAreDeliveredSignals(suite: Suite, steps: seq<Step>, n: Net, id: u64)
    requires suite.Valid() && Reaches(suite, steps, n) && id in n.nodes
    ensures n.nodes[id].broadcast == Due(n.intents, n.deliveries, id)
  {
    ReachableInv(suite, steps, n);
    assert NodeSound(n, id);
  }

  lemma {:induction false} DueWasSaid(intents: seq<Intent>, deliveries: seq<Delivery>, id: u64, signal: Signal)
    returns (said: Intent)
    requires signal in Due(intents, deliveries, id)
    ensures said in intents && Meant(said, id) == [signal]
  {
    var last := deliveries[|deliveries| - 1];
    if last.to == id && last.index < |intents| && signal in Meant(intents[last.index], id) {
      said := intents[last.index];
    } else {
      said := DueWasSaid(intents, deliveries[..|deliveries| - 1], id, signal);
    }
  }

  /** So a signal broadcast under an id was sent to this node by that id, with that kind, connection and data. */
  lemma BroadcastSignalWasSent(suite: Suite, steps: seq<Step>, n: Net, id: u64, signal: Signal)
    returns (sender: u64, original: Signal)
    requires suite.Valid() && Reaches(suite, steps, n) && id in n.nodes && signal in n.nodes[id].broadcast
    ensures Said(sender, id, original) in n.intents && sender != id
    ensures signal == original.(networkId := IdText(sender))
  {
    BroadcastsAreDeliveredSignals(suite, steps, n, id);
    var said := DueWasSaid(n.intents, n.deliveries, id, signal);
    return said.sender, said.signal;
  }

  /** A server that a node has discovered under an id is one that this other node answered with. */
  lemma DiscoveredWasAnswered(suite: Suite, steps: seq<Step>, n: Net, id: u64, server: u64)
    requires suite.Valid() && Reaches(suite, steps, n) && id in n.nodes && server in n.nodes[id].discovered
    ensures server != id && Answered(server, n.nodes[id].discovered[server]) in n.intents
  {
    ReachableInv(suite, steps, n);
    assert NodeSound(n, id);
  }

  // ----- What a run's steps say -----

  /** The intents that one step adds. */
  function Adds(suite: Suite, n: Net, step: Step): seq<Intent> {
    match step
    case Configure(_, _) => []
    case Say(id, signal) =>
      if id !in n.nodes || Outgoing(suite, id, n.nodes[id].addresses, signal).Err? then []
      else
        ParseMeaning(signal.networkId, U64_MAX);
        [Said(id, ParseUnsigned(signal.networkId, U64_MAX).value, signal)]
    case TickAt(id, _, asks) => if asks then [Asked(id)] else []
    case Deliver(index, to, _, _) =>
      if index >= |n.intents| || to !in n.nodes then []
      else AnswerTo(n.intents[index], Delivery(index, to, n.nodes[to].pong))
  }

  /** A step sends what it is meant to: a signal that can go out, a request, an answer that is due, and nothing else. */
  lemma StepAdds(suite: Suite, n: Net, step: Step)
    requires suite.Valid() && Inv(suite, n) && AnswersMatch(n) && Enabled(n, step)
    ensures Next(suite, n, step).intents == n.intents + Adds(suite, n, step)
  {
    if step.Deliver? {
      DeliverRecords(suite, n, step.index, step.to, step.from, step.now);
    } else {
      assert n.intents + [] == n.intents;
    }
  }

  /** What a delivered datagram is to a node, told from what its sender meant. */
  function SeenAs(intent: Intent, id: u64, from: SocketAddr, now: Instant): Observation {
    if intent.sender == id then Ignored
    else Accepted(intent.sender, from, now, if intent.Answered? then Some(intent.server) else None)
  }

  /** What one step is to a node. */
  function SeenIn(intents: seq<Intent>, step: Step, id: u64): seq<Observation> {
    match step
    case TickAt(i, now, _) => if i == id then [Tick(now)] else []
    case Deliver(index, to, from, now) =>
      if to == id && index < |intents| then [SeenAs(intents[index], id, from, now)] else []
    case _ => []
  }

  /** All that a node has seen, and how it was configured last. */
  function SeenBy(intents: seq<Intent>, steps: seq<Step>, id: u64): seq<Observation> {
    if steps == [] then []
    else
      var last := |steps| - 1;
      SeenBy(intents, steps[..last], id) + SeenIn(intents, steps[last], id)
  }

  function ConfiguredBy(steps: seq<Step>, id: u64): Option<Servers.ServerData> {
    if steps == [] then None
    else
      var last := |steps| - 1;
      if steps[last].Configure? && steps[last].id == id then steps[last].pong else ConfiguredBy(steps[..last], id)
  }

  ghost predicate IndicesKnown(steps: seq<Step>, count: nat) {
    forall step :: step in steps && step.Deliver? ==> step.index < count
  }

  lemma {:induction false} SeenWithMoreIntents(intents: seq<Intent>, more: seq<Intent>, steps: seq<Step>, id: u64)
    requires IndicesKnown(steps, |intents|)
    ensures SeenBy(intents + more, steps, id) == SeenBy(intents, steps, id)
  {
    if steps != [] {
      var last := |steps| - 1;
      assert steps[last] in steps && forall step :: step in steps[..last] ==> step in steps;
      SeenWithMoreIntents(intents, more, steps[..last], id);
    }
  }

  /** What one step leaves of a node, from what it has seen in the step. */
  ghost predicate NodeAfter(node: Node, node': Node, seen: seq<Observation>, pong: Option<Servers.ServerData>) {
    && |seen| <= 1 && node'.pong == pong
    && node'.addresses == (if seen == [] then node.addresses else AddressesAfter(node.addresses, seen[0]))
    && node'.discovered == if seen == [] then node.discovered else DiscoveredAfter(node.discovered, seen[0])
  }

  lemma HeardIsSeen(suite: Suite, intent: Intent, to: u64, node: Node, from: SocketAddr, now: Instant)
    requires suite.Valid() && intent.Valid()
    ensures var node' := Heard(suite, to, node, Datagram(suite, intent.Packet(), intent.sender), from, now);
            NodeAfter(node, node', [SeenAs(intent, to, from, now)], node.pong)
  {
    DeliveryIsMeant(suite, intent, to, from, now);
  }

  /** The nodes after a step. */
  function NodesAfter(suite: Suite, n: Net, step: Step): map<u64, Node>
    requires Enabled(n, step)
  {
    match step
    case Configure(id, pong) => n.nodes[id := n.nodes[id].(pong := pong)]
    case Say(_, _) => n.nodes
    case TickAt(id, now, _) =>
      n.nodes[id := n.nodes[id].(addresses := AddressesAfter(n.nodes[id].addresses, Tick(now)))]
    case Deliver(index, to, from, now) =>
      n.nodes[to := Heard(suite, to, n.nodes[to], n.sent[index], from, now)]
  }

  lemma NextNodes(suite: Suite, n: Net, step: Step)
    requires Enabled(n, step)
    ensures Next(suite, n, step).nodes == NodesAfter(suite, n, step)
  {
  }

  /** One step on one node's tables and configuration. */
  lemma StepOnNode(suite: Suite, n: Net, step: Step, id: u64)
    requires suite.Valid() && Inv(suite, n) && Enabled(n, step) && id in n.nodes
    ensures id in NodesAfter(suite, n, step)
    ensures NodeAfter(n.nodes[id], NodesAfter(suite, n, step)[id], SeenIn(n.intents, step, id),
                      if step.Configure? && step.id == id then step.pong else n.nodes[id].pong)
  {
    if step.Deliver? && step.to == id {
      HeardIsSeen(suite, n.intents[step.index], id, n.nodes[id], step.from, step.now);
    }
  }

  /** A node's tables are those of what it has seen. */
  ghost predicate NodeTold(intents: seq<Intent>, steps: seq<Step>, id: u64, node: Node) {
    && node.pong == ConfiguredBy(steps, id)
    && node.addresses == AddressesOf(SeenBy(intents, steps, id))
    && node.discovered == DiscoveredOf(SeenBy(intents, steps, id))
  }

  lemma TablesAfterOneMore(seen: seq<Observation>, more: seq<Observation>)
    requires |more| <= 1
    ensures AddressesOf(seen + more)
            == if more == [] then AddressesOf(seen) else AddressesAfter(AddressesOf(seen), more[0])
    ensures DiscoveredOf(seen + more)
            == if more == [] then DiscoveredOf(seen) else DiscoveredAfter(DiscoveredOf(seen), more[0])
  {
    if more == [] {
      assert seen + more == seen;
    } else {
      assert (seen + more)[..|seen|] == seen && (seen + more)[|seen|] == more[0];
    }
  }

  lemma NodeToldStep(
    before: Node, after: Node, intents: seq<Intent>, added: seq<Intent>, steps: seq<Step>, step: Step, id: u64)
    requires IndicesKnown(steps, |intents|) && (step.Deliver? ==> step.index < |intents|)
    requires NodeTold(intents, steps, id, before)
    requires NodeAfter(before, after, SeenIn(intents, step, id),
                       if step.Configure? && step.id == id then step.pong else before.pong)
    ensures NodeTold(intents + added, steps + [step], id, after)
  {
    var steps' := steps + [step];
    assert steps'[..|steps|] == steps && steps'[|steps|] == step;
    SeenWithMoreIntents(intents, added, steps, id);
    assert SeenIn(intents + added, step, id) == SeenIn(intents, step, id);
    TablesAfterOneMore(SeenBy(intents, steps, id), SeenIn(intents, step, id));
  }

  /** The last step of a run, as far as one node and the intents are concerned. */
  lemma LastStep(suite: Suite, steps: seq<Step>, n: Net, id: u64) returns (before: Net, added: seq<Intent>)
    requires suite.Valid() && Reaches(suite, steps, n) && steps != [] && id in n.nodes
    ensures Reaches(suite, steps[..|steps| - 1], before) && n.intents == before.intents + added
    ensures var step := steps[|steps| - 1];
            && (step.Deliver? ==> step.index < |before.intents|)
            && id in before.nodes
            && NodeAfter(before.nodes[id], n.nodes[id], SeenIn(before.intents, step, id),
                         if step.Configure? && step.id == id then step.pong else before.nodes[id].pong)
  {
    var last := |steps| - 1;
    before :| Reaches(suite, steps[..last], before) && Enabled(before, steps[last])
              && n == Next(suite, before, steps[last]);
    ReachableInv(suite, steps[..last], before);
    AnswersAreToRequests(suite, steps[..last], before);
    StepAdds(suite, before, steps[last]);
    added := Adds(suite, before, steps[last]);
    NodesStay(suite, before, steps[last]);
    assert id in before.nodes.Keys;
    StepOnNode(suite, before, steps[last], id);
    NextNodes(suite, before, steps[last]);
  }

  lemma NodesStay(suite: Suite, n: Net, step: Step)
    requires Enabled(n, step)
    ensures Next(suite, n, step).nodes.Keys == n.nodes.Keys
  {
  }

  lemma OneMoreKnown(steps: seq<Step>, step: Step, count: nat, count': nat)
    requires IndicesKnown(steps, count) && count <= count' && (step.Deliver? ==> step.index < count')
    ensures IndicesKnown(steps + [step], count')
  {
  }

  lemma {:induction false} NodesAreTold(suite: Suite, steps: seq<Step>, n: Net, id: u64)
    requires suite.Valid() && Reaches(suite, steps, n) && id in n.nodes
    ensures NodeTold(n.intents, steps, id, n.nodes[id]) && IndicesKnown(steps, |n.intents|)
  {
    if steps != [] {
      var init, step := steps[..|steps| - 1], steps[|steps| - 1];
      var before, added := LastStep(suite, steps, n, id);
      NodesAreTold(suite, init, before, id);
      NodeToldStep(before.nodes[id], n.nodes[id], before.intents, added, init, step, id);
      OneMoreKnown(init, step, |before.intents|, |n.intents|);
      assert steps == init + [step];
    }
  }

  /**
   * In every run each node's tables are those of what it has seen: its ticks and the datagrams delivered to it, each as
   * its sender meant it. So they agree with that history.
   */
  lemma TablesAreOfWhatWasSeen(suite: Suite, steps: seq<Step>, n: Net, id: u64)
    requires suite.Valid() && Reaches(suite, steps, n) && id in n.nodes
    ensures n.nodes[id].pong == ConfiguredBy(steps, id)
    ensures AddressesMatch(SeenBy(n.intents, steps, id), n.nodes[id].addresses)
    ensures DiscoveredMatch(SeenBy(n.intents, steps, id), n.nodes[id].discovered)
  {
    NodesAreTold(suite, steps, n, id);
    TablesRefineHistory(SeenBy(n.intents, steps, id));
  }
}
