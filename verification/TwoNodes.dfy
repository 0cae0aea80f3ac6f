/** What two LAN nodes can say to each other: discovery, and signals with their replies (src/signaling/lan.rs). */
module TwoNodes {
  import opened Wrappers
  import opened Octets
  import opened Utf8
  import opened Decimal
  import opened Signals
  import opened Crypto
  import opened Packets
  import opened Tables
  import opened Lan
  import Servers = ServerDatas

  /** The id text that a receiver attaches parses back to the sender. */
  lemma IdTextRoundTrip(id: u64)
    ensures IdText(id) == ToDecimal(id) && ParseUnsigned(IdText(id), U64_MAX) == Some(id)
  {
    DecimalRoundTrip(id, U64_MAX);
  }

  /**
   * What `signal` sends goes to the table's address for the recipient, and fits the receive buffer exactly when
   * the signal's text is at most 4031 bytes.
   */
  lemma SignalIsSent(suite: Suite, sender: u64, addresses: Addresses, signal: Signal, recipient: u64)
    requires ParseUnsigned(signal.networkId, U64_MAX) == Some(recipient) && recipient in addresses
    requires Fits(Message(recipient, ToText(signal)))
    ensures var d := Datagram(suite, Message(recipient, ToText(signal)), sender);
            && Outgoing(suite, sender, addresses, signal) == Ok((addresses[recipient].addr, d))
            && (|d| <= RECEIVE_BUFFER <==> |ToText(signal)| <= 4031)
  {
    MessageFitsReceiveBufferIff(suite, recipient, ToText(signal), sender);
  }

  lemma SignalIsEmitted(suite: Suite, sender: u64, recipient: u64, signal: Signal, node: u64)
    requires suite.Valid() && sender != node && Fits(Message(recipient, ToText(signal)))
    ensures Emitted(suite, node, Datagram(suite, Message(recipient, ToText(signal)), sender))
            == if node == recipient then [signal.(networkId := IdText(sender))] else []
  {
    DatagramRoundTrip(suite, Message(recipient, ToText(signal)), sender);
    NeverPing(signal);
    SignalRoundTrip(signal, IdText(sender));
  }

  lemma MessageIsObserved(suite: Suite, sender: u64, p: Packet, node: u64, from: SocketAddr, now: Instant)
    requires suite.Valid() && sender != node && p.Message? && Fits(p)
    ensures Observe(suite, node, Datagram(suite, p, sender), from, now) == Accepted(sender, from, now, None)
  {
    DatagramRoundTrip(suite, p, sender);
  }

  /**
   * A signal between two nodes arrives intact: the recipient broadcasts exactly that signal under the sender's id,
   * every other node broadcasts nothing, and all of them learn the sender's address.
   */
  lemma SignalArrives(
    suite: Suite, sender: u64, recipient: u64, signal: Signal, node: u64, from: SocketAddr, now: Instant)
    requires suite.Valid() && sender != node
    requires Fits(Message(recipient, ToText(signal)))
    ensures var d := Datagram(suite, Message(recipient, ToText(signal)), sender);
            && Emitted(suite, node, d) == (if node == recipient then [signal.(networkId := IdText(sender))] else [])
            && Observe(suite, node, d, from, now) == Accepted(sender, from, now, None)
  {
    SignalIsEmitted(suite, sender, recipient, signal, node);
    MessageIsObserved(suite, sender, Message(recipient, ToText(signal)), node, from, now);
  }

  /**
   * End to end, with the reply: node A's table leads to B, the text is at most 4031 bytes. What A sends is received
   * whole and makes B broadcast one signal of the same kind, connection and data; any reply that B addresses to that
   * signal's network id goes to the address the datagram came from, and makes A broadcast that reply.
   */
  lemma SignalAndReply(
    suite: Suite, a: u64, b: u64, addressesA: Addresses, addressesB: Addresses,
    signal: Signal, from: SocketAddr, now: Instant, reply: Signal)
    requires suite.Valid() && a != b
    requires ParseUnsigned(signal.networkId, U64_MAX) == Some(b) && b in addressesA
    requires |ToText(signal)| <= 4031 && |ToText(reply)| <= 4031
    requires reply.networkId == IdText(a)
    ensures var sent := Outgoing(suite, a, addressesA, signal);
            && sent.Ok? && sent.value.0 == addressesA[b].addr && |sent.value.1| <= RECEIVE_BUFFER
            && Emitted(suite, b, sent.value.1) == [signal.(networkId := IdText(a))]
            && var addressesB' := AddressesAfter(addressesB, Observe(suite, b, sent.value.1, from, now));
               var answered := Outgoing(suite, b, addressesB', reply);
               && answered.Ok? && answered.value.0 == from && |answered.value.1| <= RECEIVE_BUFFER
               && Emitted(suite, a, answered.value.1) == [reply.(networkId := IdText(b))]
  {
    SignalIsSent(suite, a, addressesA, signal, b);
    SignalArrives(suite, a, b, signal, b, from, now);
    var d := Datagram(suite, Message(b, ToText(signal)), a);
    var addressesB' := AddressesAfter(addressesB, Observe(suite, b, d, from, now));
    IdTextRoundTrip(a);
    SignalIsSent(suite, b, addressesB', reply, a);
    SignalArrives(suite, b, a, reply, a, from, now);
  }

  lemma RequestIsAnswered(suite: Suite, client: u64, server: u64, pong: Servers.ServerData, from: SocketAddr)
    requires suite.Valid() && client != server && Servers.Encodable(pong)
    ensures Replies(suite, server, Some(pong), Datagram(suite, Request, client), from)
            == [(from, Datagram(suite, ResponseTo(pong), server))]
  {
    DatagramRoundTrip(suite, Request, client);
  }

  lemma ResponseIsLearned(
    suite: Suite, client: u64, server: u64, pong: Servers.ServerData, from: SocketAddr, now: Instant)
    requires suite.Valid() && client != server && Servers.Encodable(pong)
    ensures Observe(suite, client, Datagram(suite, ResponseTo(pong), server), from, now)
            == Accepted(server, from, now, Some(pong))
  {
    DatagramRoundTrip(suite, ResponseTo(pong), server);
    Servers.LayoutRoundTrip(pong);
  }

  lemma ResponseSize(suite: Suite, server: u64, pong: Servers.ServerData)
    requires Servers.Encodable(pong)
    ensures |Datagram(suite, ResponseTo(pong), server)| <= 1120
  {
    var response := ResponseTo(pong);
    DatagramSize(suite, response, server);
    var n := 2 + HEADER_SIZE + |BodyBytes(response)|;
    assert n <= 1076 && n + PadLength(n) <= 1088;
  }

  /**
   * Discovery: a request makes a configured server answer with one datagram of at most 1120 bytes, from which the
   * client learns exactly the server's description.
   */
  lemma DiscoveryFindsServer(
    suite: Suite, client: u64, server: u64, pong: Servers.ServerData,
    clientAddr: SocketAddr, serverAddr: SocketAddr, now: Instant)
    requires suite.Valid() && client != server && Servers.Encodable(pong)
    ensures Fits(Request)
    ensures var replies := Replies(suite, server, Some(pong), Datagram(suite, Request, client), clientAddr);
            && |replies| == 1 && replies[0].0 == clientAddr && |replies[0].1| <= 1120
            && Observe(suite, client, replies[0].1, serverAddr, now) == Accepted(server, serverAddr, now, Some(pong))
  {
    RequestIsAnswered(suite, client, server, pong, clientAddr);
    ResponseIsLearned(suite, client, server, pong, serverAddr, now);
    ResponseSize(suite, server, pong);
  }
}
