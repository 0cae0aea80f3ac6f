/** LAN signalling: the address table, discovery and message dispatch of one node (src/signaling/lan.rs). */
module Lan {
  import opened Wrappers
  import opened Octets
  import opened Utf8
  import opened Decimal
  import opened Signals
  import opened Crypto
  import opened Packets
  import opened Tables
  import Servers = ServerDatas

  // ----- What one datagram means to a node -----

  /** The sender of a datagram that is well formed and not the node's own. */
  function SenderOf(suite: Suite, own: u64, data: Bytes): Option<u64> {
    match Unmarshaled(suite, data)
    case Err(_) => None
    case Ok((_, sender)) => if sender == own then None else Some(sender)
  }

  function PacketOf(suite: Suite, data: Bytes): Option<Packet> {
    match Unmarshaled(suite, data)
    case Err(_) => None
    case Ok((packet, _)) => Some(packet)
  }

  /** The server description in a response datagram. */
  function AdvertisedBy(suite: Suite, own: u64, data: Bytes): Option<Servers.ServerData> {
    var packet := PacketOf(suite, data);
    if SenderOf(suite, own, data).Some? && packet.Some? && packet.value.Response? then
      match Servers.Unmarshaled(packet.value.applicationData)
      case Err(_) => None
      case Ok(d) => Some(d)
    else None
  }

  function IdText(id: u64): Str {
    DecimalRoundTrip(id, U64_MAX);
    AsciiIsUtf8(ToDecimal(id));
    ToDecimal(id)
  }

  /** What a message packet from another node makes this node broadcast; a keepalive is dropped. */
  function EmittedBy(own: u64, sender: u64, recipientId: u64, text: Str): seq<Signal> {
    if text == Ascii("Ping") || recipientId != own then []
    else
      var signal := FromText(text, IdText(sender));
      if signal.Ok? then [signal.value] else []
  }

  /** The signals that a datagram makes a node broadcast to its subscribers. */
  function Emitted(suite: Suite, own: u64, data: Bytes): seq<Signal> {
    match Unmarshaled(suite, data)
    case Err(_) => []
    case Ok((packet, sender)) =>
      if sender == own || !packet.Message? then [] else EmittedBy(own, sender, packet.recipientId, packet.data)
  }

  function ResponseTo(pong: Servers.ServerData): (p: Packet)
    requires Servers.Encodable(pong)
    ensures Fits(p) && |BodyBytes(p)| <= 1056
  {
    Servers.LayoutSize(pong);
    Response(Servers.Layout(pong))
  }

  /** The datagrams that a node sends back. */
  function Replies(suite: Suite, own: u64, pong: Option<Servers.ServerData>, data: Bytes, from: SocketAddr)
    : seq<(SocketAddr, Bytes)>
  {
    if SenderOf(suite, own, data).Some? && PacketOf(suite, data) == Some(Request)
       && pong.Some? && Servers.Encodable(pong.value) then
      [(from, Datagram(suite, ResponseTo(pong.value), own))]
    else []
  }

  /** `signal`: where a signal is sent and as what. */
  function Outgoing(suite: Suite, own: u64, addresses: Addresses, signal: Signal): Result<(SocketAddr, Bytes)> {
    var recipient := ParseUnsigned(signal.networkId, U64_MAX);
    if recipient == None then Err(Other)
    else
      ParseMeaning(signal.networkId, U64_MAX);
      if recipient.value !in addresses then Err(Other)
      else
        var packet := Message(recipient.value, ToText(signal));
        if !Fits(packet) then
          Err(if |packet.data| > Primitives.MAX_BYTES then Io
              else MessageTooLarge(2 + HEADER_SIZE + |BodyBytes(packet)|))
        else Ok((addresses[recipient.value].addr, Datagram(suite, packet, own)))
  }

  function Observe(suite: Suite, own: u64, data: Bytes, from: SocketAddr, now: Instant): (o: Observation)
    ensures o.Accepted? ==> o.id != own
  {
    var sender := SenderOf(suite, own, data);
    if sender == None then Ignored else Accepted(sender.value, from, now, AdvertisedBy(suite, own, data))
  }

  // ----- What each datagram makes a node do, told from what it says -----

  /** The datagram is a message to `own` from another node, and its text reads as `signal`. */
  ghost predicate CarriesSignal(suite: Suite, own: u64, data: Bytes, text: Str, sender: u64, signal: Signal) {
    && Unmarshaled(suite, data) == Ok((Message(own, text), sender))
    && sender != own && FromText(text, IdText(sender)) == Ok(signal)
  }

  lemma PingIsNoSignal(networkId: Str)
    ensures IsUtf8(Ascii("Ping")) && FromText(Ascii("Ping"), networkId).Err?
  {
    var s := Ascii("Ping");
    AsciiIsUtf8(s);
    assert forall i :: 0 <= i < |s| ==> s[i] != SPACE;
    assert FirstSpace(s) == |s|;
  }

  lemma CarriedIsEmitted(suite: Suite, own: u64, data: Bytes, text: Str, sender: u64, signal: Signal)
    requires CarriesSignal(suite, own, data, text, sender, signal)
    ensures Emitted(suite, own, data) == [signal]
  {
    PingIsNoSignal(IdText(sender));
    assert EmittedBy(own, sender, own, text) == [signal];
  }

  /** A signal is broadcast exactly for such a datagram, once. */
  lemma EmittedIff(suite: Suite, own: u64, data: Bytes, signal: Signal)
    ensures Emitted(suite, own, data) == [signal]
            <==> exists text: Str, sender: u64 :: CarriesSignal(suite, own, data, text, sender, signal)
    ensures |Emitted(suite, own, data)| <= 1
  {
    if text: Str, sender: u64 :| CarriesSignal(suite, own, data, text, sender, signal) {
      CarriedIsEmitted(suite, own, data, text, sender, signal);
    }
    if Emitted(suite, own, data) == [signal] {
      var (packet, sender) := Unmarshaled(suite, data).value;
      assert CarriesSignal(suite, own, data, packet.data, sender, signal);
    }
  }

  /**
   * A datagram is answered exactly if it is a request from another node and server data is set: once, to its source,
   * with that data.
   */
  lemma RepliesIff(suite: Suite, own: u64, pong: Option<Servers.ServerData>, data: Bytes, from: SocketAddr)
    requires pong.Some? ==> Servers.Encodable(pong.value)
    ensures var replies := Replies(suite, own, pong, data, from);
            var asked := exists sender: u64 :: sender != own && Unmarshaled(suite, data) == Ok((Request, sender));
            if pong.Some? && asked then
              replies == [(from, Datagram(suite, ResponseTo(pong.value), own))]
            else replies == []
  {
    if Unmarshaled(suite, data).Ok? && Unmarshaled(suite, data).value.1 != own {
      var sender := Unmarshaled(suite, data).value.1;
      assert PacketOf(suite, data) == Some(Request) ==> Unmarshaled(suite, data) == Ok((Request, sender));
    }
  }

  /** A node learns an address from any datagram of another node, and a server from a well-formed response. */
  lemma ObserveIff(
    suite: Suite, own: u64, data: Bytes, from: SocketAddr, now: Instant,
    sender: u64, advert: Option<Servers.ServerData>)
    ensures Observe(suite, own, data, from, now) == Accepted(sender, from, now, advert) <==>
              && sender != own
              && Unmarshaled(suite, data).Ok? && Unmarshaled(suite, data).value.1 == sender
              && match Unmarshaled(suite, data).value.0
                 case Response(app) =>
                   var server := Servers.Unmarshaled(app);
                   advert == if server.Ok? then Some(server.value) else None
                 case _ => advert == None
  {
  }

  /**
   * What `signal` answers. It sends exactly if the network id parses, that node is known from the history and not
   * expired, and the text is at most 65503 bytes; the three failures are told apart in that order.
   */
  lemma OutgoingIff(suite: Suite, own: u64, history: seq<Observation>, addresses: Addresses, signal: Signal)
    requires AddressesMatch(history, addresses)
    ensures var outgoing := Outgoing(suite, own, addresses, signal);
            var text := ToText(signal);
            match ParseUnsigned(signal.networkId, U64_MAX)
            case None => outgoing == Err(Other)
            case Some(id) =>
              && id <= U64_MAX
              && if !(exists i, e :: LiveEntry(history, id, i, e)) then outgoing == Err(Other)
                 else if |text| > 16 * 1024 * 1024 then outgoing == Err(Io)
                 else if |text| > 65503 then outgoing == Err(MessageTooLarge(|text| + 32))
                 else
                   && outgoing.Ok? && Fits(Message(id, text))
                   && outgoing.value.1 == Datagram(suite, Message(id, text), own)
                   && exists i, e :: LiveEntry(history, id, i, e) && outgoing.value.0 == e.addr
  {
    var parsed := ParseUnsigned(signal.networkId, U64_MAX);
    ParseMeaning(signal.networkId, U64_MAX);
    if parsed.Some? {
      var id: u64 := parsed.value;
      assert AddressAgrees(history, id, Lookup(addresses, id));
      assert |BodyBytes(Message(id, ToText(signal)))| == |ToText(signal)| + 12;
    }
  }

  // ----- The node -----

  /** `LanSignaling`; `sent` and `broadcast` collect what went to the socket and to the subscribers. */
  class LanSignaling {
    const suite: Suite
    const networkId: u64
    var addresses: Addresses
    var discoveredServers: Discovered
    var serverData: Option<Servers.ServerData>
    var sent: seq<(SocketAddr, Bytes)>
    var broadcast: seq<Signal>
    ghost var history: seq<Observation>

    /** The tables agree with the history, which never accepts the node's own datagrams. */
    ghost predicate Valid()
      reads this
    {
      && suite.Valid()
      && AddressesMatch(history, addresses)
      && DiscoveredMatch(history, discoveredServers)
      && (forall o :: o in history && o.Accepted? ==> o.id != networkId)
      && (serverData.Some? ==> Servers.Encodable(serverData.value))
    }

    constructor (suite: Suite, networkId: u64)
      requires suite.Valid()
      ensures Valid() && this.suite == suite && this.networkId == networkId && history == []
      ensures addresses == map[] && discoveredServers == map[] && serverData == None && sent == [] && broadcast == []
    {
      this.suite, this.networkId := suite, networkId;
      addresses, discoveredServers, serverData := map[], map[], None;
      sent, broadcast, history := [], [], [];
    }

    /** `handle_packet`; never fails, because the configured server data can always be marshalled. */
    method HandlePacket(data: Bytes, from: SocketAddr, now: Instant) returns (r: Result<()>)
      requires Valid()
      modifies this
      ensures Valid() && r == Ok(()) && history == old(history) + [Observe(suite, networkId, data, from, now)]
      ensures serverData == old(serverData)
      ensures addresses == AddressesAfter(old(addresses), Observe(suite, networkId, data, from, now))
      ensures discoveredServers == DiscoveredAfter(old(discoveredServers), Observe(suite, networkId, data, from, now))
      ensures sent == old(sent) + Replies(suite, networkId, serverData, data, from)
      ensures broadcast == old(broadcast) + Emitted(suite, networkId, data)
    {
      ghost var o := Observe(suite, networkId, data, from, now);
      AddressesKeepMatching(history, addresses, o);
      DiscoveredKeepMatching(history, discoveredServers, o);
      history := history + [o];
      r := Ok(());
      var unmarshaled := Packets.Unmarshal(suite, data);
      if unmarshaled.Err? {
        return;
      }
      var (packet, sender) := unmarshaled.value;
      if sender == networkId {
        return;
      }
      addresses := addresses[sender := AddressEntry(from, now)];
      r := HandleBody(packet, sender, from);
    }

    /** The part of `handle_packet` that depends on the packet's type. */
    method HandleBody(packet: Packet, sender: u64, from: SocketAddr) returns (r: Result<()>)
      requires serverData.Some? ==> Servers.Encodable(serverData.value)
      modifies this`sent, this`discoveredServers, this`broadcast
      ensures r == Ok(())
      ensures sent == old(sent) + if packet.Request? && serverData.Some? then
                                    [(from, Datagram(suite, ResponseTo(serverData.value), networkId))]
                                  else []
      ensures discoveredServers == if packet.Response? && Servers.Unmarshaled(packet.applicationData).Ok? then
                                     old(discoveredServers)[sender := Servers.Unmarshaled(packet.applicationData).value]
                                   else old(discoveredServers)
      ensures broadcast == old(broadcast) + if packet.Message? then
                                              EmittedBy(networkId, sender, packet.recipientId, packet.data)
                                            else []
    {
      r := Ok(());
      match packet {
        case Request => r := Respond(from);
        case Response(applicationData) => HandleResponse(sender, applicationData);
        case Message(recipientId, text) => HandleMessage(sender, recipientId, text);
      }
    }

    method HandleResponse(sender: u64, applicationData: Bytes)
      modifies this`discoveredServers
      ensures var server := Servers.Unmarshaled(applicationData);
              discoveredServers == if server.Ok? then old(discoveredServers)[sender := server.value]
                                   else old(discoveredServers)
    {
      var server := Servers.Unmarshal(applicationData);
      if server.Ok? {
        discoveredServers := discoveredServers[sender := server.value];
      }
    }

    method HandleMessage(sender: u64, recipientId: u64, text: Str)
      modifies this`broadcast
      ensures broadcast == old(broadcast) + EmittedBy(networkId, sender, recipientId, text)
    {
      if text == Ascii("Ping") {
        return;
      }
      if recipientId == networkId {
        var signal := FromText(text, IdText(sender));
        if signal.Ok? {
          broadcast := broadcast + [signal.value];
        }
      }
    }

    /** The answer to a discovery request. */
    method Respond(to: SocketAddr) returns (r: Result<()>)
      modifies this`sent
      ensures serverData.Some? && !Servers.Encodable(serverData.value) ==> r.Err? && sent == old(sent)
      ensures serverData.Some? && Servers.Encodable(serverData.value) ==>
                r == Ok(()) && sent == old(sent) + [(to, Datagram(suite, ResponseTo(serverData.value), networkId))]
      ensures serverData == None ==> r == Ok(()) && sent == old(sent)
    {
      if serverData == None {
        return Ok(());
      }
      var appData :- Servers.Marshal(serverData.value);
      ghost var fits := ResponseTo(serverData.value);
      var response := Packets.Marshal(suite, Response(appData), networkId);
      if response.Ok? {
        sent := sent + [(to, response.value)];
      }
      r := match response case Ok(_) => Ok(()) case Err(e) => Err(e);
    }

    /** `cleanup_addresses`: keeps the entries seen less than 15 seconds ago. */
    method CleanupAddresses(now: Instant)
      requires Valid()
      modifies this
      ensures Valid() && history == old(history) + [Tick(now)]
      ensures serverData == old(serverData) && sent == old(sent) && broadcast == old(broadcast)
    {
      AddressesKeepMatching(history, addresses, Tick(now));
      DiscoveredKeepMatching(history, discoveredServers, Tick(now));
      history := history + [Tick(now)];
      addresses := map id | id in addresses && now < addresses[id].lastSeen + ADDRESS_TIMEOUT :: addresses[id];
    }

    /** One tick of the event loop: cleanup, then a discovery request if the node broadcasts. */
    method OnTick(now: Instant, broadcastAddr: Option<SocketAddr>)
      requires Valid()
      modifies this
      ensures Valid() && history == old(history) + [Tick(now)]
      ensures serverData == old(serverData) && broadcast == old(broadcast)
      ensures sent == old(sent) + if broadcastAddr == None then []
                                  else [(broadcastAddr.value, Datagram(suite, Request, networkId))]
    {
      CleanupAddresses(now);
      if broadcastAddr.Some? {
        var data := Packets.Marshal(suite, Request, networkId);
        if data.Ok? {
          sent := sent + [(broadcastAddr.value, data.value)];
        }
      }
    }

    /** `set_pong_data` */
    method SetPongData(data: Bytes)
      requires Valid()
      modifies this`serverData
      ensures Valid()
      ensures serverData == if Servers.Unmarshaled(data).Ok? then Some(Servers.Unmarshaled(data).value) else None
    {
      var parsed := Servers.Unmarshal(data);
      serverData := if parsed.Ok? then Some(parsed.value) else None;
    }

    /**
     * The last address an id was heard from, unless a tick since then came 15 seconds or more later; never the
     * node's own id.
     */
    method GetAddress(id: u64) returns (r: Option<SocketAddr>)
      requires Valid()
      ensures match r
              case Some(addr) => exists i, e :: LiveEntry(history, id, i, e) && e.addr == addr
              case None => forall i, e :: !LiveEntry(history, id, i, e)
      ensures id == networkId ==> r == None
    {
      assert AddressAgrees(history, id, Lookup(addresses, id));
      if id in addresses {
        return Some(addresses[id].addr);
      }
      return None;
    }

    /** `discover`: the last well-formed response of every id that sent one; never the node's own id. */
    method Discover() returns (r: Discovered)
      requires Valid()
      ensures DiscoveredMatch(history, r) && networkId !in r
    {
      assert AdvertAgrees(history, networkId, Lookup(discoveredServers, networkId));
      r := discoveredServers;
    }

    /** `signal`; the socket's answer to a send is a parameter. */
    method SendSignal(signal: Signal, socketSends: bool) returns (r: Result<()>)
      requires Valid()
      modifies this`sent
      ensures match Outgoing(suite, networkId, addresses, signal)
              case Ok(datagram) => if socketSends then r == Ok(()) && sent == old(sent) + [datagram]
                                   else r == Err(Io) && sent == old(sent)
              case Err(e) => r == Err(e) && sent == old(sent)
    {
      var recipient := ParseUnsigned(signal.networkId, U64_MAX);
      if recipient == None {
        return Err(Other);
      }
      ParseMeaning(signal.networkId, U64_MAX);
      if recipient.value !in addresses {
        return Err(Other);
      }
      var addr := addresses[recipient.value].addr;
      var data :- Packets.Marshal(suite, Message(recipient.value, ToText(signal)), networkId);
      if !socketSends {
        return Err(Io);
      }
      sent := sent + [(addr, data)];
      return Ok(());
    }
  }
}
