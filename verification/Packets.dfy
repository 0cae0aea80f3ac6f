/** Discovery datagrams (src/protocol/packet/discovery/packet.rs, message.rs, response.rs and request.rs). */
module Packets {
  import opened Wrappers
  import opened Octets
  import opened Utf8
  import opened Primitives
  import opened Crypto
  import opened Hex

  const ID_REQUEST_PACKET: u16 := 0
  const ID_RESPONSE_PACKET: u16 := 1
  const ID_MESSAGE_PACKET: u16 := 2

  const CHECKSUM_SIZE := 32
  const HEADER_SIZE := 18

  datatype Packet =
    | Request
    | Response(applicationData: Bytes)
    | Message(recipientId: u64, data: Str)

  function IdOf(p: Packet): u16 {
    match p
    case Request => ID_REQUEST_PACKET
    case Response(_) => ID_RESPONSE_PACKET
    case Message(_, _) => ID_MESSAGE_PACKET
  }

  // ----- Layout -----

  function Zeros(n: nat): (s: Bytes)
    ensures |s| == n
  {
    Repeat(0, n)
  }

  function HeaderBytes(id: u16, senderId: u64): (s: Bytes)
    ensures |s| == HEADER_SIZE
  {
    ToLe(id, 2) + ToLe(senderId, 8) + Zeros(8)
  }

  function MessageBody(recipientId: u64, data: Bytes): Bytes {
    ToLe(recipientId, 8) + (ToLe(|data|, 4) + data)
  }

  function BodyBytes(p: Packet): Bytes {
    match p
    case Request => []
    case Response(data) => ResponseBody(data)
    case Message(recipientId, data) => MessageBody(recipientId, data)
  }

  function Inner(p: Packet, senderId: u64): Bytes {
    HeaderBytes(IdOf(p), senderId) + BodyBytes(p)
  }

  predicate Fits(p: Packet) {
    2 + HEADER_SIZE + |BodyBytes(p)| <= U16_MAX
  }

  function Plaintext(p: Packet, senderId: u64): Bytes
    requires Fits(p)
  {
    ToLe(|Inner(p, senderId)|, 2) + Inner(p, senderId)
  }

  function Datagram(suite: Suite, p: Packet, senderId: u64): Bytes
    requires Fits(p)
  {
    suite.mac(Plaintext(p, senderId)) + Encrypted(suite, Plaintext(p, senderId))
  }

  // ----- Parsing -----

  datatype Header = Header(packetId: u16, senderId: u64)

  function ParseHeader(s: Bytes): Result<Parsed<Header>> {
    Widths();
    var id :- TakeLe(s, 2);
    var sender :- TakeLe(id.rest, 8);
    var padding :- Take(sender.rest, 8);
    Ok(Parsed(Header(id.value, sender.value), padding.rest))
  }

  function ParseResponse(s: Bytes): Result<Parsed<Packet>> {
    var hex :- TakeBytes32(s);
    var data := Unhex(hex.value);
    if data == None then Err(Other) else Ok(Parsed(Response(data.value), hex.rest))
  }

  function ParseMessage(s: Bytes): Result<Parsed<Packet>> {
    Widths();
    var recipient :- TakeLe(s, 8);
    var data :- TakeBytes32(recipient.rest);
    if !IsUtf8(data.value) then Err(Other) else Ok(Parsed(Message(recipient.value, data.value), data.rest))
  }

  function ParseBody(id: u16, s: Bytes): Result<Parsed<Packet>> {
    if id == ID_REQUEST_PACKET then Ok(Parsed(Request, s))
    else if id == ID_RESPONSE_PACKET then ParseResponse(s)
    else if id == ID_MESSAGE_PACKET then ParseMessage(s)
    else Err(Other)
  }

  /** The length field is read and ignored, and so is the header's padding. */
  function ParsePlaintext(s: Bytes): Result<(Packet, u64)> {
    var length :- TakeLe(s, 2);
    var header :- ParseHeader(length.rest);
    var packet :- ParseBody(header.value.packetId, header.rest);
    if packet.rest != [] then Err(Other) else Ok((packet.value, header.value.senderId))
  }

  function Unmarshaled(suite: Suite, data: Bytes): Result<(Packet, u64)> {
    if |data| < CHECKSUM_SIZE then Err(Other)
    else
      var plain :- Decrypted(suite, data[CHECKSUM_SIZE..]);
      if suite.mac(plain) != data[..CHECKSUM_SIZE] then Err(Other) else ParsePlaintext(plain)
  }

  // ----- Round trips -----

  lemma HeaderRoundTrip(id: u16, senderId: u64, rest: Bytes)
    ensures ParseHeader(HeaderBytes(id, senderId) + rest) == Ok(Parsed(Header(id, senderId), rest))
  {
    Widths();
    var first, second, third := ToLe(id, 2), ToLe(senderId, 8), Zeros(8);
    assert HeaderBytes(id, senderId) + rest == first + (second + (third + rest));
    TakeLeWritten(id, 2, second + (third + rest));
    TakeLeWritten(senderId, 8, third + rest);
    TakeWritten(third, rest);
  }

  /** The unchecked cast of the length is exact in every packet that marshals. */
  lemma ResponseLengthExact(data: Bytes)
    requires 2 * |data| <= MAX_BYTES
    ensures ResponseBody(data) == ToLe(|HexOf(data)|, 4) + HexOf(data)
  {
    assert (2 * |data|) % 0x1_0000_0000 == 2 * |data|;
  }

  lemma ResponseRoundTrip(data: Bytes)
    requires 2 * |data| <= MAX_BYTES
    ensures ParseResponse(ResponseBody(data)) == Ok(Parsed(Response(data), []))
  {
    var hex := HexOf(data);
    ResponseLengthExact(data);
    UnhexHexOf(data);
    TakeBytes32All(hex);
  }

  lemma TakeBytes32All(data: Bytes)
    requires |data| <= MAX_BYTES
    ensures TakeBytes32(ToLe(|data|, 4) + data) == Ok(Parsed(data, []))
  {
    assert ToLe(|data|, 4) + data == ToLe(|data|, 4) + data + [];
    TakeBytes32Written(data, []);
  }

  lemma MessageRoundTrip(recipientId: u64, data: Str)
    requires |data| <= MAX_BYTES
    ensures ParseMessage(MessageBody(recipientId, data)) == Ok(Parsed(Message(recipientId, data), []))
  {
    Widths();
    TakeLeWritten(recipientId, 8, ToLe(|data|, 4) + data);
    TakeBytes32All(data);
  }

  lemma BodyRoundTrip(p: Packet)
    requires Fits(p)
    ensures ParseBody(IdOf(p), BodyBytes(p)) == Ok(Parsed(p, []))
  {
    match p
    case Request =>
    case Response(data) => ResponseRoundTrip(data);
    case Message(recipientId, data) => MessageRoundTrip(recipientId, data);
  }

  lemma PlaintextRoundTrip(p: Packet, senderId: u64)
    requires Fits(p)
    ensures ParsePlaintext(Plaintext(p, senderId)) == Ok((p, senderId))
  {
    Widths();
    TakeLeWritten(|Inner(p, senderId)|, 2, Inner(p, senderId));
    HeaderRoundTrip(IdOf(p), senderId, BodyBytes(p));
    BodyRoundTrip(p);
  }

  /** A datagram decodes to the packet and sender it was made from. */
  lemma DatagramRoundTrip(suite: Suite, p: Packet, senderId: u64)
    requires suite.Valid() && Fits(p)
    ensures Unmarshaled(suite, Datagram(suite, p, senderId)) == Ok((p, senderId))
  {
    var plain := Plaintext(p, senderId);
    EncryptionIsABijection(suite, plain, Encrypted(suite, plain));
    PlaintextRoundTrip(p, senderId);
    var d := Datagram(suite, p, senderId);
    assert d[..CHECKSUM_SIZE] == suite.mac(plain) && d[CHECKSUM_SIZE..] == Encrypted(suite, plain);
  }

  lemma DatagramInjective(suite: Suite, p: Packet, senderId: u64, p': Packet, senderId': u64)
    requires suite.Valid() && Fits(p) && Fits(p')
    requires Datagram(suite, p, senderId) == Datagram(suite, p', senderId')
    ensures p == p' && senderId == senderId'
  {
    DatagramRoundTrip(suite, p, senderId);
    DatagramRoundTrip(suite, p', senderId');
  }

  /** A body that is consumed entirely has the length of the packet's own encoding. */
  lemma ParsedBodyLength(id: u16, s: Bytes)
    requires ParseBody(id, s).Ok? && ParseBody(id, s).value.rest == []
    ensures var p := ParseBody(id, s).value.value;
            id == IdOf(p) && (p.Request? ==> s == []) && |s| == |BodyBytes(p)|
  {
    Widths();
  }

  /**
   * The plaintext inside whatever datagram is accepted is as long as the packet's own encoding. So the packet can
   * be marshalled again exactly when that length fits 16 bits, and then decodes to itself: a normal form, since
   * the length field, the header padding and the case of hex digits are not checked.
   */
  lemma AcceptedNormalForm(suite: Suite, data: Bytes, p: Packet, senderId: u64)
    requires suite.Valid() && Unmarshaled(suite, data) == Ok((p, senderId))
    ensures Decrypted(suite, data[CHECKSUM_SIZE..]).Ok?
    ensures Fits(p) <==> |Decrypted(suite, data[CHECKSUM_SIZE..]).value| <= U16_MAX
    ensures Fits(p) ==> Unmarshaled(suite, Datagram(suite, p, senderId)) == Ok((p, senderId))
  {
    var plain := Decrypted(suite, data[CHECKSUM_SIZE..]).value;
    var header := ParseHeader(TakeLe(plain, 2).value.rest).value;
    ParsedBodyLength(header.value.packetId, header.rest);
    if Fits(p) {
      DatagramRoundTrip(suite, p, senderId);
    }
  }

  // ----- What is written, by its places -----

  /** The body of each packet: nothing, a counted hex string, or a recipient and a counted text. */
  ghost predicate BodyShape(p: Packet, body: Bytes) {
    match p
    case Request => body == []
    case Response(data) => |body| >= 4 && body[..4] == ToLe(2 * |data|, 4) && body[4..] == HexOf(data)
    case Message(recipientId, data) =>
      |body| >= 12 && body[..8] == ToLe(recipientId, 8) && body[8..12] == ToLe(|data|, 4) && body[12..] == data
  }

  function IdNumber(p: Packet): u16 {
    if p.Request? then 0 else if p.Response? then 1 else 2
  }

  /** A marshalled plaintext: its length without the two bytes that say so, id, sender, eight zeros and the body. */
  lemma PlaintextShape(p: Packet, senderId: u64)
    requires Fits(p)
    ensures var plain := Plaintext(p, senderId);
            && |plain| >= 20 && FromLe(plain[..2]) == |plain| - 2
            && FromLe(plain[2..4]) == IdNumber(p) && FromLe(plain[4..12]) == senderId
            && (forall i :: 12 <= i < 20 ==> plain[i] == 0)
            && BodyShape(p, plain[20..])
  {
    Widths();
    var plain, inner := Plaintext(p, senderId), Inner(p, senderId);
    assert plain[..2] == ToLe(|inner|, 2) && plain[2..] == inner;
    LeRoundTrip(|inner|, 2);
    InnerShape(p, senderId);
    BodyHasShape(p);
    assert plain[2..4] == inner[..2] && plain[4..12] == inner[2..10] && plain[20..] == inner[18..];
    LeRoundTrip(IdOf(p), 2);
    LeRoundTrip(senderId, 8);
    assert forall i :: 12 <= i < 20 ==> plain[i] == inner[i - 2];
  }

  lemma HeaderShape(id: u16, senderId: u64)
    ensures var s := HeaderBytes(id, senderId);
            s[..2] == ToLe(id, 2) && s[2..10] == ToLe(senderId, 8) && s[10..] == Zeros(8)
  {
  }

  lemma BodyHasShape(p: Packet)
    requires Fits(p)
    ensures BodyShape(p, BodyBytes(p))
  {
    if p.Message? {
      var body := BodyBytes(p);
      assert body[..8] == ToLe(p.recipientId, 8) && body[8..] == ToLe(|p.data|, 4) + p.data;
      Middle(ToLe(p.recipientId, 8), ToLe(|p.data|, 4), p.data);
      ConcatAssoc(ToLe(p.recipientId, 8), ToLe(|p.data|, 4), p.data);
    }
  }

  lemma InnerShape(p: Packet, senderId: u64)
    requires Fits(p)
    ensures var inner := Inner(p, senderId);
            && inner[..2] == ToLe(IdOf(p), 2) && inner[2..10] == ToLe(senderId, 8)
            && (forall i :: 10 <= i < 18 ==> inner[i] == 0)
            && inner[18..] == BodyBytes(p)
  {
    var inner, header := Inner(p, senderId), HeaderBytes(IdOf(p), senderId);
    HeaderShape(IdOf(p), senderId);
    Middle([], header, BodyBytes(p));
    assert [] + header + BodyBytes(p) == inner;
    PartOfPart(inner, 0, header, 0, 2);
    PartOfPart(inner, 0, header, 2, 10);
    assert forall i :: 10 <= i < 18 ==> inner[i] == header[i] == header[10..][i - 10];
  }

  /** What a receiver finds in a datagram that was marshalled: its plaintext's checksum, then that plaintext sealed. */
  lemma DatagramShape(suite: Suite, p: Packet, senderId: u64)
    requires suite.Valid() && Fits(p)
    ensures var d := Datagram(suite, p, senderId);
            && |d| >= 32 && Decrypted(suite, d[32..]).Ok?
            && var plain := Decrypted(suite, d[32..]).value;
               && d[..32] == suite.mac(plain)
               && |plain| >= 20 && FromLe(plain[..2]) == |plain| - 2
               && FromLe(plain[2..4]) == IdNumber(p) && FromLe(plain[4..12]) == senderId
               && (forall i :: 12 <= i < 20 ==> plain[i] == 0)
               && BodyShape(p, plain[20..])
  {
    var d, plain := Datagram(suite, p, senderId), Plaintext(p, senderId);
    assert d[..32] == suite.mac(plain) && d[32..] == Encrypted(suite, plain);
    EncryptionIsABijection(suite, plain, d[32..]);
    PlaintextShape(p, senderId);
  }

  // ----- Exactly what is accepted -----

  /** A body that reads as `p`: `p`'s own encoding, except that hex digits may be in either case. */
  ghost predicate BodyMatches(p: Packet, body: Bytes) {
    match p
    case Request => body == []
    case Response(data) =>
      2 * |data| <= MAX_BYTES && |body| >= 4 && body[..4] == ToLe(2 * |data|, 4) && LowerAll(body[4..]) == HexOf(data)
    case Message(recipientId, data) => |data| <= MAX_BYTES && body == MessageBody(recipientId, data)
  }

  /** A plaintext that reads as `p` from `senderId`: the length field and the last eight header bytes are free. */
  ghost predicate PlaintextMatches(p: Packet, senderId: u64, plain: Bytes) {
    && |plain| >= 2 + HEADER_SIZE
    && plain[2..4] == ToLe(IdOf(p), 2) && plain[4..12] == ToLe(senderId, 8)
    && BodyMatches(p, plain[20..])
  }

  lemma TakeLeIff(s: Bytes, width: nat, n: nat, rest: Bytes)
    requires n < Pow256(width)
    ensures TakeLe(s, width) == Ok(Parsed(n, rest)) <==> s == ToLe(n, width) + rest
  {
    if TakeLe(s, width) == Ok(Parsed(n, rest)) {
      LeInverse(s[..width]);
      assert s == s[..width] + s[width..];
    }
    if s == ToLe(n, width) + rest {
      TakeLeWritten(n, width, rest);
    }
  }

  lemma TakeBytes32Iff(s: Bytes, data: Bytes)
    ensures TakeBytes32(s) == Ok(Parsed(data, [])) <==> |data| <= MAX_BYTES && s == ToLe(|data|, 4) + data
  {
    Widths();
    var length := TakeLe(s, 4);
    if length.Ok? {
      TakeLeIff(s, 4, length.value.value, length.value.rest);
    }
    if |data| <= MAX_BYTES && s == ToLe(|data|, 4) + data {
      TakeBytes32All(data);
    }
    if TakeBytes32(s) == Ok(Parsed(data, [])) {
      assert length.value.rest == data;
    }
  }

  lemma ResponseIff(s: Bytes, data: Bytes)
    ensures ParseResponse(s) == Ok(Parsed(Response(data), [])) <==> BodyMatches(Response(data), s)
  {
    var hex := TakeBytes32(s);
    if hex.Ok? {
      TakeBytes32Iff(s, hex.value.value);
      UnhexIff(hex.value.value, data);
    }
    if BodyMatches(Response(data), s) {
      TakeBytes32Iff(s, s[4..]);
      UnhexIff(s[4..], data);
    }
  }

  lemma MessageIff(s: Bytes, recipientId: u64, data: Str)
    ensures ParseMessage(s) == Ok(Parsed(Message(recipientId, data), []))
            <==> BodyMatches(Message(recipientId, data), s)
  {
    Widths();
    var recipient := TakeLe(s, 8);
    if recipient.Ok? {
      TakeLeIff(s, 8, recipient.value.value, recipient.value.rest);
      TakeBytes32Iff(recipient.value.rest, data);
    }
    if BodyMatches(Message(recipientId, data), s) {
      TakeLeIff(s, 8, recipientId, ToLe(|data|, 4) + data);
    }
  }

  lemma BodyIff(p: Packet, s: Bytes)
    ensures ParseBody(IdOf(p), s) == Ok(Parsed(p, [])) <==> BodyMatches(p, s)
  {
    match p
    case Request =>
    case Response(data) => ResponseIff(s, data);
    case Message(recipientId, data) => MessageIff(s, recipientId, data);
  }

  /** A header parses from any bytes whose first ten are its fields; the next eight are skipped. */
  lemma HeaderIff(s: Bytes, id: u16, senderId: u64, rest: Bytes)
    ensures ParseHeader(s) == Ok(Parsed(Header(id, senderId), rest)) <==>
              |s| >= HEADER_SIZE && s[..2] == ToLe(id, 2) && s[2..10] == ToLe(senderId, 8) && s[18..] == rest
  {
    Widths();
    if |s| >= HEADER_SIZE {
      var t, u := s[2..], s[10..];
      assert t[..8] == s[2..10] && t[8..] == u && u[8..] == s[18..];
      LeIff(s[..2], id, 2);
      LeIff(s[2..10], senderId, 8);
    }
  }

  /** The header of a plaintext, by its places. */
  lemma PlaintextHeaderIff(plain: Bytes, id: u16, senderId: u64)
    requires |plain| >= 2 + HEADER_SIZE
    ensures ParseHeader(plain[2..]) == Ok(Parsed(Header(id, senderId), plain[20..])) <==>
              plain[2..4] == ToLe(id, 2) && plain[4..12] == ToLe(senderId, 8)
  {
    var s := plain[2..];
    assert s[..2] == plain[2..4] && s[2..10] == plain[4..12] && s[18..] == plain[20..];
    HeaderIff(s, id, senderId, plain[20..]);
  }

  lemma MatchingPlaintextParses(plain: Bytes, p: Packet, senderId: u64)
    requires PlaintextMatches(p, senderId, plain)
    ensures ParsePlaintext(plain) == Ok((p, senderId))
  {
    PlaintextHeaderIff(plain, IdOf(p), senderId);
    BodyIff(p, plain[20..]);
  }

  lemma ParsedPlaintextMatches(plain: Bytes, p: Packet, senderId: u64)
    requires ParsePlaintext(plain) == Ok((p, senderId))
    ensures PlaintextMatches(p, senderId, plain)
  {
    var header := ParseHeader(plain[2..]).value;
    HeaderIff(plain[2..], header.value.packetId, header.value.senderId, header.rest);
    assert header.rest == plain[2..][18..] == plain[20..];
    ParsedBodyLength(header.value.packetId, header.rest);
    PlaintextHeaderIff(plain, IdOf(p), senderId);
    BodyIff(p, plain[20..]);
  }

  /** `unmarshal` accepts a plaintext exactly when it matches, nothing left over. */
  lemma PlaintextIff(plain: Bytes, p: Packet, senderId: u64)
    ensures ParsePlaintext(plain) == Ok((p, senderId)) <==> PlaintextMatches(p, senderId, plain)
  {
    if PlaintextMatches(p, senderId, plain) {
      MatchingPlaintextParses(plain, p, senderId);
    }
    if ParsePlaintext(plain) == Ok((p, senderId)) {
      ParsedPlaintextMatches(plain, p, senderId);
    }
  }

  /** `unmarshal` accepts a datagram exactly when it seals, checksum first, a plaintext that matches. */
  lemma UnmarshalIff(suite: Suite, data: Bytes, p: Packet, senderId: u64)
    requires suite.Valid()
    ensures Unmarshaled(suite, data) == Ok((p, senderId)) <==>
              exists plain :: data == suite.mac(plain) + Encrypted(suite, plain) && PlaintextMatches(p, senderId, plain)
  {
    if Unmarshaled(suite, data) == Ok((p, senderId)) {
      var plain := Decrypted(suite, data[CHECKSUM_SIZE..]).value;
      EncryptionIsABijection(suite, plain, data[CHECKSUM_SIZE..]);
      PlaintextIff(plain, p, senderId);
      assert data == suite.mac(plain) + Encrypted(suite, plain);
    }
    if plain :| data == suite.mac(plain) + Encrypted(suite, plain) && PlaintextMatches(p, senderId, plain) {
      assert data[..CHECKSUM_SIZE] == suite.mac(plain) && data[CHECKSUM_SIZE..] == Encrypted(suite, plain);
      EncryptionIsABijection(suite, plain, data[CHECKSUM_SIZE..]);
      PlaintextIff(plain, p, senderId);
    }
  }

  /** Why a datagram is refused: too short a plaintext is an I/O error, each of the other reasons is not. */
  lemma RefusalKinds(suite: Suite, data: Bytes)
    ensures |data| < 32 ==> Unmarshaled(suite, data) == Err(Other)
    ensures |data| >= 32 ==>
              match Decrypted(suite, data[32..])
              case Err(_) => Unmarshaled(suite, data) == Err(Other)
              case Ok(plain) =>
                if suite.mac(plain) != data[..32] then Unmarshaled(suite, data) == Err(Other)
                else if |plain| < 20 then Unmarshaled(suite, data) == Err(Io)
                else if FromLe(plain[2..4]) > 2 then Unmarshaled(suite, data) == Err(Other)
                else FromLe(plain[2..4]) == 0 && |plain| > 20 ==> Unmarshaled(suite, data) == Err(Other)
  {
    if |data| >= 32 && Decrypted(suite, data[32..]).Ok? {
      var plain := Decrypted(suite, data[32..]).value;
      ShortPlaintext(plain);
      if |plain| >= 20 {
        var id := FromLe(plain[2..4]);
        LeInverse(plain[2..4]);
        LeInverse(plain[4..12]);
        Widths();
        PlaintextHeaderIff(plain, id, FromLe(plain[4..12]));
      }
    }
  }

  lemma ShortPlaintext(plain: Bytes)
    ensures |plain| < 20 ==> ParsePlaintext(plain) == Err(Io)
  {
  }

  // ----- Sizes -----

  const RECEIVE_BUFFER := 4096

  lemma DatagramSize(suite: Suite, p: Packet, senderId: u64)
    requires Fits(p)
    ensures var n := 2 + HEADER_SIZE + |BodyBytes(p)|;
            |Datagram(suite, p, senderId)| == CHECKSUM_SIZE + n + PadLength(n)
  {
  }

  /** A message datagram fits the receive buffer exactly when its text is at most 4031 bytes. */
  lemma MessageFitsReceiveBufferIff(suite: Suite, recipientId: u64, data: Str, senderId: u64)
    requires Fits(Message(recipientId, data))
    ensures |Datagram(suite, Message(recipientId, data), senderId)| <= RECEIVE_BUFFER <==> |data| <= 4031
  {
    DatagramSize(suite, Message(recipientId, data), senderId);
    assert |BodyBytes(Message(recipientId, data))| == 12 + |data|;
  }

  // ----- marshal and unmarshal -----

  method WriteHeader(header: Header, w: ByteVec)
    modifies w
    ensures w.elems == old(w.elems) + HeaderBytes(header.packetId, header.senderId)
  {
    ghost var start := w.elems;
    w.WriteLe(header.packetId, 2);
    w.WriteLe(header.senderId, 8);
    w.WriteAll(Zeros(8));
    ConcatAssoc(start, ToLe(header.packetId, 2), ToLe(header.senderId, 8));
    ConcatAssoc(start, ToLe(header.packetId, 2) + ToLe(header.senderId, 8), Zeros(8));
  }

  method WriteMessage(recipientId: u64, data: Str, w: ByteVec) returns (r: Result<()>)
    modifies w
    ensures r == if |data| > MAX_BYTES then Err(Io) else Ok(())
    ensures r.Ok? ==> w.elems == old(w.elems) + MessageBody(recipientId, data)
  {
    ghost var start := w.elems;
    w.WriteLe(recipientId, 8);
    r := w.WriteBytesU32(data);
    ConcatAssoc(start, ToLe(recipientId, 8), ToLe(|data|, 4) + data);
  }

  /** `Packet::write` */
  method WriteBody(p: Packet, w: ByteVec) returns (r: Result<()>)
    modifies w
    ensures r == if p.Message? && |p.data| > MAX_BYTES then Err(Io) else Ok(())
    ensures r.Ok? ==> w.elems == old(w.elems) + BodyBytes(p)
  {
    match p {
      case Request =>
      case Response(data) => WriteResponse(data, w);
      case Message(recipientId, data) =>
        r := WriteMessage(recipientId, data, w);
        return;
    }
    return Ok(());
  }

  /** The first half of `marshal`: placeholders for checksum and length, then header and body. */
  method WritePacket(p: Packet, senderId: u64) returns (r: Result<ByteVec>)
    ensures r.Ok? ==> fresh(r.value) && r.value.elems == Zeros(32) + Zeros(2) + Inner(p, senderId)
    ensures r.Err? <==> p.Message? && |p.data| > MAX_BYTES
    ensures r.Err? ==> r.error == Io
  {
    var buf := new ByteVec([]);
    buf.WriteAll(Zeros(32));
    buf.WriteAll(Zeros(2));
    ghost var start := buf.elems;
    WriteHeader(Header(IdOf(p), senderId), buf);
    var written := WriteBody(p, buf);
    if written.Err? {
      return Err(written.error);
    }
    ConcatAssoc(start, HeaderBytes(IdOf(p), senderId), BodyBytes(p));
    return Ok(buf);
  }

  lemma Patched(inner: Bytes, length: Bytes)
    requires |length| == 2
    ensures var s := Zeros(32) + Zeros(2) + inner;
            s[..32] + length + s[34..] == Zeros(32) + (length + inner)
  {
    var s := Zeros(32) + Zeros(2) + inner;
    assert s[..32] == Zeros(32) && s[34..] == inner;
  }

  lemma Replaced(was: Bytes, plain: Bytes, checksum: Bytes)
    requires |was| == |checksum| == 32
    ensures (was + plain)[32..] == plain
    ensures (was + plain)[..0] + checksum + (was + plain)[32..] == checksum + plain
    ensures (checksum + plain)[..32] == checksum && (checksum + plain)[32..] == plain
  {
  }

  /** The length of everything after the two bytes that hold it. */
  method PatchLength(buf: ByteVec, ghost inner: Bytes)
    requires buf.elems == Zeros(32) + Zeros(2) + inner && |inner| <= U16_MAX
    modifies buf
    ensures buf.elems == Zeros(32) + (ToLe(|inner|, 2) + inner)
  {
    var dataLen := |buf.elems| - 32 - 2;
    Patched(inner, ToLe(dataLen, 2));
    buf.Overwrite(32, ToLe(dataLen, 2));
  }

  /** The end of `marshal`: the checksum of the rest goes in front, then the rest is split off and encrypted. */
  method Seal(suite: Suite, buf: ByteVec, ghost plain: Bytes)
    requires buf.elems == Zeros(32) + plain
    modifies buf
    ensures buf.elems == suite.mac(plain) + Encrypted(suite, plain)
  {
    var checksum := suite.mac(buf.elems[32..]);
    Replaced(Zeros(32), plain, checksum);
    buf.Overwrite(0, checksum);
    var payload := buf.SplitOff(32);
    Encrypt(suite, payload);
    buf.WriteAll(payload.elems);
  }

  /** `marshal`: the length is patched in once it is known, then the checksum; only the payload is encrypted. */
  method Marshal(suite: Suite, p: Packet, senderId: u64) returns (r: Result<Bytes>)
    ensures r.Ok? <==> Fits(p)
    ensures r.Ok? ==> r.value == Datagram(suite, p, senderId)
    ensures r.Err? ==> r.error == if p.Message? && |p.data| > MAX_BYTES then Io
                                  else MessageTooLarge(2 + HEADER_SIZE + |BodyBytes(p)|)
  {
    var packet := WritePacket(p, senderId);
    if packet.Err? {
      return Err(packet.error);
    }
    var buf := packet.value;
    var totalLen := |buf.elems|;
    if totalLen - 32 > U16_MAX {
      return Err(MessageTooLarge(totalLen - 32));
    }
    PatchLength(buf, Inner(p, senderId));
    Seal(suite, buf, Plaintext(p, senderId));
    return Ok(buf.elems);
  }

  method ReadHeader(cursor: Cursor) returns (r: Result<Header>)
    requires cursor.Valid()
    modifies cursor
    ensures cursor.Follows(r, ParseHeader(old(cursor.Rest())))
  {
    Widths();
    var packetId :- cursor.ReadLe(2);
    var senderId :- cursor.ReadLe(8);
    var padding :- cursor.ReadExact(8);
    return Ok(Header(packetId, senderId));
  }

  /** Choosing the packet type by id, then `Packet::read`. */
  method ReadBody(id: u16, cursor: Cursor) returns (r: Result<Packet>)
    requires cursor.Valid()
    modifies cursor
    ensures cursor.Follows(r, ParseBody(id, old(cursor.Rest())))
  {
    if id == ID_REQUEST_PACKET {
      return Ok(Request);
    } else if id == ID_RESPONSE_PACKET {
      var hex :- cursor.ReadBytesU32();
      var data := Unhex(hex);
      return if data == None then Err(Other) else Ok(Response(data.value));
    } else if id == ID_MESSAGE_PACKET {
      Widths();
      var recipientId :- cursor.ReadLe(8);
      var data :- cursor.ReadBytesU32();
      if !IsUtf8(data) {
        return Err(Other);
      }
      return Ok(Message(recipientId, data));
    }
    return Err(Other);
  }

  method Unmarshal(suite: Suite, data: Bytes) returns (r: Result<(Packet, u64)>)
    ensures r == Unmarshaled(suite, data)
  {
    if |data| < 32 {
      return Err(Other);
    }
    var checksum := data[..32];
    var payload := new ByteVec(data[32..]);
    var decrypted := Decrypt(suite, payload);
    if decrypted.Err? {
      return Err(decrypted.error);
    }
    if suite.mac(payload.elems) != checksum {
      return Err(Other);
    }
    var cursor := new Cursor(payload.elems);
    var length :- cursor.ReadLe(2);
    var header :- ReadHeader(cursor);
    var packet :- ReadBody(header.packetId, cursor);
    if cursor.position < |payload.elems| {
      return Err(Other);
    }
    return Ok((packet, header.senderId));
  }
}
