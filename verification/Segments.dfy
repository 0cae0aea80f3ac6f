/** Message segments: wire form, splitter and accumulator (src/protocol/message.rs). */
module Segments {
  import opened Wrappers
  import opened Octets

  const MAX_MESSAGE_SIZE := 10000
  const MAX_SEGMENTS := 255

  /** One chunk of a message; `remaining` counts the segments still to come. */
  datatype MessageSegment = MessageSegment(remaining: u8, data: Bytes)

  // ----- Wire form -----

  function Encode(segment: MessageSegment): Bytes {
    [segment.remaining] + segment.data
  }

  function Decode(packet: Bytes): Result<MessageSegment> {
    if |packet| < 2 then Err(MessageParse) else Ok(MessageSegment(packet[0], packet[1..]))
  }

  /** Only segments that carry data survive the wire: the bare counter byte is too short to decode. */
  lemma DecodeEncode(segment: MessageSegment)
    ensures segment.data != [] <==> Decode(Encode(segment)) == Ok(segment)
    ensures segment.data == [] <==> Decode(Encode(segment)) == Err(MessageParse)
  {
    assert Encode(segment)[1..] == segment.data;
  }

  function EncodeAll(segments: seq<MessageSegment>): (packets: seq<Bytes>)
    ensures |packets| == |segments|
    ensures forall i :: 0 <= i < |packets| ==> packets[i] == Encode(segments[i])
  {
    seq(|segments|, i requires 0 <= i < |segments| => Encode(segments[i]))
  }

  /** The data bytes of a list of segments, in order. */
  function Payload(segments: seq<MessageSegment>): Bytes {
    if segments == [] then [] else segments[0].data + Payload(segments[1..])
  }

  lemma {:induction false} PayloadConcat(left: seq<MessageSegment>, right: seq<MessageSegment>)
    ensures Payload(left + right) == Payload(left) + Payload(right)
  {
    if left == [] {
      assert left + right == right;
    } else {
      PayloadConcat(left[1..], right);
      ConcatHeadTail(left, right);
      ConcatAssoc(left[0].data, Payload(left[1..]), Payload(right));
    }
  }

  lemma PayloadSnoc(segments: seq<MessageSegment>, last: MessageSegment)
    ensures Payload(segments + [last]) == Payload(segments) + last.data
  {
    PayloadConcat(segments, [last]);
    assert [last][1..] == [];
  }

  // ----- Splitting -----

  /** max(1, ceil(length / MAX_MESSAGE_SIZE)) */
  function SegmentCount(length: nat): (count: nat)
    ensures count >= 1
    ensures (count - 1) * MAX_MESSAGE_SIZE <= length <= count * MAX_MESSAGE_SIZE
    ensures length > 0 ==> (count - 1) * MAX_MESSAGE_SIZE < length
  {
    if length == 0 then 1 else (length - 1) / MAX_MESSAGE_SIZE + 1
  }

  function Chunk(data: Bytes, i: nat): Bytes
    requires i < SegmentCount(|data|)
  {
    var end := (i + 1) * MAX_MESSAGE_SIZE;
    data[i * MAX_MESSAGE_SIZE..if end <= |data| then end else |data|]
  }

  predicate Splittable(data: Bytes) {
    |data| <= MAX_SEGMENTS * MAX_MESSAGE_SIZE
  }

  /** The segments of a message: consecutive windows of the data under falling counters. */
  function Chunks(data: Bytes): (segments: seq<MessageSegment>)
    requires Splittable(data)
    ensures |segments| == SegmentCount(|data|) <= MAX_SEGMENTS
  {
    var count := SegmentCount(|data|);
    seq(count, i requires 0 <= i < count => MessageSegment(count - 1 - i, Chunk(data, i)))
  }

  lemma {:induction false} PayloadOfChunksFrom(data: Bytes, i: nat)
    requires Splittable(data) && i <= SegmentCount(|data|)
    requires i * MAX_MESSAGE_SIZE <= |data| || i == SegmentCount(|data|)
    ensures Payload(Chunks(data)[i..]) == if i == SegmentCount(|data|) then [] else data[i * MAX_MESSAGE_SIZE..]
    decreases SegmentCount(|data|) - i
  {
    var segments := Chunks(data);
    if i < |segments| {
      PayloadOfChunksFrom(data, i + 1);
      assert segments[i..][1..] == segments[i + 1..];
      assert segments[i..][0].data == Chunk(data, i);
    }
  }

  /**
   * What a split message looks like: the data in order, at most 255 segments whose counters fall to 0,
   * every segment but the last full, and only the empty message has an empty segment.
   */
  lemma SplitShape(data: Bytes)
    requires Splittable(data)
    ensures Payload(Chunks(data)) == data
    ensures 1 <= |Chunks(data)| <= MAX_SEGMENTS
    ensures forall i :: 0 <= i < |Chunks(data)| ==> Chunks(data)[i].remaining == |Chunks(data)| - 1 - i
    ensures forall i :: 0 <= i < |Chunks(data)| - 1 ==> |Chunks(data)[i].data| == MAX_MESSAGE_SIZE
    ensures |Chunks(data)[|Chunks(data)| - 1].data| <= MAX_MESSAGE_SIZE
    ensures data != [] ==> forall i :: 0 <= i < |Chunks(data)| ==> Chunks(data)[i].data != []
  {
    PayloadOfChunksFrom(data, 0);
    assert Chunks(data)[0..] == Chunks(data);
    forall i | 0 <= i < |Chunks(data)|
      ensures i < |Chunks(data)| - 1 ==> |Chunk(data, i)| == MAX_MESSAGE_SIZE
      ensures |Chunk(data, i)| <= MAX_MESSAGE_SIZE
      ensures data != [] ==> Chunk(data, i) != []
    {
    }
  }

  /** `Message::split_into_segments`: fails exactly above 255 * 10000 bytes; the u8 `left` never underflows. */
  method SplitIntoSegments(data: Bytes) returns (r: Result<seq<MessageSegment>>)
    ensures r == if Splittable(data) then Ok(Chunks(data)) else Err(MessageTooLarge(|data|))
    ensures r.Ok? <==> |data| <= 255 * 10000
    ensures r.Ok? ==> forall i :: 0 <= i < |r.value| - 1 ==> |r.value[i].data| == 10000
  {
    if Splittable(data) {
      SplitShape(data);
    }
    var len := |data|;
    if len <= MAX_MESSAGE_SIZE {
      assert Chunk(data, 0) == data;
      assert Chunks(data) == [MessageSegment(0, data)];
      return Ok([MessageSegment(0, data)]);
    }
    var segmentCount := (len + MAX_MESSAGE_SIZE - 1) / MAX_MESSAGE_SIZE;
    if segmentCount > 255 {
      return Err(MessageTooLarge(len));
    }
    ghost var all := Chunks(data);
    var segments: seq<MessageSegment> := [];
    var remaining := data;
    var left: u8 := segmentCount;
    while |remaining| > MAX_MESSAGE_SIZE
      invariant left + |segments| == segmentCount == |all|
      invariant |segments| < |all| && |segments| * MAX_MESSAGE_SIZE <= len
      invariant remaining == data[|segments| * MAX_MESSAGE_SIZE..]
      invariant segments == all[..|segments|]
      decreases |remaining|
    {
      left := left - 1;
      var chunk := remaining[..MAX_MESSAGE_SIZE];
      remaining := remaining[MAX_MESSAGE_SIZE..];
      assert chunk == Chunk(data, |segments|);
      segments := segments + [MessageSegment(left, chunk)];
    }
    if remaining != [] {
      left := left - 1;
      assert remaining == Chunk(data, |segments|);
      segments := segments + [MessageSegment(left, remaining)];
    }
    assert left == 0 && segments == all;
    return Ok(segments);
  }

  // ----- Accumulating -----

  /** The two fields of `Message`. */
  datatype Accumulator = Accumulator(expected: u8, data: Bytes)

  const FRESH := Accumulator(0, [])

  /**
   * One `add_segment` call: the next state and the result. The counter is incremented modulo 256,
   * as a release build does.
   */
  function Add(acc: Accumulator, segment: MessageSegment): (Accumulator, Result<Option<Bytes>>) {
    var expected: u8 :=
      if acc.expected == 0 && segment.remaining > 0 then (segment.remaining + 1) % 256 else acc.expected;
    if expected > 0 && expected - 1 != segment.remaining then
      (FRESH, Err(MessageParse))
    else if segment.remaining == 0 then
      (FRESH, Ok(Some(acc.data + segment.data)))
    else
      (Accumulator(if expected > 0 then expected - 1 else 0, acc.data + segment.data), Ok(None))
  }

  /** `Message`: the reassembly buffer of a session. */
  class Message {
    var expected: u8
    var data: Bytes

    ghost function State(): Accumulator
      reads this
    {
      Accumulator(expected, data)
    }

    constructor ()
      ensures State() == FRESH
    {
      expected := 0;
      data := [];
    }

    method AddSegment(segment: MessageSegment) returns (r: Result<Option<Bytes>>)
      modifies this
      ensures (State(), r) == Add(old(State()), segment)
    {
      if expected == 0 && segment.remaining > 0 {
        expected := (segment.remaining + 1) % 256;
      }
      if expected > 0 {
        var expectedRemaining := expected - 1;
        if expectedRemaining != segment.remaining {
          data := [];
          expected := 0;
          return Err(MessageParse);
        }
        expected := expected - 1;
      }
      data := data + segment.data;
      if segment.remaining == 0 {
        var complete := data;
        data := [];
        expected := 0;
        return Ok(Some(complete));
      }
      return Ok(None);
    }
  }
}
