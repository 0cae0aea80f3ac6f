/** The second parser of the same texts (src/protocol/webrtc/negotiation.rs), compared with the first. */
module Negotiation {
  import opened Wrappers
  import opened Octets
  import opened Utf8
  import opened Decimal
  import opened Signals

  /** The defined wire codes: 0x00 to 0x1b without 0x14. */
  type ConnectError = code: u8 | code <= 0x1b && code != 0x14 witness 0

  function FromCode(code: u8): Option<ConnectError> {
    if code <= 0x1b && code != 0x14 then Some(code) else None
  }

  datatype NegotiationMessage =
    | ConnectRequest(connectionId: u64, sdpOffer: Str)
    | ConnectResponse(connectionId: u64, sdpAnswer: Str)
    | CandidateAdd(connectionId: u64, candidate: Str)
    | ConnectFailure(connectionId: u64, error: ConnectError)

  // ----- trim().is_empty() -----

  /** The length of the Unicode White_Space character that `s` starts with, or 0. */
  function WhiteSpaceLength(s: Bytes): (n: nat)
    ensures n <= |s|
  {
    if |s| >= 1 && (s[0] == 0x20 || 0x09 <= s[0] <= 0x0D) then 1
    else if |s| >= 2 && s[0] == 0xC2 && (s[1] == 0x85 || s[1] == 0xA0) then 2
    else if |s| < 3 then 0
    else if s[..3] == [0xE1, 0x9A, 0x80] || s[..3] == [0xE2, 0x81, 0x9F] || s[..3] == [0xE3, 0x80, 0x80] then 3
    else if s[..2] == [0xE2, 0x80] && (0x80 <= s[2] <= 0x8A || s[2] == 0xA8 || s[2] == 0xA9 || s[2] == 0xAF) then 3
    else 0
  }

  predicate IsBlank(s: Bytes)
    decreases |s|
  {
    s == [] || (WhiteSpaceLength(s) > 0 && IsBlank(s[WhiteSpaceLength(s)..]))
  }

  /** The White_Space property of the Unicode Character Database, which `trim` removes. */
  predicate IsWhiteSpace(c: Scalar) {
    0x09 <= c <= 0x0D || c == 0x20 || c == 0x85 || c == 0xA0 || c == 0x1680 || 0x2000 <= c <= 0x200A
    || c == 0x2028 || c == 0x2029 || c == 0x202F || c == 0x205F || c == 0x3000
  }

  lemma WhiteSpaceEncoded(c: Scalar, rest: Bytes)
    requires IsWhiteSpace(c)
    ensures WhiteSpaceLength(EncodeScalar(c) + rest) == |EncodeScalar(c)|
  {
    var e, s := EncodeScalar(c), EncodeScalar(c) + rest;
    assert forall i :: 0 <= i < |e| ==> s[i] == e[i];
    if c >= 0x800 {
      assert s[..3] == [s[0], s[1], s[2]] && s[..2] == [s[0], s[1]];
    }
  }

  lemma WhiteSpaceDecoded(s: Bytes) returns (c: Scalar)
    requires WhiteSpaceLength(s) > 0
    ensures IsWhiteSpace(c) && EncodeScalar(c) == s[..WhiteSpaceLength(s)]
  {
    var n := WhiteSpaceLength(s);
    if n == 1 {
      c := s[0];
    } else if n == 2 {
      c := s[1];
    } else {
      assert s[..3] == [s[0], s[1], s[2]] && s[..2] == [s[0], s[1]];
      c := if s[0] == 0xE1 then 0x1680 else if s[0] == 0xE3 then 0x3000 else if s[1] == 0x81 then 0x205F
           else 0x2000 + (s[2] as int - 0x80);
    }
  }

  /** Blank means white space and nothing else. */
  lemma BlankIff(s: Bytes)
    ensures IsBlank(s) <==>
              exists text: seq<Scalar> :: EncodeText(text) == s && forall c :: c in text ==> IsWhiteSpace(c)
  {
    if IsBlank(s) {
      var text := BlankText(s);
    }
    if text: seq<Scalar> :| EncodeText(text) == s && forall c :: c in text ==> IsWhiteSpace(c) {
      WhiteTextIsBlank(text);
    }
  }

  lemma {:induction false} BlankText(s: Bytes) returns (text: seq<Scalar>)
    requires IsBlank(s)
    ensures EncodeText(text) == s && forall c :: c in text ==> IsWhiteSpace(c)
    decreases |s|
  {
    if s == [] {
      return [];
    }
    var n := WhiteSpaceLength(s);
    var c := WhiteSpaceDecoded(s);
    var rest := BlankText(s[n..]);
    text := [c] + rest;
    assert text[1..] == rest && s == s[..n] + s[n..];
  }

  lemma {:induction false} WhiteTextIsBlank(text: seq<Scalar>)
    requires forall c :: c in text ==> IsWhiteSpace(c)
    ensures IsBlank(EncodeText(text))
  {
    if text != [] {
      var first, rest := EncodeScalar(text[0]), EncodeText(text[1..]);
      WhiteTextIsBlank(text[1..]);
      WhiteSpaceEncoded(text[0], rest);
      assert (first + rest)[|first|..] == rest;
    }
  }

  // ----- Parse and print -----

  /** The checks on the third part, by message type. */
  function ParsePayload(kind: SignalType, id: u64, payload: Str): Result<NegotiationMessage> {
    match kind
    case Failure =>
      var code := ParseUnsigned(payload, U8_MAX);
      if code == None then Err(Other)
      else
        ParseMeaning(payload, U8_MAX);
        var error := FromCode(code.value);
        if error == None then Err(Other) else Ok(ConnectFailure(id, error.value))
    case _ =>
      if IsBlank(payload) then Err(Other)
      else
        match kind
        case Offer => Ok(ConnectRequest(id, payload))
        case Answer => Ok(ConnectResponse(id, payload))
        case _ => Ok(CandidateAdd(id, payload))
  }

  /** `NegotiationMessage::parse` */
  function Parse(s: Str): Result<NegotiationMessage> {
    var parts := SplitN(s, 3);
    if |parts| < 2 then Err(Other)
    else
      var id := ParseUnsigned(parts[1], U64_MAX);
      if id == None then Err(Other)
      else
        ParseMeaning(parts[1], U64_MAX);
        var kind := TypeFromText(parts[0]);
        if kind == None || |parts| < 3 then Err(Other)
        else
          SplitIntoThree(s);
          RestIsUtf8(parts[0], parts[1], parts[2]);
          ParsePayload(kind.value, id.value, parts[2])
  }

  /** The message as a signal: kind, id and the text of its payload. */
  function AsSignal(m: NegotiationMessage, networkId: Str): Signal {
    match m
    case ConnectRequest(id, sdp) => Signal(Offer, id, sdp, networkId)
    case ConnectResponse(id, sdp) => Signal(Answer, id, sdp, networkId)
    case CandidateAdd(id, candidate) => Signal(Candidate, id, candidate, networkId)
    case ConnectFailure(id, error) =>
      DecimalRoundTrip(error, U8_MAX);
      AsciiIsUtf8(ToDecimal(error));
      Signal(Failure, id, ToDecimal(error), networkId)
  }

  /** `Display`: type, id and payload separated by single spaces. */
  function Print(m: NegotiationMessage): Str {
    ToText(AsSignal(m, []))
  }

  predicate HasPayload(m: NegotiationMessage) {
    match m
    case ConnectRequest(_, sdp) => !IsBlank(sdp)
    case ConnectResponse(_, sdp) => !IsBlank(sdp)
    case CandidateAdd(_, candidate) => !IsBlank(candidate)
    case ConnectFailure(_, _) => true
  }

  /** `parse` is `from_string` followed by the payload checks, and all its errors are of one kind. */
  lemma ParseRefinesFromText(s: Str, networkId: Str)
    ensures Parse(s).Err? ==> Parse(s).error == Other
    ensures Parse(s) == match FromText(s, networkId)
                        case Ok(signal) => ParsePayload(signal.kind, signal.connectionId, signal.data)
                        case Err(_) => Err(Other)
  {
    SplitIntoThree(s);
  }

  /** A payload of each message: its text, not blank, or any spelling of its error code. */
  predicate IsPayload(payload: Str, m: NegotiationMessage) {
    match m
    case ConnectRequest(_, sdp) => payload == sdp && !IsBlank(sdp)
    case ConnectResponse(_, sdp) => payload == sdp && !IsBlank(sdp)
    case CandidateAdd(_, candidate) => payload == candidate && !IsBlank(candidate)
    case ConnectFailure(_, error) => ParseUnsigned(payload, U8_MAX) == Some(error as int)
  }

  function KindOf(m: NegotiationMessage): SignalType {
    match m
    case ConnectRequest(_, _) => Offer
    case ConnectResponse(_, _) => Answer
    case CandidateAdd(_, _) => Candidate
    case ConnectFailure(_, _) => Failure
  }

  lemma PayloadParses(payload: Str, m: NegotiationMessage)
    requires IsPayload(payload, m)
    ensures ParsePayload(KindOf(m), m.connectionId, payload) == Ok(m)
  {
  }

  /** Each word makes its message of any such payload. */
  lemma WordsParse(text: Bytes, word: Bytes, idText: Bytes, payload: Str, m: NegotiationMessage)
    requires text == word + [32] + idText + [32] + payload
    requires IsWord(word, KindOf(m)) && ParseUnsigned(idText, U64_MAX) == Some(m.connectionId)
    requires IsPayload(payload, m)
    ensures IsUtf8(text) && Parse(text) == Ok(m)
  {
    WordsRead(text, word, idText, Signal(KindOf(m), m.connectionId, payload, []));
    ParseRefinesFromText(text, []);
    PayloadParses(payload, m);
  }

  /**
   * The two parsers agree: on request, response and candidate texts `parse` accepts exactly what `from_string`
   * accepts with a payload that is not blank, with the same kind, id and data.
   */
  lemma ParsersAgree(s: Str, m: NegotiationMessage, networkId: Str)
    requires !m.ConnectFailure?
    ensures Parse(s) == Ok(m) <==> FromText(s, networkId) == Ok(AsSignal(m, networkId)) && HasPayload(m)
  {
    ParseRefinesFromText(s, networkId);
  }

  /** On error texts `from_string` is the laxer one: it keeps the payload that `parse` reads as a defined code. */
  lemma ParsersAgreeOnErrors(s: Str, id: u64, error: ConnectError, networkId: Str)
    ensures Parse(s) == Ok(ConnectFailure(id, error)) <==>
              var signal := FromText(s, networkId);
              signal.Ok? && signal.value.kind == Failure && signal.value.connectionId == id
              && ParseUnsigned(signal.value.data, U8_MAX) == Some(error as int)
  {
    ParseRefinesFromText(s, networkId);
  }

  lemma PayloadRoundTripIff(m: NegotiationMessage)
    ensures var signal := AsSignal(m, []);
            var parsed := ParsePayload(signal.kind, signal.connectionId, signal.data);
            (HasPayload(m) <==> parsed == Ok(m)) && (!HasPayload(m) <==> parsed.Err?)
  {
    if m.ConnectFailure? {
      DecimalRoundTrip(m.error, U8_MAX);
    }
  }

  /** A message survives print and parse exactly when its payload is not blank; otherwise parsing fails. */
  lemma NegotiationRoundTripIff(m: NegotiationMessage)
    ensures HasPayload(m) <==> Parse(Print(m)) == Ok(m)
    ensures !HasPayload(m) <==> Parse(Print(m)).Err?
  {
    var signal := AsSignal(m, []);
    SignalRoundTrip(signal, []);
    ParseRefinesFromText(Print(m), []);
    PayloadRoundTripIff(m);
    assert Parse(Print(m)) == ParsePayload(signal.kind, signal.connectionId, signal.data);
  }
}
