/** Signals and their text form (src/protocol/signal.rs). */
module Signals {
  import opened Wrappers
  import opened Octets
  import opened Utf8
  import opened Decimal

  const SPACE: u8 := 32

  function Ascii(text: string): (s: Bytes)
    requires forall i :: 0 <= i < |text| ==> text[i] < 128 as char
    ensures |s| == |text| && IsAscii(s)
    ensures forall i :: 0 <= i < |s| ==> s[i] == text[i] as int
  {
    seq(|text|, i requires 0 <= i < |text| => text[i] as int)
  }

  // ----- splitn -----

  function FirstSpace(s: Bytes): (n: nat)
    ensures n <= |s| && (n < |s| ==> s[n] == SPACE) && SPACE !in s[..n]
  {
    if s == [] || s[0] == SPACE then 0
    else
      var n := FirstSpace(s[1..]);
      assert s[..n + 1] == [s[0]] + s[1..][..n];
      n + 1
  }

  /** `splitn(n, ' ')`: at most `n` parts, the last one unsplit. */
  function SplitN(s: Bytes, n: nat): (parts: seq<Bytes>)
    requires n > 0
    ensures 0 < |parts| <= n
    decreases n
  {
    var i := FirstSpace(s);
    if n == 1 || i == |s| then [s] else [s[..i]] + SplitN(s[i + 1..], n - 1)
  }

  lemma {:induction false} FirstSpaceUnique(word: Bytes, rest: Bytes)
    requires SPACE !in word
    ensures FirstSpace(word + [SPACE] + rest) == |word|
  {
    var s := word + [SPACE] + rest;
    if word == [] {
      assert s[0] == SPACE;
    } else {
      FirstSpaceUnique(word[1..], rest);
      assert s[0] == word[0] && s[1..] == word[1..] + [SPACE] + rest;
    }
  }

  /** Parts separated by single spaces. */
  function JoinParts(parts: seq<Bytes>): Bytes {
    if parts == [] then []
    else if |parts| == 1 then parts[0]
    else parts[0] + ([SPACE] + JoinParts(parts[1..]))
  }

  lemma CutAtSpace(s: Bytes, i: nat)
    requires i < |s| && s[i] == SPACE
    ensures s == s[..i] + ([SPACE] + s[i + 1..])
  {
  }

  /** `splitn` only cuts: joined again the parts are the input, and all but the last are free of spaces. */
  lemma {:induction false} SplitJoins(s: Bytes, n: nat)
    requires n > 0
    ensures var parts := SplitN(s, n);
            JoinParts(parts) == s && forall i :: 0 <= i < |parts| - 1 ==> SPACE !in parts[i]
    decreases n
  {
    var i := FirstSpace(s);
    if n > 1 && i < |s| {
      var rest := SplitN(s[i + 1..], n - 1);
      SplitJoins(s[i + 1..], n - 1);
      JoinCons(s[..i], rest);
      CutAtSpace(s, i);
      var parts := [s[..i]] + rest;
      forall k | 0 <= k < |parts| - 1
        ensures SPACE !in parts[k]
      {
        assert k > 0 ==> parts[k] == rest[k - 1];
      }
    }
  }

  lemma JoinCons(first: Bytes, rest: seq<Bytes>)
    requires rest != []
    ensures JoinParts([first] + rest) == first + ([SPACE] + JoinParts(rest))
  {
    assert ([first] + rest)[1..] == rest;
  }

  lemma SplitIntoThree(s: Bytes)
    ensures |SplitN(s, 3)| == 3 ==>
              var parts := SplitN(s, 3);
              SPACE !in parts[0] && SPACE !in parts[1] && s == parts[0] + [SPACE] + parts[1] + [SPACE] + parts[2]
  {
    SplitJoins(s, 3);
    if |SplitN(s, 3)| == 3 {
      JoinOfThree(SplitN(s, 3));
    }
  }

  lemma JoinOfThree(parts: seq<Bytes>)
    requires |parts| == 3
    ensures JoinParts(parts) == parts[0] + [SPACE] + parts[1] + [SPACE] + parts[2]
  {
    assert JoinParts(parts[1..][1..]) == parts[2];
    assert JoinParts(parts[1..]) == parts[1] + ([SPACE] + parts[2]);
  }

  lemma SplitFirst(first: Bytes, rest: Bytes, n: nat)
    requires SPACE !in first && n > 1
    ensures SplitN(first + [SPACE] + rest, n) == [first] + SplitN(rest, n - 1)
  {
    var s := first + [SPACE] + rest;
    FirstSpaceUnique(first, rest);
    assert s[..|first|] == first && s[|first| + 1..] == rest;
  }

  lemma SplitOfThree(first: Bytes, second: Bytes, rest: Bytes)
    requires SPACE !in first && SPACE !in second
    ensures SplitN(first + [SPACE] + second + [SPACE] + rest, 3) == [first, second, rest]
  {
    var t := second + [SPACE] + rest;
    assert first + [SPACE] + second + [SPACE] + rest == first + [SPACE] + t;
    SplitFirst(first, t, 3);
    SplitFirst(second, rest, 2);
  }

  // ----- Signals -----

  datatype SignalType = Offer | Answer | Candidate | Failure

  function TypeText(t: SignalType): Bytes {
    match t
    case Offer => Ascii("CONNECTREQUEST")
    case Answer => Ascii("CONNECTRESPONSE")
    case Candidate => Ascii("CANDIDATEADD")
    case Failure => Ascii("CONNECTERROR")
  }

  function TypeFromText(s: Bytes): Option<SignalType> {
    if s == TypeText(Offer) then Some(Offer)
    else if s == TypeText(Answer) then Some(Answer)
    else if s == TypeText(Candidate) then Some(Candidate)
    else if s == TypeText(Failure) then Some(Failure)
    else None
  }

  lemma TypeTextRoundTrip(t: SignalType)
    ensures TypeFromText(TypeText(t)) == Some(t)
    ensures SPACE !in TypeText(t) && IsAscii(TypeText(t))
  {
    assert TypeText(Candidate)[1] != TypeText(Failure)[1];
    forall i | 0 <= i < |TypeText(t)|
      ensures TypeText(t)[i] != SPACE
    {
      assert forall text | text in {"CONNECTREQUEST", "CONNECTRESPONSE", "CANDIDATEADD", "CONNECTERROR"} ::
          forall k :: 0 <= k < |text| ==> text[k] != ' ';
    }
  }

  datatype Signal = Signal(kind: SignalType, connectionId: u64, data: Str, networkId: Str)

  function Join(first: Bytes, second: Bytes, rest: Bytes): Bytes {
    first + [SPACE] + second + [SPACE] + rest
  }

  /** `Display`; the network id is not part of the text. */
  function ToText(s: Signal): (text: Str)
    ensures text == Join(TypeText(s.kind), ToDecimal(s.connectionId), s.data)
  {
    TypeTextRoundTrip(s.kind);
    DecimalRoundTrip(s.connectionId, U64_MAX);
    JoinIsUtf8(TypeText(s.kind), ToDecimal(s.connectionId), s.data);
    Join(TypeText(s.kind), ToDecimal(s.connectionId), s.data)
  }

  lemma JoinIsUtf8(first: Bytes, second: Bytes, rest: Str)
    requires IsAscii(first) && IsAscii(second)
    ensures IsUtf8(Join(first, second, rest))
  {
    var head := first + [SPACE] + second + [SPACE];
    AsciiIsUtf8(head);
    Utf8Concat(head, rest);
  }

  lemma RestIsUtf8(first: Bytes, second: Bytes, rest: Bytes)
    requires IsUtf8(Join(first, second, rest))
    ensures IsUtf8(rest)
  {
    Utf8SplitAtAscii(first + [SPACE] + second, SPACE, rest);
  }

  /** `Signal::from_string`. */
  function FromText(s: Str, networkId: Str): (r: Result<Signal>)
    ensures r.Err? ==> r.error == Other
    ensures r.Ok? ==> r.value.networkId == networkId
  {
    var parts := SplitN(s, 3);
    if |parts| != 3 then Err(Other)
    else
      var kind := TypeFromText(parts[0]);
      if kind == None then Err(Other)
      else
        var id := ParseUnsigned(parts[1], U64_MAX);
        if id == None then Err(Other)
        else
          ParseMeaning(parts[1], U64_MAX);
          SplitIntoThree(s);
          RestIsUtf8(parts[0], parts[1], parts[2]);
          Ok(Signal(kind.value, id.value, parts[2], networkId))
  }

  /** The accepted language: a type, one space, an id text, one space, then any data, spaces and emptiness included. */
  ghost predicate IsSignalText(s: Bytes, idText: Bytes, signal: Signal) {
    s == Join(TypeText(signal.kind), idText, signal.data) && ParseUnsigned(idText, U64_MAX) == Some(signal.connectionId)
  }

  lemma ParsedTextHasNoSpace(idText: Bytes, max: nat)
    requires ParseUnsigned(idText, max).Some?
    ensures SPACE !in idText
  {
    ParseMeaning(idText, max);
    forall i | 0 <= i < |idText|
      ensures idText[i] != SPACE
    {
      var body := WithoutPlus(idText);
      assert i > 0 ==> idText[i] == body[|body| - |idText| + i];
    }
  }

  lemma SignalTextAccepted(s: Str, idText: Bytes, signal: Signal)
    requires IsSignalText(s, idText, signal)
    ensures FromText(s, signal.networkId) == Ok(signal)
  {
    TypeTextRoundTrip(signal.kind);
    ParsedTextHasNoSpace(idText, U64_MAX);
    SplitOfThree(TypeText(signal.kind), idText, signal.data);
  }

  lemma AcceptedParts(s: Str, networkId: Str) returns (idText: Bytes)
    requires FromText(s, networkId).Ok?
    ensures |SplitN(s, 3)| == 3 && idText == SplitN(s, 3)[1]
    ensures IsSignalText(s, idText, FromText(s, networkId).value)
  {
    idText := SplitN(s, 3)[1];
    SplitIntoThree(s);
  }

  /** `from_string` accepts exactly the signal texts, and returns what they say. */
  lemma FromTextIff(s: Str, signal: Signal)
    ensures FromText(s, signal.networkId) == Ok(signal) <==> exists idText :: IsSignalText(s, idText, signal)
  {
    if FromText(s, signal.networkId) == Ok(signal) {
      var idText := AcceptedParts(s, signal.networkId);
    }
    if idText :| IsSignalText(s, idText, signal) {
      SignalTextAccepted(s, idText, signal);
    }
  }

  /** Every signal survives its text form; the receiver supplies the network id. */
  lemma SignalRoundTrip(signal: Signal, networkId: Str)
    ensures FromText(ToText(signal), networkId) == Ok(signal.(networkId := networkId))
  {
    DecimalRoundTrip(signal.connectionId, U64_MAX);
    SignalTextAccepted(ToText(signal), ToDecimal(signal.connectionId), signal.(networkId := networkId));
  }

  // ----- The words on the wire -----

  predicate IsWord(word: Bytes, kind: SignalType) {
    match kind
    case Offer => word == Ascii("CONNECTREQUEST")
    case Answer => word == Ascii("CONNECTRESPONSE")
    case Candidate => word == Ascii("CANDIDATEADD")
    case Failure => word == Ascii("CONNECTERROR")
  }

  /** Each word is read as its type, under any id text that parses and before any data. */
  lemma WordsRead(text: Bytes, word: Bytes, idText: Bytes, signal: Signal)
    requires text == word + [32] + idText + [32] + signal.data
    requires IsWord(word, signal.kind) && ParseUnsigned(idText, U64_MAX) == Some(signal.connectionId)
    ensures IsUtf8(text) && FromText(text, signal.networkId) == Ok(signal)
  {
    TypeTextRoundTrip(signal.kind);
    ParsedIsAscii(idText, U64_MAX);
    JoinIsUtf8(TypeText(signal.kind), idText, signal.data);
    SignalTextAccepted(text, idText, signal);
  }

  /** And each type is written as its word, then the id in decimal, then the data. */
  lemma WordsWritten(id: u64, data: Str, networkId: Str)
    ensures var rest := [32] + ToDecimal(id) + [32] + data;
            && ToText(Signal(Offer, id, data, networkId)) == Ascii("CONNECTREQUEST") + rest
            && ToText(Signal(Answer, id, data, networkId)) == Ascii("CONNECTRESPONSE") + rest
            && ToText(Signal(Candidate, id, data, networkId)) == Ascii("CANDIDATEADD") + rest
            && ToText(Signal(Failure, id, data, networkId)) == Ascii("CONNECTERROR") + rest
  {
    JoinAfterFirst(TypeText(Offer), ToDecimal(id), data);
    JoinAfterFirst(TypeText(Answer), ToDecimal(id), data);
    JoinAfterFirst(TypeText(Candidate), ToDecimal(id), data);
    JoinAfterFirst(TypeText(Failure), ToDecimal(id), data);
  }

  lemma JoinAfterFirst(first: Bytes, second: Bytes, rest: Bytes)
    ensures Join(first, second, rest) == first + ([32] + second + [32] + rest)
  {
  }

  lemma ParsedIsAscii(idText: Bytes, max: nat)
    requires ParseUnsigned(idText, max).Some?
    ensures IsAscii(idText)
  {
    ParseMeaning(idText, max);
    forall i | 0 <= i < |idText|
      ensures idText[i] < 128
    {
      var body := WithoutPlus(idText);
      assert i > 0 ==> idText[i] == body[|body| - |idText| + i];
    }
  }

  /** Printing an accepted text normalises it: it parses to the same signal, and only the id's spelling can change. */
  lemma PrintIsNormalForm(s: Str, networkId: Str)
    requires FromText(s, networkId).Ok?
    ensures var signal := FromText(s, networkId).value;
            && FromText(ToText(signal), networkId) == Ok(signal)
            && |SplitN(s, 3)| == 3
            && (ToText(signal) == s <==> IsCanonical(SplitN(s, 3)[1]))
  {
    var signal := FromText(s, networkId).value;
    var idText := AcceptedParts(s, networkId);
    SignalRoundTrip(signal, networkId);
    PrintParsedIff(idText, U64_MAX);
    JoinCancels(TypeText(signal.kind), idText, ToDecimal(signal.connectionId), signal.data);
  }

  lemma JoinCancels(first: Bytes, second: Bytes, second': Bytes, rest: Bytes)
    ensures Join(first, second, rest) == Join(first, second', rest) <==> second == second'
  {
    var s, s' := Join(first, second, rest), Join(first, second', rest);
    var from := |first| + 1;
    assert second == s[from..from + |second|];
    assert second' == s'[from..from + |second'|];
  }

  /** No signal is ever mistaken for a keepalive: its type alone is longer than the token. */
  lemma NeverPing(signal: Signal)
    ensures ToText(signal) != Ascii("Ping")
  {
    assert |TypeText(signal.kind)| >= |"CANDIDATEADD"|;
  }
}
