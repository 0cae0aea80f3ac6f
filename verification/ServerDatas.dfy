/** The advertised server description (src/protocol/packet/discovery/server_data.rs). */
module ServerDatas {
  import opened Wrappers
  import opened Octets
  import opened Utf8
  import opened Primitives

  const VERSION: u8 := 4

  datatype ServerData = ServerData(
    serverName: Str,
    levelName: Str,
    gameType: u8,
    playerCount: i32,
    maxPlayerCount: i32,
    editorWorld: bool,
    hardcore: bool,
    transportLayer: u8,
    connectionType: u8)

  /** `x << 1` on a byte. */
  function ShiftLeft(x: u8): u8 {
    (2 * x) % 0x100
  }

  function Flag(b: bool): u8 {
    if b then 1 else 0
  }

  // ----- Layout -----

  function Counts(d: ServerData): Bytes {
    [ShiftLeft(d.gameType)] + ToLe(Unsigned(d.playerCount), 4) + ToLe(Unsigned(d.maxPlayerCount), 4)
  }

  function Flags(d: ServerData): Bytes {
    [Flag(d.editorWorld), Flag(d.hardcore), ShiftLeft(d.transportLayer), ShiftLeft(d.connectionType)]
  }

  function Names(d: ServerData): Bytes
    requires |d.serverName| <= U8_MAX && |d.levelName| <= U8_MAX
  {
    ([|d.serverName|] + d.serverName) + ([|d.levelName|] + d.levelName)
  }

  function Layout(d: ServerData): Bytes
    requires |d.serverName| <= U8_MAX && |d.levelName| <= U8_MAX
  {
    [VERSION] + Names(d) + Counts(d) + Flags(d)
  }

  /** The values that have an encoding. */
  predicate Encodable(d: ServerData) {
    && d.gameType < 128 && d.transportLayer < 128 && d.connectionType < 128
    && |d.serverName| <= U8_MAX && |d.levelName| <= U8_MAX
  }

  datatype CountFields = CountFields(gameType: u8, playerCount: i32, maxPlayerCount: i32)

  function ParseCounts(s: Bytes): (r: Result<Parsed<CountFields>>)
    ensures r.Ok? ==> r.value.value.gameType < 128
  {
    var gameType :- TakeU8(s);
    var players :- TakeLe(gameType.rest, 4);
    var maxPlayers :- TakeLe(players.rest, 4);
    Ok(Parsed(CountFields(gameType.value / 2, SignedOf(players.value), SignedOf(maxPlayers.value)), maxPlayers.rest))
  }

  datatype FlagFields = FlagFields(editorWorld: bool, hardcore: bool, transportLayer: u8, connectionType: u8)

  function ParseFlags(s: Bytes): (r: Result<Parsed<FlagFields>>)
    ensures r.Ok? ==> r.value.value.transportLayer < 128 && r.value.value.connectionType < 128
  {
    var editor :- TakeU8(s);
    var hardcore :- TakeU8(editor.rest);
    var transport :- TakeU8(hardcore.rest);
    var connection :- TakeU8(transport.rest);
    var fields := FlagFields(editor.value != 0, hardcore.value != 0, transport.value / 2, connection.value / 2);
    Ok(Parsed(fields, connection.rest))
  }

  function ParseName(s: Bytes): (r: Result<Parsed<Str>>)
    ensures r.Ok? ==> |r.value.value| <= U8_MAX
  {
    var name :- TakeBytes8(s);
    if !IsUtf8(name.value) then Err(Other) else Ok(Parsed(name.value, name.rest))
  }

  datatype NameFields = NameFields(serverName: Str, levelName: Str)

  function ParseNames(s: Bytes): (r: Result<Parsed<NameFields>>)
    ensures r.Ok? ==> |r.value.value.serverName| <= U8_MAX && |r.value.value.levelName| <= U8_MAX
  {
    var serverName :- ParseName(s);
    var levelName :- ParseName(serverName.rest);
    Ok(Parsed(NameFields(serverName.value, levelName.value), levelName.rest))
  }

  function Assemble(names: NameFields, counts: CountFields, flags: FlagFields): ServerData {
    ServerData(names.serverName, names.levelName, counts.gameType, counts.playerCount, counts.maxPlayerCount,
               flags.editorWorld, flags.hardcore, flags.transportLayer, flags.connectionType)
  }

  /** Everything after the version byte. */
  function ParseFields(s: Bytes): (r: Result<Parsed<ServerData>>)
    ensures r.Ok? ==> Encodable(r.value.value)
  {
    var names :- ParseNames(s);
    var counts :- ParseCounts(names.rest);
    var flags :- ParseFlags(counts.rest);
    Ok(Parsed(Assemble(names.value, counts.value, flags.value), flags.rest))
  }

  /** The fields, and nothing after them. */
  function ParseOnlyFields(s: Bytes): (r: Result<ServerData>)
    ensures r.Ok? ==> Encodable(r.value)
  {
    var fields :- ParseFields(s);
    if fields.rest != [] then Err(Other) else Ok(fields.value)
  }

  /** What `ServerData::unmarshal` accepts. */
  function Unmarshaled(data: Bytes): (r: Result<ServerData>)
    ensures r.Ok? ==> Encodable(r.value)
  {
    var version :- TakeU8(data);
    if version.value != VERSION then Err(Other)
    else ParseOnlyFields(version.rest)
  }

  // ----- Round trips -----

  lemma SignedRoundTrip(n: i32)
    ensures Unsigned(n) < Pow256(4) && SignedOf(Unsigned(n)) == n
  {
    Widths();
  }

  lemma CountsRoundTrip(d: ServerData, rest: Bytes)
    requires d.gameType < 128
    ensures ParseCounts(Counts(d) + rest) == Ok(Parsed(CountFields(d.gameType, d.playerCount, d.maxPlayerCount), rest))
  {
    SignedRoundTrip(d.playerCount);
    SignedRoundTrip(d.maxPlayerCount);
    var players, maxPlayers := ToLe(Unsigned(d.playerCount), 4), ToLe(Unsigned(d.maxPlayerCount), 4);
    var s := Counts(d) + rest;
    assert s[0] == 2 * d.gameType && s[1..] == players + (maxPlayers + rest);
    TakeLeWritten(Unsigned(d.playerCount), 4, maxPlayers + rest);
    TakeLeWritten(Unsigned(d.maxPlayerCount), 4, rest);
  }

  lemma FlagsRoundTrip(d: ServerData)
    requires d.transportLayer < 128 && d.connectionType < 128
    ensures ParseFlags(Flags(d))
            == Ok(Parsed(FlagFields(d.editorWorld, d.hardcore, d.transportLayer, d.connectionType), []))
  {
    var s := Flags(d);
    assert s[1..][1..][1..][1..] == [];
  }

  lemma NameRoundTrip(name: Str, rest: Bytes)
    requires |name| <= U8_MAX
    ensures ParseName([|name|] + name + rest) == Ok(Parsed(name, rest))
  {
    TakeBytes8Written(name, rest);
  }

  lemma LayoutParts(d: ServerData)
    requires Encodable(d)
    ensures var level := [|d.levelName|] + d.levelName + (Counts(d) + Flags(d));
            Layout(d) == [VERSION] + ([|d.serverName|] + d.serverName + level)
  {
    var server, level, tail := [|d.serverName|] + d.serverName, [|d.levelName|] + d.levelName, Counts(d) + Flags(d);
    assert Layout(d) == [VERSION] + (server + level) + Counts(d) + Flags(d);
    assert [VERSION] + (server + level) + Counts(d) + Flags(d) == [VERSION] + (server + (level + tail));
  }

  lemma LayoutRoundTrip(d: ServerData)
    requires Encodable(d)
    ensures Unmarshaled(Layout(d)) == Ok(d)
  {
    var tail := Counts(d) + Flags(d);
    var level := [|d.levelName|] + d.levelName + tail;
    var server := [|d.serverName|] + d.serverName + level;
    LayoutParts(d);
    assert TakeU8([VERSION] + server) == Ok(Parsed(VERSION, server)) by {
      assert ([VERSION] + server)[1..] == server;
    }
    NameRoundTrip(d.serverName, level);
    NameRoundTrip(d.levelName, tail);
    CountsRoundTrip(d, Flags(d));
    FlagsRoundTrip(d);
  }

  /** Every accepted value can be encoded, and decodes to itself again: unmarshal is onto the encodable values. */
  lemma AcceptedNormalForm(data: Bytes, d: ServerData)
    requires Unmarshaled(data) == Ok(d)
    ensures Encodable(d) && Unmarshaled(Layout(d)) == Ok(d)
  {
    LayoutRoundTrip(d);
  }

  // ----- What is written, by its places -----

  /** The thirteen bytes after the names: doubled bytes, little-endian counts, 1 for true and 0 for false. */
  ghost predicate TailShape(d: ServerData, s: Bytes) {
    && |s| == 13
    && s[0] == 2 * d.gameType
    && s[1..5] == ToLe(Unsigned(d.playerCount), 4) && s[5..9] == ToLe(Unsigned(d.maxPlayerCount), 4)
    && s[9] == (if d.editorWorld then 1 else 0) && s[10] == (if d.hardcore then 1 else 0)
    && s[11] == 2 * d.transportLayer && s[12] == 2 * d.connectionType
  }

  lemma NamesShape(d: ServerData)
    requires Encodable(d)
    ensures var s, n, m := Names(d), |d.serverName|, |d.levelName|;
            && |s| == 2 + n + m && s[0] == n && s[1..1 + n] == d.serverName
            && s[1 + n] == m && s[2 + n..] == d.levelName
  {
    var s, first, second := Names(d), [|d.serverName|] + d.serverName, [|d.levelName|] + d.levelName;
    assert s[..|first|] == first && s[|first|..] == second;
    assert first[1..] == d.serverName && second[1..] == d.levelName;
    PartOfPart(s, |first|, second, 1, |second|);
  }

  lemma TailOfLayout(d: ServerData)
    requires Encodable(d)
    ensures TailShape(d, Counts(d) + Flags(d))
  {
    CountsShape(d);
    var s := Counts(d) + Flags(d);
    assert s[..9] == Counts(d) && s[9..] == Flags(d);
    PartOfPart(s, 0, Counts(d), 1, 5);
    PartOfPart(s, 0, Counts(d), 5, 9);
  }

  lemma LayoutPlaces(d: ServerData)
    requires Encodable(d)
    ensures var s, names := Layout(d), Names(d);
            |s| == 14 + |names| && s[0] == 4 && s[1..1 + |names|] == names && s[1 + |names|..] == Counts(d) + Flags(d)
  {
    CountsShape(d);
    ConcatAssoc([VERSION] + Names(d), Counts(d), Flags(d));
    Middle([VERSION], Names(d), Counts(d) + Flags(d));
  }

  /** A marshalled description: version 4, the two counted names, server first, and the tail. */
  lemma LayoutShape(d: ServerData)
    requires Encodable(d)
    ensures var s, n, m := Layout(d), |d.serverName|, |d.levelName|;
            && |s| == 16 + n + m
            && s[0] == 4 && s[1] == n && s[2..2 + n] == d.serverName
            && s[2 + n] == m && s[3 + n..3 + n + m] == d.levelName
            && TailShape(d, s[3 + n + m..])
  {
    var s, names := Layout(d), Names(d);
    var n, m := |d.serverName|, |d.levelName|;
    NamesShape(d);
    TailOfLayout(d);
    LayoutPlaces(d);
    PartOfPart(s, 1, names, 0, 0);
    PartOfPart(s, 1, names, 1, 1 + n);
    PartOfPart(s, 1, names, 1 + n, 1 + n);
    PartOfPart(s, 1, names, 2 + n, 2 + n + m);
  }

  lemma CountsShape(d: ServerData)
    requires Encodable(d)
    ensures var s := Counts(d);
            && |s| == 9 && s[0] == 2 * d.gameType
            && s[1..5] == ToLe(Unsigned(d.playerCount), 4) && s[5..9] == ToLe(Unsigned(d.maxPlayerCount), 4)
  {
  }

  /** Nothing at all is an I/O error, another version is not. */
  lemma VersionIsChecked(data: Bytes)
    ensures data == [] ==> Unmarshaled(data) == Err(Io)
    ensures data != [] && data[0] != 4 ==> Unmarshaled(data) == Err(Other)
  {
  }

  // ----- Exactly what is accepted -----

  /** The thirteen bytes after the names: the low bit of the shifted ones and the spelling of true are free. */
  ghost predicate TailMatches(d: ServerData, s: Bytes) {
    && |s| == 13
    && s[0] / 2 == d.gameType
    && s[1..5] == ToLe(Unsigned(d.playerCount), 4) && s[5..9] == ToLe(Unsigned(d.maxPlayerCount), 4)
    && d.editorWorld == (s[9] != 0) && d.hardcore == (s[10] != 0)
    && s[11] / 2 == d.transportLayer && s[12] / 2 == d.connectionType
  }

  /** Bytes that read as `d`. */
  ghost predicate LayoutMatches(d: ServerData, data: Bytes) {
    && |d.serverName| <= U8_MAX && |d.levelName| <= U8_MAX
    && [VERSION] + Names(d) <= data
    && TailMatches(d, data[1 + |Names(d)|..])
  }

  lemma NameRead(s: Bytes, name: Str, rest: Bytes)
    requires ParseName(s) == Ok(Parsed(name, rest))
    ensures |name| <= U8_MAX && s == [|name|] + name + rest
  {
    var t := s[1..];
    assert t[..s[0]] == name && t[s[0]..] == rest && t == name + rest;
    assert s == [s[0]] + t;
  }

  lemma NameIff(s: Bytes, name: Str, rest: Bytes)
    ensures ParseName(s) == Ok(Parsed(name, rest)) <==> |name| <= U8_MAX && s == [|name|] + name + rest
  {
    if ParseName(s) == Ok(Parsed(name, rest)) {
      NameRead(s, name, rest);
    }
    if |name| <= U8_MAX && s == [|name|] + name + rest {
      NameRoundTrip(name, rest);
    }
  }

  lemma SignedIff(s: Bytes, n: i32)
    requires |s| == 4
    ensures FromLe(s) < Pow256(4) && (SignedOf(FromLe(s)) == n <==> s == ToLe(Unsigned(n), 4))
  {
    Widths();
    LeInverse(s);
    LeIff(s, Unsigned(n), 4);
  }

  lemma CountsIff(s: Bytes, c: CountFields, rest: Bytes)
    ensures ParseCounts(s) == Ok(Parsed(c, rest)) <==>
              |s| >= 9 && s[0] / 2 == c.gameType && s[9..] == rest
              && s[1..5] == ToLe(Unsigned(c.playerCount), 4) && s[5..9] == ToLe(Unsigned(c.maxPlayerCount), 4)
  {
    if |s| >= 9 {
      var t, u := s[1..], s[5..];
      assert t[..4] == s[1..5] && t[4..] == u && u[..4] == s[5..9] && u[4..] == s[9..];
      SignedIff(s[1..5], c.playerCount);
      SignedIff(s[5..9], c.maxPlayerCount);
    }
  }

  /** `unmarshal` accepts exactly the matching bytes. */
  lemma UnmarshalIff(data: Bytes, d: ServerData)
    ensures Unmarshaled(data) == Ok(d) <==> LayoutMatches(d, data)
  {
    if Unmarshaled(data) == Ok(d) {
      AcceptedMatches(data, d);
    }
    if LayoutMatches(d, data) {
      MatchingIsAccepted(data, d);
    }
  }

  /** The layout cut after the names. */
  lemma CutAfterNames(data: Bytes, d: ServerData, tail: Bytes)
    requires |d.serverName| <= U8_MAX && |d.levelName| <= U8_MAX
    ensures data == [VERSION] + Names(d) + tail <==>
              data != [] && data[0] == VERSION
              && data[1..] == [|d.serverName|] + d.serverName + ([|d.levelName|] + d.levelName + tail)
  {
    var server, level := [|d.serverName|] + d.serverName, [|d.levelName|] + d.levelName;
    ConcatAssoc(server, level, tail);
    ConcatAssoc([VERSION], Names(d), tail);
    if data == [VERSION] + (Names(d) + tail) {
      assert data[1..] == Names(d) + tail;
    }
    if data != [] {
      assert data == [data[0]] + data[1..];
    }
  }

  /** The names part of `unmarshal`. */
  lemma NamesIff(data: Bytes, serverName: Str, levelName: Str, tail: Bytes)
    ensures TakeU8(data).Ok? && data[0] == VERSION
            && ParseName(data[1..]).Ok? && ParseName(data[1..]).value.value == serverName
            && ParseName(ParseName(data[1..]).value.rest) == Ok(Parsed(levelName, tail))
            <==>
            && |serverName| <= U8_MAX && |levelName| <= U8_MAX && data != [] && data[0] == VERSION
            && data[1..] == [|serverName|] + serverName + ([|levelName|] + levelName + tail)
  {
    if data != [] {
      if |levelName| <= U8_MAX {
        NameIff(data[1..], serverName, [|levelName|] + levelName + tail);
        NameIff([|levelName|] + levelName + tail, levelName, tail);
      }
      var first := ParseName(data[1..]);
      if first.Ok? {
        NameIff(first.value.rest, levelName, tail);
      }
    }
  }

  lemma FlagsIff(s: Bytes, f: FlagFields)
    ensures ParseFlags(s) == Ok(Parsed(f, [])) <==>
              |s| == 4 && f == FlagFields(s[0] != 0, s[1] != 0, s[2] / 2, s[3] / 2)
  {
    if |s| >= 4 {
      assert s[1..][0] == s[1] && s[1..][1..] == s[2..] && s[2..][0] == s[2];
      assert s[2..][1..] == s[3..] && s[3..][1..] == s[4..];
    }
  }

  function TailFields(d: ServerData): (CountFields, FlagFields) {
    (CountFields(d.gameType, d.playerCount, d.maxPlayerCount),
     FlagFields(d.editorWorld, d.hardcore, d.transportLayer, d.connectionType))
  }

  lemma TailIff(s: Bytes, d: ServerData)
    ensures TailMatches(d, s) <==>
              var counts := ParseCounts(s);
              && counts.Ok? && counts.value.value == TailFields(d).0
              && ParseFlags(counts.value.rest) == Ok(Parsed(TailFields(d).1, []))
  {
    var (counts, flags) := TailFields(d);
    if |s| >= 9 {
      var rest := s[9..];
      CountsIff(s, counts, rest);
      FlagsIff(rest, flags);
      if |s| == 13 {
        assert rest[0] == s[9] && rest[1] == s[10] && rest[2] == s[11] && rest[3] == s[12];
      }
    }
    var parsed := ParseCounts(s);
    if parsed.Ok? {
      CountsIff(s, parsed.value.value, parsed.value.rest);
    }
  }

  lemma MatchingIsAccepted(data: Bytes, d: ServerData)
    requires LayoutMatches(d, data)
    ensures Unmarshaled(data) == Ok(d)
  {
    var tail := data[1 + |Names(d)|..];
    assert data == [VERSION] + Names(d) + tail;
    CutAfterNames(data, d, tail);
    NamesIff(data, d.serverName, d.levelName, tail);
    TailIff(tail, d);
  }

  lemma AcceptedMatches(data: Bytes, d: ServerData)
    requires Unmarshaled(data) == Ok(d)
    ensures LayoutMatches(d, data)
  {
    var tail := AcceptedTail(data, d);
    NamesIff(data, d.serverName, d.levelName, tail);
    CutAfterNames(data, d, tail);
    assert data[1 + |Names(d)|..] == tail;
  }

  /** What is left after the names of an accepted value. */
  lemma AcceptedTail(data: Bytes, d: ServerData) returns (tail: Bytes)
    requires Unmarshaled(data) == Ok(d)
    ensures data != [] && data[0] == VERSION && ParseName(data[1..]).Ok?
    ensures ParseName(data[1..]).value.value == d.serverName
    ensures ParseName(ParseName(data[1..]).value.rest) == Ok(Parsed(d.levelName, tail))
    ensures TailMatches(d, tail)
  {
    tail := ParseName(ParseName(data[1..]).value.rest).value.rest;
    TailIff(tail, d);
  }

  /** At most 526 bytes. */
  lemma LayoutSize(d: ServerData)
    requires Encodable(d)
    ensures |Layout(d)| == 16 + |d.serverName| + |d.levelName| <= 526
  {
  }

  // ----- marshal and unmarshal -----

  /** `ServerData::marshal`: succeeds exactly on the encodable values. */
  method Marshal(d: ServerData) returns (r: Result<Bytes>)
    ensures r.Ok? <==> Encodable(d)
    ensures r.Ok? ==> r.value == Layout(d)
    ensures r.Err? ==>
              r.error == if d.gameType >= 128 || d.transportLayer >= 128 || d.connectionType >= 128 then Other else Io
  {
    if d.gameType >= 128 {
      return Err(Other);
    }
    if d.transportLayer >= 128 {
      return Err(Other);
    }
    if d.connectionType >= 128 {
      return Err(Other);
    }
    var buf := new ByteVec([]);
    buf.WriteU8(VERSION);
    var named := WriteNames(d, buf);
    if named.Err? {
      return Err(named.error);
    }
    WriteCounts(d, buf);
    WriteFlags(d, buf);
    return Ok(buf.elems);
  }

  method WriteNames(d: ServerData, buf: ByteVec) returns (r: Result<()>)
    modifies buf
    ensures r == if |d.serverName| <= U8_MAX && |d.levelName| <= U8_MAX then Ok(()) else Err(Io)
    ensures r.Ok? ==> buf.elems == old(buf.elems) + Names(d)
  {
    ghost var start := buf.elems;
    r := buf.WriteBytesU8(d.serverName);
    if r.Err? {
      return;
    }
    r := buf.WriteBytesU8(d.levelName);
    ConcatAssoc(start, [|d.serverName|] + d.serverName, [|d.levelName|] + d.levelName);
  }

  method WriteCounts(d: ServerData, buf: ByteVec)
    modifies buf
    ensures buf.elems == old(buf.elems) + Counts(d)
  {
    ghost var start := buf.elems;
    buf.WriteU8(ShiftLeft(d.gameType));
    buf.WriteI32Le(d.playerCount);
    buf.WriteI32Le(d.maxPlayerCount);
    ConcatAssoc(start, [ShiftLeft(d.gameType)], ToLe(Unsigned(d.playerCount), 4));
    ConcatAssoc(start, [ShiftLeft(d.gameType)] + ToLe(Unsigned(d.playerCount), 4), ToLe(Unsigned(d.maxPlayerCount), 4));
  }

  method WriteFlags(d: ServerData, buf: ByteVec)
    modifies buf
    ensures buf.elems == old(buf.elems) + Flags(d)
  {
    buf.WriteU8(if d.editorWorld then 1 else 0);
    buf.WriteU8(if d.hardcore then 1 else 0);
    buf.WriteU8(ShiftLeft(d.transportLayer));
    buf.WriteU8(ShiftLeft(d.connectionType));
  }

  method ReadName(cursor: Cursor) returns (r: Result<Str>)
    requires cursor.Valid()
    modifies cursor
    ensures cursor.Follows(r, ParseName(old(cursor.Rest())))
  {
    var bytes :- cursor.ReadBytesU8();
    if !IsUtf8(bytes) {
      return Err(Other);
    }
    return Ok(bytes);
  }

  method ReadCounts(cursor: Cursor) returns (r: Result<CountFields>)
    requires cursor.Valid()
    modifies cursor
    ensures cursor.Follows(r, ParseCounts(old(cursor.Rest())))
  {
    var gameType :- cursor.ReadU8();
    var playerCount :- cursor.ReadI32Le();
    var maxPlayerCount :- cursor.ReadI32Le();
    return Ok(CountFields(gameType / 2, playerCount, maxPlayerCount));
  }

  method ReadFlags(cursor: Cursor) returns (r: Result<FlagFields>)
    requires cursor.Valid()
    modifies cursor
    ensures cursor.Follows(r, ParseFlags(old(cursor.Rest())))
  {
    var editorWorld :- cursor.ReadU8();
    var hardcore :- cursor.ReadU8();
    var transportLayer :- cursor.ReadU8();
    var connectionType :- cursor.ReadU8();
    return Ok(FlagFields(editorWorld != 0, hardcore != 0, transportLayer / 2, connectionType / 2));
  }

  method ReadNames(cursor: Cursor) returns (r: Result<NameFields>)
    requires cursor.Valid()
    modifies cursor
    ensures cursor.Follows(r, ParseNames(old(cursor.Rest())))
  {
    var serverName :- ReadName(cursor);
    var levelName :- ReadName(cursor);
    return Ok(NameFields(serverName, levelName));
  }

  method ReadFields(cursor: Cursor) returns (r: Result<ServerData>)
    requires cursor.Valid()
    modifies cursor
    ensures cursor.Follows(r, ParseFields(old(cursor.Rest())))
  {
    var names :- ReadNames(cursor);
    var counts :- ReadCounts(cursor);
    var flags :- ReadFlags(cursor);
    return Ok(Assemble(names, counts, flags));
  }

  method ReadOnlyFields(cursor: Cursor) returns (r: Result<ServerData>)
    requires cursor.Valid()
    modifies cursor
    ensures r == ParseOnlyFields(old(cursor.Rest()))
  {
    var d :- ReadFields(cursor);
    var remaining := |cursor.data| - cursor.position;
    assert remaining == |cursor.Rest()|;
    if remaining != 0 {
      return Err(Other);
    }
    return Ok(d);
  }

  method Unmarshal(data: Bytes) returns (r: Result<ServerData>)
    ensures r == Unmarshaled(data)
  {
    var cursor := new Cursor(data);
    var version :- cursor.ReadU8();
    if version != VERSION {
      return Err(Other);
    }
    r := ReadOnlyFields(cursor);
  }
}
