/** The RCON packet codec and the command retry (client.go), after the Valve Source RCON Protocol, section
    "Basic Packet Structure". */
module Rcon {

  type Byte = b: int | 0 <= b < 0x100
  type Int32 = n: int | -0x8000_0000 <= n < 0x8000_0000

  const PAYLOAD_MAX_SIZE := 1460
  const PACKET_ID_BAD_AUTH := -1

  datatype Payload = Payload(packetId: Int32, packetType: Int32, body: seq<Byte>)

  /** Panic: a negative length makes the allocation of the buffer panic. */
  datatype Error = TooLarge | NoLength | BodyCutShort | PacketTooShort | Panic | BrokenPipe | BadAuth | Unreachable
  datatype Result<+T> = Ok(value: T) | Err(error: Error)

  // ----- integers -----

  /** A conversion to int32 keeps the low 32 bits. */
  function ToInt32(n: int): Int32 {
    var u := n % 0x1_0000_0000;
    if u < 0x8000_0000 then u else u - 0x1_0000_0000
  }

  function EncodeInt32(n: Int32): (b: seq<Byte>)
    ensures |b| == 4
  {
    var u := n % 0x1_0000_0000;
    var q1 := u / 0x100;
    var q2 := q1 / 0x100;
    var q3 := q2 / 0x100;
    [u % 0x100, q1 % 0x100, q2 % 0x100, q3 % 0x100]
  }

  function DecodeInt32(b: seq<Byte>): Int32
    requires |b| == 4
  {
    ToInt32(Word(b))
  }

  /** The unsigned value of four little-endian bytes. */
  function Word(b: seq<Byte>): int
    requires |b| == 4
  {
    var b0: int, b1: int, b2: int, b3: int := b[0], b[1], b[2], b[3];
    b0 + 0x100 * b1 + 0x1_0000 * b2 + 0x100_0000 * b3
  }

  lemma Divide(q: int, b: Byte)
    ensures (b + 0x100 * q) / 0x100 == q && (b + 0x100 * q) % 0x100 == b
  {
  }

  /** The bytes on the wire: least significant first, negative numbers in two's complement. */
  lemma EncodesLittleEndian(n: Int32)
    ensures var b := EncodeInt32(n);
            var b0: int, b1: int, b2: int, b3: int := b[0], b[1], b[2], b[3];
            b0 + 0x100 * b1 + 0x1_0000 * b2 + 0x100_0000 * b3 == if n >= 0 then n else n + 0x1_0000_0000
  {
    var u := n % 0x1_0000_0000;
    var q1 := u / 0x100;
    var q2 := q1 / 0x100;
    var q3 := q2 / 0x100;
    assert u == u % 0x100 + 0x100 * q1 && q1 == q1 % 0x100 + 0x100 * q2 && q2 == q2 % 0x100 + 0x100 * q3;
    assert q3 % 0x100 == q3;
    assert u == if n >= 0 then n else n + 0x1_0000_0000;
  }

  lemma DecodesLittleEndian(b: seq<Byte>)
    requires |b| == 4
    ensures var n: int := DecodeInt32(b);
            var b0: int, b1: int, b2: int, b3: int := b[0], b[1], b[2], b[3];
            b0 + 0x100 * b1 + 0x1_0000 * b2 + 0x100_0000 * b3 == if n >= 0 then n else n + 0x1_0000_0000
  {
  }

  lemma Int32RoundTrip(n: Int32)
    ensures DecodeInt32(EncodeInt32(n)) == n
  {
    var u := n % 0x1_0000_0000;
    var q1 := u / 0x100;
    var q2 := q1 / 0x100;
    var q3 := q2 / 0x100;
    assert u == u % 0x100 + 0x100 * q1 && q1 == q1 % 0x100 + 0x100 * q2 && q2 == q2 % 0x100 + 0x100 * q3;
    assert q3 % 0x100 == q3;
    assert Word(EncodeInt32(n)) == u;
  }

  lemma BytesRoundTrip(b: seq<Byte>)
    requires |b| == 4
    ensures EncodeInt32(DecodeInt32(b)) == b
  {
    var b0: int, b1: int, b2: int, b3: int := b[0], b[1], b[2], b[3];
    var q2 := b2 + 0x100 * b3;
    var q1 := b1 + 0x100 * q2;
    assert Word(b) == b0 + 0x100 * q1;
    ToInt32Modulus(Word(b));
    Divide(q1, b0);
    Divide(q2, b1);
    Divide(b3, b2);
  }

  lemma ToInt32Modulus(u: int)
    requires 0 <= u < 0x1_0000_0000
    ensures ToInt32(u) % 0x1_0000_0000 == u
  {
  }

  // ----- packets -----

  function PacketSize(p: Payload): Int32 {
    ToInt32(|p.body| + 4 + 4 + 2)
  }

  function Frame(p: Payload): seq<Byte> {
    EncodeInt32(PacketSize(p)) + EncodeInt32(p.packetId) + EncodeInt32(p.packetType) + p.body + [0, 0]
  }

  function Encode(p: Payload): Result<seq<Byte>> {
    if |Frame(p)| >= PAYLOAD_MAX_SIZE then Err(TooLarge) else Ok(Frame(p))
  }

  /** One read from a stream that delivers these bytes and then ends; the second component is what remains. */
  function Decode(stream: seq<Byte>): (Result<Payload>, seq<Byte>) {
    if |stream| < 4 then (Err(NoLength), [])
    else
      var length := DecodeInt32(stream[..4]);
      if length < 0 then (Err(Panic), stream[4..])
      else if |stream| < 4 + length then (Err(BodyCutShort), [])
      else
        var buf, rest := stream[4..4 + length], stream[4 + length..];
        if length < 4 + 4 + 2 then (Err(PacketTooShort), rest)
        else (Ok(Payload(DecodeInt32(buf[..4]), DecodeInt32(buf[4..8]), buf[8..length - 2])), rest)
  }

  lemma EncodableIff(p: Payload)
    ensures Encode(p).Ok? <==> |p.body| <= 1445
    ensures Encode(p).Ok? ==> |Encode(p).value| == |p.body| + 14 && PacketSize(p) == |p.body| + 10
  {
  }

  /** The four bytes from position k on hold n, least significant first. */
  predicate HoldsAt(packet: seq<Byte>, k: nat, n: int)
    requires k + 4 <= |packet|
  {
    var b0: int, b1: int, b2: int, b3: int := packet[k], packet[k + 1], packet[k + 2], packet[k + 3];
    b0 + 0x100 * b1 + 0x1_0000 * b2 + 0x100_0000 * b3 == if n >= 0 then n else n + 0x1_0000_0000
  }

  /** The layout of a packet, byte range by byte range: length, id, type, body, two zeros. */
  lemma WireLayout(p: Payload)
    requires |p.body| <= 1445
    ensures Encode(p).Ok?
    ensures var packet, n := Encode(p).value, |p.body|;
            && |packet| == n + 14
            && HoldsAt(packet, 0, n + 10) && HoldsAt(packet, 4, p.packetId) && HoldsAt(packet, 8, p.packetType)
            && packet[12..12 + n] == p.body && packet[12 + n] == 0 && packet[13 + n] == 0
  {
    EncodableIff(p);
    EncodesLittleEndian(PacketSize(p));
    EncodesLittleEndian(p.packetId);
    EncodesLittleEndian(p.packetType);
    var head := EncodeInt32(PacketSize(p)) + EncodeInt32(p.packetId) + EncodeInt32(p.packetType);
    assert Frame(p) == head + (p.body + [0, 0]);
    assert Frame(p)[12..] == p.body + [0, 0];
    assert p.body == Frame(p)[12..][..|p.body|];
  }

  /** Every way a read can end, by the bytes there are. */
  lemma ReadOutcomes(stream: seq<Byte>, n: int)
    requires |stream| >= 4 ==> -0x8000_0000 <= n < 0x8000_0000 && HoldsAt(stream, 0, n)
    ensures Decode(stream).0 == Err(NoLength) <==> |stream| < 4
    ensures |stream| >= 4 ==>
              && (Decode(stream).0 == Err(Panic) <==> n < 0)
              && (Decode(stream).0 == Err(BodyCutShort) <==> n >= 0 && |stream| < 4 + n)
              && (Decode(stream).0 == Err(PacketTooShort) <==> 0 <= n < 10 && |stream| >= 4 + n)
              && (Decode(stream).0.Ok? <==> n >= 10 && |stream| >= 4 + n)
  {
    if |stream| >= 4 {
      DecodesLittleEndian(stream[..4]);
    }
  }

  /** Any encodable payload is read back, and nothing of what follows it is consumed. */
  lemma DecodeEncode(p: Payload, rest: seq<Byte>)
    requires |p.body| <= 1445
    ensures Encode(p).Ok? && Decode(Encode(p).value + rest) == (Ok(p), rest)
  {
    EncodableIff(p);
    var n := |p.body| + 10;
    var stream := Frame(p) + rest;
    assert stream[..4] == EncodeInt32(PacketSize(p));
    Int32RoundTrip(PacketSize(p));
    assert stream[4 + n..] == rest;
    var buf := stream[4..4 + n];
    assert buf == EncodeInt32(p.packetId) + EncodeInt32(p.packetType) + p.body + [0, 0];
    assert buf[..4] == EncodeInt32(p.packetId);
    assert buf[4..8] == EncodeInt32(p.packetType);
    assert buf[8..n - 2] == p.body;
    Int32RoundTrip(p.packetId);
    Int32RoundTrip(p.packetType);
  }

  function EncodeAll(ps: seq<Payload>): seq<Byte> {
    if ps == [] then [] else Frame(ps[0]) + EncodeAll(ps[1..])
  }

  function DecodeAll(stream: seq<Byte>): Result<seq<Payload>> {
    if stream == [] then Ok([])
    else
      var (first, rest) := Decode(stream);
      match first
      case Err(e) => Err(e)
      case Ok(p) =>
        match DecodeAll(rest)
        case Err(e) => Err(e)
        case Ok(ps) => Ok([p] + ps)
  }

  /** A stream of packets is read back payload by payload, with no bytes left over. */
  lemma {:induction false} StreamRoundTrip(ps: seq<Payload>)
    requires forall p :: p in ps ==> |p.body| <= 1445
    ensures DecodeAll(EncodeAll(ps)) == Ok(ps)
  {
    if ps != [] {
      DecodeEncode(ps[0], EncodeAll(ps[1..]));
      EncodableIff(ps[0]);
      StreamRoundTrip(ps[1..]);
      assert ps == [ps[0]] + ps[1..];
    }
  }

  /** Where in the stream the fields of an accepted packet were. */
  lemma DecodeReads(stream: seq<Byte>)
    requires Decode(stream).0.Ok?
    ensures var (r, rest) := Decode(stream);
            var n := |r.value.body|;
            && n + 14 + |rest| == |stream|
            && DecodeInt32(stream[..4]) == n + 10
            && r.value.packetId == DecodeInt32(stream[4..8]) && r.value.packetType == DecodeInt32(stream[8..12])
            && r.value.body == stream[12..12 + n] && rest == stream[14 + n..]
  {
    var length: int := DecodeInt32(stream[..4]);
    SliceOfSlice(stream, 4, 4 + length, 0, 4);
    SliceOfSlice(stream, 4, 4 + length, 4, 8);
    SliceOfSlice(stream, 4, 4 + length, 8, length - 2);
  }

  /** What one successful read consumed: a length, that many bytes, and the payload they carry. */
  lemma DecodeParts(stream: seq<Byte>)
    requires Decode(stream).0.Ok?
    ensures var (r, rest) := Decode(stream);
            && |r.value.body| + 14 + |rest| == |stream|
            && var pad := stream[12 + |r.value.body|..14 + |r.value.body|];
               stream == EncodeInt32(PacketSize(r.value)) + EncodeInt32(r.value.packetId)
                           + EncodeInt32(r.value.packetType) + r.value.body + pad + rest
  {
    DecodeReads(stream);
    var n := |Decode(stream).0.value.body|;
    BytesRoundTrip(stream[..4]);
    BytesRoundTrip(stream[4..8]);
    BytesRoundTrip(stream[8..12]);
    ToInt32Identity(n + 10);
    SixParts(stream, n);
  }

  lemma ToInt32Identity(n: Int32)
    ensures ToInt32(n) == n
  {
  }

  lemma SliceOfSlice(s: seq<Byte>, a: nat, b: nat, c: nat, d: nat)
    requires a <= b <= |s| && c <= d <= b - a
    ensures s[a..b][c..d] == s[a + c..a + d]
  {
    assert forall i :: 0 <= i < d - c ==> s[a..b][c..d][i] == s[a + c..a + d][i];
  }

  lemma SixParts(s: seq<Byte>, n: nat)
    requires 14 + n <= |s|
    ensures s == s[..4] + s[4..8] + s[8..12] + s[12..12 + n] + s[12 + n..14 + n] + s[14 + n..]
  {
  }

  /** The converse: an accepted packet re-encodes to exactly the bytes consumed if and only if it is within the
      size the sender allows and ends in the two zero bytes, which the reader does not check. */
  lemma EncodeDecode(stream: seq<Byte>)
    requires Decode(stream).0.Ok?
    ensures var (r, rest) := Decode(stream);
            && |rest| + 14 <= |stream|
            && var consumed := stream[..|stream| - |rest|];
               stream == consumed + rest
               && (Encode(r.value) == Ok(consumed)
                   <==> |consumed| < PAYLOAD_MAX_SIZE && consumed[|consumed| - 2..] == [0, 0])
  {
    DecodeParts(stream);
    var (r, rest) := Decode(stream);
    var p := r.value;
    var n := |p.body|;
    var consumed := stream[..|stream| - |rest|];
    var head := EncodeInt32(PacketSize(p)) + EncodeInt32(p.packetId) + EncodeInt32(p.packetType) + p.body;
    assert Frame(p) == head + [0, 0];
    assert consumed == head + stream[12 + n..14 + n];
    assert consumed[|consumed| - 2..] == stream[12 + n..14 + n];
    assert Frame(p)[12 + n..] == [0, 0];
  }

  /** No packet is a proper prefix of another, so a reader never has to guess where one ends. */
  lemma PrefixFree(p: Payload, q: Payload)
    requires |p.body| <= 1445 && |q.body| <= 1445
    requires Encode(p).value <= Encode(q).value
    ensures p == q
  {
    EncodableIff(p);
    EncodableIff(q);
    var stream := Encode(q).value;
    var rest := stream[|Encode(p).value|..];
    assert stream == Encode(p).value + rest;
    assert stream == stream + [];
    DecodeEncode(p, rest);
    DecodeEncode(q, []);
  }

  // ----- the client -----

  /** createPacketFromPayload: the five parts are written to a buffer one after the other. */
  method CreatePacketFromPayload(p: Payload) returns (r: Result<seq<Byte>>)
    ensures r == Encode(p)
  {
    var parts := [EncodeInt32(PacketSize(p)), EncodeInt32(p.packetId), EncodeInt32(p.packetType), p.body, [0, 0]];
    var buf: seq<Byte> := [];
    for i := 0 to |parts|
      invariant buf == Flatten(parts[..i])
    {
      FlattenAppend(parts[..i], parts[i]);
      assert parts[..i + 1] == parts[..i] + [parts[i]];
      buf := buf + parts[i];
    }
    assert parts[..|parts|] == parts;
    FlattenFive(parts[0], parts[1], parts[2], parts[3], parts[4]);
    if |buf| >= PAYLOAD_MAX_SIZE {
      return Err(TooLarge);
    }
    return Ok(buf);
  }

  function Flatten(parts: seq<seq<Byte>>): seq<Byte> {
    if parts == [] then [] else Flatten(parts[..|parts| - 1]) + parts[|parts| - 1]
  }

  lemma FlattenAppend(parts: seq<seq<Byte>>, part: seq<Byte>)
    ensures Flatten(parts + [part]) == Flatten(parts) + part
  {
    assert (parts + [part])[..|parts|] == parts;
  }

  lemma FlattenFive(a: seq<Byte>, b: seq<Byte>, c: seq<Byte>, d: seq<Byte>, e: seq<Byte>)
    ensures Flatten([a, b, c, d, e]) == a + b + c + d + e
  {
    FlattenAppend([], a);
    FlattenAppend([a], b);
    FlattenAppend([a, b], c);
    FlattenAppend([a, b, c], d);
    FlattenAppend([a, b, c, d], e);
    assert [] + [a] == [a] && [a] + [b] == [a, b] && [a, b] + [c] == [a, b, c];
    assert [a, b, c] + [d] == [a, b, c, d] && [a, b, c, d] + [e] == [a, b, c, d, e];
  }

  /** A TCP connection: what was written to it, and the bytes it will still deliver. */
  class Connection {
    var broken: bool
    var written: seq<Byte>
    var incoming: seq<Byte>

    constructor (broken: bool, incoming: seq<Byte>)
      ensures this.broken == broken && written == [] && this.incoming == incoming
    {
      this.broken, this.written, this.incoming := broken, [], incoming;
    }

    /** createPayloadFromPacket: read the length, then exactly that many bytes. */
    method CreatePayloadFromPacket() returns (r: Result<Payload>)
      modifies this`incoming
      ensures (r, incoming) == Decode(old(incoming))
    {
      if |incoming| < 4 {
        incoming := [];
        return Err(NoLength);
      }
      var length := DecodeInt32(incoming[..4]);
      incoming := incoming[4..];
      if length < 0 {
        return Err(Panic);
      }
      if |incoming| < length {
        incoming := [];
        return Err(BodyCutShort);
      }
      var buf := incoming[..length];
      incoming := incoming[length..];
      assert buf == old(incoming)[4..4 + length] && incoming == old(incoming)[4 + length..];
      if length < 4 + 4 + 2 {
        return Err(PacketTooShort);
      }
      return Ok(Payload(DecodeInt32(buf[..4]), DecodeInt32(buf[4..8]), buf[8..length - 2]));
    }

    /** sendPayload: one packet out, one packet in. */
    method SendPayload(request: Payload) returns (r: Result<Payload>)
      modifies this
      ensures broken == old(broken)
      ensures r == Exchange(old(broken), old(incoming), request)
      ensures written == old(written) + Sent(broken, request)
      ensures written == if !broken && |request.body| <= 1445 then old(written) + Encode(request).value
                         else old(written)
    {
      EncodableIff(request);
      var packet := CreatePacketFromPayload(request);
      if packet.Err? {
        return Err(packet.error);
      }
      if broken {
        return Err(BrokenPipe);
      }
      written := written + packet.value;
      r := CreatePayloadFromPacket();
      if r.Ok? && r.value.packetId == PACKET_ID_BAD_AUTH {
        return Err(BadAuth);
      }
    }
  }

  function Exchange(broken: bool, incoming: seq<Byte>, request: Payload): Result<Payload> {
    if Encode(request).Err? then Err(Encode(request).error)
    else if broken then Err(BrokenPipe)
    else
      var answer := Decode(incoming).0;
      if answer.Ok? && answer.value.packetId == PACKET_ID_BAD_AUTH then Err(BadAuth) else answer
  }

  /** How an exchange ends, case by case. An answer with the id -1 is a failed authentication. */
  lemma ExchangeOutcomes(broken: bool, incoming: seq<Byte>, request: Payload)
    ensures var r := Exchange(broken, incoming, request);
            && (r == Err(TooLarge) <==> |request.body| > 1445)
            && (r == Err(BrokenPipe) <==> |request.body| <= 1445 && broken)
            && (|request.body| <= 1445 && !broken ==>
                  match Decode(incoming).0
                  case Err(e) => r == Err(e)
                  case Ok(answer) => r == if answer.packetId == -1 then Err(BadAuth) else Ok(answer))
  {
    EncodableIff(request);
  }

  /** What an exchange puts on the wire. */
  function Sent(broken: bool, request: Payload): seq<Byte> {
    if !broken && Encode(request).Ok? then Encode(request).value else []
  }

  /** A success is reported only after the whole packet went out on a sound connection and an answer came back. */
  lemma SuccessMeansSent(broken: bool, incoming: seq<Byte>, request: Payload)
    requires Exchange(broken, incoming, request).Ok?
    ensures Sent(broken, request) == Frame(request) && Decode(incoming).0.Ok?
  {
    EncodableIff(request);
  }

  /** The first dial that succeeds; |dials| if none does. */
  function FirstUp(dials: seq<Connection?>): (k: nat)
    ensures k <= |dials| && (k < |dials| ==> dials[k] != null) && forall i :: 0 <= i < k ==> dials[i] == null
  {
    if dials == [] then 0 else if dials[0] != null then 0 else 1 + FirstUp(dials[1..])
  }

  class Client {
    var connection: Connection

    constructor (connection: Connection)
      ensures this.connection == connection
    {
      this.connection := connection;
    }

    /** If the exchange fails (and did not panic), up to three dials (null is a failed one), and one more exchange
        on the first connection that comes up. The connections not used are left alone. */
    method SendCommand(command: Payload, dials: seq<Connection?>) returns (r: Result<Payload>)
      requires |dials| == 3 && forall i :: 0 <= i < 3 ==> dials[i] != connection
      modifies this, connection, set i | 0 <= i < |dials| && dials[i] != null :: dials[i]
      ensures var first := Exchange(old(connection.broken), old(connection.incoming), command);
              var k := FirstUp(dials);
              if first.Ok? || first == Err(Panic) then r == first && connection == old(connection)
              else if k == 3 then r == Err(Unreachable) && connection == old(connection)
              else
                && connection == dials[k]
                && r == Exchange(old(dials[k].broken), old(dials[k].incoming), command)
                && dials[k].written == old(dials[k].written) + Sent(old(dials[k].broken), command)
      ensures old(connection).written == old(connection.written) + Sent(old(connection.broken), command)
      ensures forall i :: 0 <= i < 3 && dials[i] != null && dials[i] != connection
                ==> dials[i].written == old(dials[i].written)
    {
      r := connection.SendPayload(command);
      if r.Err? && r != Err(Panic) {
        var reconnected := false;
        var i := 0;
        while i < 3 && !reconnected
          invariant 0 <= i <= 3
          invariant !reconnected ==> connection == old(connection) && i <= FirstUp(dials)
          invariant reconnected ==>
                      && i - 1 == FirstUp(dials) && connection == dials[i - 1]
                      && r == Exchange(old(dials[i - 1].broken), old(dials[i - 1].incoming), command)
                      && dials[i - 1].written == old(dials[i - 1].written) + Sent(old(dials[i - 1].broken), command)
          invariant old(connection).written == old(connection.written) + Sent(old(connection.broken), command)
          invariant forall j :: 0 <= j < 3 && dials[j] != null && !(reconnected && dials[j] == connection)
                      ==> dials[j].written == old(dials[j].written) && dials[j].broken == old(dials[j].broken)
                          && dials[j].incoming == old(dials[j].incoming)
        {
          if dials[i] != null {
            connection := dials[i];
            reconnected := true;
            r := connection.SendPayload(command);
          }
          i := i + 1;
        }
        if !reconnected {
          return Err(Unreachable);
        }
      }
    }
  }
}
