/**
 * The replication connection's wire layer over an in-memory byte stream:
 * packet framing (a 3-byte little-endian length and a 1-byte sequence id
 * before each chunk, chunks of 0xFFFFFF bytes continued by the next), the
 * classification of a reply by its first byte, the framing of what the
 * client sends, the server's initial handshake, the capability mask and
 * the REGISTER_SLAVE and BINLOG_DUMP commands.
 */
module Connection {
  import opened Wrappers
  import opened Bytes
  import opened Errors
  import opened Buffers
  import opened Records
  import Bits
  import C = Capabilities
  import opened Events
  import Rows

  const MAX_PACKET_SIZE: nat := 0xFF_FFFF
  const COM_REGISTER_SLAVE: Byte := 0x15
  const COM_BINLOG_DUMP: Byte := 0x12
  /** The binlog magic number's size: the first event of a file starts here. */
  const BINLOG_HEADER_SIZE: nat := 4

  // ---------------------------------------------------------------- reply types

  /** The first byte of a server reply. */
  datatype Packet = OK | EXTRA_AUTH | LOCAL_INFILE_REQUEST | EOF | ERR

  function PacketValue(p: Packet): Byte
  {
    match p
    case OK => 0x00
    case EXTRA_AUTH => 0x01
    case LOCAL_INFILE_REQUEST => 0xfb
    case EOF => 0xfe
    case ERR => 0xff
  }

  /** `Packet::tryFrom`: the reply type with that value, if any. */
  function PacketFrom(b: Byte): (r: Option<Packet>)
    ensures r.Some? ==> PacketValue(r.value) == b
    ensures r.None? ==> b !in {0x00, 0x01, 0xfb, 0xfe, 0xff}
  {
    match b
    case 0x00 => Some(OK)
    case 0x01 => Some(EXTRA_AUTH)
    case 0xfb => Some(LOCAL_INFILE_REQUEST)
    case 0xfe => Some(EOF)
    case 0xff => Some(ERR)
    case _ => None
  }

  /** Every reply type is recognised from its own value. */
  lemma PacketFromValue(p: Packet)
    ensures PacketFrom(PacketValue(p)) == Some(p)
  {
  }

  // ---------------------------------------------------------------- framing

  /** Where reading one packet left the reader: the payload or the exception, the bytes consumed, the sequence id. */
  datatype Framed = Framed(payload: Outcome<Bytes>, offset: nat, seqId: int)

  /** The sequence id a continuation chunk carries: one more, wrapping at 256 like the one-byte field. */
  function NextSeqId(seqId: int): (r: int)
    ensures 0 <= r < 256
    ensures 0 <= seqId < 255 ==> r == seqId + 1
  {
    (seqId + 1) % 256
  }

  /**
   * The chunks of a packet from `at`, where a chunk of `length` bytes
   * starts; `acc` holds the payload of the chunks before it. A chunk
   * shorter than 0xFFFFFF bytes ends the packet; a full one is followed by
   * the header of the next, whose sequence id must be the successor.
   */
  function ChunksAt(src: Bytes, at: nat, length: nat, seqId: int, acc: Bytes): (r: Framed)
    decreases |src| - at
    ensures at <= r.offset
    ensures r.payload.Ok? ==> r.offset <= |src| && |acc| <= |r.payload.value| && r.payload.value[..|acc|] == acc
  {
    if at + length > |src| then Framed(Err(ReadPastEnd), at, seqId)
    else if length != MAX_PACKET_SIZE then Framed(Ok(acc + src[at..at + length]), at + length, seqId)
    else if at + length + 4 > |src| then Framed(Err(ReadPastEnd), at + length, seqId)
    else if src[at + length + 3] != NextSeqId(seqId) then Framed(Err(OutOfOrder), at + length + 4, NextSeqId(seqId))
    else ChunksAt(src, at + length + 4, LE(src[at + length..at + length + 3]), NextSeqId(seqId), acc + src[at..at + length])
  }

  /** `readPacket`: the first header sets the sequence id, then the chunks follow. */
  function PacketAt(src: Bytes, at: nat, seqId: int): (r: Framed)
    ensures at + 4 > |src| ==> r == Framed(Err(ReadPastEnd), at, seqId)
    ensures r.payload.Ok? ==> at + 4 <= r.offset <= |src|
  {
    if at + 4 > |src| then Framed(Err(ReadPastEnd), at, seqId)
    else ChunksAt(src, at + 4, LE(src[at..at + 3]), src[at + 3], [])
  }

  /** The continuation loop as written: the expected id is one more than the last, never reduced modulo 256. */
  function ChunksAsWritten(src: Bytes, at: nat, length: nat, seqId: int, acc: Bytes): (r: Framed)
    decreases |src| - at
    ensures at <= r.offset
  {
    if at + length > |src| then Framed(Err(ReadPastEnd), at, seqId)
    else if length != MAX_PACKET_SIZE then Framed(Ok(acc + src[at..at + length]), at + length, seqId)
    else if at + length + 4 > |src| then Framed(Err(ReadPastEnd), at + length, seqId)
    else if src[at + length + 3] != seqId + 1 then Framed(Err(OutOfOrder), at + length + 4, seqId + 1)
    else ChunksAsWritten(src, at + length + 4, LE(src[at + length..at + length + 3]), seqId + 1, acc + src[at..at + length])
  }

  /**
   * A packet of more than 0xFFFFFF bytes whose first chunk carries sequence
   * id 255 continues with id 0, since the id is one byte. As written the
   * continuation is compared with 256 and rejected; with the id taken
   * modulo 256 it is read on.
   */
  lemma ContinuationAfterWrap(src: Bytes, at: nat, acc: Bytes)
    requires at + MAX_PACKET_SIZE + 4 <= |src| && src[at + MAX_PACKET_SIZE + 3] == 0
    ensures ChunksAsWritten(src, at, MAX_PACKET_SIZE, 255, acc) == Framed(Err(OutOfOrder), at + MAX_PACKET_SIZE + 4, 256)
    ensures ChunksAt(src, at, MAX_PACKET_SIZE, 255, acc)
         == ChunksAt(src, at + MAX_PACKET_SIZE + 4, LE(src[at + MAX_PACKET_SIZE..at + MAX_PACKET_SIZE + 3]), 0,
                     acc + src[at..at + MAX_PACKET_SIZE])
  {
  }

  /** The two readings agree on every packet that does not continue past sequence id 255. */
  lemma {:induction false} ChunksAgreeBelowWrap(src: Bytes, at: nat, length: nat, seqId: int, acc: Bytes)
    requires 0 <= seqId < 255 && |src| - at < (255 - seqId) * (MAX_PACKET_SIZE + 4)
    decreases |src| - at
    ensures ChunksAsWritten(src, at, length, seqId, acc) == ChunksAt(src, at, length, seqId, acc)
  {
    if at + length + 4 <= |src| && length == MAX_PACKET_SIZE && src[at + length + 3] == seqId + 1 {
      ChunksAgreeBelowWrap(src, at + length + 4, LE(src[at + length..at + length + 3]), seqId + 1, acc + src[at..at + length]);
    }
  }

  /** What `sendPacket` writes: the 3-byte length, the sequence id's low byte, the payload. */
  function FrameOf(payload: Bytes, seqId: int): (r: Bytes)
    ensures |r| == 4 + |payload| && r[4..] == payload
  {
    LEBytes(|payload|, 3) + LEBytes(seqId, 1) + payload
  }

  /**
   * Round trip: a frame written for a payload shorter than 0xFFFFFF bytes
   * reads back as that payload, whatever precedes or follows it, and the
   * reader takes on the id the frame carries.
   */
  lemma FrameRoundTrip(before: Bytes, payload: Bytes, seqId: int, after: Bytes, lastId: int)
    requires |payload| < MAX_PACKET_SIZE
    ensures var src := before + FrameOf(payload, seqId) + after;
      PacketAt(src, |before|, lastId) == Framed(Ok(payload), |before| + 4 + |payload|, seqId % 256)
  {
    var f := FrameOf(payload, seqId);
    var src := before + f + after;
    var at := |before|;
    FrameHeader(payload, seqId);
    assert src[at..at + 3] == f[..3];
    assert src[at + 3] == f[3];
    assert src[at + 4..at + 4 + |payload|] == f[4..];
  }

  /** The header of a frame: the payload's length and the id's low byte. */
  lemma FrameHeader(payload: Bytes, seqId: int)
    requires |payload| < MAX_PACKET_SIZE
    ensures LE(FrameOf(payload, seqId)[..3]) == |payload| && FrameOf(payload, seqId)[3] == seqId % 256
  {
    var f := FrameOf(payload, seqId);
    LEBytesSmall(seqId);
    assert Pow256(3) == 0x100_0000 by {
      assert Pow256(1) == 0x100 && Pow256(2) == 0x1_0000;
    }
    LEBytesRoundTrip(|payload|, 3);
    assert f[..3] == LEBytes(|payload|, 3);
  }

  /** As written, a payload of exactly 0xFFFFFF bytes goes out as one frame, which a reader takes for an unfinished packet. */
  lemma FullFrameUnfinished(payload: Bytes, seqId: int, lastId: int)
    requires |payload| == MAX_PACKET_SIZE
    ensures PacketAt(FrameOf(payload, seqId), 0, lastId).payload == Err(ReadPastEnd)
  {
    var src := FrameOf(payload, seqId);
    assert Pow256(3) == 0x100_0000 by {
      assert Pow256(1) == 0x100 && Pow256(2) == 0x1_0000;
    }
    LEBytesRoundTrip(|payload|, 3);
    assert src[0..3] == LEBytes(|payload|, 3);
  }

  /** `sendPacket` as written: only a payload longer than 0xFFFFFF bytes is refused. */
  function SendAsWritten(payload: Bytes, seqId: int): (r: Outcome<Bytes>)
    ensures r.Ok? <==> |payload| <= MAX_PACKET_SIZE
    ensures r.Ok? ==> r.value == FrameOf(payload, seqId + 1)
  {
    if |payload| > MAX_PACKET_SIZE then Err(PacketTooLarge) else Ok(FrameOf(payload, seqId + 1))
  }

  // ---------------------------------------------------------------- replies

  /** A classified reply: its type (if known), its payload, and where `read` leaves the cursor. */
  datatype Reply = Reply(packet: Option<Packet>, payload: Bytes, cursor: nat)

  /**
   * `read` after the packet is framed: OK and EOF are returned with the
   * cursor past the type byte; ERR raises the server's code and message;
   * any other type is refused unless unknown types are allowed, when it is
   * returned rewound to the start.
   */
  function Classify(payload: Bytes, allowUnknown: bool): (r: Outcome<Reply>)
    ensures r.Ok? ==> r.value.payload == payload && 0 < |payload| && r.value.packet == PacketFrom(payload[0])
    ensures r.Ok? ==> r.value.cursor == if r.value.packet in {Some(OK), Some(EOF)} then 1 else 0
    ensures r.Ok? && r.value.packet !in {Some(OK), Some(EOF)} ==> allowUnknown && r.value.packet != Some(ERR)
    ensures 0 < |payload| && PacketFrom(payload[0]) == Some(ERR) ==> r.Err? && (r.error.ServerError? || r.error == ReadPastEnd)
    ensures |payload| == 0 ==> r == Err(ReadPastEnd)
  {
    if |payload| == 0 then Err(ReadPastEnd)
    else
      var packet := PacketFrom(payload[0]);
      if packet == Some(OK) || packet == Some(EOF) then Ok(Reply(packet, payload, 1))
      else if packet == Some(ERR) then
        if |payload| < 3 then Err(ReadPastEnd) else Err(ServerError(LE(payload[1..3]), payload[3..]))
      else if allowUnknown then Ok(Reply(packet, payload, 0))
      else Err(UnexpectedValue)
  }

  /** An ERR reply as the server writes it: 0xFF, the 2-byte error code, the message. */
  function ErrPacket(code: nat, message: Bytes): (r: Bytes)
    ensures |r| == 3 + |message|
  {
    [0xff] + LEBytes(code, 2) + message
  }

  /** Round trip: an ERR reply raises exactly the code and message it carries. */
  lemma ErrPacketRaised(code: nat, message: Bytes, allowUnknown: bool)
    requires code < 0x1_0000
    ensures Classify(ErrPacket(code, message), allowUnknown) == Err(ServerError(code, message))
  {
    var p := ErrPacket(code, message);
    assert Pow256(2) == 0x1_0000 by {
      assert Pow256(1) == 0x100;
    }
    LEBytesRoundTrip(code, 2);
    assert p[1..3] == LEBytes(code, 2);
    assert p[3..] == message;
  }

  /** `read`: one packet framed, then classified. */
  function ReadSpec(src: Bytes, at: nat, seqId: int, allowUnknown: bool): (r: Outcome<Reply>)
  {
    var f := PacketAt(src, at, seqId);
    match f.payload
    case Err(e) => Err(e)
    case Ok(payload) => Classify(payload, allowUnknown)
  }

  /** A reply the client accepts is an OK or EOF packet, or one of another type when those are allowed. */
  lemma ReadAccepts(src: Bytes, at: nat, seqId: int, allowUnknown: bool)
    ensures ReadSpec(src, at, seqId, allowUnknown).Ok? ==>
      var reply := ReadSpec(src, at, seqId, allowUnknown).value;
      && PacketAt(src, at, seqId).payload == Ok(reply.payload)
      && (reply.packet in {Some(OK), Some(EOF)} || allowUnknown)
  {
  }

  // ---------------------------------------------------------------- capabilities

  /** The flags the client asks for, in the order the handshake names them. */
  const CLIENT_CAPABILITIES: seq<C.Capability> :=
    [C.LONG_PASSWORD, C.LONG_FLAG, C.PROTOCOL_41, C.NO_SCHEMA, C.TRANSACTIONS, C.SECURE_CONNECTION]

  /** `0 | f1 | f2 | …`: the bitwise or of the flags' values. */
  function FlagsOf(cs: seq<C.Capability>): nat
  {
    if cs == [] then 0 else Bits.Or(FlagsOf(cs[..|cs| - 1]), C.Value(cs[|cs| - 1]))
  }

  function ClientFlags(): nat
  {
    FlagsOf(CLIENT_CAPABILITIES)
  }
  /** The capabilities the client sends back: its own flags the server also offers. */
  function Negotiated(serverCapabilities: nat): (r: nat)
    ensures r <= ClientFlags() && r <= serverCapabilities
  {
    Bits.And(ClientFlags(), serverCapabilities)
  }

  /** A single flag's value holds that flag and no other. */
  lemma InValue(c: C.Capability, d: C.Capability)
    ensures C.In(c, C.Value(d)) <==> c == d
  {
    C.InBit(c, C.Value(d));
    C.SingleBit(d);
    Bits.Pow2Bit(C.BitIndex(d), C.BitIndex(c));
    BitIndexInjective(c, d);
  }

  /** No two flags share a bit index. */
  lemma BitIndexInjective(c: C.Capability, d: C.Capability)
    ensures C.BitIndex(c) == C.BitIndex(d) ==> c == d
  {
    C.FromBitIndexOf(c);
    C.FromBitIndexOf(d);
  }

  /** A flag is in the or of a list of flags exactly when it is listed. */
  lemma {:induction false} FlagsOfExactly(c: C.Capability, cs: seq<C.Capability>)
    ensures C.In(c, FlagsOf(cs)) <==> c in cs
  {
    if cs == [] {
      C.InEmpty(c);
    } else {
      var init := cs[..|cs| - 1];
      FlagsOfExactly(c, init);
      C.InOr(c, FlagsOf(init), C.Value(cs[|cs| - 1]));
      InValue(c, cs[|cs| - 1]);
      assert cs == init + [cs[|cs| - 1]];
    }
  }

  /** The client's flags are exactly the six it names. */
  lemma ClientFlagsExactly(c: C.Capability)
    ensures C.In(c, ClientFlags()) <==>
      c in {C.LONG_PASSWORD, C.LONG_FLAG, C.PROTOCOL_41, C.NO_SCHEMA, C.TRANSACTIONS, C.SECURE_CONNECTION}
  {
    FlagsOfExactly(c, CLIENT_CAPABILITIES);
  }

  /** A flag is negotiated exactly when the client names it and the server offers it. */
  lemma NegotiatedFlags(c: C.Capability, serverCapabilities: nat)
    ensures C.In(c, Negotiated(serverCapabilities)) <==>
      c in {C.LONG_PASSWORD, C.LONG_FLAG, C.PROTOCOL_41, C.NO_SCHEMA, C.TRANSACTIONS, C.SECURE_CONNECTION}
      && C.In(c, serverCapabilities)
  {
    C.InAnd(c, ClientFlags(), serverCapabilities);
    ClientFlagsExactly(c);
  }

  // ---------------------------------------------------------------- command payloads

  /** 2^32 and 2^16, the ranges of the 4- and 2-byte fields. */
  lemma FieldRanges()
    ensures Pow256(1) == 0x100 && Pow256(2) == 0x1_0000 && Pow256(4) == 0x1_0000_0000
  {
    assert Pow256(1) == 0x100;
    assert Pow256(3) == 0x100_0000;
  }

  /** The auth response: empty for an empty password, else the scrambled password hash (SHA-1 is not modelled; `scramble` stands for its 20 bytes). */
  function AuthResponse(password: Bytes, scramble: Bytes): (r: Bytes)
    ensures password == [] ==> r == []
    ensures password != [] ==> r == scramble
  {
    if password == [] then [] else scramble
  }

  /** The 23 zero bytes that pad the handshake response. */
  const FILLER: Bytes := Repeat([0], 23)

  /** The first NUL from `from` is the one just after `s`, when `s` holds none. */
  lemma FindTerminator(p: Bytes, from: nat, s: Bytes)
    requires from + |s| < |p| && p[from..from + |s|] == s && 0 !in s && p[from + |s|] == 0
    ensures Find(p, 0, from) == Some(from + |s|)
  {
    assert forall k :: from <= k < from + |s| ==> p[k] == s[k - from];
  }

  /** The fixed start of the handshake response: the capabilities, the maximum packet size, charset 33, 23 zero bytes. */
  function HandshakeHead(capabilities: nat): (r: Bytes)
    ensures |r| == 32 && LE(r[4..8]) == MAX_PACKET_SIZE && r[8] == 33 && r[9..] == FILLER
    ensures capabilities < 0x1_0000_0000 ==> LE(r[0..4]) == capabilities
  {
    FieldRanges();
    LEBytesRoundTrip(capabilities % 0x1_0000_0000, 4);
    LEBytesModulo(capabilities, 4);
    LEBytesRoundTrip(MAX_PACKET_SIZE, 4);
    LEBytesSmall(33);
    var r := LEBytes(capabilities, 4) + LEBytes(MAX_PACKET_SIZE, 4) + LEBytes(33, 1) + FILLER;
    assert r[0..4] == LEBytes(capabilities, 4);
    assert r[4..8] == LEBytes(MAX_PACKET_SIZE, 4);
    r
  }

  /**
   * The handshake response: the capabilities, the maximum packet size,
   * charset 33, 23 zero bytes, the user NUL-terminated, the auth response
   * after its one-byte length.
   */
  function HandshakeResponse(capabilities: nat, user: Bytes, auth: Bytes): (r: Bytes)
    ensures |r| == 32 + |user| + 1 + 1 + |auth|
  {
    HandshakeHead(capabilities) + (user + [0]) + Prefixed(auth)
  }

  /** The fields of a handshake response as the server reads them. */
  datatype HandshakeFields = HandshakeFields(capabilities: nat, maxPacketSize: nat, charset: Byte, user: Bytes, auth: Bytes)

  /** Reads a handshake response back: fixed fields, the zero filler, the NUL-terminated user, the length-prefixed auth response. */
  function DecodeHandshakeResponse(p: Bytes): Option<HandshakeFields>
  {
    if |p| < 32 || p[9..32] != FILLER then None
    else match Find(p, 0, 32)
      case None => None
      case Some(end) =>
        if end + 1 >= |p| || end + 2 + p[end + 1] != |p| then None
        else Some(HandshakeFields(LE(p[0..4]), LE(p[4..8]), p[8], p[32..end], p[end + 2..]))
  }

  /** A head of 32 bytes ending in the filler, a user without NUL, its terminator and a length-prefixed string decode field by field. */
  lemma DecodeHandshakeParts(head: Bytes, user: Bytes, auth: Bytes)
    requires |head| == 32 && head[9..] == FILLER && 0 !in user && 0 < |auth| && auth[0] == |auth| - 1
    ensures DecodeHandshakeResponse(head + user + [0] + auth)
         == Some(HandshakeFields(LE(head[0..4]), LE(head[4..8]), head[8], user, auth[1..]))
  {
    var p := head + user + [0] + auth;
    Pieces(head, user, [0], auth);
    var end := 32 + |user|;
    assert p[0..4] == head[0..4] && p[4..8] == head[4..8] && p[8] == head[8];
    assert p[9..32] == head[9..];
    assert p[32..end] == user && p[end] == 0;
    FindTerminator(p, 32, user);
    assert p[end + 1] == auth[0] && p[end + 2..] == auth[1..];
  }

  /** Round trip: the server reads back the capabilities, user and auth response the client wrote. */
  lemma HandshakeResponseRoundTrip(capabilities: nat, user: Bytes, auth: Bytes)
    requires capabilities < 0x1_0000_0000 && 0 !in user && |auth| < 256
    ensures DecodeHandshakeResponse(HandshakeResponse(capabilities, user, auth))
         == Some(HandshakeFields(capabilities, MAX_PACKET_SIZE, 33, user, auth))
  {
    var head, auth' := HandshakeHead(capabilities), Prefixed(auth);
    assert head + (user + [0]) + auth' == head + user + [0] + auth';
    DecodeHandshakeParts(head, user, auth');
  }

  /** "localhost", the host name the client reports. */
  const LOCALHOST: Bytes := [0x6c, 0x6f, 0x63, 0x61, 0x6c, 0x68, 0x6f, 0x73, 0x74]

  /** A string after its one-byte length. */
  function Prefixed(s: Bytes): (r: Bytes)
    ensures |r| == 1 + |s| && r[1..] == s
    ensures |s| < 256 ==> r[0] == |s|
  {
    LEBytesSmall(|s|);
    LEBytes(|s|, 1) + s
  }

  /** The fixed start of REGISTER_SLAVE: the command byte, the slave id, and the host name after its length 9. */
  function RegisterHead(c: Config): (r: Bytes)
    ensures |r| == 15 && r[0] == COM_REGISTER_SLAVE && r[5] == 9 && r[6..] == LOCALHOST
    ensures 0 <= c.slaveId < 0x1_0000_0000 ==> LE(r[1..5]) == c.slaveId
  {
    LEBytesSmall(9);
    FieldRanges();
    LEBytesRoundTrip(c.slaveId % 0x1_0000_0000, 4);
    LEBytesModulo(c.slaveId, 4);
    var r := [COM_REGISTER_SLAVE] + LEBytes(c.slaveId, 4) + LEBytes(9, 1) + LOCALHOST;
    assert r[1..5] == LEBytes(c.slaveId, 4);
    r
  }

  /** The fixed end of REGISTER_SLAVE: the port, a zero replication rank and a zero master id. */
  function RegisterTail(c: Config): (r: Bytes)
    ensures |r| == 10 && LE(r[2..6]) == 0 && LE(r[6..10]) == 0
    ensures 0 <= c.port < 0x1_0000 ==> LE(r[0..2]) == c.port
  {
    FieldRanges();
    LEBytesRoundTrip(c.port % 0x1_0000, 2);
    LEBytesModulo(c.port, 2);
    LEBytesRoundTrip(0, 4);
    var r := LEBytes(c.port, 2) + LEBytes(0, 4) + LEBytes(0, 4);
    assert r[0..2] == LEBytes(c.port, 2);
    assert r[2..6] == LEBytes(0, 4);
    assert r[6..10] == LEBytes(0, 4);
    r
  }

  /**
   * REGISTER_SLAVE: the command byte, the slave id, the host, user and
   * password each after a one-byte length, the port, then a zero
   * replication rank and a zero master id.
   */
  function RegisterSlavePayload(c: Config): (r: Bytes)
    ensures |r| == 15 + 1 + |c.user| + 1 + |c.password| + 10 && r[0] == COM_REGISTER_SLAVE
  {
    RegisterHead(c) + Prefixed(c.user) + Prefixed(c.password) + RegisterTail(c)
  }

  /** REGISTER_SLAVE as written: the password follows its length twice. */
  function RegisterSlaveAsWritten(c: Config): (r: Bytes)
    ensures |r| == |RegisterSlavePayload(c)| + |c.password|
  {
    RegisterHead(c) + Prefixed(c.user) + Prefixed(c.password) + c.password + RegisterTail(c)
  }

  /** The fields of REGISTER_SLAVE as the server reads them. */
  datatype Registration = Registration(serverId: nat, host: Bytes, user: Bytes, password: Bytes, port: nat, rank: nat, masterId: nat)

  /** The end of a string of a one-byte length at `at`, if it fits. */
  function StringEnd(p: Bytes, at: nat): (r: Option<nat>)
    ensures r.Some? ==> at < r.value <= |p| && r.value == at + 1 + p[at]
    ensures r.None? ==> at >= |p| || at + 1 + p[at] > |p|
  {
    if at < |p| && at + 1 + p[at] <= |p| then Some(at + 1 + p[at]) else None
  }

  /**
   * Reads REGISTER_SLAVE back in the layout of the MySQL client/server
   * protocol: the three length-prefixed strings, then at least ten bytes of
   * port, rank and master id; bytes after those are not looked at.
   */
  function DecodeRegisterSlave(p: Bytes): Option<Registration>
  {
    if |p| < 6 || p[0] != COM_REGISTER_SLAVE then None
    else match StringEnd(p, 5)
      case None => None
      case Some(h) => match StringEnd(p, h)
        case None => None
        case Some(u) => match StringEnd(p, u)
          case None => None
          case Some(w) =>
            if w + 10 > |p| then None
            else Some(Registration(LE(p[1..5]), p[6..h], p[h + 1..u], p[u + 1..w],
                                   LE(p[w..w + 2]), LE(p[w + 2..w + 6]), LE(p[w + 6..w + 10])))
  }

  /** Where the pieces of `head + a + b + tail` sit. */
  lemma Pieces(head: Bytes, a: Bytes, b: Bytes, tail: Bytes)
    ensures var p := head + a + b + tail;
      var u := |head| + |a|;
      var w := u + |b|;
      && p[..|head|] == head && p[|head|..u] == a && p[u..w] == b && p[w..] == tail
  {
  }

  /** Any payload laid out as the client lays REGISTER_SLAVE out reads back as the fields it was built from. */
  lemma DecodeLayout(head: Bytes, user: Bytes, password: Bytes, tail: Bytes, r: Registration)
    requires |head| == 15 && head[0] == COM_REGISTER_SLAVE && head[5] == 9 && head[6..] == r.host && LE(head[1..5]) == r.serverId
    requires |user| >= 1 && user[0] == |user| - 1 && user[1..] == r.user
    requires |password| >= 1 && password[0] == |password| - 1 && password[1..] == r.password
    requires |tail| >= 10 && LE(tail[0..2]) == r.port && LE(tail[2..6]) == r.rank && LE(tail[6..10]) == r.masterId
    ensures DecodeRegisterSlave(head + user + password + tail) == Some(r)
  {
    var p := head + user + password + tail;
    Pieces(head, user, password, tail);
    var u := 15 + |user|;
    var w := u + |password|;
    assert p[1..5] == head[1..5] && p[5] == head[5] && p[6..15] == head[6..];
    assert p[15] == user[0] && p[16..u] == user[1..];
    assert p[u] == password[0] && p[u + 1..w] == password[1..];
    assert p[w..w + 2] == tail[0..2] && p[w + 2..w + 6] == tail[2..6] && p[w + 6..w + 10] == tail[6..10];
  }

  /** Round trip: the server reads back the slave id, user, password and port the client registered with. */
  lemma RegisterSlaveRoundTrip(c: Config)
    requires 0 <= c.slaveId < 0x1_0000_0000 && 0 <= c.port < 0x1_0000 && |c.user| < 256 && |c.password| < 256
    ensures DecodeRegisterSlave(RegisterSlavePayload(c))
         == Some(Registration(c.slaveId, LOCALHOST, c.user, c.password, c.port, 0, 0))
  {
    DecodeLayout(RegisterHead(c), Prefixed(c.user), Prefixed(c.password), RegisterTail(c),
                 Registration(c.slaveId, LOCALHOST, c.user, c.password, c.port, 0, 0));
  }

  /** The regrouping of the as-written payload that puts the repeated password in front of the tail. */
  lemma AsWrittenLayout(head: Bytes, user: Bytes, password: Bytes, repeated: Bytes, rest: Bytes)
    ensures head + user + password + repeated + rest == head + user + password + (repeated + rest)
  {
  }

  /**
   * As written, the second copy of a password of two or more bytes is read
   * where the port belongs: the server sees the password's first two bytes
   * as the port ("ab" gives 0x6261).
   */
  lemma RegisterSlaveAsWrittenPort(c: Config)
    requires |c.user| < 256 && 2 <= |c.password| < 256
    ensures var r := DecodeRegisterSlave(RegisterSlaveAsWritten(c));
      r.Some? && r.value.password == c.password && r.value.port == LE(c.password[..2])
  {
    var head, user, password, rest := RegisterHead(c), Prefixed(c.user), Prefixed(c.password), RegisterTail(c);
    var tail := c.password + rest;
    AsWrittenLayout(head, user, password, c.password, rest);
    assert tail[0..2] == c.password[..2];
    DecodeLayout(head, user, password, tail,
                 Registration(LE(head[1..5]), LOCALHOST, c.user, c.password, LE(tail[0..2]), LE(tail[2..6]), LE(tail[6..10])));
  }

  /** BINLOG_DUMP: the command byte, the start position, zero flags, the slave id, the file name. */
  function BinlogDumpPayload(position: int, slaveId: int, binlogFile: Bytes): (r: Bytes)
    ensures |r| == 11 + |binlogFile| && r[0] == COM_BINLOG_DUMP
  {
    [COM_BINLOG_DUMP] + LEBytes(position, 4) + LEBytes(0, 2) + LEBytes(slaveId, 4) + binlogFile
  }

  /** The fields of BINLOG_DUMP as the server reads them. */
  datatype Dump = Dump(position: nat, flags: nat, serverId: nat, binlogFile: Bytes)

  /** Reads BINLOG_DUMP back: fixed fields, then the file name to the end. */
  function DecodeBinlogDump(p: Bytes): Option<Dump>
  {
    if |p| < 11 || p[0] != COM_BINLOG_DUMP then None
    else Some(Dump(LE(p[1..5]), LE(p[5..7]), LE(p[7..11]), p[11..]))
  }

  /** Round trip: the server reads back the position, slave id and file the client asked for, with no flags. */
  lemma BinlogDumpRoundTrip(position: int, slaveId: int, binlogFile: Bytes)
    requires 0 <= position < 0x1_0000_0000 && 0 <= slaveId < 0x1_0000_0000
    ensures DecodeBinlogDump(BinlogDumpPayload(position, slaveId, binlogFile))
         == Some(Dump(position, 0, slaveId, binlogFile))
  {
    FieldRanges();
    LEBytesRoundTrip(position, 4);
    LEBytesRoundTrip(0, 2);
    LEBytesRoundTrip(slaveId, 4);
    DumpPieces(COM_BINLOG_DUMP, LEBytes(position, 4), LEBytes(0, 2), LEBytes(slaveId, 4), binlogFile);
  }

  /** Where each field of a BINLOG_DUMP payload sits. */
  lemma DumpPieces(command: Byte, position: Bytes, flags: Bytes, serverId: Bytes, binlogFile: Bytes)
    requires |position| == 4 && |flags| == 2 && |serverId| == 4
    ensures var p := [command] + position + flags + serverId + binlogFile;
      p[1..5] == position && p[5..7] == flags && p[7..11] == serverId && p[11..] == binlogFile
  {
  }

  // ---------------------------------------------------------------- the server's handshake

  /**
   * `handleHandshake`'s parse: the protocol version, the NUL-terminated
   * server version, the connection id, 8 bytes of auth data, a filler byte
   * and the low 16 capability bits.
   */
  function HandshakeAt(data: Bytes): (r: Outcome<ServerInfo>)
    ensures r.Ok? ==> 0 < |data| && r.value.protocolVersion == data[0] && r.value.serverVersion == Until(data, 1, |data|, 0).0
    ensures r.Ok? ==> 0 !in r.value.serverVersion
  {
    if |data| < 1 then Err(ReadPastEnd)
    else
      var version := Until(data, 1, |data|, 0);
      HandshakeVersioned(data, data[0], version.0, version.1)
  }

  /**
   * The fields after the server version, which ended at `at`. The packet
   * must go on after the low capability bits: without the charset the
   * server info cannot be built.
   */
  function HandshakeVersioned(data: Bytes, protocolVersion: Byte, serverVersion: Bytes, at: int): (r: Outcome<ServerInfo>)
    requires 0 <= at
    ensures r.Ok? ==> r.value.protocolVersion == protocolVersion && r.value.serverVersion == serverVersion
    ensures r.Ok? ==> at + 15 < |data| && r.value.connectionId == LE(data[at..at + 4])
  {
    if at + 4 > |data| then Err(ReadPastEnd)
    else if at + 15 > |data| then Err(ReadPastEnd)
    else if at + 15 == |data| then Err(TypeError)
    else HandshakeRest(data, at + 15, protocolVersion, serverVersion, LE(data[at..at + 4]), Substr(data, at + 4, Some(8)),
                       LE(data[at + 13..at + 15]))
  }

  /** PHP's `max` on two integers. */
  function Max(a: int, b: int): int
  {
    if a >= b then a else b
  }

  /** The charset, the status flags and the high 16 capability bits from `at`, then the auth part. */
  function HandshakeRest(data: Bytes, at: nat, protocolVersion: Byte, serverVersion: Bytes, connectionId: nat,
                         authPluginData: Bytes, lowCapabilities: nat): (r: Outcome<ServerInfo>)
    requires at < |data|
    ensures r.Ok? ==> at + 5 <= |data|
    ensures r.Ok? ==> r.value.protocolVersion == protocolVersion && r.value.serverVersion == serverVersion
    ensures r.Ok? ==> r.value.connectionId == connectionId && authPluginData <= r.value.authPluginData
    ensures r.Ok? ==> r.value.charset == data[at] && r.value.statusFlags == LE(data[at + 1..at + 3])
    ensures r.Ok? ==> r.value.serverCapabilities == lowCapabilities + LE(data[at + 3..at + 5]) * 0x1_0000
  {
    if at + 5 > |data| then Err(ReadPastEnd)
    else
      HandshakeAuth(data, at + 5,
        ServerInfo(protocolVersion, serverVersion, connectionId, authPluginData,
                   lowCapabilities + LE(data[at + 3..at + 5]) * 0x1_0000, data[at], LE(data[at + 1..at + 3]), None))
  }

  /**
   * The auth part from `at`: the auth data length (read only under
   * PLUGIN_AUTH, a skipped byte otherwise); under SECURE_CONNECTION, after
   * 10 reserved bytes, max(13, length - 8) more auth bytes and, under
   * PLUGIN_AUTH too, the NUL-terminated plugin name.
   */
  function HandshakeAuth(data: Bytes, at: nat, info: ServerInfo): (r: Outcome<ServerInfo>)
    requires at <= |data|
    ensures r.Ok? ==> r.value.(authPluginData := info.authPluginData, authPluginName := info.authPluginName) == info
    ensures r.Ok? ==> info.authPluginData <= r.value.authPluginData
    ensures r.Ok? && !C.In(C.SECURE_CONNECTION, info.serverCapabilities) ==> r.value == info
    ensures r.Ok? && C.In(C.SECURE_CONNECTION, info.serverCapabilities) ==> |r.value.authPluginData| <= |info.authPluginData| + 247
    ensures r.Ok? && C.In(C.SECURE_CONNECTION, info.serverCapabilities) && C.In(C.PLUGIN_AUTH, info.serverCapabilities) ==>
      r.value.authPluginName.Some? && 0 !in r.value.authPluginName.value
    ensures r.Ok? && !(C.In(C.SECURE_CONNECTION, info.serverCapabilities) && C.In(C.PLUGIN_AUTH, info.serverCapabilities)) ==>
      r.value.authPluginName == info.authPluginName
  {
    var plugin := C.In(C.PLUGIN_AUTH, info.serverCapabilities);
    if plugin && at >= |data| then Err(ReadPastEnd)
    else if !C.In(C.SECURE_CONNECTION, info.serverCapabilities) then Ok(info)
    else
      var pluginLength: int := if plugin then data[at] else 0;
      var length := Max(13, pluginLength - 8);
      var info' := info.(authPluginData := info.authPluginData + Substr(data, at + 11, Some(length)));
      if !plugin then Ok(info')
      else if at + 11 + length > |data| then Err(ValueError)
      else Ok(info'.(authPluginName := Some(Until(data, at + 11 + length, |data|, 0).0)))
  }

  /** The handshake parse, read field by field from the start of the packet. */
  method ParseHandshake(buf: Buffer) returns (r: Outcome<ServerInfo>)
    requires buf.offset == 0 && buf.length == |buf.data|
    modifies buf`offset
    ensures r == HandshakeAt(buf.data)
  {
    if |buf.data| < 1 {
      return Err(ReadPastEnd);
    }
    var protocolVersion := buf.ReadUInt8();
    var serverVersion := buf.ReadUntil(0);
    var at := buf.offset;
    if at + 4 > |buf.data| {
      return Err(ReadPastEnd);
    }
    var connectionId := buf.ReadUInt32();
    var authPluginData := buf.Read(Some(8));
    buf.Skip(1);
    if buf.offset + 2 > |buf.data| {
      return Err(ReadPastEnd);
    }
    var capabilities := buf.ReadUInt16();
    if buf.Left() <= 0 {
      return Err(TypeError);
    }
    assert at + 15 == buf.offset;
    r := ParseHandshakeRest(buf, protocolVersion, serverVersion, connectionId, authPluginData, capabilities);
  }

  /** The charset, the status flags and the high capability bits, then the auth part. */
  method ParseHandshakeRest(buf: Buffer, protocolVersion: Byte, serverVersion: Bytes, connectionId: nat,
                            authPluginData: Bytes, lowCapabilities: nat) returns (r: Outcome<ServerInfo>)
    requires buf.offset < |buf.data| && buf.length == |buf.data|
    modifies buf`offset
    ensures r == HandshakeRest(buf.data, old(buf.offset), protocolVersion, serverVersion, connectionId, authPluginData, lowCapabilities)
  {
    if buf.offset + 5 > |buf.data| {
      return Err(ReadPastEnd);
    }
    var charset := buf.ReadUInt8();
    var statusFlags := buf.ReadUInt16();
    var high := buf.ReadUInt16();
    r := ParseHandshakeAuth(buf, ServerInfo(protocolVersion, serverVersion, connectionId, authPluginData,
                                            lowCapabilities + high * 0x1_0000, charset, statusFlags, None));
  }

  /** The auth data length, then under SECURE_CONNECTION the rest of the auth data and the plugin name. */
  method ParseHandshakeAuth(buf: Buffer, info: ServerInfo) returns (r: Outcome<ServerInfo>)
    requires buf.offset <= |buf.data| && buf.length == |buf.data|
    modifies buf`offset
    ensures r == HandshakeAuth(buf.data, old(buf.offset), info)
  {
    ghost var at := buf.offset;
    var plugin := C.In(C.PLUGIN_AUTH, info.serverCapabilities);
    var pluginLength: int := 0;
    if plugin {
      if buf.offset >= |buf.data| {
        return Err(ReadPastEnd);
      }
      pluginLength := buf.ReadUInt8();
    } else {
      buf.Skip(1);
    }
    if !C.In(C.SECURE_CONNECTION, info.serverCapabilities) {
      return Ok(info);
    }
    r := ParseSecureAuth(buf, info, plugin, pluginLength, at);
  }

  /** Under SECURE_CONNECTION, past the auth data length: 10 reserved bytes, the rest of the auth data, the plugin name. */
  method ParseSecureAuth(buf: Buffer, info: ServerInfo, plugin: bool, pluginLength: int, ghost at: nat)
    returns (r: Outcome<ServerInfo>)
    requires buf.length == |buf.data| && buf.offset == at + 1
    requires plugin == C.In(C.PLUGIN_AUTH, info.serverCapabilities) && C.In(C.SECURE_CONNECTION, info.serverCapabilities)
    requires if plugin then at < |buf.data| && pluginLength == buf.data[at] else at <= |buf.data| && pluginLength == 0
    modifies buf`offset
    ensures r == HandshakeAuth(buf.data, at, info)
  {
    buf.Skip(10);
    var length := Max(13, pluginLength - 8);
    var more := buf.Read(Some(length));
    assert more == Substr(buf.data, at + 11, Some(length)) && buf.offset == at + 11 + length;
    var info' := info.(authPluginData := info.authPluginData + more);
    if !plugin {
      return Ok(info');
    }
    if buf.offset > |buf.data| {
      return Err(ValueError);
    }
    var name := buf.ReadUntil(0);
    return Ok(info'.(authPluginName := Some(name)));
  }

  /** Connection id, the first 8 auth bytes, a filler and the low capability bits: 15 bytes. */
  function FixedPart(connectionId: nat, part1: Bytes, low: nat): (r: Bytes)
    requires |part1| == 8
    ensures |r| == 15 && r[..4] == LEBytes(connectionId, 4) && r[4..12] == part1 && r[13..] == LEBytes(low, 2)
  {
    LEBytes(connectionId, 4) + part1 + [0] + LEBytes(low, 2)
  }

  /** The charset, the status flags and the high capability bits: 5 bytes. */
  function ExtraPart(charset: Byte, statusFlags: nat, high: nat): (r: Bytes)
    ensures |r| == 5 && r[0] == charset && r[1..3] == LEBytes(statusFlags, 2) && r[3..] == LEBytes(high, 2)
  {
    [charset] + LEBytes(statusFlags, 2) + LEBytes(high, 2)
  }

  /** The auth data length, 10 reserved bytes, the rest of the auth data and the NUL-terminated plugin name. */
  function AuthPart(part2: Bytes, name: Bytes): (r: Bytes)
    requires |part2| <= 247
    ensures |r| == 12 + |part2| + |name| && r[0] as int == |part2| + 8
    ensures r[11..11 + |part2|] == part2 && r[11 + |part2|..|r| - 1] == name && r[|r| - 1] == 0
  {
    [(|part2| + 8) as Byte] + seq(10, _ => 0) + part2 + name + [0]
  }

  /** What the parse reads from the fixed fields at `at`. */
  ghost predicate FixedAt(data: Bytes, at: nat, connectionId: nat, part1: Bytes, low: nat)
  {
    && at + 15 <= |data| && LE(data[at..at + 4]) == connectionId
    && Substr(data, at + 4, Some(8)) == part1 && LE(data[at + 13..at + 15]) == low
  }

  /** What the parse reads from the extra fields at `at`. */
  ghost predicate ExtraAt(data: Bytes, at: nat, charset: Byte, statusFlags: nat, high: nat)
  {
    && at + 5 <= |data| && data[at] == charset
    && LE(data[at + 1..at + 3]) == statusFlags && LE(data[at + 3..at + 5]) == high
  }

  /** What the parse reads from the auth part at `at`, which ends the packet. */
  ghost predicate AuthAt(data: Bytes, at: nat, part2: Bytes, name: Bytes)
  {
    && |data| == at + 12 + |part2| + |name| && data[at] as int == |part2| + 8
    && data[at + 11..at + 11 + |part2|] == part2
    && data[at + 11 + |part2|..|data| - 1] == name && data[|data| - 1] == 0
  }

  lemma FixedPartAt(data: Bytes, at: nat, connectionId: nat, part1: Bytes, low: nat, rest: Bytes)
    requires |part1| == 8 && connectionId < 0x1_0000_0000 && low < 0x1_0000
    requires at <= |data| && data[at..] == FixedPart(connectionId, part1, low) + rest
    ensures FixedAt(data, at, connectionId, part1, low) && data[at + 15..] == rest
  {
    var fixed := FixedPart(connectionId, part1, low);
    assert data[at..at + 4] == fixed[..4] && data[at + 4..at + 12] == fixed[4..12] && data[at + 13..at + 15] == fixed[13..];
    FieldRanges();
    LEBytesRoundTrip(connectionId, 4);
    LEBytesRoundTrip(low, 2);
    Split(data, at, fixed, rest);
  }

  lemma ExtraPartAt(data: Bytes, at: nat, charset: Byte, statusFlags: nat, high: nat, rest: Bytes)
    requires statusFlags < 0x1_0000 && high < 0x1_0000
    requires at <= |data| && data[at..] == ExtraPart(charset, statusFlags, high) + rest
    ensures ExtraAt(data, at, charset, statusFlags, high) && data[at + 5..] == rest
  {
    var extra := ExtraPart(charset, statusFlags, high);
    assert data[at] == extra[0] && data[at + 1..at + 3] == extra[1..3] && data[at + 3..at + 5] == extra[3..];
    FieldRanges();
    LEBytesRoundTrip(statusFlags, 2);
    LEBytesRoundTrip(high, 2);
    Split(data, at, extra, rest);
  }

  lemma AuthPartAt(data: Bytes, at: nat, part2: Bytes, name: Bytes)
    requires |part2| <= 247
    requires at <= |data| && data[at..] == AuthPart(part2, name)
    ensures AuthAt(data, at, part2, name)
  {
    var auth := AuthPart(part2, name);
    assert data[at] == auth[0];
    assert data[at + 11..at + 11 + |part2|] == auth[11..11 + |part2|];
    assert data[at + 11 + |part2|..|data| - 1] == auth[11 + |part2|..|auth| - 1];
    assert data[|data| - 1] == auth[|auth| - 1];
  }

  /** The three pieces after the server version, each where the parse reads it. */
  lemma BodyAt(data: Bytes, at: nat, connectionId: nat, part1: Bytes, capabilities: nat,
               charset: Byte, statusFlags: nat, part2: Bytes, name: Bytes)
    requires |part1| == 8 && connectionId < 0x1_0000_0000 && capabilities < 0x1_0000_0000 && statusFlags < 0x1_0000
    requires |part2| <= 247
    requires at <= |data|
    requires data[at..] == FixedPart(connectionId, part1, capabilities % 0x1_0000)
                         + (ExtraPart(charset, statusFlags, capabilities / 0x1_0000) + AuthPart(part2, name))
    ensures FixedAt(data, at, connectionId, part1, capabilities % 0x1_0000)
    ensures ExtraAt(data, at + 15, charset, statusFlags, capabilities / 0x1_0000) && AuthAt(data, at + 20, part2, name)
  {
    var auth := AuthPart(part2, name);
    var extra := ExtraPart(charset, statusFlags, capabilities / 0x1_0000);
    FixedPartAt(data, at, connectionId, part1, capabilities % 0x1_0000, extra + auth);
    ExtraPartAt(data, at + 15, charset, statusFlags, capabilities / 0x1_0000, auth);
    AuthPartAt(data, at + 20, part2, name);
  }

  /** The common case of the auth part: PLUGIN_AUTH and SECURE_CONNECTION set, the auth data and a plugin name after it. */
  lemma HandshakeAuthOf(data: Bytes, at: nat, info: ServerInfo, part2: Bytes, name: Bytes)
    requires C.In(C.PLUGIN_AUTH, info.serverCapabilities) && C.In(C.SECURE_CONNECTION, info.serverCapabilities)
    requires 13 <= |part2| && 0 !in name && AuthAt(data, at, part2, name)
    ensures HandshakeAuth(data, at, info) == Ok(info.(authPluginData := info.authPluginData + part2, authPluginName := Some(name)))
  {
    var end := at + 11 + |part2|;
    assert Max(13, data[at] as int - 8) == |part2|;
    assert Substr(data, at + 11, Some(|part2|)) == part2;
    assert Until(data, end, |data|, 0).0 == name by {
      FindTerminator(data, end, name);
    }
  }

  /**
   * The plugin name as readUntill actually reads it: the needle's position
   * taken as a length runs to the end of the packet, so the name comes back
   * with its terminating zero; the corrected read gives the name alone.
   */
  lemma PluginNameAsWritten(data: Bytes, at: nat, part2: Bytes, name: Bytes)
    requires 13 <= |part2| && 0 !in name && AuthAt(data, at, part2, name)
    ensures UntillAsWritten(data, at + 11 + |part2|, |data|, 0).0 == name + [0]
    ensures Until(data, at + 11 + |part2|, |data|, 0).0 == name
  {
    var end := at + 11 + |part2|;
    FindTerminator(data, end, name);
    assert data[end..] == name + [0];
  }

  /** The charset, status flags and high capability bits, then the auth part. */
  lemma HandshakeRestOf(data: Bytes, at: nat, protocolVersion: Byte, serverVersion: Bytes, connectionId: nat,
                        part1: Bytes, capabilities: nat, charset: Byte, statusFlags: nat, part2: Bytes, name: Bytes)
    requires C.In(C.PLUGIN_AUTH, capabilities) && C.In(C.SECURE_CONNECTION, capabilities)
    requires 13 <= |part2| && 0 !in name
    requires ExtraAt(data, at, charset, statusFlags, capabilities / 0x1_0000) && AuthAt(data, at + 5, part2, name)
    ensures HandshakeRest(data, at, protocolVersion, serverVersion, connectionId, part1, capabilities % 0x1_0000)
         == Ok(ServerInfo(protocolVersion, serverVersion, connectionId, part1 + part2, capabilities, charset, statusFlags, Some(name)))
  {
    var info := ServerInfo(protocolVersion, serverVersion, connectionId, part1, capabilities, charset, statusFlags, None);
    HighLow(capabilities);
    RestThenAuth(data, at, info, capabilities % 0x1_0000);
    HandshakeAuthOf(data, at + 5, info, part2, name);
  }

  /** The capability flags are their low 16 bits plus their high 16 bits shifted up. */
  lemma HighLow(capabilities: nat)
    ensures capabilities % 0x1_0000 + capabilities / 0x1_0000 * 0x1_0000 == capabilities
  {
  }

  /** Past the charset, the status flags and the high capability bits, the rest is the auth part. */
  lemma RestThenAuth(data: Bytes, at: nat, info: ServerInfo, lowCapabilities: nat)
    requires at + 5 <= |data| && info.protocolVersion < 256 && info.authPluginName.None?
    requires info.serverCapabilities == lowCapabilities + LE(data[at + 3..at + 5]) * 0x1_0000
    requires info.charset == data[at] && info.statusFlags == LE(data[at + 1..at + 3])
    ensures HandshakeRest(data, at, info.protocolVersion, info.serverVersion, info.connectionId, info.authPluginData, lowCapabilities)
         == HandshakeAuth(data, at + 5, info)
  {
  }

  /** Everything after the server version. */
  lemma HandshakeVersionedOf(data: Bytes, at: nat, protocolVersion: Byte, serverVersion: Bytes, connectionId: nat,
                             part1: Bytes, capabilities: nat, charset: Byte, statusFlags: nat, part2: Bytes, name: Bytes)
    requires C.In(C.PLUGIN_AUTH, capabilities) && C.In(C.SECURE_CONNECTION, capabilities)
    requires 13 <= |part2| && 0 !in name
    requires FixedAt(data, at, connectionId, part1, capabilities % 0x1_0000)
    requires ExtraAt(data, at + 15, charset, statusFlags, capabilities / 0x1_0000) && AuthAt(data, at + 20, part2, name)
    ensures HandshakeVersioned(data, protocolVersion, serverVersion, at)
         == Ok(ServerInfo(protocolVersion, serverVersion, connectionId, part1 + part2, capabilities, charset, statusFlags, Some(name)))
  {
    HandshakeRestOf(data, at + 15, protocolVersion, serverVersion, connectionId, part1, capabilities, charset, statusFlags, part2, name);
  }

  /**
   * The initial handshake as a server sends it with PLUGIN_AUTH and
   * SECURE_CONNECTION: protocol version, NUL-terminated server version,
   * then the fixed fields, the extra fields and the auth part above.
   */
  function HandshakePacket(protocolVersion: Byte, serverVersion: Bytes, connectionId: nat, part1: Bytes, capabilities: nat,
                           charset: Byte, statusFlags: nat, part2: Bytes, name: Bytes): Bytes
    requires |part1| == 8 && |part2| <= 247
  {
    [protocolVersion] + (serverVersion + [0])
      + (FixedPart(connectionId, part1, capabilities % 0x1_0000)
         + (ExtraPart(charset, statusFlags, capabilities / 0x1_0000) + AuthPart(part2, name)))
  }

  /** Round trip: the parse gives back every field of a handshake the server wrote. */
  lemma HandshakeRoundTrip(protocolVersion: Byte, serverVersion: Bytes, connectionId: nat, part1: Bytes, capabilities: nat,
                           charset: Byte, statusFlags: nat, part2: Bytes, name: Bytes)
    requires 0 !in serverVersion && |part1| == 8 && 0 !in name && 13 <= |part2| <= 247
    requires connectionId < 0x1_0000_0000 && capabilities < 0x1_0000_0000 && statusFlags < 0x1_0000
    requires C.In(C.PLUGIN_AUTH, capabilities) && C.In(C.SECURE_CONNECTION, capabilities)
    ensures HandshakeAt(HandshakePacket(protocolVersion, serverVersion, connectionId, part1, capabilities, charset, statusFlags, part2, name))
         == Ok(ServerInfo(protocolVersion, serverVersion, connectionId, part1 + part2, capabilities, charset, statusFlags, Some(name)))
  {
    var version := serverVersion + [0];
    var body := FixedPart(connectionId, part1, capabilities % 0x1_0000)
              + (ExtraPart(charset, statusFlags, capabilities / 0x1_0000) + AuthPart(part2, name));
    var data := [protocolVersion] + version + body;
    var at := 1 + |version|;
    VersionAt(protocolVersion, serverVersion, body);
    BodyAt(data, at, connectionId, part1, capabilities, charset, statusFlags, part2, name);
    HandshakeVersionedOf(data, at, protocolVersion, serverVersion, connectionId, part1, capabilities, charset, statusFlags, part2, name);
    HandshakeAtVersion(data, serverVersion, at);
  }

  /** The protocol version, then the NUL-terminated server version, then the body. */
  lemma VersionAt(protocolVersion: Byte, serverVersion: Bytes, body: Bytes)
    requires 0 !in serverVersion
    ensures var data := [protocolVersion] + (serverVersion + [0]) + body;
      && data[0] == protocolVersion && Until(data, 1, |data|, 0) == (serverVersion, 2 + |serverVersion|)
      && data[2 + |serverVersion|..] == body
  {
    var data := [protocolVersion] + (serverVersion + [0]) + body;
    var at := 2 + |serverVersion|;
    assert data[1..at - 1] == serverVersion && data[at - 1] == 0;
    FindTerminator(data, 1, serverVersion);
    assert data[at..] == body;
  }

  /** The handshake once the server version is known to end at `at`. */
  lemma HandshakeAtVersion(data: Bytes, serverVersion: Bytes, at: nat)
    requires 0 < |data| && Until(data, 1, |data|, 0) == (serverVersion, at)
    ensures HandshakeAt(data) == HandshakeVersioned(data, data[0], serverVersion, at)
  {
  }

  // ---------------------------------------------------------------- binlog file and position

  /** The first name in `precedes` order; on a tie the earlier one in the list. */
  function First(names: seq<Bytes>, precedes: (Bytes, Bytes) -> bool): (r: Bytes)
    requires |names| > 0
    ensures r in names
  {
    if |names| == 1 then names[0]
    else
      var rest := First(names[1..], precedes);
      if precedes(rest, names[0]) && !precedes(names[0], rest) then rest else names[0]
  }

  /** A total, transitive order. */
  ghost predicate TotalOrder(precedes: (Bytes, Bytes) -> bool)
  {
    && (forall a, b :: precedes(a, b) || precedes(b, a))
    && (forall a, b, d :: precedes(a, b) && precedes(b, d) ==> precedes(a, d))
  }

  /** Under a total order the first name precedes every name of the list. */
  lemma {:induction false} FirstPrecedesAll(names: seq<Bytes>, precedes: (Bytes, Bytes) -> bool)
    requires |names| > 0 && TotalOrder(precedes)
    ensures forall n :: n in names ==> precedes(First(names, precedes), n)
  {
    if |names| > 1 {
      FirstPrecedesAll(names[1..], precedes);
      forall n | n in names
        ensures precedes(First(names, precedes), n)
      {
        if n != names[0] {
          assert n in names[1..];
        }
      }
    }
  }

  /**
   * `selectBinlogFile`: a configured file (when truthy) must be one of the
   * server's binary logs; with none configured the first log in natural
   * order is taken, and an empty list is refused. `precedes` stands for
   * PHP's natural string order (`SORT_NATURAL`), which is not modelled.
   */
  function SelectBinlogFile(c: Config, logNames: seq<Bytes>, precedes: (Bytes, Bytes) -> bool): (r: Outcome<Bytes>)
    ensures r.Ok? ==> r.value in logNames
    ensures Rows.Truthy(c.binlogFile) ==> (r.Ok? <==> c.binlogFile.value in logNames) && (r.Ok? ==> r.value == c.binlogFile.value)
    ensures !Rows.Truthy(c.binlogFile) ==> (r.Ok? <==> |logNames| > 0)
    ensures r.Err? ==> r.error == UnexpectedValue
  {
    if Rows.Truthy(c.binlogFile) then
      if c.binlogFile.value in logNames then Ok(c.binlogFile.value) else Err(UnexpectedValue)
    else if |logNames| == 0 then Err(UnexpectedValue)
    else Ok(First(logNames, precedes))
  }

  /** With no file configured, the file chosen precedes every log on the server. */
  lemma SelectedFileIsFirst(c: Config, logNames: seq<Bytes>, precedes: (Bytes, Bytes) -> bool)
    requires !Rows.Truthy(c.binlogFile) && |logNames| > 0 && TotalOrder(precedes)
    ensures var r := SelectBinlogFile(c, logNames, precedes);
      r.Ok? && forall n :: n in logNames ==> precedes(r.value, n)
  {
    FirstPrecedesAll(logNames, precedes);
  }

  /** The position `selectBinlogPosition` probes the file at: the configured one, else the first event's. */
  function ProbePosition(c: Config): (p: int)
    ensures c.binlogPosition.None? ==> p == BINLOG_HEADER_SIZE
  {
    if c.binlogPosition.Some? then c.binlogPosition.value else BINLOG_HEADER_SIZE
  }

  /**
   * `selectBinlogPosition`: whatever position is configured, the dump
   * starts at the file's first event, once the probe at `ProbePosition`
   * found an event (`found`); resuming further on is left to the events
   * iterator.
   */
  function SelectBinlogPosition(c: Config, found: bool): (r: Outcome<nat>)
    ensures r.Ok? <==> found
    ensures r.Ok? ==> r.value == BINLOG_HEADER_SIZE
    ensures r.Err? ==> r.error == Runtime
  {
    if found then Ok(BINLOG_HEADER_SIZE) else Err(Runtime)
  }

  // ---------------------------------------------------------------- the connection

  /** The connection's side of the wire: bytes read so far, bytes written, the sequence id. */
  datatype Wire = Wire(consumed: nat, sent: Bytes, seqId: int)

  /** A command's outcome and the wire after it. */
  datatype Exchanged = Exchanged(result: Outcome<()>, wire: Wire)

  /**
   * Sending a command and expecting OK: the payload is framed with the next
   * sequence id, then one reply is read; anything but OK (an EOF included)
   * raises RuntimeException, and a reply that cannot be read raises its
   * own exception.
   */
  function ExpectOk(src: Bytes, w: Wire, payload: Bytes): (r: Exchanged)
    ensures |payload| >= MAX_PACKET_SIZE ==> r == Exchanged(Err(PacketTooLarge), w)
    ensures |payload| < MAX_PACKET_SIZE ==> r.wire.sent == w.sent + FrameOf(payload, w.seqId + 1)
    ensures r.result.Ok? ==>
      var reply := ReadSpec(src, w.consumed, w.seqId + 1, false);
      reply.Ok? && reply.value.packet == Some(OK) && PacketAt(src, w.consumed, w.seqId + 1).offset == r.wire.consumed
  {
    if |payload| >= MAX_PACKET_SIZE then Exchanged(Err(PacketTooLarge), w)
    else
      var w' := Wire(w.consumed, w.sent + FrameOf(payload, w.seqId + 1), w.seqId + 1);
      var f := PacketAt(src, w'.consumed, w'.seqId);
      var w'' := Wire(f.offset, w'.sent, f.seqId);
      var reply := ReadSpec(src, w'.consumed, w'.seqId, false);
      if reply.Err? then Exchanged(Err(reply.error), w'')
      else if reply.value.packet != Some(OK) then Exchanged(Err(Runtime), w'')
      else Exchanged(Ok(()), w'')
  }

  /** A reply of another type than OK fails the command with RuntimeException. */
  lemma NotOkFails(src: Bytes, w: Wire, payload: Bytes)
    requires |payload| < MAX_PACKET_SIZE
    requires var reply := ReadSpec(src, w.consumed, w.seqId + 1, false); reply.Ok? && reply.value.packet != Some(OK)
    ensures ExpectOk(src, w, payload).result == Err(Runtime)
  {
  }

  /**
   * A command sent after the sequence id was reset to -1 goes out as one
   * frame with sequence id 0, and the server reads back exactly its payload.
   */
  lemma CommandFrame(src: Bytes, w: Wire, payload: Bytes, after: Bytes, lastId: int)
    requires |payload| < MAX_PACKET_SIZE
    ensures var out := ExpectOk(src, w.(seqId := -1), payload).wire.sent;
      && out == w.sent + FrameOf(payload, 0)
      && out[|w.sent| + 3] == 0
      && PacketAt(out + after, |w.sent|, lastId) == Framed(Ok(payload), |w.sent| + 4 + |payload|, 0)
  {
    LEBytesSmall(0);
    FrameRoundTrip(w.sent, payload, 0, after, lastId);
  }

  /** The server reads a REGISTER_SLAVE command back as the slave id, user, password and port configured. */
  lemma RegistrationDelivered(c: Config, src: Bytes, w: Wire, after: Bytes, lastId: int)
    requires 0 <= c.slaveId < 0x1_0000_0000 && 0 <= c.port < 0x1_0000 && |c.user| < 256 && |c.password| < 256
    ensures var out := ExpectOk(src, w.(seqId := -1), RegisterSlavePayload(c)).wire.sent;
      var f := PacketAt(out + after, |w.sent|, lastId);
      f.payload.Ok? && DecodeRegisterSlave(f.payload.value) == Some(Registration(c.slaveId, LOCALHOST, c.user, c.password, c.port, 0, 0))
  {
    CommandFrame(src, w, RegisterSlavePayload(c), after, lastId);
    RegisterSlaveRoundTrip(c);
  }

  /** The server reads a BINLOG_DUMP command back as the position, slave id and file asked for. */
  lemma DumpDelivered(c: Config, binlogFile: Bytes, binlogPosition: int, src: Bytes, w: Wire, after: Bytes, lastId: int)
    requires 0 <= binlogPosition < 0x1_0000_0000 && 0 <= c.slaveId < 0x1_0000_0000 && |binlogFile| < MAX_PACKET_SIZE - 11
    ensures var out := ExpectOk(src, w.(seqId := -1), BinlogDumpPayload(binlogPosition, c.slaveId, binlogFile)).wire.sent;
      var f := PacketAt(out + after, |w.sent|, lastId);
      f.payload.Ok? && DecodeBinlogDump(f.payload.value) == Some(Dump(binlogPosition, 0, c.slaveId, binlogFile))
  {
    CommandFrame(src, w, BinlogDumpPayload(binlogPosition, c.slaveId, binlogFile), after, lastId);
    BinlogDumpRoundTrip(binlogPosition, c.slaveId, binlogFile);
  }

  /** The handshake response sent for a server's capabilities asks only for flags both sides have. */
  lemma HandshakeAsksNegotiated(info: ServerInfo, c: Config, scramble: Bytes, flag: C.Capability)
    requires 0 !in c.user && |AuthResponse(c.password, scramble)| < 256
    ensures var p := HandshakeResponse(Negotiated(info.serverCapabilities), c.user, AuthResponse(c.password, scramble));
      var d := DecodeHandshakeResponse(p);
      && d.Some? && d.value.user == c.user
      && (C.In(flag, d.value.capabilities) <==>
           flag in {C.LONG_PASSWORD, C.LONG_FLAG, C.PROTOCOL_41, C.NO_SCHEMA, C.TRANSACTIONS, C.SECURE_CONNECTION}
           && C.In(flag, info.serverCapabilities))
      && (c.password == [] ==> d.value.auth == [])
  {
    var caps := Negotiated(info.serverCapabilities);
    assert caps <= ClientFlags();
    ClientFlagsBound();
    HandshakeResponseRoundTrip(caps, c.user, AuthResponse(c.password, scramble));
    NegotiatedFlags(flag, info.serverCapabilities);
  }

  /** The or of two numbers below 2^k is below 2^k. */
  lemma {:induction false} OrBelow(a: nat, b: nat, k: nat)
    requires a < Bits.Pow2(k) && b < Bits.Pow2(k)
    ensures Bits.Or(a, b) < Bits.Pow2(k)
  {
    if a != 0 && b != 0 {
      OrBelow(a / 2, b / 2, k - 1);
    }
  }

  /** The or of flags whose bits are all below 16 fits in 16 bits. */
  lemma {:induction false} FlagsOfBelow(cs: seq<C.Capability>)
    requires forall c :: c in cs ==> C.BitIndex(c) < 16
    ensures FlagsOf(cs) < Bits.Pow2(16)
  {
    if cs != [] {
      var last := cs[|cs| - 1];
      FlagsOfBelow(cs[..|cs| - 1]);
      C.SingleBit(last);
      Pow2Monotone(C.BitIndex(last), 16);
      OrBelow(FlagsOf(cs[..|cs| - 1]), C.Value(last), 16);
    }
  }

  lemma {:induction false} Pow2Monotone(j: nat, k: nat)
    requires j < k
    ensures Bits.Pow2(j) < Bits.Pow2(k)
  {
    if j + 1 < k {
      Pow2Monotone(j, k - 1);
    }
  }

  /** The client's flags fit in 16 bits. */
  lemma ClientFlagsBound()
    ensures ClientFlags() < 0x1_0000
  {
    assert forall c :: c in CLIENT_CAPABILITIES ==> C.BitIndex(c) < 16;
    FlagsOfBelow(CLIENT_CAPABILITIES);
    assert Bits.Pow2(8) == 0x100;
    assert Bits.Pow2(16) == 0x1_0000;
  }

  /**
   * A replication connection over an in-memory byte stream: what the
   * server sends is fixed in advance, the reader's progress through it,
   * what the client has written and the running sequence id are state.
   */
  class Connection {
    const config: Config
    /** The bytes the server sends, in order (the socket and its buffering are not modelled). */
    const incoming: Bytes
    /** The binlog file and position the constructor chose (`SelectBinlogFile`, `SelectBinlogPosition`). */
    const binlogFile: Bytes
    const binlogPosition: int
    var consumed: nat
    var sent: Bytes
    var seqId: int
    var serverInfo: Option<ServerInfo>

    function Snapshot(): Wire
      reads this
    {
      Wire(consumed, sent, seqId)
    }

    /** A connection about to read the server's handshake; the queries the constructor runs are not modelled. */
    constructor (config: Config, incoming: Bytes, binlogFile: Bytes, binlogPosition: int)
      ensures this.config == config && this.incoming == incoming
      ensures this.binlogFile == binlogFile && this.binlogPosition == binlogPosition
      ensures Snapshot() == Wire(0, [], -1) && serverInfo.None?
    {
      this.config := config;
      this.incoming := incoming;
      this.binlogFile := binlogFile;
      this.binlogPosition := binlogPosition;
      consumed := 0;
      sent := [];
      seqId := -1;
      serverInfo := None;
    }

    /** `readPacket`: one header, then chunk after chunk while they are full. */
    method ReadPacket() returns (r: Outcome<Bytes>)
      modifies this`consumed, this`seqId
      ensures Framed(r, consumed, seqId) == PacketAt(incoming, old(consumed), old(seqId))
    {
      if consumed + 4 > |incoming| {
        return Err(ReadPastEnd);
      }
      ghost var packet := PacketAt(incoming, consumed, seqId);
      var length := LE(incoming[consumed..consumed + 3]);
      seqId := incoming[consumed + 3];
      consumed := consumed + 4;
      var data: Bytes := [];
      while true
        invariant ChunksAt(incoming, consumed, length, seqId, data) == packet
        decreases |incoming| - consumed
      {
        var done;
        done, length, data := ReadChunk(length, data);
        if done.Some? {
          return done.value;
        }
      }
    }

    /** One chunk of `length` bytes and, when it is full, the header of the next; `None` while the packet goes on. */
    method ReadChunk(length: nat, data: Bytes) returns (r: Option<Outcome<Bytes>>, next: nat, data': Bytes)
      modifies this`consumed, this`seqId
      ensures var spec := ChunksAt(incoming, old(consumed), length, old(seqId), data);
        if r.Some? then Framed(r.value, consumed, seqId) == spec
        else old(consumed) < consumed <= |incoming| && ChunksAt(incoming, consumed, next, seqId, data') == spec
    {
      if consumed + length > |incoming| {
        return Some(Err(ReadPastEnd)), 0, data;
      }
      data' := data + incoming[consumed..consumed + length];
      consumed := consumed + length;
      if length != MAX_PACKET_SIZE {
        return Some(Ok(data')), 0, data';
      }
      if consumed + 4 > |incoming| {
        return Some(Err(ReadPastEnd)), 0, data';
      }
      next := LE(incoming[consumed..consumed + 3]);
      var id := incoming[consumed + 3];
      consumed := consumed + 4;
      seqId := NextSeqId(seqId);
      if id != seqId {
        return Some(Err(OutOfOrder)), next, data';
      }
      return None, next, data';
    }

    /** `read`: one packet, classified by its first byte; the buffer handed back is fresh. */
    method Read(allowUnknown: bool) returns (r: Outcome<Reply>, buffer: Buffer)
      modifies this`consumed, this`seqId
      ensures Framed(PacketAt(incoming, old(consumed), old(seqId)).payload, consumed, seqId) == PacketAt(incoming, old(consumed), old(seqId))
      ensures r == ReadSpec(incoming, old(consumed), old(seqId), allowUnknown)
      ensures fresh(buffer) && (r.Ok? ==> buffer.data == r.value.payload && buffer.offset == r.value.cursor && buffer.length == |buffer.data|)
    {
      var payload := ReadPacket();
      if payload.Err? {
        buffer := new Buffer([], None);
        return Err(payload.error), buffer;
      }
      buffer := new Buffer(payload.value, None);
      if |buffer.data| == 0 {
        return Err(ReadPastEnd), buffer;
      }
      var first := buffer.ReadUInt8();
      var packet := PacketFrom(first);
      if packet == Some(OK) || packet == Some(EOF) {
        return Ok(Reply(packet, buffer.data, 1)), buffer;
      }
      if packet == Some(ERR) {
        if buffer.offset + 2 > |buffer.data| {
          return Err(ReadPastEnd), buffer;
        }
        var code := buffer.ReadUInt16();
        var message := buffer.Read(None);
        return Err(ServerError(code, message)), buffer;
      }
      if !allowUnknown {
        return Err(UnexpectedValue), buffer;
      }
      buffer.Rewind(0);
      return Ok(Reply(packet, buffer.data, 0)), buffer;
    }

    /** `sendPacket`: one frame with the next sequence id; a payload that needs more than one chunk is refused. */
    method SendPacket(payload: Bytes) returns (r: Outcome<()>)
      modifies this`sent, this`seqId
      ensures |payload| >= MAX_PACKET_SIZE ==> r == Err(PacketTooLarge) && sent == old(sent) && seqId == old(seqId)
      ensures |payload| < MAX_PACKET_SIZE ==>
        r == Ok(()) && seqId == old(seqId) + 1 && sent == old(sent) + FrameOf(payload, old(seqId) + 1)
    {
      if |payload| >= MAX_PACKET_SIZE {
        return Err(PacketTooLarge);
      }
      var frame := new Buffer([], None);
      frame.WriteUint24(|payload|);
      seqId := seqId + 1;
      frame.WriteUInt8(seqId);
      frame.Write(payload, 1);
      sent := sent + frame.data;
      return Ok(());
    }

    /** Sends a command and expects an OK reply. */
    method Command(payload: Bytes) returns (r: Outcome<()>)
      modifies this`consumed, this`sent, this`seqId
      ensures Exchanged(r, Snapshot()) == ExpectOk(incoming, old(Snapshot()), payload)
    {
      r := SendPacket(payload);
      if r.Err? {
        return;
      }
      var reply, _ := Read(false);
      if reply.Err? {
        return Err(reply.error);
      }
      if reply.value.packet != Some(OK) {
        return Err(Runtime);
      }
      return Ok(());
    }

    /**
     * `handleHandshake`: parse the server's handshake, then answer with the
     * negotiated capabilities, the user and the auth response, and expect OK.
     * `scramble` stands for the SHA-1 scramble of the password.
     */
    method HandleHandshake(buf: Buffer, scramble: Bytes) returns (r: Outcome<()>)
      requires buf.offset == 0 && buf.length == |buf.data|
      modifies buf`offset, this`serverInfo, this`consumed, this`sent, this`seqId
      ensures var info := HandshakeAt(buf.data);
        && (info.Err? ==> r == Err(info.error) && serverInfo == old(serverInfo) && Snapshot() == old(Snapshot()))
        && (info.Ok? ==>
              && serverInfo == Some(info.value)
              && Exchanged(r, Snapshot()) == ExpectOk(incoming, old(Snapshot()),
                   HandshakeResponse(Negotiated(info.value.serverCapabilities), config.user, AuthResponse(config.password, scramble))))
    {
      var info := ParseHandshake(buf);
      if info.Err? {
        return Err(info.error);
      }
      serverInfo := Some(info.value);
      var capabilities := Negotiated(info.value.serverCapabilities);
      var auth := AuthResponse(config.password, scramble);
      r := Command(HandshakeResponse(capabilities, config.user, auth));
    }

    /** `registerSlave`: the sequence id starts over, then REGISTER_SLAVE must be answered with OK. */
    method RegisterSlave() returns (r: Outcome<()>)
      modifies this`consumed, this`sent, this`seqId
      ensures Exchanged(r, Snapshot()) == ExpectOk(incoming, old(Snapshot()).(seqId := -1), RegisterSlavePayload(config))
    {
      seqId := -1;
      r := Command(RegisterSlavePayload(config));
    }

    /** `dumpBinlog`: the sequence id starts over, then BINLOG_DUMP from the chosen file and position must be answered with OK. */
    method DumpBinlog() returns (r: Outcome<()>)
      modifies this`consumed, this`sent, this`seqId
      ensures Exchanged(r, Snapshot()) == ExpectOk(incoming, old(Snapshot()).(seqId := -1),
                                                  BinlogDumpPayload(binlogPosition, config.slaveId, binlogFile))
    {
      seqId := -1;
      r := Command(BinlogDumpPayload(binlogPosition, config.slaveId, binlogFile));
    }
  }
}
