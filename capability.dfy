/**
 * Client/server capability flags of the MySQL handshake: every case is a
 * single bit of a 32-bit word, and `in` tests that bit of an integer.
 */
module Capabilities {
  import opened Wrappers
  import Bits

  datatype Capability =
      LONG_PASSWORD
    | FOUND_ROWS
    | LONG_FLAG
    | CONNECT_WITH_DB
    | NO_SCHEMA
    | COMPRESS
    | ODBC
    | LOCAL_FILES
    | IGNORE_SPACE
    | PROTOCOL_41
    | INTERACTIVE
    | SSL
    | IGNORE_SIGPIPE
    | TRANSACTIONS
    | RESERVED
    | SECURE_CONNECTION
    | MULTI_STATEMENTS
    | MULTI_RESULTS
    | PS_MULTI_RESULTS
    | PLUGIN_AUTH
    | CONNECT_ATTRS
    | PLUGIN_AUTH_LENENC_CLIENT_DATA
    | CAN_HANDLE_EXPIRED_PASSWORDS
    | SESSION_TRACK
    | DEPRECATE_EOF
    | OPTIONAL_RESULTSET_METADATA
    | ZSTD_COMPRESSION_ALGORITHM
    | QUERY_ATTRIBUTES
    | MULTI_FACTOR_AUTHENTICATION
    | CAPABILITY_EXTENSION
    | SSL_VERIFY_SERVER_CERT
    | REMEMBER_OPTIONS

  /** The flag's integer value. */
  function Value(c: Capability): (v: nat)
    ensures 0 < v <= 0x8000_0000
  {
    match c
    case LONG_PASSWORD => 0x00000001
    case FOUND_ROWS => 0x00000002
    case LONG_FLAG => 0x00000004
    case CONNECT_WITH_DB => 0x00000008
    case NO_SCHEMA => 0x00000010
    case COMPRESS => 0x00000020
    case ODBC => 0x00000040
    case LOCAL_FILES => 0x00000080
    case IGNORE_SPACE => 0x00000100
    case PROTOCOL_41 => 0x00000200
    case INTERACTIVE => 0x00000400
    case SSL => 0x00000800
    case IGNORE_SIGPIPE => 0x00001000
    case TRANSACTIONS => 0x00002000
    case RESERVED => 0x00004000
    case SECURE_CONNECTION => 0x00008000
    case MULTI_STATEMENTS => 0x00010000
    case MULTI_RESULTS => 0x00020000
    case PS_MULTI_RESULTS => 0x00040000
    case PLUGIN_AUTH => 0x00080000
    case CONNECT_ATTRS => 0x00100000
    case PLUGIN_AUTH_LENENC_CLIENT_DATA => 0x00200000
    case CAN_HANDLE_EXPIRED_PASSWORDS => 0x00400000
    case SESSION_TRACK => 0x00800000
    case DEPRECATE_EOF => 0x01000000
    case OPTIONAL_RESULTSET_METADATA => 0x02000000
    case ZSTD_COMPRESSION_ALGORITHM => 0x04000000
    case QUERY_ATTRIBUTES => 0x08000000
    case MULTI_FACTOR_AUTHENTICATION => 0x10000000
    case CAPABILITY_EXTENSION => 0x20000000
    case SSL_VERIFY_SERVER_CERT => 0x40000000
    case REMEMBER_OPTIONS => 0x80000000
  }

  /** The index of the flag's bit. */
  function BitIndex(c: Capability): (k: nat)
    ensures k < 32
  {
    match c
    case LONG_PASSWORD => 0
    case FOUND_ROWS => 1
    case LONG_FLAG => 2
    case CONNECT_WITH_DB => 3
    case NO_SCHEMA => 4
    case COMPRESS => 5
    case ODBC => 6
    case LOCAL_FILES => 7
    case IGNORE_SPACE => 8
    case PROTOCOL_41 => 9
    case INTERACTIVE => 10
    case SSL => 11
    case IGNORE_SIGPIPE => 12
    case TRANSACTIONS => 13
    case RESERVED => 14
    case SECURE_CONNECTION => 15
    case MULTI_STATEMENTS => 16
    case MULTI_RESULTS => 17
    case PS_MULTI_RESULTS => 18
    case PLUGIN_AUTH => 19
    case CONNECT_ATTRS => 20
    case PLUGIN_AUTH_LENENC_CLIENT_DATA => 21
    case CAN_HANDLE_EXPIRED_PASSWORDS => 22
    case SESSION_TRACK => 23
    case DEPRECATE_EOF => 24
    case OPTIONAL_RESULTSET_METADATA => 25
    case ZSTD_COMPRESSION_ALGORITHM => 26
    case QUERY_ATTRIBUTES => 27
    case MULTI_FACTOR_AUTHENTICATION => 28
    case CAPABILITY_EXTENSION => 29
    case SSL_VERIFY_SERVER_CERT => 30
    case REMEMBER_OPTIONS => 31
  }

  /** The flag whose bit is `k`, if any. */
  function FromBitIndex(k: int): (r: Option<Capability>)
    ensures r.Some? <==> 0 <= k < 32
  {
    match k
    case 0 => Some(LONG_PASSWORD)
    case 1 => Some(FOUND_ROWS)
    case 2 => Some(LONG_FLAG)
    case 3 => Some(CONNECT_WITH_DB)
    case 4 => Some(NO_SCHEMA)
    case 5 => Some(COMPRESS)
    case 6 => Some(ODBC)
    case 7 => Some(LOCAL_FILES)
    case 8 => Some(IGNORE_SPACE)
    case 9 => Some(PROTOCOL_41)
    case 10 => Some(INTERACTIVE)
    case 11 => Some(SSL)
    case 12 => Some(IGNORE_SIGPIPE)
    case 13 => Some(TRANSACTIONS)
    case 14 => Some(RESERVED)
    case 15 => Some(SECURE_CONNECTION)
    case 16 => Some(MULTI_STATEMENTS)
    case 17 => Some(MULTI_RESULTS)
    case 18 => Some(PS_MULTI_RESULTS)
    case 19 => Some(PLUGIN_AUTH)
    case 20 => Some(CONNECT_ATTRS)
    case 21 => Some(PLUGIN_AUTH_LENENC_CLIENT_DATA)
    case 22 => Some(CAN_HANDLE_EXPIRED_PASSWORDS)
    case 23 => Some(SESSION_TRACK)
    case 24 => Some(DEPRECATE_EOF)
    case 25 => Some(OPTIONAL_RESULTSET_METADATA)
    case 26 => Some(ZSTD_COMPRESSION_ALGORITHM)
    case 27 => Some(QUERY_ATTRIBUTES)
    case 28 => Some(MULTI_FACTOR_AUTHENTICATION)
    case 29 => Some(CAPABILITY_EXTENSION)
    case 30 => Some(SSL_VERIFY_SERVER_CERT)
    case 31 => Some(REMEMBER_OPTIONS)
    case _ => None
  }

  /** `Capability::in`: `caps & value` is non-zero. */
  predicate In(c: Capability, caps: nat)
  {
    Bits.And(caps, Value(c)) != 0
  }

  // ---------------------------------------------------------------- properties

  /** Every value is the single bit `2^BitIndex(c)`. */
  lemma SingleBit(c: Capability)
    ensures Value(c) == Bits.Pow2(BitIndex(c))
  {
    Pow2Table();
  }

  /** The 32 powers of two the flags use. */
  lemma Pow2Table()
    ensures Bits.Pow2(0) == 0x00000001
    ensures Bits.Pow2(1) == 0x00000002
    ensures Bits.Pow2(2) == 0x00000004
    ensures Bits.Pow2(3) == 0x00000008
    ensures Bits.Pow2(4) == 0x00000010
    ensures Bits.Pow2(5) == 0x00000020
    ensures Bits.Pow2(6) == 0x00000040
    ensures Bits.Pow2(7) == 0x00000080
    ensures Bits.Pow2(8) == 0x00000100
    ensures Bits.Pow2(9) == 0x00000200
    ensures Bits.Pow2(10) == 0x00000400
    ensures Bits.Pow2(11) == 0x00000800
    ensures Bits.Pow2(12) == 0x00001000
    ensures Bits.Pow2(13) == 0x00002000
    ensures Bits.Pow2(14) == 0x00004000
    ensures Bits.Pow2(15) == 0x00008000
    ensures Bits.Pow2(16) == 0x00010000
    ensures Bits.Pow2(17) == 0x00020000
    ensures Bits.Pow2(18) == 0x00040000
    ensures Bits.Pow2(19) == 0x00080000
    ensures Bits.Pow2(20) == 0x00100000
    ensures Bits.Pow2(21) == 0x00200000
    ensures Bits.Pow2(22) == 0x00400000
    ensures Bits.Pow2(23) == 0x00800000
    ensures Bits.Pow2(24) == 0x01000000
    ensures Bits.Pow2(25) == 0x02000000
    ensures Bits.Pow2(26) == 0x04000000
    ensures Bits.Pow2(27) == 0x08000000
    ensures Bits.Pow2(28) == 0x10000000
    ensures Bits.Pow2(29) == 0x20000000
    ensures Bits.Pow2(30) == 0x40000000
    ensures Bits.Pow2(31) == 0x80000000
  {
    assert Bits.Pow2(0) == 0x00000001;
    assert Bits.Pow2(1) == 0x00000002;
    assert Bits.Pow2(2) == 0x00000004;
    assert Bits.Pow2(3) == 0x00000008;
    assert Bits.Pow2(4) == 0x00000010;
    assert Bits.Pow2(5) == 0x00000020;
    assert Bits.Pow2(6) == 0x00000040;
    assert Bits.Pow2(7) == 0x00000080;
    assert Bits.Pow2(8) == 0x00000100;
    assert Bits.Pow2(9) == 0x00000200;
    assert Bits.Pow2(10) == 0x00000400;
    assert Bits.Pow2(11) == 0x00000800;
    assert Bits.Pow2(12) == 0x00001000;
    assert Bits.Pow2(13) == 0x00002000;
    assert Bits.Pow2(14) == 0x00004000;
    assert Bits.Pow2(15) == 0x00008000;
    assert Bits.Pow2(16) == 0x00010000;
    assert Bits.Pow2(17) == 0x00020000;
    assert Bits.Pow2(18) == 0x00040000;
    assert Bits.Pow2(19) == 0x00080000;
    assert Bits.Pow2(20) == 0x00100000;
    assert Bits.Pow2(21) == 0x00200000;
    assert Bits.Pow2(22) == 0x00400000;
    assert Bits.Pow2(23) == 0x00800000;
    assert Bits.Pow2(24) == 0x01000000;
    assert Bits.Pow2(25) == 0x02000000;
    assert Bits.Pow2(26) == 0x04000000;
    assert Bits.Pow2(27) == 0x08000000;
    assert Bits.Pow2(28) == 0x10000000;
    assert Bits.Pow2(29) == 0x20000000;
    assert Bits.Pow2(30) == 0x40000000;
    assert Bits.Pow2(31) == 0x80000000;
  }

  /** Bit indexes identify their flag: no two cases share a bit. */
  lemma FromBitIndexOf(c: Capability)
    ensures FromBitIndex(BitIndex(c)) == Some(c)
  {
  }

  /** The cases' values are pairwise distinct. */
  lemma ValuesDistinct(c: Capability, d: Capability)
    ensures Value(c) == Value(d) ==> c == d
  {
    if Value(c) == Value(d) {
      SingleBit(c);
      SingleBit(d);
      Bits.Pow2Bit(BitIndex(c), BitIndex(c));
      Bits.Pow2Bit(BitIndex(d), BitIndex(c));
      FromBitIndexOf(c);
      FromBitIndexOf(d);
    }
  }

  /** `in` holds exactly when bit `BitIndex(c)` of `caps` is one. */
  lemma InBit(c: Capability, caps: nat)
    ensures In(c, caps) <==> Bits.Bit(caps, BitIndex(c))
  {
    SingleBit(c);
    Bits.AndPow2(caps, BitIndex(c));
  }

  /** No flag is in the empty set. */
  lemma InEmpty(c: Capability)
    ensures !In(c, 0)
  {
  }

  /** A flag is in an intersection exactly when it is in both sides. */
  lemma InAnd(c: Capability, a: nat, b: nat)
    ensures In(c, Bits.And(a, b)) <==> In(c, a) && In(c, b)
  {
    InBit(c, Bits.And(a, b));
    InBit(c, a);
    InBit(c, b);
    Bits.AndBit(a, b, BitIndex(c));
  }

  /** A flag is in a union exactly when it is in either side. */
  lemma InOr(c: Capability, a: nat, b: nat)
    ensures In(c, Bits.Or(a, b)) <==> In(c, a) || In(c, b)
  {
    InBit(c, Bits.Or(a, b));
    InBit(c, a);
    InBit(c, b);
    Bits.OrBit(a, b, BitIndex(c));
  }

  /** `in` is monotone: a flag of `caps` is a flag of every bitwise superset of `caps`. */
  lemma InMonotone(c: Capability, caps: nat, more: nat)
    requires Bits.And(caps, more) == caps
    ensures In(c, caps) ==> In(c, more)
  {
    InAnd(c, caps, more);
  }
}
