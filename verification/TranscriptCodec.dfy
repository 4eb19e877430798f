/**
Transcript records as lines of bytes. The concrete serializer stands in for the
original's JSON: what matters is that it is invertible and never writes a line
feed, so a line feed can end a record.
*/
module TranscriptCodec {
  import opened Primitives
  import opened SessionIdentities
  import opened ProjectModel

  const LF: byte := 0x0a
  const BACKSLASH: byte := 0x5c

  datatype SessionIdentity = SessionIdentity(namespace: Identity, token: Identity)

  datatype Record = Record(version: u32, identity: SessionIdentity, sequence: u64, role: ChatMessageRole,
                           text: seq<byte>)

  // ---- fixed-width numbers --------------------------------------------------

  function Power256(width: nat): nat {
    if width == 0 then 1 else 256 * Power256(width - 1)
  }

  function ToBytes(n: nat, width: nat): (b: seq<byte>)
    ensures |b| == width
  {
    if width == 0 then [] else [n % 256] + ToBytes(n / 256, width - 1)
  }

  function FromBytes(b: seq<byte>): nat {
    if b == [] then 0
    else
      var low: nat := b[0];
      low + 256 * FromBytes(b[1..])
  }

  lemma {:induction false} NumberRoundTrip(n: nat, width: nat)
    requires n < Power256(width)
    ensures FromBytes(ToBytes(n, width)) == n
  {
    if width > 0 {
      NumberRoundTrip(n / 256, width - 1);
      assert ToBytes(n, width)[1..] == ToBytes(n / 256, width - 1);
    }
  }

  lemma {:induction false} FromBytesBound(b: seq<byte>)
    ensures FromBytes(b) < Power256(|b|)
  {
    if b != [] { FromBytesBound(b[1..]); }
  }

  lemma Widths()
    ensures Power256(4) == U32_MAX + 1 && Power256(8) == U64_MAX + 1
  {
    assert Power256(2) == 65536;
    assert Power256(4) == 65536 * 65536;
    assert Power256(6) == 65536 * Power256(4);
    assert Power256(8) == 65536 * Power256(6);
  }

  // ---- escaping -------------------------------------------------------------

  function Escape(b: seq<byte>): seq<byte> {
    if b == [] then []
    else if b[0] == LF then [BACKSLASH, 0x6e] + Escape(b[1..])
    else if b[0] == BACKSLASH then [BACKSLASH, BACKSLASH] + Escape(b[1..])
    else [b[0]] + Escape(b[1..])
  }

  function Unescape(b: seq<byte>): Option<seq<byte>>
    decreases |b|
  {
    if b == [] then Some([])
    else if b[0] != BACKSLASH then Prepend([b[0]], Unescape(b[1..]))
    else if |b| > 1 && b[1] == 0x6e then Prepend([LF], Unescape(b[2..]))
    else if |b| > 1 && b[1] == BACKSLASH then Prepend([BACKSLASH], Unescape(b[2..]))
    else None
  }

  lemma {:induction false} EscapeRoundTrip(b: seq<byte>)
    ensures Unescape(Escape(b)) == Some(b) && LF !in Escape(b)
  {
    if b != [] {
      EscapeRoundTrip(b[1..]);
      assert b == [b[0]] + b[1..];
      var e, rest := Escape(b), Escape(b[1..]);
      if b[0] == LF || b[0] == BACKSLASH {
        assert e[2..] == rest;
      } else {
        assert e[1..] == rest;
      }
    }
  }

  // ---- records --------------------------------------------------------------

  function RoleByte(role: ChatMessageRole): byte {
    match role
    case User => 0
    case Assistant => 1
    case System => 2
    case Tool => 3
    case Error => 4
  }

  function RoleOf(b: byte): Option<ChatMessageRole> {
    if b == 0 then Some(User) else if b == 1 then Some(Assistant) else if b == 2 then Some(System)
    else if b == 3 then Some(Tool) else if b == 4 then Some(ChatMessageRole.Error) else None
  }

  function Payload(r: Record): seq<byte> {
    ToBytes(r.version, 4) + ToBytes(r.sequence, 8) + r.identity.namespace + r.identity.token
    + [RoleByte(r.role)] + r.text
  }

  function Encode(r: Record): seq<byte> {
    Escape(Payload(r))
  }

  const HEADER := 45

  function Parse(p: seq<byte>): Option<Record> {
    if |p| < HEADER || !IsIdentity(p[12..28]) || !IsIdentity(p[28..44]) || RoleOf(p[44]).None? then None
    else
      FromBytesBound(p[..4]);
      FromBytesBound(p[4..12]);
      Widths();
      Some(Record(FromBytes(p[..4]), SessionIdentity(p[12..28], p[28..44]), FromBytes(p[4..12]),
                  RoleOf(p[44]).value, p[45..]))
  }

  function Decode(line: seq<byte>): Option<Record> {
    var payload := Unescape(line);
    if payload.None? then None else Parse(payload.value)
  }

  lemma PayloadFields(r: Record)
    ensures var p := Payload(r);
            && |p| >= HEADER && p[..4] == ToBytes(r.version, 4) && p[4..12] == ToBytes(r.sequence, 8)
            && p[12..28] == r.identity.namespace && p[28..44] == r.identity.token
            && p[44] == RoleByte(r.role) && p[45..] == r.text
  {
  }

  lemma ParseFields(p: seq<byte>, r: Record)
    requires |p| >= HEADER && p[..4] == ToBytes(r.version, 4) && p[4..12] == ToBytes(r.sequence, 8)
    requires p[12..28] == r.identity.namespace && p[28..44] == r.identity.token
    requires p[44] == RoleByte(r.role) && p[45..] == r.text
    ensures Parse(p) == Some(r)
  {
    Widths();
    NumberRoundTrip(r.version, 4);
    NumberRoundTrip(r.sequence, 8);
  }

  /** Decoding undoes encoding; an encoded record is not empty and holds no line feed. */
  lemma RecordRoundTrip(r: Record)
    ensures Decode(Encode(r)) == Some(r)
    ensures LF !in Encode(r) && Encode(r) != []
  {
    var payload := Payload(r);
    PayloadFields(r);
    ParseFields(payload, r);
    EncodesAs(payload);
  }

  lemma EncodesAs(payload: seq<byte>)
    requires payload != []
    ensures Unescape(Escape(payload)) == Some(payload) && LF !in Escape(payload) && Escape(payload) != []
  {
    EscapeRoundTrip(payload);
  }
}
