/** The frame packet `[seq: u32 LE][capture_ts_us: u64 LE][size: u32 LE][JPEG]`: the sender's
    buffer filled by offset, the receiver's parse, and the round trip between them. */
module FramePacket {
  import opened Arithmetic

  type byte = x: int | 0 <= x < 256

  const HEADER_SIZE: nat := 16

  datatype Parsed = Rejected | Packet(seq32: nat, ts: nat, body: seq<byte>)

  function Pow256(n: nat): (p: nat)
    ensures p > 0
  {
    if n == 0 then 1 else 256 * Pow256(n - 1)
  }

  /** The `width` low bytes of `n`, least significant first. */
  function LittleEndian(n: nat, width: nat): (b: seq<byte>)
    ensures |b| == width
  {
    if width == 0 then [] else [n % 256] + LittleEndian(n / 256, width - 1)
  }

  function FromLittleEndian(b: seq<byte>): nat {
    if b == [] then 0 else b[0] + 256 * FromLittleEndian(b[1..])
  }

  lemma {:induction false} LittleEndianRoundTrip(n: nat, width: nat)
    requires n < Pow256(width)
    ensures FromLittleEndian(LittleEndian(n, width)) == n
  {
    if width > 0 {
      LittleEndianRoundTrip(n / 256, width - 1);
      assert LittleEndian(n, width)[1..] == LittleEndian(n / 256, width - 1);
    }
  }

  lemma Widths()
    ensures Pow256(4) == TWO32 && Pow256(8) == TWO64
  {
    assert Pow256(4) == 256 * (256 * (256 * (256 * Pow256(0))));
    assert Pow256(8) == 256 * (256 * (256 * (256 * Pow256(4))));
  }

  /** What the sender puts on the wire: sequence number and size are cast to 32 bits. */
  function Encode(seqNo: nat, ts: nat, jpeg: seq<byte>): seq<byte> {
    LittleEndian(seqNo % TWO32, 4) + LittleEndian(ts, 8) + LittleEndian(|jpeg| % TWO32, 4) + jpeg
  }

  function Parse(payload: seq<byte>): Parsed {
    if |payload| < HEADER_SIZE then Rejected
    else
      var seq32 := FromLittleEndian(payload[..4]);
      var ts := FromLittleEndian(payload[4..12]);
      var size := FromLittleEndian(payload[12..16]);
      var rest := payload[HEADER_SIZE..];
      var body := if size <= |rest| then rest[..size] else rest;
      if |body| != size then Rejected else Packet(seq32, ts, body)
  }

  /** Four bytes as an unsigned little-endian number. */
  function Word(b: seq<byte>): nat
    requires |b| == 4
  {
    b[0] as int + 0x100 * (b[1] as int) + 0x1_0000 * (b[2] as int) + 0x100_0000 * (b[3] as int)
  }

  lemma WordIsLittleEndian(b: seq<byte>)
    requires |b| == 4
    ensures FromLittleEndian(b) == Word(b)
  {
    assert b[1..][1..] == b[2..] && b[2..][1..] == b[3..] && b[3..][1..] == [];
    assert FromLittleEndian(b[3..]) == b[3];
    assert FromLittleEndian(b[2..]) == b[2] + 256 * FromLittleEndian(b[3..]);
    assert FromLittleEndian(b[1..]) == b[1] + 256 * FromLittleEndian(b[2..]);
  }

  lemma LongIsLittleEndian(b: seq<byte>)
    requires |b| == 8
    ensures FromLittleEndian(b) == Word(b[..4]) + 0x1_0000_0000 * Word(b[4..])
  {
    WordIsLittleEndian(b[4..]);
    assert b[1..][1..] == b[2..] && b[2..][1..] == b[3..] && b[3..][1..] == b[4..];
    assert FromLittleEndian(b[3..]) == b[3] + 256 * FromLittleEndian(b[4..]);
    assert FromLittleEndian(b[2..]) == b[2] + 256 * FromLittleEndian(b[3..]);
    assert FromLittleEndian(b[1..]) == b[1] + 256 * FromLittleEndian(b[2..]);
  }

  /** The receiver's verdict byte by byte: a packet is accepted exactly when it has a header and a body of
      at least the declared size, and then number, timestamp and body are read where the format puts them. */
  lemma ParseExactly(payload: seq<byte>)
    ensures Parse(payload) == Rejected <==> |payload| < 16 || |payload| < 16 + Word(payload[12..16])
    ensures Parse(payload) != Rejected ==>
              Parse(payload) == Packet(Word(payload[0..4]), Word(payload[4..8]) + 0x1_0000_0000 * Word(payload[8..12]),
                                       payload[16..16 + Word(payload[12..16])])
  {
    if |payload| >= 16 {
      assert payload[..4] == payload[0..4];
      WordIsLittleEndian(payload[0..4]);
      WordIsLittleEndian(payload[12..16]);
      LongIsLittleEndian(payload[4..12]);
      assert payload[4..12][..4] == payload[4..8] && payload[4..12][4..] == payload[8..12];
    }
  }

  method Memcpy(dst: array<byte>, offset: nat, src: seq<byte>)
    requires offset + |src| <= dst.Length
    modifies dst
    ensures dst[..] == old(dst[..offset]) + src + old(dst[offset + |src|..])
  {
    for i := 0 to |src|
      invariant dst[..] == old(dst[..offset]) + src[..i] + old(dst[offset + i..])
    {
      dst[offset + i] := src[i];
    }
  }

  /** Where the sender puts each field. */
  lemma Layout(seqNo: nat, ts: nat, jpeg: seq<byte>)
    requires ts < TWO64
    ensures var packet := Encode(seqNo, ts, jpeg);
            && |packet| == 16 + |jpeg| && packet[16..] == jpeg
            && Word(packet[0..4]) == seqNo % 0x1_0000_0000 && Word(packet[12..16]) == |jpeg| % 0x1_0000_0000
            && Word(packet[4..8]) + 0x1_0000_0000 * Word(packet[8..12]) == ts
  {
    var packet := Encode(seqNo, ts, jpeg);
    Widths();
    LittleEndianRoundTrip(seqNo % TWO32, 4);
    LittleEndianRoundTrip(ts, 8);
    LittleEndianRoundTrip(|jpeg| % TWO32, 4);
    assert packet[0..4] == LittleEndian(seqNo % TWO32, 4);
    assert packet[4..12] == LittleEndian(ts, 8);
    assert packet[12..16] == LittleEndian(|jpeg| % TWO32, 4);
    WordIsLittleEndian(packet[0..4]);
    WordIsLittleEndian(packet[12..16]);
    LongIsLittleEndian(packet[4..12]);
    assert packet[4..12][..4] == packet[4..8] && packet[4..12][4..] == packet[8..12];
  }

  method BuildPacket(seqNo: nat, ts: nat, jpeg: seq<byte>) returns (packet: seq<byte>)
    requires ts < TWO64
    ensures packet == Encode(seqNo, ts, jpeg)
    ensures |packet| == 16 + |jpeg| && packet[16..] == jpeg
    ensures Word(packet[0..4]) == seqNo % 0x1_0000_0000 && Word(packet[12..16]) == |jpeg| % 0x1_0000_0000
    ensures Word(packet[4..8]) + 0x1_0000_0000 * Word(packet[8..12]) == ts
  {
    var buffer := new byte[HEADER_SIZE + |jpeg|](_ => 0);
    var seq32 := LittleEndian(seqNo % TWO32, 4);
    var ts64 := LittleEndian(ts, 8);
    var size := LittleEndian(|jpeg| % TWO32, 4);
    Memcpy(buffer, 0, seq32);
    assert buffer[..4] == seq32;
    Memcpy(buffer, 4, ts64);
    assert buffer[..12] == seq32 + ts64;
    Memcpy(buffer, 12, size);
    assert buffer[..16] == seq32 + ts64 + size;
    Memcpy(buffer, HEADER_SIZE, jpeg);
    packet := buffer[..];
    Layout(seqNo, ts, jpeg);
  }

  lemma HeaderFields(seqNo: nat, ts: nat, jpeg: seq<byte>, tail: seq<byte>)
    requires ts < TWO64
    ensures var p := Encode(seqNo, ts, jpeg) + tail;
            && |p| == HEADER_SIZE + |jpeg| + |tail|
            && FromLittleEndian(p[..4]) == seqNo % TWO32 && FromLittleEndian(p[4..12]) == ts
            && FromLittleEndian(p[12..16]) == |jpeg| % TWO32 && p[HEADER_SIZE..] == jpeg + tail
  {
    var p := Encode(seqNo, ts, jpeg) + tail;
    Widths();
    LittleEndianRoundTrip(seqNo % TWO32, 4);
    LittleEndianRoundTrip(ts, 8);
    LittleEndianRoundTrip(|jpeg| % TWO32, 4);
    assert p[..4] == LittleEndian(seqNo % TWO32, 4);
    assert p[4..12] == LittleEndian(ts, 8);
    assert p[12..16] == LittleEndian(|jpeg| % TWO32, 4);
  }

  /** Parsing gives back the low 32 bits of the number, the full timestamp and, exactly when it is
      shorter than 4 GiB, the whole body; bytes after the packet change nothing. */
  lemma RoundTrip(seqNo: nat, ts: nat, jpeg: seq<byte>, tail: seq<byte>)
    requires ts < TWO64
    ensures Parse(Encode(seqNo, ts, jpeg) + tail) == Packet(seqNo % TWO32, ts, jpeg[..|jpeg| % TWO32])
    ensures Parse(Encode(seqNo, ts, jpeg) + tail) == Packet(seqNo % TWO32, ts, jpeg) <==> |jpeg| < TWO32
  {
    HeaderFields(seqNo, ts, jpeg, tail);
    assert (jpeg + tail)[..|jpeg| % TWO32] == jpeg[..|jpeg| % TWO32];
    if |jpeg| < TWO32 {
      assert jpeg[..|jpeg|] == jpeg;
    }
  }

  /** No strict prefix of a packet under 4 GiB is accepted. */
  lemma TruncatedRejected(seqNo: nat, ts: nat, jpeg: seq<byte>, cut: nat)
    requires ts < TWO64 && |jpeg| < TWO32 && cut < HEADER_SIZE + |jpeg|
    ensures |Encode(seqNo, ts, jpeg)| == HEADER_SIZE + |jpeg|
    ensures Parse(Encode(seqNo, ts, jpeg)[..cut]) == Rejected
  {
    HeaderFields(seqNo, ts, jpeg, []);
    var p := Encode(seqNo, ts, jpeg);
    assert p + [] == p;
    if cut >= HEADER_SIZE {
      assert p[..cut][12..16] == p[12..16];
    }
  }
}
