/** The connection-opened record the kernel program writes to the
    `ipv4_events` perf buffer: Go's `IP4Event`, which embeds `Event`, read
    with `binary.Read(..., binary.LittleEndian, &event)`. Go lays the
    fields out packed, in declaration order, with no padding. */
module EventCodec {
  import opened Common
  import opened LittleEndian

  /** Width of the fixed task-name buffer (`Task [16]byte`). */
  const TaskLen: nat := 16
  /** Bytes in one record: 8 + 4 + 2 + 16 + 4 + 2. */
  const RecordSize: nat := 36

  type TaskName = s: seq<Byte> | |s| == TaskLen
    witness [0, 0, 0, 0, 0, 0, 0, 0, 0, 0, 0, 0, 0, 0, 0, 0]

  /** The header common to every event. */
  datatype Event = Event(tsUs: Uint64, pid: Uint32, af: Uint16, task: TaskName)

  /** An AF_INET connect event: the header, destination address and port. */
  datatype IP4Event = IP4Event(header: Event, daddr: Uint32, dport: Uint16)

  /** Go's zero value, which the event loop's reused `event` starts as. */
  const ZeroEvent: IP4Event :=
    IP4Event(Event(0, 0, 0, [0, 0, 0, 0, 0, 0, 0, 0, 0, 0, 0, 0, 0, 0, 0, 0]), 0, 0)

  /** What `binary.Read` reports when the sample is too short: `io.EOF` for
      an empty sample, `io.ErrUnexpectedEOF` for a partial one. */
  datatype DecodeError = EOF | UnexpectedEOF

  /** The bytes the kernel program writes for `e`, field by field at the
      offsets 0, 8, 12, 14, 30 and 34. */
  function Encode(e: IP4Event): (r: seq<Byte>)
    ensures |r| == RecordSize
    ensures FromLE(r[0..8]) == e.header.tsUs
    ensures FromLE(r[8..12]) == e.header.pid
    ensures FromLE(r[12..14]) == e.header.af
    ensures r[14..30] == e.header.task
    ensures FromLE(r[30..34]) == e.daddr
    ensures FromLE(r[34..36]) == e.dport
  {
    Pow256Widths();
    FromToLE(e.header.tsUs, 8);
    FromToLE(e.header.pid, 4);
    FromToLE(e.header.af, 2);
    FromToLE(e.daddr, 4);
    FromToLE(e.dport, 2);
    var r := ToLE(e.header.tsUs, 8) + ToLE(e.header.pid, 4) + ToLE(e.header.af, 2)
             + e.header.task + ToLE(e.daddr, 4) + ToLE(e.dport, 2);
    assert r[0..8] == ToLE(e.header.tsUs, 8);
    assert r[8..12] == ToLE(e.header.pid, 4);
    assert r[12..14] == ToLE(e.header.af, 2);
    assert r[14..30] == e.header.task;
    assert r[30..34] == ToLE(e.daddr, 4);
    assert r[34..36] == ToLE(e.dport, 2);
    r
  }

  /** `binary.Read` of one `IP4Event` from a sample: it needs the first 36
      bytes and ignores any that follow. */
  function Decode(s: seq<Byte>): (r: Result<IP4Event, DecodeError>)
    ensures r.Ok? <==> |s| >= RecordSize
    ensures |s| == 0 ==> r == Err(EOF)
    ensures 0 < |s| < RecordSize ==> r == Err(UnexpectedEOF)
  {
    if |s| == 0 then Err(EOF)
    else if |s| < RecordSize then Err(UnexpectedEOF)
    else
      Pow256Widths();
      Ok(IP4Event(Event(FromLE(s[0..8]), FromLE(s[8..12]), FromLE(s[12..14]), s[14..30]),
                  FromLE(s[30..34]), FromLE(s[34..36])))
  }

  /** Round trip: decoding the bytes of an event gives the event back. */
  lemma DecodeEncode(e: IP4Event)
    ensures Decode(Encode(e)) == Ok(e)
  {
    var r := Encode(e);
    var d := Decode(r);
    assert d.value.header == e.header;
  }

  /** The other round trip: a decodable sample's first 36 bytes are exactly
      the encoding of what it decodes to. */
  lemma EncodeDecode(s: seq<Byte>)
    requires |s| >= RecordSize
    ensures Decode(s).Ok? && Encode(Decode(s).value) == s[..RecordSize]
  {
    var e := Decode(s).value;
    var a, b, c, d, f, g := s[0..8], s[8..12], s[12..14], s[14..30], s[30..34], s[34..36];
    ToFromLE(a);
    ToFromLE(b);
    ToFromLE(c);
    ToFromLE(f);
    ToFromLE(g);
    assert Encode(e) == a + b + c + d + f + g;
    assert s[..RecordSize] == a + b + c + d + f + g;
  }

  /** Decoding reads exactly the first 36 bytes: what follows is ignored. */
  lemma DecodeIgnoresTail(s: seq<Byte>, tail: seq<Byte>)
    requires |s| == RecordSize
    ensures Decode(s + tail) == Decode(s)
  {
    var t := s + tail;
    assert t[0..8] == s[0..8] && t[8..12] == s[8..12] && t[12..14] == s[12..14];
    assert t[14..30] == s[14..30] && t[30..34] == s[30..34] && t[34..36] == s[34..36];
  }
}
