/** The full lidar service: every point and every IMU sample, in datagrams that fit one Ethernet frame. */
module LidarFull {
  import opened Bytes
  import opened LidarFilter

  const MTU_PAYLOAD: nat := 1472
  const HEADER_SIZE: nat := 18
  const MAX_POINTS: nat := 242
  const IMU_SIZE: nat := 24
  const MAX_IMU: nat := 60
  const NANOS: nat := 1_000_000_000

  lemma PacketCapacities()
    ensures MAX_POINTS == (MTU_PAYLOAD - HEADER_SIZE) / POINT_SIZE
    ensures MAX_IMU == (MTU_PAYLOAD - HEADER_SIZE) / IMU_SIZE
  {
  }

  // ---------------------------------------------------------------- the packet format

  type U32 = n: nat | n < 0x1_0000_0000
  type U64 = n: nat | n < 0x1_0000_0000_0000_0000

  /** What a callback knows about its data apart from the records. */
  datatype Source = Source(handle: U32, devType: Byte, dataType: Byte, timestamp: U64)

  datatype Header = Header(seqId: nat, sec: U32, nsec: U32, source: Tag, count: nat)
  datatype Tag = Tag(handle: U32, devType: Byte, dataType: Byte)

  /** `(uint32_t)(timestamp / 1000000000)` */
  function Seconds(timestamp: U64): U32 {
    (timestamp / NANOS) % 0x1_0000_0000
  }

  function Nanoseconds(timestamp: U64): U32 {
    timestamp % NANOS
  }

  /** The packed header, its multi-byte fields in network order. */
  function HeaderBytes(h: Header): (s: seq<Byte>)
    ensures |s| == HEADER_SIZE
  {
    Big(h.seqId, 2) + Big(h.sec, 4) + Big(h.nsec, 4) + Big(h.source.handle, 4)
    + [h.source.devType, h.source.dataType] + Big(h.count, 2)
  }

  function Frame(h: Header, records: seq<seq<Byte>>): seq<Byte> {
    HeaderBytes(h) + Flatten(records)
  }

  datatype Parsed = Malformed | Parsed(seqId: nat, sec: nat, nsec: nat, handle: nat, devType: Byte, dataType: Byte, records: seq<seq<Byte>>)

  /** A receiver's view of one datagram whose records have `size` bytes. */
  function Parse(d: seq<Byte>, size: nat): Parsed
    requires size > 0
  {
    if |d| < HEADER_SIZE then Malformed
    else
      var count := FromBig(d[16..18]);
      if |d| != HEADER_SIZE + size * count then Malformed
      else Parsed(FromBig(d[..2]), FromBig(d[2..6]), FromBig(d[6..10]), FromBig(d[10..14]), d[14], d[15],
                  SplitRecords(d[18..], size))
  }

  lemma HeaderParts(h: Header, rest: seq<Byte>)
    ensures var d := HeaderBytes(h) + rest;
            && d[..2] == Big(h.seqId, 2) && d[2..6] == Big(h.sec, 4) && d[6..10] == Big(h.nsec, 4)
            && d[10..14] == Big(h.source.handle, 4) && d[14] == h.source.devType && d[15] == h.source.dataType
            && d[16..18] == Big(h.count, 2) && d[18..] == rest
  {
  }

  lemma FrameRoundTrip(h: Header, records: seq<seq<Byte>>, size: nat)
    requires size > 0 && AllSized(records, size)
    requires h.count == |records| < 0x1_0000 && h.seqId < 0x1_0000
    ensures Parse(Frame(h, records), size) ==
            Parsed(h.seqId, h.sec, h.nsec, h.source.handle, h.source.devType, h.source.dataType, records)
  {
    HeaderParts(h, Flatten(records));
    Widths();
    BigRoundTrip(h.seqId, 2);
    BigRoundTrip(h.sec, 4);
    BigRoundTrip(h.nsec, 4);
    BigRoundTrip(h.source.handle, 4);
    BigRoundTrip(h.count, 2);
    FlattenLength(records, size);
    SplitFlatten(records, size);
  }

  /** What the bytes of a packet's header mean, in network order. */
  lemma HeaderLayout(d: seq<Byte>, size: nat)
    requires size > 0 && Parse(d, size).Parsed?
    ensures |d| >= 18
    ensures var q := Parse(d, size);
            && q.seqId == 256 * (d[0] as nat) + d[1]
            && q.sec == 0x100_0000 * (d[2] as nat) + 0x1_0000 * (d[3] as nat) + 256 * (d[4] as nat) + d[5]
            && q.nsec == 0x100_0000 * (d[6] as nat) + 0x1_0000 * (d[7] as nat) + 256 * (d[8] as nat) + d[9]
            && q.handle == 0x100_0000 * (d[10] as nat) + 0x1_0000 * (d[11] as nat) + 256 * (d[12] as nat) + d[13]
            && q.devType == d[14] && q.dataType == d[15]
  {
    FromBig2(d[..2]);
    FromBig4(d[2..6]);
    FromBig4(d[6..10]);
    FromBig4(d[10..14]);
  }

  /** What follows it: as many records as the last header field says, one after the other. */
  lemma RecordLayout(d: seq<Byte>, size: nat, k: nat)
    requires size > 0 && Parse(d, size).Parsed?
    ensures |d| >= 18 && |Parse(d, size).records| == 256 * (d[16] as nat) + d[17] && |d| == 18 + size * |Parse(d, size).records|
    ensures k < |Parse(d, size).records| ==>
              18 + size * k + size <= |d| && Parse(d, size).records[k] == d[18 + size * k..18 + size * k + size]
  {
    FromBig2(d[16..18]);
    var n := FromBig(d[16..18]);
    if n == 0 {
      SplitNothing(d[18..], size);
    } else {
      SplitAt(d[18..], size, n, if k < n then k else 0);
      if k < n {
        assert d[18..][size * k..size * k + size] == d[18 + size * k..18 + size * k + size];
      }
    }
  }

  /** The two timestamp fields give the timestamp back exactly when its seconds fit in 32 bits. */
  lemma TimestampRecombines(timestamp: U64)
    ensures Nanoseconds(timestamp) < 1_000_000_000
    ensures Seconds(timestamp) * 1_000_000_000 + Nanoseconds(timestamp) == timestamp <==> timestamp < 0x1_0000_0000 * 1_000_000_000
  {
  }

  // ---------------------------------------------------------------- one callback

  function HeaderFor(src: Source, seqId: nat, count: nat): Header {
    Header(seqId, Seconds(src.timestamp), Nanoseconds(src.timestamp), Tag(src.handle, src.devType, src.dataType), count)
  }

  /** The packets for the given pieces; the counter is incremented before use, with 16-bit wrap-around. */
  function Packets(src: Source, seqId: nat, pieces: seq<seq<seq<Byte>>>): (ds: seq<seq<Byte>>)
    ensures |ds| == |pieces|
  {
    seq(|pieces|, j requires 0 <= j < |pieces| =>
      Frame(HeaderFor(src, Wrap16(seqId + j + 1), |pieces[j]|), pieces[j]))
  }

  datatype Kind = OfPoints | OfImu

  /** A datagram handed to `sendtoClient`, and which callback it came from. */
  datatype Handed = Handed(kind: Kind, bytes: seq<Byte>)

  function Tagged(kind: Kind, ds: seq<seq<Byte>>): (r: seq<Handed>)
    ensures |r| == |ds|
  {
    seq(|ds|, i requires 0 <= i < |ds| => Handed(kind, ds[i]))
  }

  /** What a point callback may get: nothing, a packet of another type, or high-resolution raw points. */
  datatype CloudData = NoCloud | OtherCloud | HighPoints(points: seq<RawPoint>)

  /** What an IMU callback may get; a sample is six floats, copied as they are. */
  datatype ImuData = NoImu | Samples(samples: seq<seq<Byte>>)

  class FullService {
    var clientReady: bool
    var seqId: nat
    var imuSeqId: nat
    var handed: seq<Handed>

    ghost predicate Valid()
      reads this
    {
      seqId < 0x1_0000 && imuSeqId < 0x1_0000
    }

    ghost function Value(): Service
      reads this
    {
      Service(clientReady, seqId, imuSeqId, handed)
    }

    constructor ()
      ensures Valid() && Value() == Service(false, 0, 0, [])
    {
      clientReady, seqId, imuSeqId, handed := false, 0, 0, [];
    }

    /** Copies a run of bytes into the packet. */
    method Put(packet: array<Byte>, at: nat, bytes: seq<Byte>)
      requires at + |bytes| <= packet.Length
      modifies packet
      ensures packet[..at + |bytes|] == old(packet[..at]) + bytes
    {
      for k := 0 to |bytes|
        invariant packet[..at + k] == old(packet[..at]) + bytes[..k]
      {
        packet[at + k] := bytes[k];
      }
    }

    /** One record behind the part that is already there. */
    method PutRecord(packet: array<Byte>, at: nat, ghost header: seq<Byte>, records: seq<seq<Byte>>, i: nat) returns (len: nat)
      requires i < |records| && at + |records[i]| <= packet.Length && packet[..at] == header + Flatten(records[..i])
      modifies packet
      ensures len == at + |records[i]| && packet[..len] == header + Flatten(records[..i + 1])
    {
      Put(packet, at, records[i]);
      FrameGrows(header, records, i);
      len := at + |records[i]|;
    }

    /** Header, then record after record, into the packet buffer. */
    method BuildPacket(packet: array<Byte>, h: Header, records: seq<seq<Byte>>, size: nat) returns (len: nat)
      requires AllSized(records, size) && HEADER_SIZE + size * |records| <= packet.Length
      modifies packet
      ensures len <= packet.Length && packet[..len] == Frame(h, records)
    {
      Put(packet, 0, HeaderBytes(h));
      len := HEADER_SIZE;
      assert Flatten(records[..0]) == [];
      for i := 0 to |records|
        invariant len == HEADER_SIZE + size * i <= packet.Length
        invariant packet[..len] == HeaderBytes(h) + Flatten(records[..i])
      {
        NextFits(size, i, |records|);
        len := PutRecord(packet, len, HeaderBytes(h), records, i);
      }
      assert records[..|records|] == records;
    }

    /** One pass of the sending loop: number, build and hand over a packet. */
    method SendOne(packet: array<Byte>, kind: Kind, src: Source, piece: seq<seq<Byte>>, size: nat, last: nat) returns (next: nat)
      requires AllSized(piece, size) && HEADER_SIZE + size * |piece| <= packet.Length
      modifies this`handed, packet
      ensures next == Wrap16(last + 1)
      ensures handed == old(handed) + [Handed(kind, Frame(HeaderFor(src, next, |piece|), piece))]
    {
      next := Wrap16(last + 1);
      var len := BuildPacket(packet, HeaderFor(src, next, |piece|), piece, size);
      handed := handed + [Handed(kind, packet[..len])];
    }

    /** The sending loop that both callbacks run: cuts the records into packets and hands each one over. */
    method SendAll(kind: Kind, src: Source, records: seq<seq<Byte>>, size: nat, max: nat, first: nat) returns (next: nat)
      requires size > 0 && max > 0 && AllSized(records, size) && HEADER_SIZE + size * max <= MTU_PAYLOAD
      requires first < 0x1_0000
      modifies this`handed
      ensures Sent(kind, src, first, old(handed), Chunks(records, max), handed, next)
    {
      next := first;
      var packet := new Byte[MTU_PAYLOAD](_ => 0);
      var remaining: nat, offset: nat := |records|, 0;
      ghost var done: seq<seq<seq<Byte>>> := [];
      while remaining > 0
        modifies this`handed, packet
        invariant offset + remaining == |records| && CutUpTo(records, max, offset, done)
        invariant Sent(kind, src, first, old(handed), done, handed, next)
      {
        var inPacket := if remaining > max then max else remaining;
        var piece := records[offset..offset + inPacket];
        MulOrder(size, inPacket, max);
        SentNext(kind, src, first, old(handed), done, handed, next, piece);
        next := SendOne(packet, kind, src, piece, size, next);
        CutNext(records, max, offset, done);
        done := done + [piece];
        offset, remaining := offset + inPacket, remaining - inPacket;
      }
      CutDone(records, max, done);
    }

    method PointCloudCallback(src: Source, data: CloudData)
      requires Valid()
      modifies this`seqId, this`handed
      ensures Valid() && Value() == ServiceAfter(old(Value()), Cloud(src, data))
    {
      if data == NoCloud || !clientReady {
        return;
      }
      if !data.HighPoints? {
        return;
      }
      seqId := SendAll(OfPoints, src, RecordsOf(data.points), POINT_SIZE, MAX_POINTS, seqId);
    }

    method ImuDataCallback(src: Source, data: ImuData)
      requires Valid() && (data.Samples? ==> AllSized(data.samples, IMU_SIZE))
      modifies this`imuSeqId, this`handed
      ensures Valid() && Value() == ServiceAfter(old(Value()), Imu(src, data))
    {
      if data == NoImu || !clientReady {
        return;
      }
      imuSeqId := SendAll(OfImu, src, data.samples, IMU_SIZE, MAX_IMU, imuSeqId);
    }
  }

  // ---------------------------------------------------------------- the service as a value

  datatype Service = Service(ready: bool, seqId: nat, imuSeqId: nat, handed: seq<Handed>)

  /** What reaches the service, on one thread: a client's first word, point data and IMU data. */
  datatype Event = ClientSpeaks | Cloud(src: Source, cloud: CloudData) | Imu(src: Source, imu: ImuData)

  function ServiceAfter(s: Service, e: Event): Service {
    match e
    case ClientSpeaks => s.(ready := true)
    case Cloud(src, data) =>
      if !s.ready || !data.HighPoints? then s else HandOver(s, OfPoints, Packets(src, s.seqId, Chunks(RecordsOf(data.points), MAX_POINTS)))
    case Imu(src, data) =>
      if !s.ready || !data.Samples? then s else HandOver(s, OfImu, Packets(src, s.imuSeqId, Chunks(data.samples, MAX_IMU)))
  }

  /** Packets are handed over, on the counter of their kind. */
  function HandOver(s: Service, kind: Kind, ds: seq<seq<Byte>>): Service {
    if kind == OfPoints then s.(seqId := Wrap16(s.seqId + |ds|), handed := s.handed + Tagged(kind, ds))
    else s.(imuSeqId := Wrap16(s.imuSeqId + |ds|), handed := s.handed + Tagged(kind, ds))
  }

  /** `done` are the pieces of the first `offset` records, all of them full while records remain. */
  ghost predicate CutUpTo(records: seq<seq<Byte>>, max: nat, offset: nat, done: seq<seq<seq<Byte>>>) {
    && offset <= |records| && Flatten(done) == records[..offset] && Full(done, max)
    && (offset < |records| ==> forall i :: 0 <= i < |done| ==> |done[i]| == max)
  }

  lemma CutNext(records: seq<seq<Byte>>, max: nat, offset: nat, done: seq<seq<seq<Byte>>>)
    requires max > 0 && CutUpTo(records, max, offset, done) && offset < |records|
    ensures var n := if |records| - offset > max then max else |records| - offset;
            CutUpTo(records, max, offset + n, done + [records[offset..offset + n]])
  {
    var n := if |records| - offset > max then max else |records| - offset;
    var piece := records[offset..offset + n];
    CutFlatten(records, offset, n, done);
    FullPush(done, piece, max);
  }

  lemma CutFlatten(records: seq<seq<Byte>>, offset: nat, n: nat, done: seq<seq<seq<Byte>>>)
    requires offset + n <= |records| && Flatten(done) == records[..offset]
    ensures Flatten(done + [records[offset..offset + n]]) == records[..offset + n]
  {
    FlattenPush(done, records[offset..offset + n]);
    assert records[..offset + n] == records[..offset] + records[offset..offset + n];
  }

  lemma FullPush(done: seq<seq<seq<Byte>>>, piece: seq<seq<Byte>>, max: nat)
    requires 1 <= |piece| <= max && forall i :: 0 <= i < |done| ==> |done[i]| == max
    ensures Full(done + [piece], max)
    ensures |piece| == max ==> forall i :: 0 <= i < |done + [piece]| ==> |(done + [piece])[i]| == max
  {
  }

  lemma CutDone(records: seq<seq<Byte>>, max: nat, done: seq<seq<seq<Byte>>>)
    requires max > 0 && CutUpTo(records, max, |records|, done)
    ensures done == Chunks(records, max)
  {
    assert records[..|records|] == records;
    FullIsChunks(done, max);
  }

  function RecordsOf(points: seq<RawPoint>): (r: seq<seq<Byte>>)
    ensures |r| == |points| && AllSized(r, POINT_SIZE)
  {
    PointRecords(seq(|points|, i requires 0 <= i < |points| => Truncated(points[i])))
  }

  lemma FrameGrows(header: seq<Byte>, records: seq<seq<Byte>>, i: nat)
    requires i < |records|
    ensures header + Flatten(records[..i + 1]) == header + Flatten(records[..i]) + records[i]
  {
    assert records[..i + 1] == records[..i] + [records[i]];
    FlattenPush(records[..i], records[i]);
  }

  /** After sending `pieces`: what has been handed over, and where the counter stands. */
  ghost predicate Sent(kind: Kind, src: Source, first: nat, before: seq<Handed>, pieces: seq<seq<seq<Byte>>>, now: seq<Handed>, next: nat) {
    && now == before + Tagged(kind, Packets(src, first, pieces))
    && next == Wrap16(first + |pieces|)
  }

  lemma SentNext(kind: Kind, src: Source, first: nat, before: seq<Handed>, pieces: seq<seq<seq<Byte>>>, now: seq<Handed>, next: nat, piece: seq<seq<Byte>>)
    requires Sent(kind, src, first, before, pieces, now, next)
    ensures Sent(kind, src, first, before, pieces + [piece],
                 now + [Handed(kind, Frame(HeaderFor(src, Wrap16(next + 1), |piece|), piece))], Wrap16(next + 1))
  {
    WrapAdd(first + |pieces|, 1);
    PacketsPush(src, first, pieces, piece);
    var frame := Frame(HeaderFor(src, Wrap16(next + 1), |piece|), piece);
    TaggedPush(kind, Packets(src, first, pieces), frame);
    assert before + (Tagged(kind, Packets(src, first, pieces)) + [Handed(kind, frame)]) == now + [Handed(kind, frame)];
  }

  lemma TaggedPush(kind: Kind, ds: seq<seq<Byte>>, d: seq<Byte>)
    ensures Tagged(kind, ds + [d]) == Tagged(kind, ds) + [Handed(kind, d)]
  {
  }

  lemma PacketsPush(src: Source, seqId: nat, pieces: seq<seq<seq<Byte>>>, piece: seq<seq<Byte>>)
    ensures Packets(src, seqId, pieces + [piece]) ==
            Packets(src, seqId, pieces) + [Frame(HeaderFor(src, Wrap16(seqId + |pieces| + 1), |piece|), piece)]
  {
  }

  // ---------------------------------------------------------------- what the receiver gets

  /** The parsed packets, and the records in them. */
  function ParseAll(ds: seq<seq<Byte>>, size: nat): (r: seq<Parsed>)
    requires size > 0
    ensures |r| == |ds|
  {
    seq(|ds|, i requires 0 <= i < |ds| => Parse(ds[i], size))
  }

  function Payload(p: Parsed): seq<seq<Byte>> {
    if p.Parsed? then p.records else []
  }

  function Payloads(ps: seq<Parsed>): (r: seq<seq<seq<Byte>>>)
    ensures |r| == |ps|
  {
    seq(|ps|, i requires 0 <= i < |ps| => Payload(ps[i]))
  }

  /** All records of a sequence of packets. */
  function Carried(ds: seq<seq<Byte>>, size: nat): seq<seq<Byte>>
    requires size > 0
  {
    Flatten(Payloads(ParseAll(ds, size)))
  }

  /** Packet `j` of a callback: fits the frame, parses, is numbered consecutively and carries the callback's tags. */
  ghost predicate GoodPacket(src: Source, seqId: nat, d: seq<Byte>, size: nat, j: nat)
    requires size > 0
  {
    && |d| <= 1472
    && var p := Parse(d, size);
    && p.Parsed? && p.seqId == (seqId + j + 1) % 0x1_0000
    && p.handle == src.handle && p.devType == src.devType && p.dataType == src.dataType
    && p.nsec < 1_000_000_000 && (src.timestamp < 0x1_0000_0000 * 1_000_000_000 ==> p.sec * 1_000_000_000 + p.nsec == src.timestamp)
  }

  ghost predicate AllGood(src: Source, seqId: nat, ds: seq<seq<Byte>>, size: nat)
    requires size > 0
  {
    forall j :: 0 <= j < |ds| ==> GoodPacket(src, seqId, ds[j], size, j)
  }

  lemma {:induction false} ChunksSized(records: seq<seq<Byte>>, n: nat, size: nat)
    requires n > 0 && AllSized(records, size)
    ensures forall j :: 0 <= j < |Chunks(records, n)| ==> AllSized(Chunks(records, n)[j], size)
  {
    if |records| > n {
      ChunksSized(records[n..], n, size);
    }
  }

  lemma PacketIsGood(src: Source, seqId: nat, piece: seq<seq<Byte>>, size: nat, max: nat, j: nat)
    requires size > 0 && AllSized(piece, size) && |piece| <= max < 0x1_0000 && HEADER_SIZE + size * max <= MTU_PAYLOAD
    ensures var d := Frame(HeaderFor(src, Wrap16(seqId + j + 1), |piece|), piece);
            GoodPacket(src, seqId, d, size, j) && Payload(Parse(d, size)) == piece
  {
    var h := HeaderFor(src, Wrap16(seqId + j + 1), |piece|);
    FrameRoundTrip(h, piece, size);
    FlattenLength(piece, size);
    MulOrder(size, |piece|, max);
    TimestampRecombines(src.timestamp);
  }

  /** For every number of records: each packet is good, and together they carry every record once and in order. */
  lemma PacketsDeliver(src: Source, seqId: nat, records: seq<seq<Byte>>, size: nat, max: nat)
    requires size > 0 && 0 < max < 0x1_0000 && AllSized(records, size) && HEADER_SIZE + size * max <= MTU_PAYLOAD
    ensures Delivered(src, seqId, Chunks(records, max), records, size)
  {
    ChunksAreFull(records, max);
    ChunksSized(records, max, size);
    PiecesDeliver(src, seqId, Chunks(records, max), size, max);
  }

  /** The packets of the pieces are good, and carry exactly the records. */
  ghost predicate Delivered(src: Source, seqId: nat, pieces: seq<seq<seq<Byte>>>, records: seq<seq<Byte>>, size: nat)
    requires size > 0
  {
    AllGood(src, seqId, Packets(src, seqId, pieces), size) && Carried(Packets(src, seqId, pieces), size) == records
  }

  lemma PiecesDeliver(src: Source, seqId: nat, pieces: seq<seq<seq<Byte>>>, size: nat, max: nat)
    requires size > 0 && max < 0x1_0000 && HEADER_SIZE + size * max <= MTU_PAYLOAD
    requires forall j :: 0 <= j < |pieces| ==> |pieces[j]| <= max && AllSized(pieces[j], size)
    ensures forall j :: 0 <= j < |pieces| ==> GoodPacket(src, seqId, Packets(src, seqId, pieces)[j], size, j)
    ensures Payloads(ParseAll(Packets(src, seqId, pieces), size)) == pieces
  {
    var ds := Packets(src, seqId, pieces);
    var payloads := Payloads(ParseAll(ds, size));
    forall j | 0 <= j < |pieces|
      ensures GoodPacket(src, seqId, ds[j], size, j) && payloads[j] == pieces[j]
    {
      PacketIsGood(src, seqId, pieces[j], size, max, j);
    }
  }

  /** A point callback with n points: ceil(n / 242) good packets, from which every point comes back in order, coordinate
      by coordinate modulo 2^16. */
  lemma PointsDelivered(src: Source, seqId: nat, points: seq<RawPoint>)
    ensures var ds := Packets(src, seqId, Chunks(RecordsOf(points), MAX_POINTS));
            var out := DecodeRecords(Carried(ds, POINT_SIZE));
            && |ds| == (|points| + 241) / 242
            && AllGood(src, seqId, ds, POINT_SIZE)
            && |out| == |points| && forall i :: 0 <= i < |points| ==> Matches(out[i], points[i])
  {
    var records := RecordsOf(points);
    ChunkCount(records, MAX_POINTS);
    PacketsDeliver(src, seqId, records, POINT_SIZE, MAX_POINTS);
    forall i | 0 <= i < |points| ensures Matches(DecodeRecords(records)[i], points[i]) {
      PointRoundTrip(Truncated(points[i]));
      TruncatedMatches(points[i]);
    }
  }

  /** An IMU callback with n samples: ceil(n / 60) good packets, from which every sample comes back in order. */
  lemma SamplesDelivered(src: Source, seqId: nat, samples: seq<seq<Byte>>)
    requires AllSized(samples, IMU_SIZE)
    ensures var ds := Packets(src, seqId, Chunks(samples, MAX_IMU));
            && |ds| == (|samples| + 59) / 60
            && AllGood(src, seqId, ds, IMU_SIZE)
            && Carried(ds, IMU_SIZE) == samples
  {
    ChunkCount(samples, MAX_IMU);
    PacketsDeliver(src, seqId, samples, IMU_SIZE, MAX_IMU);
  }

  // ---------------------------------------------------------------- any number of callbacks

  datatype Callback = Callback(src: Source, records: seq<seq<Byte>>)

  /** One thread's counter and the packets of all its callbacks so far. */
  datatype Stream = Stream(next: nat, handed: seq<seq<Byte>>)

  function StreamAfter(s: Stream, c: Callback, max: nat): Stream
    requires max > 0
  {
    StreamWith(s, Packets(c.src, s.next, Chunks(c.records, max)))
  }

  function StreamWith(s: Stream, ds: seq<seq<Byte>>): Stream {
    Stream(Wrap16(s.next + |ds|), s.handed + ds)
  }

  function StreamOf(callbacks: seq<Callback>, max: nat): Stream
    requires max > 0
  {
    if callbacks == [] then Stream(0, [])
    else StreamAfter(StreamOf(callbacks[..|callbacks| - 1], max), callbacks[|callbacks| - 1], max)
  }

  function AllRecords(callbacks: seq<Callback>): seq<seq<Byte>> {
    if callbacks == [] then [] else AllRecords(callbacks[..|callbacks| - 1]) + callbacks[|callbacks| - 1].records
  }

  ghost predicate NumberedFrom1(handed: seq<seq<Byte>>, size: nat)
    requires size > 0
  {
    forall j :: 0 <= j < |handed| ==> Parse(handed[j], size).Parsed? && Parse(handed[j], size).seqId == (j + 1) % 0x1_0000
  }

  /** The stream carries exactly `records`, in packets numbered consecutively from 1. */
  ghost predicate Delivers(s: Stream, records: seq<seq<Byte>>, size: nat)
    requires size > 0
  {
    && s.next == Wrap16(|s.handed|) && NumberedFrom1(s.handed, size)
    && Carried(s.handed, size) == records
  }

  lemma StreamStep(s: Stream, records: seq<seq<Byte>>, c: Callback, size: nat, max: nat)
    requires size > 0 && 0 < max < 0x1_0000 && HEADER_SIZE + size * max <= MTU_PAYLOAD
    requires Delivers(s, records, size) && AllSized(c.records, size)
    ensures Delivers(StreamAfter(s, c, max), records + c.records, size)
  {
    PacketsDeliver(c.src, s.next, c.records, size, max);
    StreamGrows(s, records, c, Chunks(c.records, max), size);
  }

  lemma StreamGrows(s: Stream, records: seq<seq<Byte>>, c: Callback, pieces: seq<seq<seq<Byte>>>, size: nat)
    requires size > 0 && Delivers(s, records, size)
    requires Delivered(c.src, s.next, pieces, c.records, size)
    ensures Delivers(StreamWith(s, Packets(c.src, s.next, pieces)), records + c.records, size)
  {
    var ds := Packets(c.src, s.next, pieces);
    CarriedAppend(s.handed, ds, size);
    WrapAdd(|s.handed|, |ds|);
    StreamNumbered(c.src, s, ds, size);
  }

  lemma CarriedAppend(a: seq<seq<Byte>>, b: seq<seq<Byte>>, size: nat)
    requires size > 0
    ensures Carried(a + b, size) == Carried(a, size) + Carried(b, size)
  {
    PayloadsAppend(a, b, size);
    FlattenAppend(Payloads(ParseAll(a, size)), Payloads(ParseAll(b, size)));
  }

  /** Over all callbacks of a thread, packets are numbered consecutively from 1 with 16-bit wrap-around and carry
      every record of every callback once and in order. */
  lemma {:induction false} StreamDelivers(callbacks: seq<Callback>, size: nat, max: nat)
    requires size > 0 && 0 < max < 0x1_0000 && HEADER_SIZE + size * max <= MTU_PAYLOAD
    requires forall i :: 0 <= i < |callbacks| ==> AllSized(callbacks[i].records, size)
    ensures Delivers(StreamOf(callbacks, max), AllRecords(callbacks), size)
  {
    if callbacks == [] {
    } else {
      var init, c := callbacks[..|callbacks| - 1], callbacks[|callbacks| - 1];
      StreamDelivers(init, size, max);
      StreamStep(StreamOf(init, max), AllRecords(init), c, size, max);
    }
  }

  lemma PayloadsAppend(a: seq<seq<Byte>>, b: seq<seq<Byte>>, size: nat)
    requires size > 0
    ensures Payloads(ParseAll(a + b, size)) == Payloads(ParseAll(a, size)) + Payloads(ParseAll(b, size))
  {
  }

  lemma StreamNumbered(src: Source, s: Stream, ds: seq<seq<Byte>>, size: nat)
    requires size > 0 && s.next == Wrap16(|s.handed|) && NumberedFrom1(s.handed, size)
    requires AllGood(src, s.next, ds, size)
    ensures NumberedFrom1(s.handed + ds, size)
  {
    var n := |s.handed|;
    forall j | n <= j < n + |ds|
      ensures Parse((s.handed + ds)[j], size).Parsed? && Parse((s.handed + ds)[j], size).seqId == (j + 1) % 0x1_0000
    {
      assert GoodPacket(src, s.next, ds[j - n], size, j - n);
      WrapAdd(n, j - n + 1);
    }
  }

  // ---------------------------------------------------------------- both kinds of callback

  function ServiceRun(events: seq<Event>): Service {
    if events == [] then Service(false, 0, 0, [])
    else ServiceAfter(ServiceRun(events[..|events| - 1]), events[|events| - 1])
  }

  /** The datagrams of one kind among the first `n`, in order. */
  function FirstOfKind(handed: seq<Handed>, n: nat, kind: Kind): seq<seq<Byte>>
    requires n <= |handed|
  {
    if n == 0 then [] else FirstOfKind(handed, n - 1, kind) + if handed[n - 1].kind == kind then [handed[n - 1].bytes] else []
  }

  function OfKind(handed: seq<Handed>, kind: Kind): seq<seq<Byte>> {
    FirstOfKind(handed, |handed|, kind)
  }

  /** What one event brings to the callback of a kind. */
  function CallbackOf(e: Event, kind: Kind): seq<Callback> {
    match e
    case ClientSpeaks => []
    case Cloud(src, data) => if kind == OfPoints && data.HighPoints? then [Callback(src, RecordsOf(data.points))] else []
    case Imu(src, data) => if kind == OfImu && data.Samples? then [Callback(src, data.samples)] else []
  }

  /** What reaches the callback of a kind once a client has spoken. */
  function Callbacks(events: seq<Event>, kind: Kind): seq<Callback> {
    if events == [] then []
    else Callbacks(events[..|events| - 1], kind) +
         if exists i :: 0 <= i < |events| - 1 && events[i] == ClientSpeaks then CallbackOf(events[|events| - 1], kind) else []
  }

  function RecordSize(kind: Kind): nat {
    if kind == OfPoints then POINT_SIZE else IMU_SIZE
  }

  function RecordLimit(kind: Kind): nat {
    if kind == OfPoints then MAX_POINTS else MAX_IMU
  }

  /** One kind's counter and datagrams. */
  function SubStream(s: Service, kind: Kind): Stream {
    Stream(if kind == OfPoints then s.seqId else s.imuSeqId, OfKind(s.handed, kind))
  }

  ghost predicate WellSized(events: seq<Event>) {
    forall i :: 0 <= i < |events| && events[i].Imu? && events[i].imu.Samples? ==> AllSized(events[i].imu.samples, IMU_SIZE)
  }

  lemma {:induction false} FirstStable(a: seq<Handed>, b: seq<Handed>, n: nat, kind: Kind)
    requires n <= |a|
    ensures FirstOfKind(a + b, n, kind) == FirstOfKind(a, n, kind)
  {
    if n > 0 {
      FirstStable(a, b, n - 1, kind);
    }
  }

  lemma {:induction false} FirstTagged(a: seq<Handed>, tag: Kind, ds: seq<seq<Byte>>, n: nat, kind: Kind)
    requires n <= |ds|
    ensures FirstOfKind(a + Tagged(tag, ds), |a| + n, kind) == OfKind(a, kind) + if tag == kind then ds[..n] else []
  {
    if n == 0 {
      FirstStable(a, Tagged(tag, ds), |a|, kind);
    } else {
      FirstTagged(a, tag, ds, n - 1, kind);
      assert (a + Tagged(tag, ds))[|a| + n - 1] == Handed(tag, ds[n - 1]);
      assert ds[..n] == ds[..n - 1] + [ds[n - 1]];
    }
  }

  lemma {:induction false} ReadyWhenSpoken(events: seq<Event>)
    ensures ServiceRun(events).ready <==> exists i :: 0 <= i < |events| && events[i] == ClientSpeaks
  {
    if events != [] {
      var init, last := events[..|events| - 1], events[|events| - 1];
      ReadyWhenSpoken(init);
      if last == ClientSpeaks {
        assert events[|init|] == ClientSpeaks;
      } else if ServiceRun(init).ready {
        var i :| 0 <= i < |init| && init[i] == ClientSpeaks;
        assert events[i] == ClientSpeaks;
      }
    }
  }

  /** One event moves the stream of each kind by that event's callback of the kind. */
  lemma EventStream(s: Service, e: Event, kind: Kind)
    ensures var c := CallbackOf(e, kind);
            SubStream(ServiceAfter(s, e), kind) ==
            if s.ready && c != [] then StreamAfter(SubStream(s, kind), c[0], RecordLimit(kind)) else SubStream(s, kind)
  {
    match e
    case ClientSpeaks =>
    case Cloud(src, data) =>
      if data.HighPoints? {
        HandOverStream(s, OfPoints, Packets(src, s.seqId, Chunks(RecordsOf(data.points), MAX_POINTS)), kind);
      }
    case Imu(src, data) =>
      if data.Samples? {
        HandOverStream(s, OfImu, Packets(src, s.imuSeqId, Chunks(data.samples, MAX_IMU)), kind);
      }
  }

  lemma HandOverStream(s: Service, tag: Kind, ds: seq<seq<Byte>>, kind: Kind)
    ensures SubStream(HandOver(s, tag, ds), kind) == if tag == kind then StreamWith(SubStream(s, kind), ds) else SubStream(s, kind)
  {
    HandedMore(s.handed, tag, ds, kind);
  }

  lemma HandedMore(handed: seq<Handed>, tag: Kind, ds: seq<seq<Byte>>, kind: Kind)
    ensures OfKind(handed + Tagged(tag, ds), kind) == if tag == kind then OfKind(handed, kind) + ds else OfKind(handed, kind)
  {
    FirstTagged(handed, tag, ds, |ds|, kind);
    assert ds[..|ds|] == ds;
  }

  /** For any mixture of point and IMU callbacks, with a client that speaks at any time or never, the datagrams of each
      kind are the stream of that kind's callbacks since then. */
  lemma MixedStreams(events: seq<Event>, kind: Kind)
    ensures SubStream(ServiceRun(events), kind) == StreamOf(Callbacks(events, kind), RecordLimit(kind))
  {
    MixedUpTo(events, |events|, kind);
    assert events[..|events|] == events;
  }

  ghost predicate IsStream(events: seq<Event>, kind: Kind) {
    SubStream(ServiceRun(events), kind) == StreamOf(Callbacks(events, kind), RecordLimit(kind))
  }

  lemma {:induction false} MixedUpTo(events: seq<Event>, n: nat, kind: Kind)
    requires n <= |events|
    ensures IsStream(events[..n], kind)
  {
    if n > 0 {
      MixedUpTo(events, n - 1, kind);
      MixedPush(events[..n - 1], events[n - 1], kind);
      assert events[..n] == events[..n - 1] + [events[n - 1]];
    }
  }

  lemma MixedPush(init: seq<Event>, last: Event, kind: Kind)
    requires IsStream(init, kind)
    ensures IsStream(init + [last], kind)
  {
    ReadyWhenSpoken(init);
    MixedStep(ServiceRun(init), Callbacks(init, kind), last, kind);
    CallbacksPush(init, last, kind);
    ServicePush(init, last);
  }

  lemma ServicePush(init: seq<Event>, last: Event)
    ensures ServiceRun(init + [last]) == ServiceAfter(ServiceRun(init), last)
  {
    assert (init + [last])[..|init|] == init;
  }

  lemma MixedStep(s: Service, callbacks: seq<Callback>, e: Event, kind: Kind)
    requires SubStream(s, kind) == StreamOf(callbacks, RecordLimit(kind))
    ensures SubStream(ServiceAfter(s, e), kind) ==
            StreamOf(callbacks + (if s.ready then CallbackOf(e, kind) else []), RecordLimit(kind))
  {
    EventStream(s, e, kind);
    StreamPush(callbacks, if s.ready then CallbackOf(e, kind) else [], RecordLimit(kind));
  }

  lemma CallbacksPush(init: seq<Event>, last: Event, kind: Kind)
    ensures Callbacks(init + [last], kind) ==
            Callbacks(init, kind) + if exists i :: 0 <= i < |init| && init[i] == ClientSpeaks then CallbackOf(last, kind) else []
  {
    var events := init + [last];
    assert events[..|events| - 1] == init;
    assert forall i :: 0 <= i < |init| ==> events[i] == init[i];
  }

  lemma StreamPush(callbacks: seq<Callback>, more: seq<Callback>, max: nat)
    requires max > 0 && |more| <= 1
    ensures StreamOf(callbacks + more, max) == if more == [] then StreamOf(callbacks, max) else StreamAfter(StreamOf(callbacks, max), more[0], max)
  {
    if more == [] {
      assert callbacks + more == callbacks;
    } else {
      assert (callbacks + more)[..|callbacks|] == callbacks;
    }
  }

  lemma {:induction false} CallbacksSized(events: seq<Event>, kind: Kind)
    requires WellSized(events)
    ensures forall i :: 0 <= i < |Callbacks(events, kind)| ==> AllSized(Callbacks(events, kind)[i].records, RecordSize(kind))
  {
    if events != [] {
      var init, last := events[..|events| - 1], events[|events| - 1];
      CallbacksSized(init, kind);
      var cs, more := Callbacks(init, kind), CallbackOf(last, kind);
      assert more != [] ==> AllSized(more[0].records, RecordSize(kind));
      assert forall i :: 0 <= i < |cs + more| ==> AllSized((cs + more)[i].records, RecordSize(kind));
      assert Callbacks(events, kind) == cs || Callbacks(events, kind) == cs + more;
    }
  }

  /** So each kind's datagrams are numbered from 1 without gaps, modulo 2^16, and carry every record of the kind once and
      in order, whatever the other kind does. */
  lemma MixedDelivers(events: seq<Event>, kind: Kind)
    requires WellSized(events)
    ensures Delivers(SubStream(ServiceRun(events), kind), AllRecords(Callbacks(events, kind)), RecordSize(kind))
  {
    MixedStreams(events, kind);
    CallbacksSized(events, kind);
    StreamDelivers(Callbacks(events, kind), RecordSize(kind), RecordLimit(kind));
  }
}
