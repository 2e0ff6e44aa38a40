/** The filtering lidar service: points near the horizontal plane, in datagrams of at most 512 bytes. */
module LidarFilter {
  import opened Bytes

  const MAX_UDP_PAYLOAD: nat := 512
  const POINT_SIZE: nat := 6

  /** (512 - 2) / 6 */
  const POINTS_PER_PACKET: nat := 85

  datatype RawPoint = RawPoint(x: int, y: int, z: int)
  datatype Point = Point(x: Int16, y: Int16, z: Int16)

  datatype DataType = CartesianHigh | OtherType
  datatype Packet = NoPacket | Packet(dataType: DataType, points: seq<RawPoint>)

  function Truncated(p: RawPoint): Point {
    Point(ToInt16(p.x), ToInt16(p.y), ToInt16(p.z))
  }

  predicate Kept(p: Point) {
    -80 < p.z < 80
  }

  /** The points a callback must deliver: truncated, near the plane, in order. */
  function Filtered(points: seq<RawPoint>): seq<Point> {
    if points == [] then []
    else
      var rest, p := Filtered(points[..|points| - 1]), Truncated(points[|points| - 1]);
      if Kept(p) then rest + [p] else rest
  }

  /** The points of the packets the service looks at. */
  function Accepted(data: Packet): seq<RawPoint> {
    if data.Packet? && data.dataType == CartesianHigh then data.points else []
  }

  // ---------------------------------------------------------------- the datagram format

  function PointBytes(p: Point): (s: seq<Byte>)
    ensures |s| == POINT_SIZE
  {
    Int16Bytes(p.x) + Int16Bytes(p.y) + Int16Bytes(p.z)
  }

  function PointRecords(points: seq<Point>): (r: seq<seq<Byte>>)
    ensures |r| == |points| && AllSized(r, POINT_SIZE)
  {
    seq(|points|, i requires 0 <= i < |points| => PointBytes(points[i]))
  }

  function Encode(seqId: nat, points: seq<Point>): seq<Byte> {
    Little(seqId, 2) + Flatten(PointRecords(points))
  }

  /** A receiver's view: the sequence number and the points of one datagram. */
  function DecodeSeq(d: seq<Byte>): nat {
    if |d| < 2 then 0 else FromLittle(d[..2])
  }

  function DecodePoint(b: seq<Byte>): Point
    requires |b| == POINT_SIZE
  {
    Point(FromInt16Bytes(b[..2]), FromInt16Bytes(b[2..4]), FromInt16Bytes(b[4..]))
  }

  function DecodeRecords(records: seq<seq<Byte>>): seq<Point> {
    seq(|records|, i requires 0 <= i < |records| =>
      if |records[i]| == POINT_SIZE then DecodePoint(records[i]) else Point(0, 0, 0))
  }

  function DecodePoints(d: seq<Byte>): seq<Point> {
    if |d| < 2 then [] else DecodeRecords(SplitRecords(d[2..], POINT_SIZE))
  }

  function Decoded(ds: seq<seq<Byte>>): (r: seq<seq<Point>>)
    ensures |r| == |ds|
  {
    seq(|ds|, i requires 0 <= i < |ds| => DecodePoints(ds[i]))
  }

  lemma PointRoundTrip(p: Point)
    ensures DecodePoint(PointBytes(p)) == p
  {
    var b := PointBytes(p);
    assert b[..2] == Int16Bytes(p.x) && b[2..4] == Int16Bytes(p.y) && b[4..] == Int16Bytes(p.z);
    Int16RoundTrip(p.x);
    Int16RoundTrip(p.y);
    Int16RoundTrip(p.z);
  }

  lemma EncodeRoundTrip(seqId: nat, points: seq<Point>)
    requires seqId < 0x1_0000
    ensures |Encode(seqId, points)| == 2 + POINT_SIZE * |points|
    ensures DecodeSeq(Encode(seqId, points)) == seqId
    ensures DecodePoints(Encode(seqId, points)) == points
  {
    var d, records := Encode(seqId, points), PointRecords(points);
    assert d[..2] == Little(seqId, 2) && d[2..] == Flatten(records);
    Widths();
    LittleRoundTrip(seqId, 2);
    FlattenLength(records, POINT_SIZE);
    SplitFlatten(records, POINT_SIZE);
    forall i | 0 <= i < |points| ensures DecodeRecords(records)[i] == points[i] {
      PointRoundTrip(points[i]);
    }
  }

  /** What the bytes of a point record mean: x, y and z, each the low byte first, modulo 2^16. */
  lemma PointLayout(b: seq<Byte>)
    requires |b| == 6
    ensures var p := DecodePoint(b);
            && (p.x - (b[0] + 256 * (b[1] as nat))) % 0x1_0000 == 0 && (p.y - (b[2] + 256 * (b[3] as nat))) % 0x1_0000 == 0
            && (p.z - (b[4] + 256 * (b[5] as nat))) % 0x1_0000 == 0
  {
    Int16Layout(b[..2]);
    Int16Layout(b[2..4]);
    Int16Layout(b[4..]);
  }

  /** What the bytes of a datagram mean: the sequence number, low byte first, then six bytes for each point. */
  lemma DatagramLayout(d: seq<Byte>, n: nat, k: nat)
    requires |d| == 2 + 6 * n && k < n
    ensures DecodeSeq(d) == d[0] + 256 * (d[1] as nat) && |DecodePoints(d)| == n
    ensures DecodePoints(d)[k] == DecodePoint(d[2 + 6 * k..8 + 6 * k])
  {
    FromLittle2(d[..2]);
    SplitAt(d[2..], 6, n, k);
    assert d[2..][6 * k..6 * k + 6] == d[2 + 6 * k..8 + 6 * k];
  }

  // ---------------------------------------------------------------- one callback

  /** The datagrams for the given pieces, numbered from `seqId` with 16-bit wrap-around. */
  function Datagrams(seqId: nat, pieces: seq<seq<Point>>): (ds: seq<seq<Byte>>)
    ensures |ds| == |pieces|
  {
    seq(|pieces|, j requires 0 <= j < |pieces| => Encode(Wrap16(seqId + j), pieces[j]))
  }

  /** What a service thread has done: its next sequence number and what it handed to `sendtoClient`. */
  datatype Thread = Thread(seqId: nat, handed: seq<seq<Byte>>)

  function After(t: Thread, data: Packet): Thread {
    var pieces := Chunks(Filtered(Accepted(data)), POINTS_PER_PACKET);
    Thread(Wrap16(t.seqId + |pieces|), t.handed + Datagrams(t.seqId, pieces))
  }

  class FilterService {
    var seqId: nat
    var handed: seq<seq<Byte>>

    ghost predicate Valid()
      reads this
    {
      seqId < 0x1_0000
    }

    ghost function Value(): Thread
      reads this
    {
      Thread(seqId, handed)
    }

    constructor ()
      ensures Valid() && Value() == Thread(0, [])
    {
      seqId, handed := 0, [];
    }

    method PutPoint(packet: array<Byte>, offset: nat, p: Point)
      requires offset + POINT_SIZE <= packet.Length
      modifies packet
      ensures packet[..offset + POINT_SIZE] == old(packet[..offset]) + PointBytes(p)
    {
      var bytes := PointBytes(p);
      for k := 0 to POINT_SIZE
        invariant packet[..offset + k] == old(packet[..offset]) + bytes[..k]
      {
        packet[offset + k] := bytes[k];
      }
    }

    method PutSeqId(packet: array<Byte>)
      requires packet.Length == MAX_UDP_PAYLOAD
      modifies packet
      ensures packet[..2] == Encode(seqId, [])
    {
      var bytes := Little(seqId, 2);
      packet[0] := bytes[0];
      packet[1] := bytes[1];
      assert Encode(seqId, []) == bytes;
    }

    method SendToClient(packet: array<Byte>, len: nat)
      requires len <= packet.Length
      modifies this`handed
      ensures handed == old(handed) + [packet[..len]]
    {
      handed := handed + [packet[..len]];
    }

    /** The packet under construction: `cur` after the sequence number, `done` already handed over. */
    ghost predicate Filling(packet: array<Byte>, offset: nat, start: Thread, done: seq<seq<Point>>, cur: seq<Point>)
      reads this, packet
    {
      && Valid() && packet.Length == MAX_UDP_PAYLOAD && Building(start, Value(), done, cur)
      && offset == 2 + POINT_SIZE * |cur| && packet[..offset] == Encode(seqId, cur)
    }

    /** Hands the packet over and starts the next one. */
    method Flush(packet: array<Byte>, offset: nat, ghost start: Thread, ghost done: seq<seq<Point>>, ghost cur: seq<Point>)
      requires Filling(packet, offset, start, done, cur)
      modifies this
      ensures seqId == Wrap16(old(seqId) + 1)
      ensures HandedOver(start, Value(), done + [cur])
    {
      HandOver(start, Value(), done, cur);
      SendToClient(packet, offset);
      seqId := Wrap16(seqId + 1);
    }

    /** The loop body for a point that passed the filter. */
    method AddPoint(packet: array<Byte>, offset: nat, p: Point, ghost start: Thread, ghost done: seq<seq<Point>>, ghost cur: seq<Point>)
      returns (next: nat, ghost done': seq<seq<Point>>, ghost cur': seq<Point>)
      requires Filling(packet, offset, start, done, cur)
      modifies this, packet
      ensures Filling(packet, next, start, done', cur') && cur' != []
      ensures Flatten(done') + cur' == Flatten(done) + cur + [p]
    {
      next, done', cur' := offset, done, cur;
      if offset + POINT_SIZE > MAX_UDP_PAYLOAD {
        Flush(packet, offset, start, done, cur);
        next := 2;
        PutSeqId(packet);
        FlattenPush(done, cur);
        done', cur' := done + [cur], [];
      }
      PutPoint(packet, next, p);
      AppendPoint(seqId, cur', p);
      next, cur' := next + POINT_SIZE, cur' + [p];
    }

    method PointCloudCallback(data: Packet)
      requires Valid()
      modifies this
      ensures Valid() && Value() == After(old(Value()), data)
    {
      if data.NoPacket? || data.dataType != CartesianHigh {
        Finished(Value(), Value(), [], data);
        return;
      }
      var pts := data.points;
      var packet := new Byte[MAX_UDP_PAYLOAD](_ => 0);
      PutSeqId(packet);
      var offset := 2;
      ghost var start, done: seq<seq<Point>>, cur: seq<Point> := Value(), [], [];
      assert Datagrams(seqId, done) == [];
      for i := 0 to |pts|
        modifies this, packet
        invariant Filling(packet, offset, start, done, cur)
        invariant Filtered(pts[..i]) == Flatten(done) + cur
      {
        var p := Truncated(pts[i]);
        FilteredPush(pts, i);
        if p.z > -80 && p.z < 80 {
          offset, done, cur := AddPoint(packet, offset, p, start, done, cur);
        }
      }
      assert pts[..|pts|] == pts;
      if offset > 2 {
        Flush(packet, offset, start, done, cur);
        FlattenPush(done, cur);
        done := done + [cur];
      }
      Finished(start, Value(), done, data);
    }
  }

  lemma Finished(start: Thread, now: Thread, done: seq<seq<Point>>, data: Packet)
    requires HandedOver(start, now, done) && Full(done, POINTS_PER_PACKET) && Flatten(done) == Filtered(Accepted(data))
    ensures now == After(start, data)
  {
    FullIsChunks(done, POINTS_PER_PACKET);
  }

  lemma FilteredPush(pts: seq<RawPoint>, i: nat)
    requires i < |pts|
    ensures Filtered(pts[..i + 1]) == Filtered(pts[..i]) + if Kept(Truncated(pts[i])) then [Truncated(pts[i])] else []
  {
    assert pts[..i + 1][..i] == pts[..i];
  }

  /** In the middle of a callback: `done` has been handed over, `cur` is in the packet. */
  ghost predicate Building(start: Thread, now: Thread, done: seq<seq<Point>>, cur: seq<Point>) {
    && |cur| <= POINTS_PER_PACKET && (done != [] ==> cur != [])
    && (forall i :: 0 <= i < |done| ==> |done[i]| == POINTS_PER_PACKET)
    && HandedOver(start, now, done)
  }

  ghost predicate HandedOver(start: Thread, now: Thread, done: seq<seq<Point>>) {
    now == Thread(Wrap16(start.seqId + |done|), start.handed + Datagrams(start.seqId, done))
  }

  lemma HandOver(start: Thread, now: Thread, done: seq<seq<Point>>, cur: seq<Point>)
    requires HandedOver(start, now, done)
    ensures HandedOver(start, Thread(Wrap16(now.seqId + 1), now.handed + [Encode(now.seqId, cur)]), done + [cur])
  {
    WrapAdd(start.seqId + |done|, 1);
    assert Datagrams(start.seqId, done + [cur]) == Datagrams(start.seqId, done) + [Encode(now.seqId, cur)];
    assert start.handed + (Datagrams(start.seqId, done) + [Encode(now.seqId, cur)]) == now.handed + [Encode(now.seqId, cur)];
  }

  lemma AppendPoint(seqId: nat, cur: seq<Point>, p: Point)
    ensures Encode(seqId, cur + [p]) == Encode(seqId, cur) + PointBytes(p)
  {
    assert PointRecords(cur + [p]) == PointRecords(cur) + [PointBytes(p)];
    FlattenAppend(PointRecords(cur), [PointBytes(p)]);
    FlattenOne(PointBytes(p));
  }

  // ---------------------------------------------------------------- any number of callbacks

  function Run(callbacks: seq<Packet>): Thread {
    if callbacks == [] then Thread(0, []) else After(Run(callbacks[..|callbacks| - 1]), callbacks[|callbacks| - 1])
  }

  /** The points of all high-resolution packets, as they came. */
  function AllRaw(callbacks: seq<Packet>): seq<RawPoint> {
    if callbacks == [] then []
    else
      var last := callbacks[|callbacks| - 1];
      AllRaw(callbacks[..|callbacks| - 1]) + if last.Packet? && last.dataType == CartesianHigh then last.points else []
  }

  /** Each coordinate is a 16-bit value congruent to the raw coordinate of the same axis. */
  predicate Matches(p: Point, r: RawPoint) {
    && -0x8000 <= p.x < 0x8000 && (p.x - r.x) % 0x1_0000 == 0
    && -0x8000 <= p.y < 0x8000 && (p.y - r.y) % 0x1_0000 == 0
    && -0x8000 <= p.z < 0x8000 && (p.z - r.z) % 0x1_0000 == 0
  }

  /** The 16-bit value of the raw z is one of -79, ..., 79. */
  predicate NearPlane(r: RawPoint) {
    (r.z + 79) % 0x1_0000 <= 158
  }

  ghost predicate Picked(sel: seq<nat>, i: nat) {
    exists k :: 0 <= k < |sel| && sel[k] == i
  }

  /** `out` are, in order, the raw points at the positions `sel`, and those are exactly the ones near the plane. */
  ghost predicate Selects(raw: seq<RawPoint>, out: seq<Point>, sel: seq<nat>) {
    && |sel| == |out|
    && (forall k :: 0 <= k < |sel| ==> sel[k] < |raw| && Matches(out[k], raw[sel[k]]))
    && (forall j, k :: 0 <= j < k < |sel| ==> sel[j] < sel[k])
    && (forall i :: 0 <= i < |raw| ==> (NearPlane(raw[i]) <==> Picked(sel, i)))
  }

  lemma TruncatedMatches(r: RawPoint)
    ensures Matches(Truncated(r), r) && (Kept(Truncated(r)) <==> NearPlane(r))
  {
    ZRange(r.z, ToInt16(r.z));
  }

  lemma ZRange(z: int, t: int)
    requires -0x8000 <= t < 0x8000 && (t - z) % 0x1_0000 == 0
    ensures -80 < t < 80 <==> (z + 79) % 0x1_0000 <= 158
  {
    var q := (t - z) / 0x1_0000;
    assert z + 79 == t + 79 - 0x1_0000 * q;
    assert (z + 79) % 0x1_0000 == (t + 79) % 0x1_0000;
  }

  lemma SelectNext(raw: seq<RawPoint>, out: seq<Point>, sel: seq<nat>, r: RawPoint, p: Point)
    requires Selects(raw, out, sel) && Matches(p, r)
    ensures NearPlane(r) ==> Selects(raw + [r], out + [p], sel + [|raw|])
    ensures !NearPlane(r) ==> Selects(raw + [r], out, sel)
  {
    var all := raw + [r];
    if NearPlane(r) {
      var sel' := sel + [|raw|];
      forall i | 0 <= i < |all| ensures NearPlane(all[i]) <==> Picked(sel', i) {
        if i < |raw| {
          PickedGrows(sel, |raw|, i);
        } else {
          assert sel'[|sel|] == i;
        }
      }
    } else {
      forall i | 0 <= i < |all| ensures NearPlane(all[i]) <==> Picked(sel, i) {
        assert i < |raw| ==> all[i] == raw[i];
      }
    }
  }

  lemma PickedGrows(sel: seq<nat>, last: nat, i: nat)
    requires i != last
    ensures Picked(sel + [last], i) <==> Picked(sel, i)
  {
    if k :| 0 <= k < |sel| && sel[k] == i {
      assert (sel + [last])[k] == i;
    }
  }

  lemma FilterStep(raw: seq<RawPoint>, out: seq<Point>, sel: seq<nat>, r: RawPoint) returns (sel': seq<nat>)
    requires Selects(raw, out, sel)
    ensures Selects(raw + [r], out + (if Kept(Truncated(r)) then [Truncated(r)] else []), sel')
  {
    TruncatedMatches(r);
    SelectNext(raw, out, sel, r, Truncated(r));
    sel' := if NearPlane(r) then sel + [|raw|] else sel;
    assert out + [] == out;
  }

  lemma {:induction false} FilterSelects(raw: seq<RawPoint>, out: seq<Point>, sel: seq<nat>, points: seq<RawPoint>, n: nat)
    returns (sel': seq<nat>)
    requires Selects(raw, out, sel) && n <= |points|
    ensures Selects(raw + points[..n], out + Filtered(points[..n]), sel')
  {
    if n == 0 {
      sel' := sel;
      assert raw + points[..0] == raw && out + Filtered(points[..0]) == out;
    } else {
      var before := FilterSelects(raw, out, sel, points, n - 1);
      sel' := FilterStep(raw + points[..n - 1], out + Filtered(points[..n - 1]), before, points[n - 1]);
      FilteredPush(points, n - 1);
      Regroup(raw, points[..n - 1], [points[n - 1]]);
      assert points[..n] == points[..n - 1] + [points[n - 1]];
      Regroup(out, Filtered(points[..n - 1]), if Kept(Truncated(points[n - 1])) then [Truncated(points[n - 1])] else []);
    }
  }

  lemma Regroup<T>(a: seq<T>, b: seq<T>, c: seq<T>)
    ensures a + b + c == a + (b + c)
  {
  }

  lemma DatagramsDecode(seqId: nat, pieces: seq<seq<Point>>)
    ensures Decoded(Datagrams(seqId, pieces)) == pieces
  {
    forall j | 0 <= j < |pieces| ensures Decoded(Datagrams(seqId, pieces))[j] == pieces[j] {
      DatagramDecodes(seqId, pieces, j);
    }
  }

  lemma DatagramDecodes(seqId: nat, pieces: seq<seq<Point>>, j: nat)
    requires j < |pieces|
    ensures DecodePoints(Datagrams(seqId, pieces)[j]) == pieces[j]
  {
    var d := Encode(Wrap16(seqId + j), pieces[j]);
    assert Datagrams(seqId, pieces)[j] == d;
    EncodeRoundTrip(Wrap16(seqId + j), pieces[j]);
  }

  lemma DecodedAppend(a: seq<seq<Byte>>, b: seq<seq<Byte>>)
    ensures Decoded(a + b) == Decoded(a) + Decoded(b)
  {
  }

  /** Decoding everything a thread ever handed over gives the raw points whose 16-bit z is in (-80, 80), each once, in
      order and coordinate by coordinate modulo 2^16, and no others. */
  lemma {:induction false} RunDelivers(callbacks: seq<Packet>) returns (sel: seq<nat>)
    ensures Selects(AllRaw(callbacks), Flatten(Decoded(Run(callbacks).handed)), sel)
  {
    if callbacks == [] {
      sel := [];
    } else {
      var init, data := callbacks[..|callbacks| - 1], callbacks[|callbacks| - 1];
      var before := RunDelivers(init);
      var points := Accepted(data);
      HandedDecode(Run(init), data);
      sel := FilterSelects(AllRaw(init), Flatten(Decoded(Run(init).handed)), before, points, |points|);
      assert points[..|points|] == points;
    }
  }

  lemma HandedDecode(t: Thread, data: Packet)
    ensures Flatten(Decoded(After(t, data).handed)) == Flatten(Decoded(t.handed)) + Filtered(Accepted(data))
  {
    var pieces := Chunks(Filtered(Accepted(data)), POINTS_PER_PACKET);
    var ds := Datagrams(t.seqId, pieces);
    ChunksAreFull(Filtered(Accepted(data)), POINTS_PER_PACKET);
    DatagramsDecode(t.seqId, pieces);
    DecodedAppend(t.handed, ds);
    FlattenAppend(Decoded(t.handed), Decoded(ds));
  }

  /** What the j-th datagram of a thread looks like: numbered j modulo 65536, 1 to 85 points, at most 512 bytes. */
  ghost predicate WellFormed(d: seq<Byte>, j: nat) {
    && DecodeSeq(d) == j % 0x1_0000
    && 1 <= |DecodePoints(d)| <= 85
    && |d| == 2 + 6 * |DecodePoints(d)| <= 512
  }

  lemma EncodedWellFormed(j: nat, points: seq<Point>)
    requires 1 <= |points| <= POINTS_PER_PACKET
    ensures WellFormed(Encode(Wrap16(j), points), j)
  {
    EncodeRoundTrip(Wrap16(j), points);
  }

  ghost predicate Numbered(t: Thread) {
    t.seqId == Wrap16(|t.handed|) && forall j :: 0 <= j < |t.handed| ==> WellFormed(t.handed[j], j)
  }

  lemma AfterNumbered(t: Thread, data: Packet)
    requires Numbered(t)
    ensures Numbered(After(t, data))
  {
    ChunksAreFull(Filtered(Accepted(data)), POINTS_PER_PACKET);
    PiecesNumbered(t, Chunks(Filtered(Accepted(data)), POINTS_PER_PACKET));
  }

  lemma PiecesNumbered(t: Thread, pieces: seq<seq<Point>>)
    requires Numbered(t) && Full(pieces, POINTS_PER_PACKET)
    ensures Numbered(Thread(Wrap16(t.seqId + |pieces|), t.handed + Datagrams(t.seqId, pieces)))
  {
    var n := |t.handed|;
    var all := t.handed + Datagrams(t.seqId, pieces);
    WrapAdd(n, |pieces|);
    forall j | 0 <= j < |all| ensures WellFormed(all[j], j) {
      if j >= n {
        assert all[j] == Datagrams(t.seqId, pieces)[j - n];
        DatagramWellFormed(n, pieces, j - n);
      }
    }
  }

  lemma DatagramWellFormed(n: nat, pieces: seq<seq<Point>>, k: nat)
    requires k < |pieces| && Full(pieces, POINTS_PER_PACKET)
    ensures WellFormed(Datagrams(Wrap16(n), pieces)[k], n + k)
  {
    WrapAdd(n, k);
    assert 1 <= |pieces[k]| <= POINTS_PER_PACKET;
    EncodedWellFormed(n + k, pieces[k]);
  }

  lemma {:induction false} RunNumbered(callbacks: seq<Packet>)
    ensures Numbered(Run(callbacks))
  {
    if callbacks != [] {
      RunNumbered(callbacks[..|callbacks| - 1]);
      AfterNumbered(Run(callbacks[..|callbacks| - 1]), callbacks[|callbacks| - 1]);
    }
  }

  /** Within one callback all datagrams but the last are full, and there are as many as needed and no more. */
  lemma CallbackPackets(t: Thread, data: Packet)
    requires t.seqId < 0x1_0000
    ensures var n, emitted := |Filtered(Accepted(data))|, After(t, data).handed[|t.handed|..];
            && |emitted| == (n + 84) / 85
            && forall k :: 0 <= k < |emitted| - 1 ==> |emitted[k]| == 512
  {
    var points := Filtered(Accepted(data));
    var pieces := Chunks(points, POINTS_PER_PACKET);
    var emitted := After(t, data).handed[|t.handed|..];
    ChunksAreFull(points, POINTS_PER_PACKET);
    ChunkCount(points, POINTS_PER_PACKET);
    assert emitted == Datagrams(t.seqId, pieces);
    forall k | 0 <= k < |emitted| - 1 ensures |emitted[k]| == MAX_UDP_PAYLOAD {
      FullDatagram(t.seqId, pieces, k);
    }
  }

  lemma FullDatagram(seqId: nat, pieces: seq<seq<Point>>, k: nat)
    requires k < |pieces| && |pieces[k]| == POINTS_PER_PACKET
    ensures |Datagrams(seqId, pieces)[k]| == MAX_UDP_PAYLOAD
  {
    EncodeRoundTrip(Wrap16(seqId + k), pieces[k]);
  }
}
