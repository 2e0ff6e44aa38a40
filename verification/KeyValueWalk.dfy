/** The walk over the key/value list of a lidar's internal-info response. */
module KeyValueWalk {
  import opened Bytes

  type U16 = n: nat | n < 0x1_0000

  /** One `LivoxLidarKeyValueParam`. */
  datatype Entry = Entry(key: U16, value: seq<Byte>)

  /** The address and the two ports that the walk extracts from a matching entry. */
  datatype Endpoint = Endpoint(ip: seq<Byte>, hostPort: nat, lidarPort: nat)

  const NO_ENDPOINT: Endpoint := Endpoint([0, 0, 0, 0], 0, 0)

  /** The natural printer: key, length and value, in host (little-endian) order. */
  function PrintEntry(e: Entry): seq<Byte> {
    Little(e.key, 2) + Little(|e.value|, 2) + e.value
  }

  function PrintAll(entries: seq<Entry>): seq<Byte> {
    if entries == [] then [] else PrintAll(entries[..|entries| - 1]) + PrintEntry(entries[|entries| - 1])
  }

  function EndpointOf(value: seq<Byte>): Endpoint
    requires |value| >= 8
  {
    Endpoint(value[..4], FromLittle(value[4..6]), FromLittle(value[6..8]))
  }

  /** The lists the walk is written for: matched values hold an address and two ports, offsets fit in 16 bits. */
  ghost predicate WellFormed(entries: seq<Entry>, pointKey: U16, imuKey: U16) {
    && |entries| <= 255 && |PrintAll(entries)| < 0x1_0000
    && forall i :: 0 <= i < |entries| && entries[i].key in {pointKey, imuKey} ==> |entries[i].value| >= 8
  }

  /** What the entry list says about `key`: the endpoint of its last entry, or zeros. */
  ghost predicate Answers(entries: seq<Entry>, key: U16, e: Endpoint) {
    || (e == Endpoint([0, 0, 0, 0], 0, 0) && forall i :: 0 <= i < |entries| ==> entries[i].key != key)
    || exists i :: LastOf(entries, key, i) && |entries[i].value| >= 8 && e == EndpointOf(entries[i].value)
  }

  ghost predicate LastOf(entries: seq<Entry>, key: U16, i: int) {
    0 <= i < |entries| && entries[i].key == key && forall j :: i < j < |entries| ==> entries[j].key != key
  }

  lemma {:induction false} PrintAllSplit(entries: seq<Entry>, i: nat)
    requires i < |entries|
    ensures PrintAll(entries[..i]) + PrintEntry(entries[i]) <= PrintAll(entries)
  {
    if i == |entries| - 1 {
    } else {
      var init := entries[..|entries| - 1];
      PrintAllSplit(init, i);
      assert init[..i] == entries[..i];
    }
  }

  lemma SliceOfSlice(d: seq<Byte>, a: nat, b: nat, i: nat, j: nat)
    requires a <= b <= |d| && i <= j <= b - a
    ensures d[a..b][i..j] == d[a + i..a + j]
  {
    forall k | 0 <= k < j - i ensures d[a..b][i..j][k] == d[a + i..a + j][k] {
    }
  }

  /** The three `memcpy` calls of a match. */
  function ReadEndpoint(data: seq<Byte>, at: nat): Endpoint
    requires at + 8 <= |data|
  {
    Endpoint(data[at..at + 4], FromLittle(data[at + 4..at + 6]), FromLittle(data[at + 6..at + 8]))
  }

  lemma ReadsValue(data: seq<Byte>, at: nat, value: seq<Byte>)
    requires |value| >= 8 && at + |value| <= |data| && data[at..at + |value|] == value
    ensures ReadEndpoint(data, at) == EndpointOf(value)
  {
    SliceOfSlice(data, at, at + |value|, 0, 4);
    SliceOfSlice(data, at, at + |value|, 4, 6);
    SliceOfSlice(data, at, at + |value|, 6, 8);
  }

  lemma EntryParts(e: Entry)
    requires |e.value| < 0x1_0000
    ensures var p := PrintEntry(e);
            |p| == 4 + |e.value| && FromLittle(p[..2]) == e.key && FromLittle(p[2..4]) == |e.value| && p[4..] == e.value
  {
    var p := PrintEntry(e);
    assert p[..2] == Little(e.key, 2) && p[2..4] == Little(|e.value|, 2) && p[4..] == e.value;
    Widths();
    LittleRoundTrip(e.key, 2);
    LittleRoundTrip(|e.value|, 2);
  }

  /** An entry byte by byte: key, length and value, the low byte of each number first. */
  lemma EntryLayout(e: Entry)
    requires |e.value| < 0x1_0000
    ensures var p := PrintEntry(e);
            && |p| == 4 + |e.value| && p[4..] == e.value
            && p[0] + 256 * (p[1] as nat) == e.key && p[2] + 256 * (p[3] as nat) == |e.value|
  {
    EntryParts(e);
    FromLittle2(PrintEntry(e)[..2]);
    FromLittle2(PrintEntry(e)[2..4]);
  }

  /** A matched value byte by byte: the address, the host port and the lidar port. */
  lemma EndpointLayout(v: seq<Byte>)
    requires |v| >= 8
    ensures EndpointOf(v) == Endpoint([v[0], v[1], v[2], v[3]], v[4] + 256 * (v[5] as nat), v[6] + 256 * (v[7] as nat))
  {
    FromLittle2(v[4..6]);
    FromLittle2(v[6..8]);
  }

  /** Reading `data` at `off` finds the entry `e`. */
  ghost predicate StandsAt(data: seq<Byte>, off: nat, e: Entry) {
    && off + 4 + |e.value| <= |data|
    && FromLittle(data[off..off + 2]) == e.key
    && FromLittle(data[off + 2..off + 4]) == |e.value|
    && data[off + 4..off + 4 + |e.value|] == e.value
  }

  /** What the code finds at the offset of entry `i`, whatever follows the list. */
  lemma EntryAt(entries: seq<Entry>, rest: seq<Byte>, i: nat)
    requires i < |entries| && |PrintAll(entries)| < 0x1_0000
    ensures var data, off, e := PrintAll(entries) + rest, |PrintAll(entries[..i])|, entries[i];
            && StandsAt(data, off, e)
            && |PrintAll(entries[..i + 1])| == off + 4 + |e.value| < 0x1_0000
  {
    PrintAllSplit(entries, i);
    var data, off, e := PrintAll(entries) + rest, |PrintAll(entries[..i])|, entries[i];
    var p := PrintEntry(e);
    EntryParts(e);
    PrefixSlice(PrintAll(entries[..i]), p, data);
    SliceOfSlice(data, off, off + |p|, 0, 2);
    SliceOfSlice(data, off, off + |p|, 2, 4);
    SliceOfSlice(data, off, off + |p|, 4, |p|);
    assert entries[..i + 1][..i] == entries[..i];
  }

  lemma PrefixSlice(a: seq<Byte>, b: seq<Byte>, d: seq<Byte>)
    requires a + b <= d
    ensures d[|a|..|a| + |b|] == b
  {
    assert d[..|a| + |b|] == a + b;
  }

  lemma AnswersNext(entries: seq<Entry>, key: U16, e: Endpoint, i: nat)
    requires i < |entries| && Answers(entries[..i], key, e)
    requires entries[i].key == key ==> |entries[i].value| >= 8
    ensures Answers(entries[..i + 1], key, if entries[i].key == key then EndpointOf(entries[i].value) else e)
  {
    var before, after := entries[..i], entries[..i + 1];
    assert after == before + [entries[i]];
    if entries[i].key == key {
      assert LastOf(after, key, i);
    } else if k :| LastOf(before, key, k) && |before[k].value| >= 8 && e == EndpointOf(before[k].value) {
      assert after[k] == before[k];
      assert LastOf(after, key, k);
    }
  }

  method ReadHeader(data: seq<Byte>, off: nat, ghost e: Entry) returns (key: nat, length: nat)
    requires StandsAt(data, off, e)
    ensures key == e.key && length == |e.value|
  {
    key, length := FromLittle(data[off..off + 2]), FromLittle(data[off + 2..off + 4]);
  }

  /** The loop body: read the entry at `off`, keep its endpoint if it matches, step over it. */
  method Visit(data: seq<Byte>, off: nat, pointKey: U16, imuKey: U16, point: Endpoint, imu: Endpoint, ghost e: Entry)
    returns (off': nat, point': Endpoint, imu': Endpoint)
    requires pointKey != imuKey && StandsAt(data, off, e) && off + 4 + |e.value| < 0x1_0000
    requires e.key in {pointKey, imuKey} ==> |e.value| >= 8
    ensures off' == off + 4 + |e.value|
    ensures point' == if e.key == pointKey then EndpointOf(e.value) else point
    ensures imu' == if e.key == imuKey then EndpointOf(e.value) else imu
  {
    point', imu' := point, imu;
    var key, length := ReadHeader(data, off, e);
    if key == pointKey {
      ReadsValue(data, off + 4, e.value);
      point' := ReadEndpoint(data, off + 4);
    } else if key == imuKey {
      ReadsValue(data, off + 4, e.value);
      imu' := ReadEndpoint(data, off + 4);
    }
    off' := Wrap16(off + 4);
    off' := Wrap16(off' + length);
  }

  /** The walk inverts the printer: from the bytes of any well-formed list (and anything behind them) it returns
      what the list says about the two keys. */
  method Walk(data: seq<Byte>, paramNum: nat, pointKey: U16, imuKey: U16, ghost entries: seq<Entry>, ghost rest: seq<Byte>)
    returns (point: Endpoint, imu: Endpoint)
    requires pointKey != imuKey && WellFormed(entries, pointKey, imuKey)
    requires data == PrintAll(entries) + rest && paramNum == |entries|
    ensures Answers(entries, pointKey, point) && Answers(entries, imuKey, imu)
  {
    point, imu := NO_ENDPOINT, NO_ENDPOINT;
    var off := 0;
    for i := 0 to paramNum
      invariant off == |PrintAll(entries[..i])|
      invariant Answers(entries[..i], pointKey, point) && Answers(entries[..i], imuKey, imu)
    {
      AnswersNext(entries, pointKey, point, i);
      AnswersNext(entries, imuKey, imu, i);
      EntryAt(entries, rest, i);
      off, point, imu := Visit(data, off, pointKey, imuKey, point, imu, entries[i]);
    }
    assert entries[..paramNum] == entries;
  }
}
