/** The socket stream buffer against two plain byte queues, for every behaviour of the socket.

    A socket behaviour is a finite sequence of events, one per pass of the loop in `overflow` or `underflow`; when it
    runs out, the expiry time is over. The traces `sent`, `received` and `consumed` are what crossed each boundary.
 */
module SocketStreambuf {
  import opened Bytes

  const BUFFER_SIZE: nat := 512
  const PUTBACK_MAX: nat := 8

  datatype Char = Eof | Char(value: Byte)

  datatype Error = NoError | TimedOut | EndOfFile | OtherError

  /** What one pass of the sending loop meets. */
  datatype SendEvent =
    | SendExpired                     // past the expiry time
    | Accepts(n: nat)                 // the socket takes some of the bytes, at most all of them
    | SendBlocks(pollOk: bool)        // would block; then the wait succeeds or fails
    | SendFails

  /** What one pass of the receiving loop meets. */
  datatype RecvEvent =
    | RecvExpired
    | Delivers(data: seq<Byte>)
    | RecvEnds
    | RecvBlocks(pollOk: bool)
    | RecvFails

  /** How many of `len` offered bytes are taken: at least one, at most all. */
  function Taken(n: nat, len: nat): (k: nat)
    requires len > 0
    ensures 1 <= k <= len
  {
    if 1 <= n <= len then n else len
  }

  function Bytes1(c: Char): seq<Byte> {
    if c.Eof? then [] else [c.value]
  }

  /** How many of `len` bytes the socket takes before the sending loop ends. */
  function SendCount(len: nat, events: seq<SendEvent>): (done: nat)
    ensures done <= len
  {
    if len == 0 || events == [] then 0
    else
      match events[0]
      case SendExpired => 0
      case SendFails => 0
      case Accepts(n) => Taken(n, len) + SendCount(len - Taken(n, len), events[1..])
      case SendBlocks(pollOk) => if pollOk then SendCount(len, events[1..]) else 0
  }

  /** The data that ends the receiving loop, at most as much as the get buffer holds; empty if the loop fails. */
  function FirstData(events: seq<RecvEvent>): (data: seq<Byte>)
    ensures |data| <= BUFFER_SIZE - PUTBACK_MAX
  {
    if events == [] then []
    else
      match events[0]
      case Delivers(data) => if |data| <= BUFFER_SIZE - PUTBACK_MAX then data else data[..BUFFER_SIZE - PUTBACK_MAX]
      case RecvBlocks(pollOk) => if pollOk then FirstData(events[1..]) else []
      case _ => []
  }

  // ---------------------------------------------------------------- the two queues

  /** The writing side: what the socket took, and what waits in the put area. */
  datatype Writer = Writer(sent: seq<Byte>, area: seq<Byte>, buffered: bool) {
    predicate Valid() {
      |area| <= BUFFER_SIZE && (!buffered ==> area == [])
    }

    function Output(): seq<Byte> {
      sent + area
    }

    /** What an `overflow` with `c` offers to the socket. */
    function Outgoing(c: Char): seq<Byte> {
      if buffered then area else Bytes1(c)
    }

    predicate Goes(c: Char, events: seq<SendEvent>) {
      SendCount(|Outgoing(c)|, events) == |Outgoing(c)|
    }

    function Overflowed(c: Char, events: seq<SendEvent>): Writer {
      var out := Outgoing(c);
      this.(sent := sent + out[..SendCount(|out|, events)], area := if Goes(c, events) && buffered then Bytes1(c) else area)
    }
  }

  /** The reading side: what the socket delivered, and what of it was read. */
  datatype Reader = Reader(received: seq<Byte>, consumed: seq<Byte>) {
    predicate Valid() {
      consumed <= received
    }

    function Refilled(events: seq<RecvEvent>): Reader {
      if consumed < received then this else this.(received := received + FirstData(events))
    }

    /** The next character, if there is one or one arrives. */
    function Next(events: seq<RecvEvent>): Char {
      var r := Refilled(events);
      if consumed < r.received then Char(r.received[|consumed|]) else Eof
    }

    function After(events: seq<RecvEvent>): Reader {
      Refilled(events).(consumed := consumed + Bytes1(Next(events)))
    }
  }

  class Streambuf {
    const getBuffer: array<Byte>
    var putBuffer: array<Byte>
    var gptr: nat
    var egptr: nat
    var pptr: nat
    var epptr: nat
    var ec: Error

    var sent: seq<Byte>
    var received: seq<Byte>
    var consumed: seq<Byte>

    /** Both areas lie inside their buffers, and what was received is what was read followed by the get area. */
    ghost predicate Valid()
      reads this, getBuffer, putBuffer
    {
      && getBuffer.Length == BUFFER_SIZE && putBuffer != getBuffer
      && putBuffer.Length in {0, BUFFER_SIZE}
      && PUTBACK_MAX <= gptr <= egptr <= BUFFER_SIZE
      && pptr <= epptr == putBuffer.Length
      && received == consumed + getBuffer[gptr..egptr]
    }

    ghost function Out(): Writer
      requires pptr <= putBuffer.Length
      reads this, putBuffer
    {
      Writer(sent, putBuffer[..pptr], putBuffer.Length > 0)
    }

    ghost function In(): Reader
      reads this
    {
      Reader(received, consumed)
    }

    constructor ()
      ensures Valid() && fresh(getBuffer) && fresh(putBuffer)
      ensures Out() == Writer([], [], true) && In() == Reader([], [])
    {
      getBuffer := new Byte[BUFFER_SIZE](_ => 0);
      putBuffer := new Byte[BUFFER_SIZE](_ => 0);
      gptr, egptr := PUTBACK_MAX, PUTBACK_MAX;
      pptr, epptr := 0, BUFFER_SIZE;
      ec := NoError;
      sent, received, consumed := [], [], [];
    }

    // -------------------------------------------------------------- writing

    /** The loop of `overflow`: offers `out` until all of it is taken or the loop fails. */
    method SendLoop(out: seq<Byte>, events: seq<SendEvent>) returns (ok: bool)
      modifies this`sent, this`ec
      ensures ok <==> SendCount(|out|, events) == |out|
      ensures sent == old(sent) + out[..SendCount(|out|, events)]
    {
      var done: nat, at: nat := 0, 0;
      while done < |out|
        invariant done <= |out| && at <= |events|
        invariant sent == old(sent) + out[..done]
        invariant SendCount(|out|, events) == done + SendCount(|out| - done, events[at..])
        decreases |events| - at
      {
        if at == |events| || events[at].SendExpired? {
          ec := TimedOut;
          return false;
        }
        var event := events[at];
        assert events[at..][1..] == events[at + 1..];
        at := at + 1;
        if event.Accepts? {
          var k := Taken(event.n, |out| - done);
          sent := sent + out[done..done + k];
          assert out[..done] + out[done..done + k] == out[..done + k];
          done := done + k;
          continue;
        }
        if event.SendFails? {
          ec := OtherError;
          return false;
        }
        if !event.pollOk {
          ec := OtherError;
          return false;
        }
      }
      return true;
    }

    method Overflow(c: Char, events: seq<SendEvent>) returns (ok: bool)
      requires Valid()
      modifies this`sent, this`ec, this`pptr, putBuffer
      ensures Valid()
      ensures Out() == old(Out()).Overflowed(c, events) && (ok <==> old(Out()).Goes(c, events))
    {
      var out: seq<Byte>;
      if putBuffer.Length == 0 {
        if c.Eof? {
          return true;
        }
        out := [c.value];
      } else {
        out := putBuffer[..pptr];
      }
      assert out == old(Out()).Outgoing(c);
      ok := SendLoop(out, events);
      if ok && putBuffer.Length > 0 {
        pptr := 0;
        if c.Eof? {
          return;
        }
        putBuffer[pptr] := c.value;
        pptr := pptr + 1;
      }
    }

    /** `sputc`: store if there is room, else `overflow`. */
    method Put(b: Byte, events: seq<SendEvent>) returns (ok: bool)
      requires Valid()
      modifies this`sent, this`ec, this`pptr, putBuffer
      ensures Valid()
      ensures Out() == After(old(Out()), Write(b, events)) && (ok <==> Succeeds(old(Out()), Write(b, events)))
    {
      if pptr < epptr {
        putBuffer[pptr] := b;
        pptr := pptr + 1;
        ok := true;
      } else {
        ok := Overflow(Char(b), events);
      }
    }

    method Sync(events: seq<SendEvent>) returns (ok: bool)
      requires Valid()
      modifies this`sent, this`ec, this`pptr, putBuffer
      ensures Valid()
      ensures Out() == After(old(Out()), Flush(events)) && (ok <==> Succeeds(old(Out()), Flush(events)))
    {
      ok := Overflow(Eof, events);
    }

    /** `setbuf(0, 0)`: unbuffered from now on, but only if nothing is pending. */
    method SetUnbuffered() returns (ok: bool)
      requires Valid()
      modifies this
      ensures Valid() && In() == old(In())
      ensures Out() == After(old(Out()), Unbuffer) && (ok <==> Succeeds(old(Out()), Unbuffer))
    {
      if pptr == 0 {
        putBuffer := new Byte[0];
        pptr, epptr := 0, 0;
        var synced := Sync([]);
        ok := true;
      } else {
        ok := false;
      }
    }

    // -------------------------------------------------------------- reading

    method Underflow(events: seq<RecvEvent>) returns (c: Char)
      requires Valid()
      modifies this`gptr, this`egptr, this`ec, this`received, getBuffer
      ensures Valid()
      ensures old(gptr < egptr) ==> c == Eof && In() == old(In()) && gptr == old(gptr)
      ensures old(gptr == egptr) ==> In() == old(In()).Refilled(events) && c == old(In()).Next(events)
      ensures old(gptr == egptr) && c.Char? ==> gptr < egptr
    {
      if gptr != egptr {
        return Eof;
      }
      var at := 0;
      while true
        invariant Valid() && gptr == egptr == old(gptr) && at <= |events| && received == old(received)
        invariant FirstData(events) == FirstData(events[at..])
        modifies this`gptr, this`egptr, this`ec, this`received, getBuffer
        decreases |events| - at
      {
        if at == |events| || events[at].RecvExpired? {
          ec := TimedOut;
          return Eof;
        }
        var event := events[at];
        assert events[at..][1..] == events[at + 1..];
        at := at + 1;
        if event.Delivers? && |event.data| > 0 {
          Fill(event.data, FirstData(events));
          return Char(getBuffer[gptr]);
        }
        if event.Delivers? || event.RecvEnds? {
          ec := EndOfFile;
          return Eof;
        }
        if event.RecvFails? || !event.pollOk {
          ec := OtherError;
          return Eof;
        }
      }
    }

    /** A successful `recv` into the get buffer behind the putback area, and `setg`. */
    method Fill(data: seq<Byte>, ghost kept: seq<Byte>)
      requires Valid() && gptr == egptr && |data| > 0
      requires kept == if |data| <= BUFFER_SIZE - PUTBACK_MAX then data else data[..BUFFER_SIZE - PUTBACK_MAX]
      modifies this`gptr, this`egptr, this`received, getBuffer
      ensures Valid() && gptr < egptr
      ensures received == old(received) + kept && getBuffer[gptr] == kept[0]
    {
      var bytes := if |data| <= BUFFER_SIZE - PUTBACK_MAX then |data| else BUFFER_SIZE - PUTBACK_MAX;
      for i := 0 to bytes
        modifies getBuffer
        invariant getBuffer[PUTBACK_MAX..PUTBACK_MAX + i] == data[..i]
      {
        getBuffer[PUTBACK_MAX + i] := data[i];
      }
      gptr, egptr := PUTBACK_MAX, PUTBACK_MAX + bytes;
      received := received + data[..bytes];
      assert getBuffer[PUTBACK_MAX..PUTBACK_MAX + bytes][0] == data[..bytes][0];
    }

    /** `sbumpc`: take from the get area, refilling it first if it is empty. */
    method Get(events: seq<RecvEvent>) returns (c: Char)
      requires Valid()
      modifies this`gptr, this`egptr, this`ec, this`received, this`consumed, getBuffer
      ensures Valid()
      ensures c == old(In()).Next(events) && In() == old(In()).After(events)
    {
      if gptr < egptr {
        TakeFirst(received, consumed, getBuffer[gptr..egptr]);
        c := Char(getBuffer[gptr]);
      } else {
        c := Underflow(events);
      }
      if c.Char? {
        Bump();
      }
    }

    /** The character at the front of the get area is read. */
    method Bump()
      requires Valid() && gptr < egptr
      modifies this`gptr, this`consumed
      ensures Valid() && |old(consumed)| < |received| && consumed == old(consumed) + [received[|old(consumed)|]]
    {
      TakeFirst(received, consumed, getBuffer[gptr..egptr]);
      assert getBuffer[gptr..egptr][1..] == getBuffer[gptr + 1..egptr];
      consumed := consumed + [getBuffer[gptr]];
      gptr := gptr + 1;
    }
  }

  lemma TakeFirst(received: seq<Byte>, consumed: seq<Byte>, area: seq<Byte>)
    requires received == consumed + area && area != []
    ensures consumed < received && received[|consumed|] == area[0] && received == consumed + [area[0]] + area[1..]
  {
  }

  // ---------------------------------------------------------------- runs of writes

  datatype Op = Write(b: Byte, events: seq<SendEvent>) | Flush(events: seq<SendEvent>) | Unbuffer

  predicate Succeeds(w: Writer, op: Op) {
    match op
    case Write(b, events) => (w.buffered && |w.area| < BUFFER_SIZE) || w.Goes(Char(b), events)
    case Flush(events) => w.Goes(Eof, events)
    case Unbuffer => w.area == []
  }

  function After(w: Writer, op: Op): Writer {
    match op
    case Write(b, events) => if w.buffered && |w.area| < BUFFER_SIZE then w.(area := w.area + [b]) else w.Overflowed(Char(b), events)
    case Flush(events) => w.Overflowed(Eof, events)
    case Unbuffer => if w.area == [] then w.(buffered := false) else w
  }

  function Added(op: Op): seq<Byte> {
    if op.Write? then [op.b] else []
  }

  /** A successful `overflow` adds its character to the output. A failed one leaves in the put area the bytes that the
      socket had already taken, so that they will be sent again: the output is unchanged exactly when there were none. */
  lemma OverflowOutput(w: Writer, c: Char, events: seq<SendEvent>)
    requires w.Valid()
    ensures w.Overflowed(c, events).Valid()
    ensures w.Goes(c, events) ==> w.Overflowed(c, events).Output() == w.Output() + Bytes1(c)
    ensures !w.Goes(c, events) ==> (w.Overflowed(c, events).Output() == w.Output() <==> SendCount(|w.Outgoing(c)|, events) == 0)
  {
    var out, o := w.Outgoing(c), w.Overflowed(c, events);
    var done := SendCount(|out|, events);
    if w.Goes(c, events) {
      assert out[..done] == out;
      assert o.Output() == w.Output() + Bytes1(c);
    } else {
      assert |o.Output()| == |w.Output()| + done;
      assert done == 0 ==> o == w;
    }
  }

  /** The bytes of a failed flush are sent twice: a flush that fails after the socket took `k` bytes, followed by one that
      succeeds, sends the first `k` bytes of the put area and then the whole of it. */
  lemma FlushedTwice(w: Writer, failing: seq<SendEvent>, succeeding: seq<SendEvent>)
    requires w.buffered && !w.Goes(Eof, failing) && w.Goes(Eof, succeeding)
    ensures var k := SendCount(|w.area|, failing);
            After(After(w, Flush(failing)), Flush(succeeding)) == Writer(w.sent + w.area[..k] + w.area, [], true)
  {
    assert w.area[..|w.area|] == w.area;
  }

  /** Two bytes wait; the socket takes one and fails, then takes all: the first byte arrives twice. */
  lemma DuplicateByte(a: Byte, b: Byte)
    ensures var ops := [Write(a, []), Write(b, []), Flush([Accepts(1), SendFails]), Flush([Accepts(2)])];
            Run(Writer([], [], true), ops).sent == [a, a, b]
  {
    var w0 := Writer([], [], true);
    var w2 := Writer([], [a, b], true);
    var ops := [Write(a, []), Write(b, []), Flush([Accepts(1), SendFails]), Flush([Accepts(2)])];
    assert ops[..1] == [ops[0]] && ops[..3][..2] == ops[..2] && ops[..2][..1] == ops[..1] && ops[..1][..0] == [];
    assert [] + [a] == [a] && [a] + [b] == [a, b];
    assert Run(w0, ops[..1]) == Writer([], [a], true);
    assert Run(w0, ops[..2]) == w2;
    var rest := [Accepts(1), SendFails][1..];
    assert rest == [SendFails] && SendCount(1, rest) == 0;
    assert SendCount(2, [Accepts(1), SendFails]) == 1;
    assert SendCount(2, [Accepts(2)]) == 2;
    FlushedTwice(w2, [Accepts(1), SendFails], [Accepts(2)]);
    assert Run(w0, ops[..3]) == After(w2, ops[2]);
    assert [] + [a, b][..1] + [a, b] == [a, a, b];
  }

  lemma StepOutput(w: Writer, op: Op)
    requires w.Valid()
    ensures After(w, op).Valid()
    ensures Succeeds(w, op) ==> After(w, op).Output() == w.Output() + Added(op)
  {
    match op
    case Write(b, events) =>
      if w.buffered && |w.area| < BUFFER_SIZE {
        assert w.sent + (w.area + [b]) == w.sent + w.area + [b];
      } else {
        OverflowOutput(w, Char(b), events);
      }
    case Flush(events) => OverflowOutput(w, Eof, events);
    case Unbuffer =>
  }

  function Run(w: Writer, ops: seq<Op>): Writer {
    if ops == [] then w else After(Run(w, ops[..|ops| - 1]), ops[|ops| - 1])
  }

  predicate AllSucceed(w: Writer, ops: seq<Op>) {
    ops == [] || (AllSucceed(w, ops[..|ops| - 1]) && Succeeds(Run(w, ops[..|ops| - 1]), ops[|ops| - 1]))
  }

  /** The characters a run of operations writes. */
  function Written(ops: seq<Op>): seq<Byte> {
    if ops == [] then [] else Written(ops[..|ops| - 1]) + Added(ops[|ops| - 1])
  }

  /** On any run of writes, flushes and mode changes in which no call fails, for every socket behaviour, the bytes
      sent followed by the put area are the characters written, in order; a flush at the end leaves nothing waiting. */
  lemma {:induction false} RunOutput(w: Writer, ops: seq<Op>)
    requires w.Valid() && AllSucceed(w, ops)
    ensures Run(w, ops).Valid() && Run(w, ops).Output() == w.Output() + Written(ops)
    ensures ops != [] && ops[|ops| - 1].Flush? ==> Run(w, ops).sent == w.Output() + Written(ops)
  {
    if ops != [] {
      var init, last := ops[..|ops| - 1], ops[|ops| - 1];
      RunOutput(w, init);
      StepOutput(Run(w, init), last);
      assert w.Output() + (Written(init) + Added(last)) == w.Output() + Written(init) + Added(last);
      assert last.Flush? ==> Run(w, ops).area == [];
    }
  }

  predicate Cooperative(e: SendEvent) {
    e.Accepts? || (e.SendBlocks? && e.pollOk)
  }

  function AcceptCount(events: seq<SendEvent>): nat {
    if events == [] then 0 else (if events[0].Accepts? then 1 else 0) + AcceptCount(events[1..])
  }

  /** However small the pieces and however often the socket blocks, without expiry or failure everything is taken once
      the socket has accepted as many times as there are bytes. */
  lemma {:induction false} SendCompletes(len: nat, events: seq<SendEvent>)
    requires forall i :: 0 <= i < |events| ==> Cooperative(events[i])
    requires AcceptCount(events) >= len
    ensures SendCount(len, events) == len
  {
    if len > 0 && events != [] {
      assert Cooperative(events[0]);
      forall i | 0 <= i < |events[1..]| ensures Cooperative(events[1..][i]) {
        assert events[1..][i] == events[i + 1];
      }
      SendCompletes(if events[0].Accepts? then len - Taken(events[0].n, len) else len, events[1..]);
    }
  }

  function AcceptSum(events: seq<SendEvent>): nat {
    if events == [] then 0 else (if events[0].Accepts? then events[0].n else 0) + AcceptSum(events[1..])
  }

  /** What a cooperative socket takes is the sum of what it accepts, up to all. */
  lemma {:induction false} SendIsSum(len: nat, events: seq<SendEvent>)
    requires forall i :: 0 <= i < |events| ==> Cooperative(events[i]) && (events[i].Accepts? ==> events[i].n > 0)
    ensures SendCount(len, events) == if AcceptSum(events) < len then AcceptSum(events) else len
  {
    if len > 0 && events != [] {
      var e, rest := events[0], events[1..];
      assert Cooperative(e);
      forall i | 0 <= i < |rest| ensures Cooperative(rest[i]) && (rest[i].Accepts? ==> rest[i].n > 0) {
        assert rest[i] == events[i + 1];
      }
      SendIsSum(if e.Accepts? then len - Taken(e.n, len) else len, rest);
    }
  }

  /** An expiry, a failure or a failed wait ends the loop: nothing that the socket would do later counts. */
  lemma {:induction false} SendStops(len: nat, events: seq<SendEvent>, n: nat)
    requires n < |events| && !Cooperative(events[n])
    ensures SendCount(len, events) == SendCount(len, events[..n])
  {
    if n > 0 {
      assert events[..n][1..] == events[1..][..n - 1];
      if len > 0 {
        SendStops(len, events[1..], n - 1);
        if events[0].Accepts? {
          SendStops(len - Taken(events[0].n, len), events[1..], n - 1);
        }
      }
    }
  }

  /** A write waits in the put area until 512 bytes do; the next one sends them and waits alone; unbuffered, it is sent. */
  lemma WriteIs(w: Writer, b: Byte, events: seq<SendEvent>)
    requires w.Valid()
    ensures w.buffered && |w.area| < 512 ==> After(w, Write(b, events)) == Writer(w.sent, w.area + [b], true)
    ensures w.buffered && |w.area| == 512 && SendCount(512, events) == 512 ==>
              After(w, Write(b, events)) == Writer(w.sent + w.area, [b], true)
    ensures !w.buffered && SendCount(1, events) == 1 ==> After(w, Write(b, events)) == Writer(w.sent + [b], [], false)
  {
    assert w.area[..|w.area|] == w.area;
    assert [b][..1] == [b];
  }

  // ---------------------------------------------------------------- runs of reads

  /** Exactly the successful waits at the front are passed over: what comes next decides, and only data that arrives is
      received, at most 504 bytes of it. */
  lemma {:induction false} FirstDataIs(events: seq<RecvEvent>, n: nat)
    requires n <= |events| && forall i :: 0 <= i < n ==> events[i] == RecvBlocks(true)
    requires n < |events| ==> events[n] != RecvBlocks(true)
    ensures FirstData(events) ==
            if n < |events| && events[n].Delivers? then
              if |events[n].data| <= 504 then events[n].data else events[n].data[..504]
            else []
  {
    if n > 0 {
      assert events[0] == RecvBlocks(true);
      forall i | 0 <= i < n - 1 ensures events[1..][i] == RecvBlocks(true) {
        assert events[1..][i] == events[i + 1];
      }
      FirstDataIs(events[1..], n - 1);
    }
  }

  /** Data that arrives for an empty get area, however often the socket blocked before, is read character by character
      in as many reads, whatever the socket does meanwhile. */
  lemma {:induction false} DeliveredIsRead(r: Reader, scripts: seq<seq<RecvEvent>>, data: seq<Byte>)
    requires r.consumed == r.received && scripts != [] && FirstData(scripts[0]) == data && |scripts| <= |data|
    ensures CharsRead(r, scripts) == data[..|scripts|]
    ensures ReadRun(r, scripts) == Reader(r.received + data, r.consumed + data[..|scripts|])
  {
    var n := |scripts| - 1;
    ReadLast(r, scripts);
    if n == 0 {
      FirstRead(r, scripts[0], data);
    } else {
      DeliveredIsRead(r, scripts[..n], data);
      ReadFrom(r.received, data, n, scripts[n]);
    }
    assert data[..n] + [data[n]] == data[..n + 1];
  }

  lemma ReadLast(r: Reader, scripts: seq<seq<RecvEvent>>)
    requires scripts != []
    ensures var n := |scripts| - 1;
            var now := ReadRun(r, scripts[..n]);
            && ReadRun(r, scripts) == now.After(scripts[n])
            && CharsRead(r, scripts) == CharsRead(r, scripts[..n]) + Bytes1(now.Next(scripts[n]))
            && (n == 0 ==> now == r && CharsRead(r, scripts[..n]) == [])
  {
  }

  lemma FirstRead(r: Reader, events: seq<RecvEvent>, data: seq<Byte>)
    requires r.consumed == r.received && FirstData(events) == data != []
    ensures r.Next(events) == Char(data[0]) && r.After(events) == Reader(r.received + data, r.consumed + data[..1])
  {
    assert data[..1] == [data[0]];
  }

  lemma ReadFrom(before: seq<Byte>, data: seq<Byte>, n: nat, events: seq<RecvEvent>)
    requires n < |data|
    ensures var r := Reader(before + data, before + data[..n]);
            r.Next(events) == Char(data[n]) && r.After(events) == Reader(before + data, before + data[..n + 1])
  {
    assert before + data[..n] < before + data && (before + data)[|before + data[..n]|] == data[n];
    assert before + data[..n] + [data[n]] == before + data[..n + 1];
  }

  function ReadRun(r: Reader, scripts: seq<seq<RecvEvent>>): Reader {
    if scripts == [] then r else ReadRun(r, scripts[..|scripts| - 1]).After(scripts[|scripts| - 1])
  }

  /** What the reads return. */
  function CharsRead(r: Reader, scripts: seq<seq<RecvEvent>>): seq<Byte> {
    if scripts == [] then []
    else CharsRead(r, scripts[..|scripts| - 1]) + Bytes1(ReadRun(r, scripts[..|scripts| - 1]).Next(scripts[|scripts| - 1]))
  }

  /** The characters returned by any number of reads, after those read before, are the first of the received bytes, in
      order, without loss or repetition; a read that returns nothing has nothing left to return. */
  lemma {:induction false} ReadsInOrder(r: Reader, scripts: seq<seq<RecvEvent>>)
    requires r.Valid()
    ensures var now := ReadRun(r, scripts);
            && r.consumed + CharsRead(r, scripts) <= now.received
            && now.consumed == r.consumed + CharsRead(r, scripts)
            && r.received <= now.received
            && (scripts != [] && ReadRun(r, scripts[..|scripts| - 1]).Next(scripts[|scripts| - 1]).Eof? ==> now.consumed == now.received)
  {
    if scripts != [] {
      var init, last := scripts[..|scripts| - 1], scripts[|scripts| - 1];
      ReadsInOrder(r, init);
      ReadStep(ReadRun(r, init), last);
      assert r.consumed + (CharsRead(r, init) + Bytes1(ReadRun(r, init).Next(last)))
          == r.consumed + CharsRead(r, init) + Bytes1(ReadRun(r, init).Next(last));
    }
  }

  lemma ReadStep(r: Reader, events: seq<RecvEvent>)
    requires r.Valid()
    ensures r.After(events).Valid() && r.received <= r.After(events).received
    ensures r.After(events).consumed == r.consumed + Bytes1(r.Next(events))
    ensures r.Next(events).Eof? ==> r.After(events).consumed == r.After(events).received
  {
    var f := r.Refilled(events);
    assert r.consumed <= f.received;
    if r.Next(events).Char? {
      assert r.consumed + [f.received[|r.consumed|]] <= f.received;
    }
  }
}
