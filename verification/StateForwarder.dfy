/** The high-state service: a receiver thread that remembers the last client under a mutex, and a state callback
    that forwards at most one state every 20 ms to it. Both are interleaved byte by byte. */
module StateForwarder {
  import opened Bytes
  import opened ClockTime
  import opened Mixing

  const ADDRESS_SIZE: nat := 16
  const PERIOD_MILLIS: int := 20

  type Address = s: seq<Byte> | |s| == ADDRESS_SIZE witness seq(ADDRESS_SIZE, _ => 0)

  datatype Client = Client(address: Address, len: nat)

  datatype Owner = Nobody | Receiver | Handler

  datatype ReceiverPc =
    | Blocked
    | Received(client: Client)                  // datagram received, before the mutex
    | Storing(client: Client, done: nat)        // mutex held, copying the address
    | Stored                                    // mutex released, before client_ready

  datatype HandlerPc =
    | Resting
    | Due(now: int, data: seq<Byte>)            // past the throttle, before client_ready is tested
    | Ready(now: int, data: seq<Byte>)          // client_ready seen, before the mutex
    | Reading(now: int, data: seq<Byte>, after: nat, address: seq<Byte>)   // mutex held; `after` clients stored by then

  /** A forwarded state, with the number of completed stores when the mutex was taken and the number of states
      that had passed the throttle. */
  datatype Sent = Sent(client: seq<Byte>, len: nat, time: int, data: seq<Byte>, after: nat, turn: nat)

  /** A state that passed the throttle. */
  datatype Turn = Turn(now: int, data: seq<Byte>)

  datatype World = World(
    address: seq<Byte>, len: nat, ready: bool, owner: Owner, lastSend: int, called: bool,
    receiver: ReceiverPc, handler: HandlerPc,
    // history
    stores: seq<Client>, due: seq<Turn>, sent: seq<Sent>)

  datatype Action =
    | Receive(n: int, client: Client)
    | ReceiverLock | StoreByte | StoreLength | SetReady
    | StateMessage(first: int, now: int, data: seq<Byte>)
    | TestReady | HandlerLock | ReadByte | Send

  function Init(address: Address, len: nat): World {
    World(address, len, false, Nobody, 0, false, Blocked, Resting, [], [], [])
  }

  function ReceiverAct(w: World, a: Action): World {
    match (a, w.receiver)
    case (Receive(n, client), Blocked) =>
      if n > 0 then w.(receiver := Received(client)) else w
    case (ReceiverLock, Received(client)) =>
      if w.owner == Nobody then w.(owner := Receiver, receiver := Storing(client, 0)) else w
    case (StoreByte, Storing(client, done)) =>
      if done < ADDRESS_SIZE && |w.address| == ADDRESS_SIZE then
        w.(address := w.address[done := client.address[done]], receiver := Storing(client, done + 1)) else w
    case (StoreLength, Storing(client, done)) =>
      if done == ADDRESS_SIZE then
        w.(len := client.len, owner := Nobody, receiver := Stored, stores := w.stores + [client]) else w
    case (SetReady, Stored) => w.(ready := true, receiver := Blocked)
    case _ => w
  }

  function HandlerAct(w: World, a: Action): World {
    match (a, w.handler)
    case (StateMessage(first, now, data), Resting) =>
      // the static last_send_time is initialised by the first call
      var last := if w.called then w.lastSend else first;
      if ElapsedMillis(now, last) < PERIOD_MILLIS then w.(called := true, lastSend := last)
      else w.(called := true, lastSend := now, due := w.due + [Turn(now, data)], handler := Due(now, data))
    case (TestReady, Due(now, data)) =>
      w.(handler := if w.ready then Ready(now, data) else Resting)
    case (HandlerLock, Ready(now, data)) =>
      if w.owner == Nobody then w.(owner := Handler, handler := Reading(now, data, |w.stores|, [])) else w
    case (ReadByte, Reading(now, data, after, address)) =>
      if |address| < ADDRESS_SIZE && |w.address| == ADDRESS_SIZE then
        w.(handler := Reading(now, data, after, address + [w.address[|address|]])) else w
    case (Send, Reading(now, data, after, address)) =>
      if |address| == ADDRESS_SIZE then
        w.(owner := Nobody, handler := Resting, sent := w.sent + [Sent(address, w.len, now, data, after, |w.due|)]) else w
    case _ => w
  }

  predicate IsReceiverAction(a: Action) {
    a.Receive? || a.ReceiverLock? || a.StoreByte? || a.StoreLength? || a.SetReady?
  }

  function Act(w: World, a: Action): World {
    if IsReceiverAction(a) then ReceiverAct(w, a) else HandlerAct(w, a)
  }

  function Run(w: World, actions: seq<Action>): World {
    if actions == [] then w else Act(Run(w, actions[..|actions| - 1]), actions[|actions| - 1])
  }

  // ---------------------------------------------------------------- the invariant

  /** The newest client stored whole; before the first store, whatever the globals held. */
  ghost function Newest(w: World, initial: Client): Client {
    if w.stores == [] then initial else w.stores[|w.stores| - 1]
  }

  ghost predicate AddressInv(w: World, initial: Client) {
    var c := Newest(w, initial);
    && |w.address| == ADDRESS_SIZE && w.len == c.len
    && (w.receiver.Storing? <==> w.owner == Receiver)
    && (w.handler.Reading? <==> w.owner == Handler)
    && (w.receiver.Storing? ==>
          w.receiver.done <= ADDRESS_SIZE && w.address == Mixed(w.receiver.client.address, c.address, w.receiver.done))
    && (!w.receiver.Storing? ==> w.address == c.address)
    && (w.handler.Reading? ==>
          w.handler.after == |w.stores| &&
          |w.handler.address| <= ADDRESS_SIZE && w.handler.address == c.address[..|w.handler.address|])
  }

  /** A client has spoken before anything is sent. */
  ghost predicate ReadyInv(w: World) {
    && (w.ready || w.receiver.Stored? || w.handler.Ready? || w.handler.Reading? ==> |w.stores| > 0)
    && (w.handler.Ready? || w.handler.Reading? ==> w.ready)
  }

  ghost predicate SentInv(w: World) {
    forall i :: 0 <= i < |w.sent| ==>
      0 < w.sent[i].after <= |w.stores| &&
      w.sent[i].client == w.stores[w.sent[i].after - 1].address && w.sent[i].len == w.stores[w.sent[i].after - 1].len
  }

  ghost predicate Spaced(due: seq<Turn>) {
    forall i, j :: 0 <= i < j < |due| ==> due[j].now - due[i].now >= 20_000_000
  }

  /** Every sent state has its own turn at the throttle, in order; the last turn is free while a state is pending. */
  ghost predicate Turns(due: seq<Turn>, sent: seq<Sent>, pending: bool) {
    && (forall i :: 0 <= i < |sent| ==>
          && 0 < sent[i].turn <= |due| && (pending ==> sent[i].turn < |due|)
          && due[sent[i].turn - 1] == Turn(sent[i].time, sent[i].data))
    && (forall i, j :: 0 <= i < j < |sent| ==> sent[i].turn < sent[j].turn)
  }

  ghost predicate TimeInv(w: World) {
    && Spaced(w.due) && Turns(w.due, w.sent, w.handler != Resting)
    && (w.due != [] ==> w.called && w.lastSend == w.due[|w.due| - 1].now)
    && (w.handler != Resting ==> w.due != [] && w.due[|w.due| - 1] == Turn(w.handler.now, w.handler.data))
  }

  lemma NextTurn(due: seq<Turn>, sent: seq<Sent>, t: Turn)
    requires Spaced(due) && Turns(due, sent, false)
    requires due != [] ==> t.now - due[|due| - 1].now >= 20_000_000
    ensures Spaced(due + [t]) && Turns(due + [t], sent, true)
  {
  }

  lemma TurnTaken(due: seq<Turn>, sent: seq<Sent>, s: Sent)
    requires due != [] && Turns(due, sent, true) && s.turn == |due| && due[|due| - 1] == Turn(s.time, s.data)
    ensures Turns(due, sent + [s], false)
  {
  }

  lemma ReceiverKeepsAddress(w: World, a: Action, initial: Client)
    requires AddressInv(w, initial) && IsReceiverAction(a)
    ensures AddressInv(ReceiverAct(w, a), initial)
  {
    if a.StoreByte? {
      StoreByteKeeps(w, initial);
    } else if a.StoreLength? {
      StoreLengthKeeps(w, initial);
    } else if w.receiver.Received? {
      MixedEnds(w.receiver.client.address, Newest(w, initial).address);
    }
  }

  lemma StoreByteKeeps(w: World, initial: Client)
    requires AddressInv(w, initial)
    ensures AddressInv(ReceiverAct(w, StoreByte), initial)
  {
    if w.receiver.Storing? && w.receiver.done < ADDRESS_SIZE {
      MixedStep(w.receiver.client.address, Newest(w, initial).address, w.receiver.done);
    }
  }

  lemma StoreLengthKeeps(w: World, initial: Client)
    requires AddressInv(w, initial)
    ensures AddressInv(ReceiverAct(w, StoreLength), initial)
  {
    if w.receiver.Storing? {
      MixedEnds(w.receiver.client.address, Newest(w, initial).address);
    }
  }

  lemma HandlerKeepsAddress(w: World, a: Action, initial: Client)
    requires AddressInv(w, initial) && !IsReceiverAction(a)
    ensures AddressInv(HandlerAct(w, a), initial)
  {
    var c := Newest(w, initial);
    if w.handler.Reading? && |w.handler.address| < ADDRESS_SIZE {
      PrefixStep(c.address, |w.handler.address|);
    }
  }

  lemma ReceiverSent(w: World, a: Action)
    requires ReadyInv(w) && SentInv(w) && IsReceiverAction(a)
    ensures ReadyInv(ReceiverAct(w, a)) && SentInv(ReceiverAct(w, a))
  {
  }

  lemma HandlerSent(w: World, a: Action, initial: Client)
    requires AddressInv(w, initial) && ReadyInv(w) && SentInv(w) && !IsReceiverAction(a)
    ensures ReadyInv(HandlerAct(w, a)) && SentInv(HandlerAct(w, a))
  {
    var c := Newest(w, initial);
    assert c.address[..ADDRESS_SIZE] == c.address;
  }

  lemma ReceiverTime(w: World, a: Action)
    requires TimeInv(w) && IsReceiverAction(a)
    ensures TimeInv(ReceiverAct(w, a))
  {
  }

  lemma MessageTime(w: World, a: Action)
    requires TimeInv(w) && a.StateMessage?
    ensures TimeInv(HandlerAct(w, a))
  {
    if w.handler == Resting {
      var last := if w.called then w.lastSend else a.first;
      ElapsedMeans(a.now, last, PERIOD_MILLIS);
      if ElapsedMillis(a.now, last) >= PERIOD_MILLIS {
        NextTurn(w.due, w.sent, Turn(a.now, a.data));
      }
    }
  }

  lemma SendTime(w: World)
    requires TimeInv(w)
    ensures TimeInv(HandlerAct(w, Send))
  {
    if w.handler.Reading? && |w.handler.address| == ADDRESS_SIZE {
      TurnTaken(w.due, w.sent, Sent(w.handler.address, w.len, w.handler.now, w.handler.data, w.handler.after, |w.due|));
    }
  }

  lemma TestTime(w: World)
    requires TimeInv(w)
    ensures TimeInv(HandlerAct(w, TestReady))
  {
    if w.handler.Due? {
      TurnGivenUp(w.due, w.sent);
    }
  }

  lemma TurnGivenUp(due: seq<Turn>, sent: seq<Sent>)
    requires Turns(due, sent, true)
    ensures Turns(due, sent, false)
  {
  }

  lemma HandlerTime(w: World, a: Action)
    requires TimeInv(w) && !IsReceiverAction(a)
    ensures TimeInv(HandlerAct(w, a))
  {
    if a.StateMessage? {
      MessageTime(w, a);
    } else if a.Send? {
      SendTime(w);
    } else if a.TestReady? {
      TestTime(w);
    }
  }

  ghost predicate Inv(w: World, initial: Client) {
    AddressInv(w, initial) && ReadyInv(w) && SentInv(w) && TimeInv(w)
  }

  lemma {:induction false} EveryInterleaving(initial: Client, actions: seq<Action>)
    ensures Inv(Run(Init(initial.address, initial.len), actions), initial)
  {
    if actions == [] {
    } else {
      var init, a := actions[..|actions| - 1], actions[|actions| - 1];
      EveryInterleaving(initial, init);
      var w := Run(Init(initial.address, initial.len), init);
      if IsReceiverAction(a) {
        ReceiverKeepsAddress(w, a, initial);
        ReceiverSent(w, a);
        ReceiverTime(w, a);
      } else {
        HandlerKeepsAddress(w, a, initial);
        HandlerSent(w, a, initial);
        HandlerTime(w, a);
      }
    }
  }

  // ---------------------------------------------------------------- what every interleaving guarantees

  /** A datagram of the run came from client `c`. */
  ghost predicate Heard(actions: seq<Action>, c: Client) {
    exists k :: 0 <= k < |actions| && actions[k].Receive? && actions[k].n > 0 && actions[k].client == c
  }

  ghost predicate AllHeard(actions: seq<Action>, w: World) {
    && (forall i :: 0 <= i < |w.stores| ==> Heard(actions, w.stores[i]))
    && (w.receiver.Received? || w.receiver.Storing? ==> Heard(actions, w.receiver.client))
  }

  lemma HeardMore(actions: seq<Action>, n: nat, c: Client)
    requires n <= |actions| && Heard(actions[..n], c)
    ensures Heard(actions, c)
  {
    var k :| 0 <= k < n && actions[..n][k].Receive? && actions[..n][k].n > 0 && actions[..n][k].client == c;
    assert actions[k].client == c;
  }

  lemma {:induction false} RunHeard(w: World, actions: seq<Action>)
    requires w.stores == [] && w.receiver.Blocked?
    ensures AllHeard(actions, Run(w, actions))
  {
    if actions == [] {
    } else {
      var n := |actions| - 1;
      RunHeard(w, actions[..n]);
      forall c | Heard(actions[..n], c) ensures Heard(actions, c) {
        HeardMore(actions, n, c);
      }
      if actions[n].Receive? && actions[n].n > 0 {
        assert Heard(actions, actions[n].client);
      }
    }
  }

  /** Every forwarded state went to one client stored whole by one receive of the run: the newest one stored when the
      handler took the mutex. In particular nothing is sent before a client has spoken. */
  lemma SentToNewestClient(initial: Client, actions: seq<Action>, i: nat)
    requires i < |Run(Init(initial.address, initial.len), actions).sent|
    ensures var w := Run(Init(initial.address, initial.len), actions);
            var s := w.sent[i];
            && 0 < s.after <= |w.stores| && Heard(actions, w.stores[s.after - 1])
            && s.client == w.stores[s.after - 1].address && s.len == w.stores[s.after - 1].len
  {
    EveryInterleaving(initial, actions);
    RunHeard(Init(initial.address, initial.len), actions);
  }

  /** Any two forwarded states are at least 20 ms apart. */
  lemma SentSpaced(initial: Client, actions: seq<Action>, i: nat, j: nat)
    requires i < j < |Run(Init(initial.address, initial.len), actions).sent|
    ensures var s := Run(Init(initial.address, initial.len), actions).sent;
            s[j].time - s[i].time >= 20_000_000
  {
    EveryInterleaving(initial, actions);
    var w := Run(Init(initial.address, initial.len), actions);
    assert w.sent[i].turn < w.sent[j].turn;
  }

  predicate IsMessage(a: Action, t: Turn) {
    a.StateMessage? && a.now == t.now && a.data == t.data
  }

  /** Every turn belongs to a state message of the run. */
  ghost predicate FromMessages(actions: seq<Action>, due: seq<Turn>) {
    forall i :: 0 <= i < |due| ==> exists k :: 0 <= k < |actions| && IsMessage(actions[k], due[i])
  }

  lemma {:induction false} DueFromMessages(w: World, actions: seq<Action>)
    requires w.due == []
    ensures FromMessages(actions, Run(w, actions).due)
  {
    if actions == [] {
    } else {
      var n := |actions| - 1;
      DueFromMessages(w, actions[..n]);
      var before, due := Run(w, actions[..n]).due, Run(w, actions).due;
      forall i | 0 <= i < |due| ensures exists k :: 0 <= k < |actions| && IsMessage(actions[k], due[i]) {
        if i < |before| {
          assert before[i] == due[i];
          var k :| 0 <= k < n && IsMessage(actions[..n][k], before[i]);
          assert IsMessage(actions[k], due[i]);
        } else {
          assert IsMessage(actions[n], due[i]);
        }
      }
    }
  }

  /** Every forwarded state is, time and data, one of the state messages of the run; no message is forwarded twice,
      because no two of them have the same time. */
  lemma SentIsMessage(initial: Client, actions: seq<Action>, i: nat)
    requires i < |Run(Init(initial.address, initial.len), actions).sent|
    ensures var s := Run(Init(initial.address, initial.len), actions).sent;
            && (exists k :: 0 <= k < |actions| && IsMessage(actions[k], Turn(s[i].time, s[i].data)))
            && forall j :: 0 <= j < |s| && j != i ==> s[j].time != s[i].time
  {
    EveryInterleaving(initial, actions);
    var w0 := Init(initial.address, initial.len);
    DueFromMessages(w0, actions);
    var w := Run(w0, actions);
    var t := w.due[w.sent[i].turn - 1];
    assert t == Turn(w.sent[i].time, w.sent[i].data);
    forall j | 0 <= j < |w.sent| && j != i ensures w.sent[j].time != w.sent[i].time {
      if j < i {
        SentSpaced(initial, actions, j, i);
      } else {
        SentSpaced(initial, actions, i, j);
      }
    }
  }

  // ---------------------------------------------------------------- a state is forwarded

  function Reads(n: nat): seq<Action> {
    seq(n, _ => ReadByte)
  }

  /** The handling of one state message that the receiver does not disturb. */
  function Handling(first: int, now: int, data: seq<Byte>): seq<Action> {
    [StateMessage(first, now, data), TestReady, HandlerLock] + Reads(16) + [Send]
  }

  lemma RunPush(w: World, actions: seq<Action>, a: Action)
    ensures Run(w, actions + [a]) == Act(Run(w, actions), a)
  {
    assert (actions + [a])[..|actions|] == actions;
  }

  lemma {:induction false} RunReads(w: World, actions: seq<Action>, n: nat)
    requires n <= 16
    requires var v := Run(w, actions); v.handler.Reading? && v.handler.address == [] && |v.address| == 16
    ensures var v := Run(w, actions);
            Run(w, actions + Reads(n)) == v.(handler := Reading(v.handler.now, v.handler.data, v.handler.after, v.address[..n]))
  {
    if n == 0 {
      assert actions + Reads(0) == actions;
    } else {
      RunReads(w, actions, n - 1);
      RunPush(w, actions + Reads(n - 1), ReadByte);
      assert (actions + Reads(n - 1)) + [ReadByte] == actions + Reads(n);
      PrefixStep(Run(w, actions).address, n - 1);
    }
  }

  /** The steps up to the mutex. */
  lemma Locks(w0: World, actions: seq<Action>, first: int, now: int, data: seq<Byte>)
    requires var w := Run(w0, actions);
             && w.handler.Resting? && w.owner == Nobody && w.ready
             && ElapsedMillis(now, if w.called then w.lastSend else first) >= PERIOD_MILLIS
    ensures var w := Run(w0, actions);
            Run(w0, actions + [StateMessage(first, now, data), TestReady, HandlerLock]) ==
            w.(called := true, lastSend := now, due := w.due + [Turn(now, data)], owner := Handler, handler := Reading(now, data, |w.stores|, []))
  {
    var a1 := actions + [StateMessage(first, now, data)];
    var a2 := a1 + [TestReady];
    RunPush(w0, actions, StateMessage(first, now, data));
    RunPush(w0, a1, TestReady);
    RunPush(w0, a2, HandlerLock);
    assert a2 + [HandlerLock] == actions + [StateMessage(first, now, data), TestReady, HandlerLock];
  }

  lemma Forwards(w0: World, actions: seq<Action>, first: int, now: int, data: seq<Byte>)
    requires var w := Run(w0, actions);
             && w.handler.Resting? && w.owner == Nobody && w.ready && |w.address| == 16
             && ElapsedMillis(now, if w.called then w.lastSend else first) >= PERIOD_MILLIS
    ensures var w, r := Run(w0, actions), Run(w0, actions + Handling(first, now, data));
            && r.handler.Resting? && r.called && r.lastSend == now
            && r.sent == w.sent + [Sent(w.address, w.len, now, data, |w.stores|, |w.due| + 1)]
  {
    var locked := actions + [StateMessage(first, now, data), TestReady, HandlerLock];
    Locks(w0, actions, first, now, data);
    RunReads(w0, locked, 16);
    RunPush(w0, locked + Reads(16), Send);
    assert locked + Reads(16) + [Send] == actions + Handling(first, now, data);
    var address := Run(w0, actions).address;
    assert address[..16] == address;
  }

  predicate Idle(actions: seq<Action>) {
    forall i :: 0 <= i < |actions| ==> actions[i] in {TestReady, HandlerLock, ReadByte, Send}
  }

  lemma {:induction false} RestingStays(w: World, actions: seq<Action>, rest: seq<Action>)
    requires Run(w, actions).handler.Resting? && Idle(rest)
    ensures Run(w, actions + rest) == Run(w, actions)
  {
    if rest == [] {
      assert actions + rest == actions;
    } else {
      var n := |rest| - 1;
      RestingStays(w, actions, rest[..n]);
      RunPush(w, actions + rest[..n], rest[n]);
      assert actions + rest[..n] + [rest[n]] == actions + rest;
    }
  }

  lemma Withholds(w0: World, actions: seq<Action>, first: int, now: int, data: seq<Byte>)
    requires var w := Run(w0, actions);
             w.handler.Resting? && ElapsedMillis(now, if w.called then w.lastSend else first) < PERIOD_MILLIS
    ensures var w, r := Run(w0, actions), Run(w0, actions + Handling(first, now, data));
            r == w.(called := true, lastSend := if w.called then w.lastSend else first)
  {
    var a1, rest := actions + [StateMessage(first, now, data)], [TestReady, HandlerLock] + Reads(16) + [Send];
    RunPush(w0, actions, StateMessage(first, now, data));
    RestingStays(w0, a1, rest);
    assert a1 + rest == actions + Handling(first, now, data);
  }

  /** After any interleaving in which both threads are at rest and a client has spoken, a state message that the receiver
      does not disturb is forwarded to the newest client, whole and unchanged, exactly if 20 ms have passed since the
      last turn at the throttle (since `first`, if there was no call yet). */
  lemma ForwardMade(initial: Client, actions: seq<Action>, first: int, now: int, data: seq<Byte>)
    requires var w := Run(Init(initial.address, initial.len), actions);
             w.handler.Resting? && w.owner == Nobody && w.ready
    ensures var w0 := Init(initial.address, initial.len);
            var w, r := Run(w0, actions), Run(w0, actions + Handling(first, now, data));
            var last := if w.called then w.lastSend else first;
            && w.stores != [] && r.handler.Resting?
            && if now - last >= 20_000_000
               then
                 var c := w.stores[|w.stores| - 1];
                 r.sent == w.sent + [Sent(c.address, c.len, now, data, |w.stores|, |w.due| + 1)] && r.called && r.lastSend == now
               else r.sent == w.sent && r.called && r.lastSend == last
  {
    EveryInterleaving(initial, actions);
    var w0 := Init(initial.address, initial.len);
    var w := Run(w0, actions);
    var last := if w.called then w.lastSend else first;
    ElapsedMeans(now, last, 20);
    if now - last >= 20_000_000 {
      Forwards(w0, actions, first, now, data);
    } else {
      Withholds(w0, actions, first, now, data);
    }
  }
}
