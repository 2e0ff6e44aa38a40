/** The lock-free callback counter of the full lidar service: any number of threads, any interleaving.

    A thread increments the counter, reads the clock, loads the last log time and, if a second has passed, tries
    a weak compare-and-exchange (which may fail for no reason) and on success exchanges the counter with zero.
 */
module LogCounter {
  import opened ClockTime

  const MODULUS: nat := 0x1_0000_0000_0000_0000
  const LOG_PERIOD: int := 1000

  type ThreadId = nat

  datatype Pc =
    | Outside
    | Counted                             // ++count done
    | Timed(now: int)                     // clock read
    | Loaded(now: int, last: int)         // last log time loaded
    | Won(now: int)                       // compare-and-exchange succeeded, count not yet taken

  /** A printed line: when its thread's clock was read, and the count it printed. */
  datatype Report = Report(time: int, count: nat)

  datatype World = World(
    count: nat, lastLog: int, pcs: map<ThreadId, Pc>,
    // history
    counted: nat, wins: seq<int>, reports: seq<Report>)

  datatype Action =
    | Increment(t: ThreadId)
    | ReadClock(t: ThreadId, now: int)
    | LoadLast(t: ThreadId)
    | TryExchange(t: ThreadId, spurious: bool)
    | TakeCount(t: ThreadId)

  function Init(startTime: int): World {
    World(0, startTime, map[], 0, [startTime], [])
  }

  function PcOf(w: World, t: ThreadId): Pc {
    if t in w.pcs then w.pcs[t] else Outside
  }

  function Act(w: World, a: Action): World {
    var t := a.t;
    match (a, PcOf(w, t))
    case (Increment(_), Outside) =>
      w.(count := (w.count + 1) % MODULUS, counted := w.counted + 1, pcs := w.pcs[t := Counted])
    case (ReadClock(_, now), Counted) =>
      w.(pcs := w.pcs[t := Timed(now)])
    case (LoadLast(_), Timed(now)) =>
      w.(pcs := w.pcs[t := if ElapsedMillis(now, w.lastLog) >= LOG_PERIOD then Loaded(now, w.lastLog) else Outside])
    case (TryExchange(_, spurious), Loaded(now, last)) =>
      if !spurious && w.lastLog == last then
        w.(lastLog := now, wins := w.wins + [now], pcs := w.pcs[t := Won(now)])
      else w.(pcs := w.pcs[t := Outside])
    case (TakeCount(_), Won(now)) =>
      w.(count := 0, reports := w.reports + [Report(now, w.count)], pcs := w.pcs[t := Outside])
    case _ => w
  }

  function Run(w: World, actions: seq<Action>): World {
    if actions == [] then w else Act(Run(w, actions[..|actions| - 1]), actions[|actions| - 1])
  }

  function Reported(reports: seq<Report>): nat {
    if reports == [] then 0 else Reported(reports[..|reports| - 1]) + reports[|reports| - 1].count
  }

  // ---------------------------------------------------------------- nothing is lost

  ghost predicate Conserved(w: World) {
    w.count < MODULUS && (Reported(w.reports) + w.count) % MODULUS == w.counted % MODULUS
    && Reported(w.reports) + w.count <= w.counted
  }

  lemma ActConserves(w: World, a: Action)
    requires Conserved(w)
    ensures Conserved(Act(w, a))
  {
    var w' := Act(w, a);
    if |w'.reports| > |w.reports| {
      assert w'.reports[..|w.reports|] == w.reports;
    }
    ModNext(Reported(w.reports), w.count, w.counted);
  }

  lemma ModNext(r: nat, c: nat, n: nat)
    requires c < MODULUS && (r + c) % MODULUS == n % MODULUS
    ensures (r + (c + 1) % MODULUS) % MODULUS == (n + 1) % MODULUS
  {
  }

  /** The callbacks that started: the increments by a thread that was outside. */
  function Started(start: int, actions: seq<Action>): nat {
    if actions == [] then 0
    else
      var init, a := actions[..|actions| - 1], actions[|actions| - 1];
      Started(start, init) + if a.Increment? && PcOf(Run(Init(start), init), a.t).Outside? then 1 else 0
  }

  lemma {:induction false} CountedStarted(start: int, actions: seq<Action>)
    ensures Run(Init(start), actions).counted == Started(start, actions)
  {
    if actions == [] {
    } else {
      CountedStarted(start, actions[..|actions| - 1]);
    }
  }

  /** In every interleaving the printed counts and the current counter account for every callback that started
      (exactly, as long as those are fewer than 2^64; modulo 2^64 always). */
  lemma {:induction false} CountsConserved(start: int, actions: seq<Action>)
    ensures var w, started := Run(Init(start), actions), Started(start, actions);
            && (Reported(w.reports) + w.count) % 0x1_0000_0000_0000_0000 == started % 0x1_0000_0000_0000_0000
            && (started < 0x1_0000_0000_0000_0000 ==> Reported(w.reports) + w.count == started)
  {
    RunConserved(start, actions);
    CountedStarted(start, actions);
    var w := Run(Init(start), actions);
    SmallEqual(Reported(w.reports) + w.count, w.counted);
  }

  lemma SmallEqual(a: nat, b: nat)
    requires a <= b && a % MODULUS == b % MODULUS
    ensures b < MODULUS ==> a == b
  {
  }

  lemma {:induction false} RunConserved(start: int, actions: seq<Action>)
    ensures Conserved(Run(Init(start), actions))
  {
    if actions == [] {
    } else {
      RunConserved(start, actions[..|actions| - 1]);
      ActConserves(Run(Init(start), actions[..|actions| - 1]), actions[|actions| - 1]);
    }
  }

  // ---------------------------------------------------------------- at most one report a second

  /** The log times grow by at least a second each, every report and every winner has its own, and a loaded time
      is one second older than the reading it was compared with. */
  ghost predicate Spaced(w: World) {
    && WinsSpaced(w.wins) && w.lastLog == w.wins[|w.wins| - 1]
    && (forall t :: t in w.pcs && w.pcs[t].Loaded? ==> w.pcs[t].now - w.pcs[t].last >= LOG_PERIOD * NANOS_PER_MILLI)
    && Winners(w.pcs, w.wins) && Reporters(w.reports, w.wins) && Apart(w.reports, w.pcs)
  }

  ghost predicate WinsSpaced(wins: seq<int>) {
    |wins| > 0 && forall i, j :: 0 <= i < j < |wins| ==> wins[j] - wins[i] >= LOG_PERIOD * NANOS_PER_MILLI
  }

  /** A log time set by an exchange (the first entry is the start time). */
  ghost predicate IsWin(wins: seq<int>, time: int) {
    exists k :: 1 <= k < |wins| && wins[k] == time
  }

  ghost predicate Winners(pcs: map<ThreadId, Pc>, wins: seq<int>) {
    && (forall t :: t in pcs && pcs[t].Won? ==> IsWin(wins, pcs[t].now))
    && (forall t, u :: t in pcs && u in pcs && t != u && pcs[t].Won? && pcs[u].Won? ==> pcs[t].now != pcs[u].now)
  }

  ghost predicate Reporters(reports: seq<Report>, wins: seq<int>) {
    && (forall i :: 0 <= i < |reports| ==> IsWin(wins, reports[i].time))
    && (forall i, j :: 0 <= i < j < |reports| ==> reports[i].time != reports[j].time)
  }

  ghost predicate Apart(reports: seq<Report>, pcs: map<ThreadId, Pc>) {
    forall i, t :: 0 <= i < |reports| && t in pcs && pcs[t].Won? ==> reports[i].time != pcs[t].now
  }

  lemma ActSpaced(w: World, a: Action)
    requires Spaced(w)
    ensures Spaced(Act(w, a))
  {
    var t := a.t;
    match (a, PcOf(w, t))
    case (Increment(_), Outside) => MoveSpaced(w, t, Counted, (w.count + 1) % MODULUS, w.counted + 1);
    case (ReadClock(_, now), Counted) => MoveSpaced(w, t, Timed(now), w.count, w.counted);
    case (LoadLast(_), Timed(now)) =>
      ElapsedMeans(now, w.lastLog, LOG_PERIOD);
      MoveSpaced(w, t, if ElapsedMillis(now, w.lastLog) >= LOG_PERIOD then Loaded(now, w.lastLog) else Outside, w.count, w.counted);
    case (TryExchange(_, spurious), Loaded(now, last)) =>
      if !spurious && w.lastLog == last {
        ExchangeSpaced(w, t, now, last);
      } else {
        MoveSpaced(w, t, Outside, w.count, w.counted);
      }
    case (TakeCount(_), Won(now)) => TakeSpaced(w, t, now);
    case _ =>
  }

  lemma MoveSpaced(w: World, t: ThreadId, pc: Pc, count: nat, counted: nat)
    requires Spaced(w) && !pc.Won?
    requires pc.Loaded? ==> pc.now - pc.last >= LOG_PERIOD * NANOS_PER_MILLI
    ensures Spaced(w.(pcs := w.pcs[t := pc], count := count, counted := counted))
  {
  }

  lemma NewWin(wins: seq<int>, now: int)
    requires WinsSpaced(wins) && now - wins[|wins| - 1] >= LOG_PERIOD * NANOS_PER_MILLI
    ensures WinsSpaced(wins + [now]) && IsWin(wins + [now], now) && !IsWin(wins, now)
  {
    forall i | 0 <= i < |wins| ensures now - wins[i] >= LOG_PERIOD * NANOS_PER_MILLI {
      assert i < |wins| - 1 ==> wins[|wins| - 1] - wins[i] >= LOG_PERIOD * NANOS_PER_MILLI;
    }
    assert (wins + [now])[|wins|] == now;
  }

  lemma StillWin(wins: seq<int>, now: int, time: int)
    requires IsWin(wins, time)
    ensures IsWin(wins + [now], time)
  {
    var k :| 1 <= k < |wins| && wins[k] == time;
    assert (wins + [now])[k] == time;
  }

  lemma ExchangeSpaced(w: World, t: ThreadId, now: int, last: int)
    requires Spaced(w) && PcOf(w, t) == Loaded(now, last) && w.lastLog == last
    ensures Spaced(w.(lastLog := now, wins := w.wins + [now], pcs := w.pcs[t := Won(now)]))
  {
    NewWin(w.wins, now);
    forall time | IsWin(w.wins, time) ensures IsWin(w.wins + [now], time) {
      StillWin(w.wins, now, time);
    }
    var pcs := w.pcs[t := Won(now)];
    assert Winners(pcs, w.wins + [now]);
    assert Reporters(w.reports, w.wins + [now]);
    assert Apart(w.reports, pcs);
  }

  lemma TakeSpaced(w: World, t: ThreadId, now: int)
    requires Spaced(w) && PcOf(w, t) == Won(now)
    ensures Spaced(w.(count := 0, reports := w.reports + [Report(now, w.count)], pcs := w.pcs[t := Outside]))
  {
    var pcs, reports := w.pcs[t := Outside], w.reports + [Report(now, w.count)];
    assert Winners(pcs, w.wins);
    assert Reporters(reports, w.wins);
    assert Apart(reports, pcs);
  }

  lemma {:induction false} RunSpaced(start: int, actions: seq<Action>)
    ensures Spaced(Run(Init(start), actions))
  {
    if actions == [] {
    } else {
      RunSpaced(start, actions[..|actions| - 1]);
      ActSpaced(Run(Init(start), actions[..|actions| - 1]), actions[|actions| - 1]);
    }
  }

  /** In every interleaving the log times of any two reports are at least 1000 ms apart, whatever order they print in. */
  lemma ReportsSpaced(start: int, actions: seq<Action>, i: nat, j: nat)
    requires i < |Run(Init(start), actions).reports| && j < |Run(Init(start), actions).reports| && i != j
    ensures var r := Run(Init(start), actions).reports;
            var d := r[i].time - r[j].time;
            d >= 1_000_000_000 || -d >= 1_000_000_000
  {
    RunSpaced(start, actions);
    var w := Run(Init(start), actions);
    assert w.reports[i].time != w.reports[j].time;
    assert IsWin(w.wins, w.reports[i].time) && IsWin(w.wins, w.reports[j].time);
    var a :| 1 <= a < |w.wins| && w.wins[a] == w.reports[i].time;
    var b :| 1 <= b < |w.wins| && w.wins[b] == w.reports[j].time;
  }

  // ---------------------------------------------------------------- a report is made

  /** One callback that no other thread disturbs. */
  function Callback(t: ThreadId, now: int): seq<Action> {
    [Increment(t), ReadClock(t, now), LoadLast(t), TryExchange(t, false), TakeCount(t)]
  }

  lemma RunPush(w: World, actions: seq<Action>, a: Action)
    ensures Run(w, actions + [a]) == Act(Run(w, actions), a)
  {
    assert (actions + [a])[..|actions|] == actions;
  }

  lemma RunTwo(w: World, actions: seq<Action>, a: Action, b: Action)
    ensures Run(w, actions + [a, b]) == Act(Act(Run(w, actions), a), b)
  {
    var one := actions + [a];
    RunPush(w, actions, a);
    RunPush(w, one, b);
    Regrouped(actions, a, b);
  }

  lemma Regrouped(actions: seq<Action>, a: Action, b: Action)
    ensures actions + [a] + [b] == actions + [a, b]
  {
  }

  lemma RunCallback(w: World, actions: seq<Action>, t: ThreadId, now: int)
    ensures Run(w, actions + Callback(t, now)) ==
            Act(Act(Act(Act(Act(Run(w, actions), Increment(t)), ReadClock(t, now)), LoadLast(t)), TryExchange(t, false)), TakeCount(t))
  {
    var first, second := [Increment(t), ReadClock(t, now)], [LoadLast(t), TryExchange(t, false)];
    RunTwo(w, actions, Increment(t), ReadClock(t, now));
    RunTwo(w, actions + first, LoadLast(t), TryExchange(t, false));
    RunPush(w, actions + first + second, TakeCount(t));
    assert actions + first + second + [TakeCount(t)] == actions + Callback(t, now);
  }

  /** After any interleaving, a callback that no other thread disturbs counts itself, and then, exactly if a second has
      passed since the last log time, reports the whole count and starts over. */
  lemma ReportMade(start: int, actions: seq<Action>, t: ThreadId, now: int)
    requires PcOf(Run(Init(start), actions), t).Outside?
    ensures var w, r := Run(Init(start), actions), Run(Init(start), actions + Callback(t, now));
            var count := (w.count + 1) % 0x1_0000_0000_0000_0000;
            && PcOf(r, t).Outside?
            && if now - w.lastLog >= 1_000_000_000
               then r.reports == w.reports + [Report(now, count)] && r.count == 0 && r.lastLog == now
               else r.reports == w.reports && r.count == count && r.lastLog == w.lastLog
  {
    RunCallback(Init(start), actions, t, now);
    ElapsedMeans(now, Run(Init(start), actions).lastLog, 1000);
  }
}
