/** The table of names by address: its bound, which addresses give way, and what it knows over whole runs. */
module NameTable {
  import opened Names
  import opened Net
  import opened Wrappers

  const MAX_NAMES := 20_000

  type Table = map<IpAddr, DnsEntry>

  function Lookup(t: Table, ip: IpAddr, now: nat): Option<string> {
    if ip in t then Unique(t[ip], now) else None
  }

  // Trimming, for any table keyed by address.

  function Excess(size: nat, limit: nat): nat {
    if size < limit * 9 / 10 then 0 else size - limit * 9 / 10
  }

  /** `dropped` is what a trim may drop: addresses out of use, as many as exceed nine tenths of the limit. */
  predicate Droppable<V>(m: map<IpAddr, V>, used: set<IpAddr>, limit: nat, dropped: set<IpAddr>) {
    var unused, excess := m.Keys - used, Excess(|m|, limit);
    dropped <= unused && |dropped| == if excess < |unused| then excess else |unused|
  }

  method Trim<V>(m: map<IpAddr, V>, used: set<IpAddr>, limit: nat) returns (r: map<IpAddr, V>)
    ensures r == m - (m.Keys - r.Keys) && Droppable(m, used, limit, m.Keys - r.Keys)
  {
    hide Excess, Droppable;
    ghost var dropped: set<IpAddr> := {};
    r := m;
    var unused := m.Keys - used;
    var excess := Excess(|m|, limit);
    while excess > 0 && unused != {}
      invariant dropped !! unused && dropped + unused == m.Keys - used && r == m - dropped
      invariant |dropped| + excess == Excess(|m|, limit)
      decreases unused
    {
      var ip :| ip in unused;
      r := r - {ip};
      dropped := dropped + {ip};
      unused := unused - {ip};
      excess := excess - 1;
    }
    DroppedEnough(m, used, limit, dropped, unused, excess);
    KeysLeft(m, dropped);
  }

  lemma DroppedEnough<V>(m: map<IpAddr, V>, used: set<IpAddr>, limit: nat, dropped: set<IpAddr>, left: set<IpAddr>,
                         excess: nat)
    requires dropped !! left && dropped + left == m.Keys - used && |dropped| + excess == Excess(|m|, limit)
    requires excess == 0 || left == {}
    ensures Droppable(m, used, limit, dropped)
  {
    DroppedAll(m.Keys - used, dropped, left);
  }

  lemma KeysLeft<V>(m: map<IpAddr, V>, dropped: set<IpAddr>)
    requires dropped <= m.Keys
    ensures m.Keys - (m - dropped).Keys == dropped
  {}

  lemma DroppedAll(all: set<IpAddr>, dropped: set<IpAddr>, rest: set<IpAddr>)
    requires dropped !! rest && dropped + rest == all
    ensures |all| == |dropped| + |rest|
  {}

  /** A trim leaves nine tenths of the limit, or else only addresses in use; those all stay. */
  lemma TrimLeaves<V>(m: map<IpAddr, V>, used: set<IpAddr>, limit: nat, dropped: set<IpAddr>)
    requires Droppable(m, used, limit, dropped)
    ensures forall ip | ip in m && ip in used :: ip in m - dropped
    ensures |m - dropped| <= |m|
    ensures |m - dropped| > limit * 9 / 10 && dropped != {} ==> (m - dropped).Keys <= used
    ensures |m| > limit * 9 / 10 && |m - dropped| == |m| ==> m.Keys <= used
  {
    var r := m - dropped;
    assert r.Keys == m.Keys - dropped;
    assert m.Keys == r.Keys + dropped;
    var unused := m.Keys - used;
    assert |m| == |m.Keys| && |r| == |r.Keys|;
    assert unused == dropped + (unused - dropped);
  }

  // Remembering.

  function Trimmed(t: Table, ip: IpAddr, dropped: set<IpAddr>): Table {
    if |t| >= MAX_NAMES && ip !in t then t - dropped else t
  }

  function Learned(t: Table, ip: IpAddr, name: string, ttl: nat, now: nat, dropped: set<IpAddr>): Table {
    if !Acceptable(name) then t
    else
      var r := Trimmed(t, ip, dropped);
      if |r| >= MAX_NAMES && ip !in r then r
      else r[ip := Remembered(if ip in r then r[ip] else NO_NAMES, Lowered(name), ttl, now)]
  }

  ghost predicate Fair(t: Table, ip: IpAddr, name: string, used: set<IpAddr>, dropped: set<IpAddr>) {
    Acceptable(name) && |t| >= MAX_NAMES && ip !in t ==> Droppable(t, used, MAX_NAMES, dropped)
  }

  lemma Grows(t: Table, ip: IpAddr, e: DnsEntry)
    ensures |t[ip := e]| == if ip in t then |t| else |t| + 1
  {
    assert t[ip := e].Keys == t.Keys + {ip};
    assert |t| == |t.Keys| && |t[ip := e]| == |t[ip := e].Keys|;
  }

  /** The table stays within its bound, an address of the history keeps its names, and a new address is
      turned away exactly when the table is full of addresses of the history. */
  lemma LearnedBounded(t: Table, ip: IpAddr, name: string, ttl: nat, now: nat, used: set<IpAddr>, dropped: set<IpAddr>)
    requires |t| <= 20_000 && Fair(t, ip, name, used, dropped)
    ensures var r := Learned(t, ip, name, ttl, now, dropped);
            && |r| <= 20_000
            && (forall j | j in t && j in used && j != ip :: j in r && r[j] == t[j])
            && (Acceptable(name) && ip !in t ==> (ip !in r <==> |t| == 20_000 && t.Keys <= used))
  {
    hide Remembered, Acceptable, Lowered;
    if Acceptable(name) {
      var r := Trimmed(t, ip, dropped);
      if |t| >= MAX_NAMES && ip !in t {
        hide Droppable;
        TrimLeaves(t, used, MAX_NAMES, dropped);
        FullOfUsed(t, used, dropped);
      }
      Grows(r, ip, Remembered(if ip in r then r[ip] else NO_NAMES, Lowered(name), ttl, now));
    }
  }

  lemma FullOfUsed(t: Table, used: set<IpAddr>, dropped: set<IpAddr>)
    requires |t| == MAX_NAMES && Droppable(t, used, MAX_NAMES, dropped)
    ensures |t - dropped| >= MAX_NAMES <==> t.Keys <= used
  {
    TrimLeaves(t, used, MAX_NAMES, dropped);
    if t.Keys <= used {
      assert dropped == {};
      assert t - dropped == t;
    }
  }

  // Runs.

  datatype NameOp =
    | Learn(ip: IpAddr, name: string, ttl: nat, used: set<IpAddr>, dropped: set<IpAddr>)
    | Reload

  /** Saved and read back. */
  function Reloaded(t: Table, now: nat): Table {
    map ip | ip in t && Restored(t[ip], now).Some? :: Restored(t[ip], now).value
  }

  function Next(t: Table, op: NameOp, now: nat): Table {
    match op
    case Learn(ip, name, ttl, _, dropped) => Learned(t, ip, name, ttl, now, dropped)
    case Reload => Reloaded(t, now)
  }

  type Logs = map<IpAddr, Log>

  function LogOf(logs: Logs, ip: IpAddr): Log {
    if ip in logs then logs[ip] else map[]
  }

  /** The name in small letters, ASCII alone. */
  function Small(name: string): string {
    seq(|name|, i requires 0 <= i < |name| =>
      if 65 <= name[i] as int <= 90 then (name[i] as int + 32) as char else name[i])
  }

  lemma SmallIs(name: string)
    ensures Lowered(name) == Small(name)
  {}

  /** The unbounded logs of the addresses the table retains: of every name of 1 to 253 characters. */
  function NextLogs(logs: Logs, kept: set<IpAddr>, op: NameOp, now: nat): Logs {
    match op
    case Learn(ip, name, ttl, _, _) =>
      map j | j in kept ::
        if j == ip && 1 <= |name| <= 253 then Logged(LogOf(logs, j), Small(name), ttl, now) else LogOf(logs, j)
    case Reload => map j | j in kept :: LogOf(logs, j)
  }

  ghost predicate Known(t: Table, logs: Logs, now: nat) {
    t.Keys == logs.Keys && forall ip | ip in t :: Summary(t[ip], logs[ip], now)
  }

  lemma LaterSummary(e: DnsEntry, log: Log, before: nat, now: nat)
    requires Summary(e, log, before) && before <= now
    ensures Summary(e, log, now)
  {}

  lemma NothingKnown(now: nat)
    ensures Summary(NO_NAMES, map[], now)
  {}

  lemma LearnedKnown(t: Table, logs: Logs, before: nat, op: NameOp, now: nat)
    requires op.Learn? && Known(t, logs, before) && before <= now
    ensures var r := Next(t, op, now); Known(r, NextLogs(logs, r.Keys, op, now), now)
  {
    hide Summary, Remembered, Logged, Acceptable, Lowered, Small;
    var r := Next(t, op, now);
    var next := NextLogs(logs, r.Keys, op, now);
    NothingKnown(before);
    forall j | j in r
      ensures Summary(r[j], next[j], now)
    {
      LoweredAcceptable(op.name);
      SmallIs(op.name);
      var e, log := if j in t then t[j] else NO_NAMES, LogOf(logs, j);
      if j == op.ip && Acceptable(op.name) {
        EntryAt(t, op, now);
        RememberedSummary(e, log, before, Lowered(op.name), op.ttl, now);
      } else {
        LaterSummary(e, log, before, now);
      }
    }
  }

  lemma LoweredAcceptable(name: string)
    ensures Acceptable(name) ==> Acceptable(Lowered(name))
    ensures Acceptable(name) <==> 1 <= |name| <= 253
  {}

  lemma EntryAt(t: Table, op: NameOp, now: nat)
    requires op.Learn? && Acceptable(op.name) && op.ip in Next(t, op, now)
    ensures Next(t, op, now)[op.ip]
            == Remembered(if op.ip in t then t[op.ip] else NO_NAMES, Lowered(op.name), op.ttl, now)
  {
    hide Remembered, Acceptable, Lowered;
  }

  lemma ReloadedKnown(t: Table, logs: Logs, before: nat, now: nat)
    requires Known(t, logs, before) && before <= now
    ensures var r := Reloaded(t, now); Known(r, NextLogs(logs, r.Keys, Reload, now), now)
  {
    hide Summary, Restored;
    forall ip | ip in Reloaded(t, now)
      ensures Summary(Reloaded(t, now)[ip], LogOf(logs, ip), now)
    {
      RestoredSummary(t[ip], logs[ip], before, now);
    }
  }

  function RunNames(ops: seq<NameOp>, times: seq<nat>): (Table, Logs)
    requires |ops| == |times|
  {
    if ops == [] then (map[], map[])
    else
      var n := |ops| - 1;
      var (t, logs) := RunNames(ops[..n], times[..n]);
      var r := Next(t, ops[n], times[n]);
      (r, NextLogs(logs, r.Keys, ops[n], times[n]))
  }

  ghost predicate Forward(times: seq<nat>) {
    forall i, j | 0 <= i < j < |times| :: times[i] <= times[j]
  }

  lemma {:induction false} RunKnown(ops: seq<NameOp>, times: seq<nat>, now: nat)
    requires |ops| == |times| && Forward(times) && (times != [] ==> times[|times| - 1] <= now)
    ensures var (t, logs) := RunNames(ops, times); Known(t, logs, now)
  {
    hide Summary, Next, NextLogs;
    if ops != [] {
      var n := |ops| - 1;
      var (t, logs) := RunNames(ops[..n], times[..n]);
      RunKnown(ops[..n], times[..n], times[n]);
      match ops[n] {
        case Learn(_, _, _, _, _) => LearnedKnown(t, logs, times[n], ops[n], times[n]);
        case Reload => ReloadedStep(t, logs, times[n], times[n]);
      }
      KnownLater(RunNames(ops, times).0, RunNames(ops, times).1, times[n], now);
    }
  }

  lemma ReloadedStep(t: Table, logs: Logs, before: nat, now: nat)
    requires Known(t, logs, before) && before <= now
    ensures var r := Next(t, Reload, now); Known(r, NextLogs(logs, r.Keys, Reload, now), now)
  {
    ReloadedKnown(t, logs, before, now);
  }

  lemma KnownLater(t: Table, logs: Logs, before: nat, now: nat)
    requires Known(t, logs, before) && before <= now
    ensures Known(t, logs, now)
  {
    hide Summary;
    forall ip | ip in t
      ensures Summary(t[ip], logs[ip], now)
    {
      LaterSummary(t[ip], logs[ip], before, now);
    }
  }

  /** Over any run of DNS answers and reloads under a clock that does not go backwards, a name is given
      exactly when the unbounded log of the address has it as its only live name and no mark is set. */
  lemma NamesAreSound(ops: seq<NameOp>, times: seq<nat>, now: nat, ip: IpAddr, name: string)
    requires |ops| == |times| && Forward(times) && (times != [] ==> times[|times| - 1] <= now)
    ensures var (t, logs) := RunNames(ops, times);
            Lookup(t, ip, now) == Some(name)
            <==> ip in t && t[ip].overflowUntil <= now && Sole(LogOf(logs, ip), now, name)
  {
    hide Summary, Unique, RunNames;
    var (t, logs) := RunNames(ops, times);
    RunKnown(ops, times, now);
    if ip in t {
      UniqueIff(t[ip], logs[ip], now, now, name);
    }
  }

  /** Saving and reading back the whole table changes no answer, now or later. */
  lemma ReloadChangesNothing(t: Table, logs: Logs, saved: nat, before: nat, now: nat, ip: IpAddr)
    requires Known(t, logs, saved) && before <= now
    ensures Lookup(Reloaded(t, before), ip, now) == Lookup(t, ip, now)
  {
    hide Summary, Unique, Restored;
    if ip in t {
      RestoredSame(t[ip], logs[ip], saved, before, now);
    }
  }

  /** At no address are more than eight names live. */
  ghost predicate FewLive(logs: Logs, now: nat) {
    forall ip | ip in logs :: |LiveIn(logs[ip], now)| <= 8
  }

  ghost predicate Unmarked(t: Table) {
    forall ip | ip in t :: t[ip].overflowUntil == 0
  }

  lemma LearnedUnmarked(t: Table, logs: Logs, op: NameOp, now: nat)
    requires op.Learn? && Known(t, logs, now) && now < LAST_MS && Unmarked(t)
    requires FewLive(NextLogs(logs, Next(t, op, now).Keys, op, now), now)
    ensures Unmarked(Next(t, op, now))
  {
    hide Summary, Remembered, LiveIn, Logged, Acceptable, Lowered, Small;
    var r := Next(t, op, now);
    var next := NextLogs(logs, r.Keys, op, now);
    NothingKnown(now);
    forall j | j in r
      ensures r[j].overflowUntil == 0
    {
      LoweredAcceptable(op.name);
      SmallIs(op.name);
      assert |LiveIn(next[j], now)| <= 8;
      if j == op.ip && Acceptable(op.name) {
        EntryAt(t, op, now);
        var e, log := if j in t then t[j] else NO_NAMES, LogOf(logs, j);
        if Remembered(e, Lowered(op.name), op.ttl, now).overflowUntil != e.overflowUntil {
          MarkedOnlyBeyondEight(e, log, now, Lowered(op.name), op.ttl, now);
        }
      }
    }
  }

  lemma ReloadedUnmarked(t: Table, logs: Logs, now: nat)
    requires Known(t, logs, now) && Unmarked(t)
    ensures Unmarked(Reloaded(t, now))
  {
    forall ip | ip in Reloaded(t, now)
      ensures Restored(t[ip], now).value.overflowUntil == 0
    {
      ReadableAre(t[ip].names, now);
    }
  }

  lemma {:induction false} RunUnmarked(ops: seq<NameOp>, times: seq<nat>)
    requires |ops| == |times| && Forward(times) && forall n | 0 <= n < |times| :: times[n] < LAST_MS
    requires forall n | 0 < n <= |ops| :: FewLive(RunNames(ops[..n], times[..n]).1, times[n - 1])
    ensures Unmarked(RunNames(ops, times).0)
  {
    hide Next, NextLogs, FewLive;
    if ops != [] {
      var n := |ops| - 1;
      forall m | 0 < m <= n
        ensures FewLive(RunNames(ops[..n][..m], times[..n][..m]).1, times[..n][m - 1])
      {
        assert ops[..n][..m] == ops[..m] && times[..n][..m] == times[..m];
      }
      RunUnmarked(ops[..n], times[..n]);
      RunKnown(ops[..n], times[..n], times[n]);
      assert ops[..n + 1] == ops && times[..n + 1] == times;
      var (t, logs) := RunNames(ops[..n], times[..n]);
      StepUnmarked(t, logs, ops[n], times[n]);
    }
  }

  lemma StepUnmarked(t: Table, logs: Logs, op: NameOp, now: nat)
    requires Known(t, logs, now) && now < LAST_MS && Unmarked(t)
    requires FewLive(NextLogs(logs, Next(t, op, now).Keys, op, now), now)
    ensures Unmarked(Next(t, op, now))
  {
    hide Known, FewLive, Unmarked, Learned, Reloaded, NextLogs;
    match op
    case Learn(_, _, _, _, _) => LearnedUnmarked(t, logs, op, now);
    case Reload => ReloadedUnmarked(t, logs, now);
  }

  /** While at most eight names of an address are live at a time, the answer is exact. */
  lemma NamesAreExact(ops: seq<NameOp>, times: seq<nat>, now: nat, ip: IpAddr, name: string)
    requires |ops| == |times| && Forward(times) && (times != [] ==> times[|times| - 1] <= now)
    requires forall n | 0 <= n < |times| :: times[n] < 0xFFFF_FFFF_FFFF_FFFF
    requires forall n | 0 < n <= |ops| :: FewLive(RunNames(ops[..n], times[..n]).1, times[n - 1])
    ensures var (t, logs) := RunNames(ops, times);
            Lookup(t, ip, now) == Some(name) <==> ip in t && Sole(LogOf(logs, ip), now, name)
  {
    hide RunNames, FewLive;
    RunUnmarked(ops, times);
    NamesAreSound(ops, times, now, ip, name);
  }
}
