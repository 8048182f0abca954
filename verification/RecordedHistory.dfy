/**
 A recording over a run of the connection history: what it sees of a row is the row as the history has it at
 that moment. For a row that lives on nothing is lost by what is skipped; across a clearing or an eviction it is.
 */
module RecordedHistory {
  import opened Annotate
  import opened Bytes
  import H = History
  import opened Net
  import opened Ownership
  import OwnerStart
  import opened Procs
  import opened Recording
  import opened RecordingRun
  import opened Rows
  import opened UdpSockets
  import opened Wrappers

  /** The history makes a step, the recording looks at a row, or processes join it. The program looks at the row
      of each packet and at all rows with each poll, at the start and at the end; here it may look at any time. */
  datatype Deed = Happens(op: H.Op) | Looks(k: ConnKey) | Joins(ids: set<Identity>, limit: bool)

  function OpsOf(deeds: seq<Deed>): seq<H.Op> {
    if deeds == [] then []
    else
      var init, d := deeds[..|deeds| - 1], deeds[|deeds| - 1];
      OpsOf(init) + if d.Happens? then [d.op] else []
  }

  function StoreAfter(now: nat, deeds: seq<Deed>): H.Store {
    H.Run(H.Empty(now), OpsOf(deeds))
  }

  predicate Proper(c: Conn) {
    c.ownerAmbiguous ==> c.pid == None
  }

  /** What the deed shows the recording. */
  function Shows(s: H.Store, d: Deed): seq<Event> {
    match d
    case Happens(_) => []
    case Looks(k) => if k in s.conns && Proper(s.conns[k]) then [Seen(k, s.conns[k])] else []
    case Joins(ids, limit) => [Joined(ids, limit)]
  }

  /** What a recording begun at deed number `from` sees. */
  function Events(now: nat, deeds: seq<Deed>, from: nat): seq<Event> {
    if |deeds| <= from then []
    else
      var init := deeds[..|deeds| - 1];
      Events(now, init, from) + Shows(StoreAfter(now, init), deeds[|deeds| - 1])
  }

  /** The rows as the history has them at the end. */
  function RowsAt(s: H.Store): StoreRows {
    map k | k in s.conns && Proper(s.conns[k]) :: s.conns[k]
  }

  lemma StoreNext(now: nat, deeds: seq<Deed>)
    requires deeds != []
    ensures var s, d := StoreAfter(now, deeds[..|deeds| - 1]), deeds[|deeds| - 1];
            StoreAfter(now, deeds) == if d.Happens? then H.Step(s, d.op) else s
  {
    hide H.Step;
    var ops := OpsOf(deeds[..|deeds| - 1]);
    assert ops + [] == ops;
    if deeds[|deeds| - 1].Happens? {
      assert (ops + [deeds[|deeds| - 1].op])[..|ops|] == ops;
    }
  }

  lemma StoreGood(now: nat, deeds: seq<Deed>) returns (claims: Claims)
    ensures Good(StoreAfter(now, deeds), claims)
  {
    hide Good;
    var ops := OpsOf(deeds);
    claims := RunGood(now, ops, |ops|);
    assert ops[..|ops|] == ops;
  }

  /** In a reachable state every row is proper, so a look at a row always sees it. */
  lemma RowsProper(now: nat, deeds: seq<Deed>, k: ConnKey)
    requires k in StoreAfter(now, deeds).conns
    ensures WellFormed(k, StoreAfter(now, deeds).conns[k]) && Proper(StoreAfter(now, deeds).conns[k])
    ensures k in RowsAt(StoreAfter(now, deeds))
    ensures Shows(StoreAfter(now, deeds), Looks(k)) == [Seen(k, StoreAfter(now, deeds).conns[k])]
  {
    hide Good, StoreAfter;
    var claims := StoreGood(now, deeds);
    RowWellFormed(StoreAfter(now, deeds), claims, k);
  }

  // A row that lives on.

  /** From deed number `a` on the row of `k` is one and the same. */
  ghost predicate LivesFrom(now: nat, deeds: seq<Deed>, a: nat, k: ConnKey) {
    && a <= |deeds| && k in StoreAfter(now, deeds[..a]).conns
    && forall n | a <= n < |deeds| && deeds[n].Happens? :: H.Lives(StoreAfter(now, deeds[..n]), deeds[n].op, k)
  }

  lemma LivesBefore(now: nat, deeds: seq<Deed>, a: nat, k: ConnKey)
    requires LivesFrom(now, deeds, a, k) && a < |deeds|
    ensures LivesFrom(now, deeds[..|deeds| - 1], a, k)
    ensures deeds[|deeds| - 1].Happens? ==> H.Lives(StoreAfter(now, deeds[..|deeds| - 1]), deeds[|deeds| - 1].op, k)
  {
    hide H.Lives, StoreAfter;
    var init := deeds[..|deeds| - 1];
    assert init[..a] == deeds[..a];
    forall n | a <= n < |init| && init[n].Happens?
      ensures H.Lives(StoreAfter(now, init[..n]), init[n].op, k)
    {
      assert init[..n] == deeds[..n];
    }
  }

  /** One deed of a row's life. */
  lemma LivesOneMore(now: nat, deeds: seq<Deed>, k: ConnKey)
    requires deeds != [] && k in StoreAfter(now, deeds[..|deeds| - 1]).conns
    requires deeds[|deeds| - 1].Happens? ==> H.Lives(StoreAfter(now, deeds[..|deeds| - 1]), deeds[|deeds| - 1].op, k)
    ensures k in StoreAfter(now, deeds).conns
    ensures Keeps(k, StoreAfter(now, deeds[..|deeds| - 1]).conns[k], StoreAfter(now, deeds).conns[k])
  {
    hide StoreAfter, Good, Keeps, H.Step, H.Lives;
    StoreNext(now, deeds);
    KeepsReflexive();
    if deeds[|deeds| - 1].Happens? {
      var before := StoreGood(now, deeds[..|deeds| - 1]);
      var after := StepGood(StoreAfter(now, deeds[..|deeds| - 1]), deeds[|deeds| - 1].op, before);
    }
  }

  /** Each sighting keeps what the ones before showed, and so does the row `c` itself. */
  ghost predicate Growing(k: ConnKey, ss: seq<Sighting>, c: Conn) {
    && (forall x | x in ss :: WellFormed(k, x.row) && Keeps(k, x.row, c))
    && (forall i, j | 0 <= i < j < |ss| :: Keeps(k, ss[i].row, ss[j].row))
  }

  lemma GrowingOn(k: ConnKey, ss: seq<Sighting>, c: Conn, d: Conn)
    requires Growing(k, ss, c) && Keeps(k, c, d) && WellFormed(k, c) && WellFormed(k, d)
    ensures Growing(k, ss, d)
  {
    hide Keeps, WellFormed;
    forall x | x in ss
      ensures Keeps(k, x.row, d)
    {
      KeepsTransitive(k, x.row, c, d);
    }
  }

  lemma GrowingMore(k: ConnKey, ss: seq<Sighting>, x: Sighting)
    requires Growing(k, ss, x.row) && WellFormed(k, x.row)
    ensures Growing(k, ss + [x], x.row)
  {
    hide WellFormed, Keeps;
    KeepsReflexive();
    var all := ss + [x];
    forall i, j | 0 <= i < j < |all|
      ensures Keeps(k, all[i].row, all[j].row)
    {
      assert all[i] in ss;
    }
  }

  lemma NoneGrow(k: ConnKey, c: Conn)
    ensures Growing(k, [], c)
  {}

  /** A deed adds at most one sighting of the row, and that as the row is. */
  lemma OneDeed(m: Meta, events: seq<Event>, s: H.Store, d: Deed, k: ConnKey) returns (more: seq<Sighting>)
    requires k in s.conns
    ensures SightingsIn(m, events + Shows(s, d), k) == SightingsIn(m, events, k) + more
    ensures more == [] || (|more| == 1 && !d.Happens? && Proper(s.conns[k]) && more[0].row == s.conns[k])
  {
    hide TakesIn, After;
    more := [];
    var shown, ss := Shows(s, d), SightingsIn(m, events, k);
    if shown == [] {
      assert events + [] == events && ss + [] == ss;
    } else {
      assert (events + shown)[..|events|] == events && (events + shown)[|events|] == shown[0];
      if d.Looks? && d.k == k && s.conns[k].lastSeen >= m.started {
        more := [Sighting(s.conns[k], TakesIn(After(m, events), s.conns[k]))];
      }
    }
  }

  lemma {:induction false} SightingsGrow(now: nat, deeds: seq<Deed>, from: nat, a: nat, m: Meta, k: ConnKey)
    requires from <= a && LivesFrom(now, deeds, a, k) && SightingsIn(m, Events(now, deeds[..a], from), k) == []
    ensures k in StoreAfter(now, deeds).conns
    ensures Growing(k, SightingsIn(m, Events(now, deeds, from), k), StoreAfter(now, deeds).conns[k])
    decreases |deeds|
  {
    hide StoreAfter, Keeps, WellFormed, Growing, TakesIn, Shows, H.Lives, SightingsIn;
    if a == |deeds| {
      assert deeds[..a] == deeds;
      NoneGrow(k, StoreAfter(now, deeds).conns[k]);
    } else {
      var init, d := deeds[..|deeds| - 1], deeds[|deeds| - 1];
      assert init[..a] == deeds[..a];
      LivesBefore(now, deeds, a, k);
      SightingsGrow(now, init, from, a, m, k);
      LivesOneMore(now, deeds, k);
      RowsProper(now, init, k);
      RowsProper(now, deeds, k);
      var s, ss := StoreAfter(now, init), SightingsIn(m, Events(now, init, from), k);
      var more := OneDeed(m, Events(now, init, from), s, d, k);
      if more == [] {
        assert ss + more == ss;
        GrowingOn(k, ss, s.conns[k], StoreAfter(now, deeds).conns[k]);
      } else {
        StoreNext(now, deeds);
        assert more == [more[0]];
        GrowingMore(k, ss, more[0]);
      }
    }
  }

  lemma LivingSightings(now: nat, deeds: seq<Deed>, from: nat, a: nat, m: Meta, k: ConnKey)
    requires from <= a && LivesFrom(now, deeds, a, k) && SightingsIn(m, Events(now, deeds[..a], from), k) == []
    ensures k in StoreAfter(now, deeds).conns
    ensures var s := StoreAfter(now, deeds);
            Growing(k, Sightings(m, Events(now, deeds, from), RowsAt(s), k), s.conns[k])
  {
    hide StoreAfter, Growing, SightingsIn, LivesFrom, Events;
    SightingsGrow(now, deeds, from, a, m, k);
    RowsProper(now, deeds, k);
    var s, ss := StoreAfter(now, deeds), SightingsIn(m, Events(now, deeds, from), k);
    if Recent(m, RowsAt(s), k) {
      GrowingMore(k, ss, Sighting(s.conns[k], true));
    } else {
      assert ss + [] == ss;
    }
  }

  /** While its row lives on, no sighting of a tuple shows another owner than a later one that is not in doubt:
      so what is skipped before the first owned sighting hides nobody. */
  lemma {:induction false} SkippedShowNoOther(now: nat, deeds: seq<Deed>, from: nat, a: nat, m: Meta, k: ConnKey,
                                             i: nat, j: nat)
    requires from <= a && LivesFrom(now, deeds, a, k) && SightingsIn(m, Events(now, deeds[..a], from), k) == []
    requires i <= j < |Sightings(m, Events(now, deeds, from), RowsAt(StoreAfter(now, deeds)), k)|
    ensures var ss := Sightings(m, Events(now, deeds, from), RowsAt(StoreAfter(now, deeds)), k);
            !ss[j].row.ownerAmbiguous ==>
              && !ss[i].row.ownerAmbiguous && (ss[i].row.pid.Some? ==> ss[i].row.pid == ss[j].row.pid)
              && (k.proto == Tcp && ss[i].row.ownerStarted.Some? ==> ss[i].row.ownerStarted == ss[j].row.ownerStarted)
  {
    hide StoreAfter, Sightings, SightingsIn, LivesFrom, Events;
    LivingSightings(now, deeds, from, a, m, k);
  }

  // The fold of a living row.

  /** The start time of the owner, once known, stays. */
  ghost predicate StartStays(rows: seq<StoreRow>) {
    forall i | 0 <= i < |rows| - 1 && rows[i].ownerStarted.Some? :: rows[i + 1].ownerStarted == rows[i].ownerStarted
  }

  ghost predicate OneRow(k: ConnKey, rows: seq<StoreRow>) {
    && (forall c | c in rows :: WellFormed(k, c))
    && (forall i, j | 0 <= i < j < |rows| :: Keeps(k, rows[i], rows[j]))
  }

  lemma OneRowBefore(k: ConnKey, rows: seq<StoreRow>)
    requires OneRow(k, rows) && |rows| > 1
    ensures OneRow(k, rows[..|rows| - 1])
    ensures var c, d := rows[|rows| - 2], rows[|rows| - 1]; WellFormed(k, c) && WellFormed(k, d) && Keeps(k, c, d)
  {
    hide WellFormed, Keeps;
    assert rows[|rows| - 2] in rows && rows[|rows| - 1] in rows;
  }

  lemma StartStaysMore(rows: seq<StoreRow>)
    requires |rows| > 1
    ensures var c, d := rows[|rows| - 2], rows[|rows| - 1];
            StartStays(rows) <==> StartStays(rows[..|rows| - 1]) && (c.ownerStarted.Some? ==> d.ownerStarted == c.ownerStarted)
  {
    var init, n := rows[..|rows| - 1], |rows| - 1;
    if StartStays(rows) {
      assert rows[n - 1].ownerStarted.Some? ==> rows[n - 1 + 1].ownerStarted == rows[n - 1].ownerStarted;
    }
    if StartStays(init) && (rows[n - 1].ownerStarted.Some? ==> rows[n].ownerStarted == rows[n - 1].ownerStarted) {
      forall i | 0 <= i < n && rows[i].ownerStarted.Some?
        ensures rows[i + 1].ownerStarted == rows[i].ownerStarted
      {
        assert i < n - 1 ==> init[i + 1].ownerStarted == init[i].ownerStarted;
      }
    }
  }

  /** What is remembered of a row that lives on is in doubt exactly when the history is in the end, or when
      for UDP a start time was replaced. */
  lemma {:induction false} LivingFoldIff(k: ConnKey, rows: seq<StoreRow>)
    requires OneRow(k, rows) && rows != []
    ensures Folded(rows).ownerAmbiguous
            <==> rows[|rows| - 1].ownerAmbiguous || (k.proto == Udp && !StartStays(rows))
    decreases |rows|
  {
    hide OneRow, Keeps, WellFormed, Merged, StartStays, Undisputed;
    if |rows| == 1 {
      assert StartStays(rows) by { OneStays(rows); }
    } else {
      var init, c, d := rows[..|rows| - 1], rows[|rows| - 2], rows[|rows| - 1];
      OneRowBefore(k, rows);
      LivingFoldIff(k, init);
      StartStaysMore(rows);
      FoldedIff(init);
      LivingRowDisputedIff(k, c, d);
      DoubtMerges(k, Folded(init), c, d);
    }
  }

  lemma OneStays(rows: seq<StoreRow>)
    requires |rows| == 1
    ensures StartStays(rows)
  {}

  lemma DoubtMerges(k: ConnKey, f: Conn, c: Conn, d: Conn)
    requires Keeps(k, c, d)
    ensures f.ownerAmbiguous ==> Merged(f, d).ownerAmbiguous
    ensures c.ownerAmbiguous ==> d.ownerAmbiguous
  {}

  /** The rows seen while a row lives on are one row's. */
  lemma SeenAreOneRow(k: ConnKey, ss: seq<Sighting>, c: Conn, n: nat)
    requires Growing(k, ss, c) && n <= |ss|
    ensures OneRow(k, RowsOf(ss[n..]))
  {
    hide WellFormed, Keeps;
    var rows := RowsOf(ss[n..]);
    forall x | x in rows
      ensures WellFormed(k, x)
    {
      var i :| 0 <= i < |rows| && rows[i] == x;
      assert ss[n + i] in ss && ss[n + i].row == x;
    }
    forall i, j | 0 <= i < j < |rows|
      ensures Keeps(k, rows[i], rows[j])
    {
      assert rows[i] == ss[n + i].row && rows[j] == ss[n + j].row;
    }
  }

  // Whose a living row's traffic is.

  lemma {:induction false} AdmittedOwned(m: Meta, events: seq<Event>, k: ConnKey)
    requires m.conns == map[] && m.onlyGroup
    ensures forall x | x in SightingsIn(m, events, k) && x.admitted :: Owns(After(m, events).instances, x.row)
    decreases |events|
  {
    hide Owns, Next, After;
    if events != [] {
      var init, e := events[..|events| - 1], events[|events| - 1];
      AdmittedOwned(m, init, k);
      AfterKeeps(m, init);
      NextKeeps(After(m, init), e);
      AfterMore(m, events);
      forall x | x in SightingsIn(m, events, k) && x.admitted
        ensures Owns(After(m, events).instances, x.row)
      {
        TakenInIsOwned(After(m, init), x.row);
        OwnsMore(After(m, init).instances, After(m, events).instances, x.row);
      }
    }
  }

  lemma TakenInIsOwned(m: Meta, c: StoreRow)
    ensures m.onlyGroup && TakesIn(m, c) ==> Owns(m.instances, c)
  {}

  lemma AfterMore(m: Meta, events: seq<Event>)
    requires events != []
    ensures After(m, events) == Next(After(m, events[..|events| - 1]), events[|events| - 1])
  {}

  lemma OwnsMore(a: set<Identity>, b: set<Identity>, c: Conn)
    requires a <= b
    ensures Owns(a, c) ==> Owns(b, c)
  {}

  /** Owned at first and at last, a row that lives on was owned by one process all along, if for UDP the start
      time stayed. */
  lemma OneOwnerIff(k: ConnKey, rows: seq<StoreRow>, instances: set<Identity>)
    requires OneRow(k, rows) && rows != [] && (|rows| > 1 ==> Owns(instances, rows[0]))
    ensures SomeOwner(rows, instances)
            <==> Owns(instances, rows[|rows| - 1]) && (k.proto == Udp ==> StartStays(rows))
  {
    hide Keeps, WellFormed, StartStays, Folded, SomeOwner, Undisputed;
    LivingFoldIff(k, rows);
    FoldedIff(rows);
    assert forall c | c in rows && c.ownerAmbiguous :: c.pid == None;
    OwnedFoldIff(rows, instances);
    if k.proto == Udp && !StartStays(rows) { FoldedNotOwned(rows, instances); }
    if rows[|rows| - 1].ownerAmbiguous { FoldedNotOwned(rows, instances); }
  }

  lemma FoldedNotOwned(rows: seq<StoreRow>, instances: set<Identity>)
    requires rows != [] && Folded(rows).ownerAmbiguous
    ensures !Owns(instances, Folded(rows))
  {
    FoldedIff(rows);
  }

  /** The traffic of a row that lived on and was seen to the end is kept exactly when a recorded process owns
      the row in the end and, for UDP, the start time stayed from the first owned sighting on. */
  lemma {:induction false} LivingRowKeptIff(now: nat, deeds: seq<Deed>, from: nat, a: nat, m: Meta,
                                           caption: Captions, comment: seq<byte>, k: ConnKey)
    returns (n: nat)
    requires m.conns == map[] && m.onlyGroup
    requires from <= a && LivesFrom(now, deeds, a, k) && SightingsIn(m, Events(now, deeds[..a], from), k) == []
    requires Recent(m, RowsAt(StoreAfter(now, deeds)), k)
    ensures var rows, r := RowsAt(StoreAfter(now, deeds)), After(m, Events(now, deeds, from));
            var plan, ss := PlanOf(r, rows, caption, comment), Sightings(m, Events(now, deeds, from), rows, k);
            && BeginsAt(ss, n) && k in plan.owners
            && (plan.owners[k].keep
                <==> Owns(r.instances, rows[k]) && (k.proto == Udp ==> StartStays(RowsOf(ss[n..]))))
  {
    hide StoreAfter, LivesFrom, Events, PlanOf, Owns, After, SightingsIn, SomeOwner, StartStays, Counted, Growing, OneRow;
    var events, rows := Events(now, deeds, from), RowsAt(StoreAfter(now, deeds));
    var ss, instances := Sightings(m, events, rows, k), After(m, events).instances;
    LivingSightings(now, deeds, from, a, m, k);
    RowKeptIff(m, events, rows, caption, comment, k);
    OwnedFromIff(ss, instances);
    assert ss[|ss| - 1] == Sighting(rows[k], true) && ss[|ss| - 1] in ss;
    n := SomethingBegins(ss);
    CountedFrom(ss, n);
    SeenAreOneRow(k, ss, StoreAfter(now, deeds).conns[k], n);
    AdmittedOwned(m, events, k);
    assert n < |ss| - 1 ==> ss[n] in SightingsIn(m, events, k);
    assert RowsOf(ss[n..])[0] == ss[n].row && RowsOf(ss[n..])[|ss| - n - 1] == rows[k];
    OneOwnerIff(k, RowsOf(ss[n..]), instances);
  }

  // A run in which skipping hides an owner: a poll shows the socket of a process that is not recorded, the
  // history is cleared, and a poll shows the socket of a recorded one on the same tuple.

  const TUPLE := ConnKey(Tcp, V4(1), 1, V4(2), 443)

  function SocketBy(pid: int): SockEntry {
    SockEntry(Tcp, V4(1), 1, V4(2), 443, OtherState("ESTABLISHED"), Some(pid), false, None)
  }

  function PollBy(pid: int, now: nat): H.Poll {
    H.Poll(map[pid := ProcInfo(pid, 1, 0, "")], now, (i: nat) => now, (i: nat) => {})
  }

  function Polled(pid: int, now: nat): Deed {
    Happens(H.Snapshot([SocketBy(pid)], PollBy(pid, now)))
  }

  function RowBy(pid: int, now: nat): StoreRow {
    FreshRow(now, false).(state := OtherState("ESTABLISHED"), pid := Some(pid), ownerStarted := Some(1), pname := Some(""))
  }

  lemma PollShows(s: H.Store, pid: int, now: nat)
    requires s.conns == map[]
    ensures H.Step(s, Polled(pid, now).op).conns == map[TUPLE := RowBy(pid, now)]
  {
    hide OwnerOf, Refreshed;
    var sock, poll := SocketBy(pid), PollBy(pid, now);
    OwnerStart.OnePoll(s, sock, poll);
    var t := H.Observed(s, [sock], poll);
    assert t.conns == map[] && t.conns - {} == map[];
    assert map[][TUPLE := RowBy(pid, now)] == map[TUPLE := RowBy(pid, now)];
  }

  function TwoOwners(first: int, second: int): seq<Deed> {
    [Polled(first, 1), Looks(TUPLE), Happens(H.Clear), Polled(second, 2), Looks(TUPLE)]
  }

  function RecordingOf(pid: int): Meta {
    Meta(true, 0, {Identity(pid, 1)}, map[], false)
  }

  lemma TwoOwnersSeen(first: int, second: int)
    ensures StoreAfter(0, TwoOwners(first, second)).conns == map[TUPLE := RowBy(second, 2)]
    ensures Events(0, TwoOwners(first, second), 0) == [Seen(TUPLE, RowBy(first, 1)), Seen(TUPLE, RowBy(second, 2))]
  {
    hide H.Step, RowBy, PollBy, SocketBy, StoreAfter, Shows;
    var a, b, c, d, e := Polled(first, 1), Looks(TUPLE), Happens(H.Clear), Polled(second, 2), Looks(TUPLE);
    Nothing();
    assert [a, b, c, d, e][..4] == [a, b, c, d] && [a, b, c, d][..3] == [a, b, c] && [a, b, c][..2] == [a, b];
    assert [a, b][..1] == [a] && [a][..0] == [];
    StoreNext(0, [a]);
    PollShows(StoreAfter(0, []), first, 1);
    RowsProper(0, [a], TUPLE);
    StoreNext(0, [a, b]);
    StoreNext(0, [a, b, c]);
    Cleared(StoreAfter(0, [a, b]));
    StoreNext(0, [a, b, c, d]);
    PollShows(StoreAfter(0, [a, b, c]), second, 2);
    RowsProper(0, [a, b, c, d], TUPLE);
    StoreNext(0, [a, b, c, d, e]);
    var x, y := Seen(TUPLE, RowBy(first, 1)), Seen(TUPLE, RowBy(second, 2));
    assert Shows(StoreAfter(0, [a]), b) == [x] && Shows(StoreAfter(0, [a, b, c, d]), e) == [y];
    HappeningShowsNothing(StoreAfter(0, []), a);
    HappeningShowsNothing(StoreAfter(0, [a, b]), c);
    HappeningShowsNothing(StoreAfter(0, [a, b, c]), d);
    assert Events(0, [a], 0) == [];
    assert Events(0, [a, b], 0) == [x];
    assert Events(0, [a, b, c], 0) == [x];
    assert Events(0, [a, b, c, d], 0) == [x];
  }

  lemma Nothing()
    ensures StoreAfter(0, []).conns == map[] && Events(0, [], 0) == []
  {}

  lemma HappeningShowsNothing(s: H.Store, d: Deed)
    requires d.Happens?
    ensures Shows(s, d) == []
  {}

  lemma Cleared(s: H.Store)
    ensures H.Step(s, H.Clear).conns == map[]
  {}

  lemma TwoSightings(first: int, second: int)
    requires first != second
    ensures var m, r := RecordingOf(second), RowBy(second, 2);
            var events, rows := [Seen(TUPLE, RowBy(first, 1)), Seen(TUPLE, r)], map[TUPLE := r];
            && Sightings(m, events, rows, TUPLE) == [Sighting(RowBy(first, 1), false), Sighting(r, true), Sighting(r, true)]
            && After(m, events).instances == {Identity(second, 1)}
  {
    var x, y: Event := Seen(TUPLE, RowBy(first, 1)), Seen(TUPLE, RowBy(second, 2));
    var m := RecordingOf(second);
    assert [x, y][..1] == [x] && [x][..0] == [];
    assert After(m, []) == m && SightingsIn(m, [], TUPLE) == [];
    assert After(m, [x]) == m;
    assert !TakesIn(m, RowBy(first, 1));
    assert SightingsIn(m, [x], TUPLE) == [] + [Sighting(RowBy(first, 1), false)];
    assert SightingsIn(m, [x, y], TUPLE) == SightingsIn(m, [x], TUPLE) + [Sighting(RowBy(second, 2), true)];
    assert After(m, [x, y]) == Next(After(m, [x]), y);
  }

  lemma OwnedFromSecond(x: Sighting, y: Sighting, id: Identity)
    requires !x.admitted && y.admitted && OwnedBy(y.row, id) && !y.row.ownerAmbiguous
    ensures OwnedFrom([x, y, y], {id})
  {
    var ss := [x, y, y];
    assert ss[1..] == [y, y] && RowsOf([y, y]) == [y.row, y.row];
    assert OneOwner([y.row, y.row], id);
    assert SomeOwner(RowsOf(ss[1..]), {id});
    assert BeginsAt(ss, 1);
  }

  /** The counterexample: the first owner of the tuple was seen, undisputed, since the start of the recording and
      is not recorded; yet every frame of the tuple, the first owner's too, is kept. */
  lemma SharedTupleIsKept(first: int, second: int, caption: Captions, comment: seq<byte>, parse: LinkParser,
                          linktype: nat, frame: seq<byte>)
    requires first != second
    requires parse(linktype, frame) == Some(Endpoints(Tcp, V4(1), 1, V4(2), 443))
    ensures var deeds, m := TwoOwners(first, second), RecordingOf(second);
            var events, rows := Events(0, deeds, 0), RowsAt(StoreAfter(0, deeds));
            var ss := Sightings(m, events, rows, TUPLE);
            && ss != [] && ss[0].row.pid == Some(first) && !ss[0].row.ownerAmbiguous
            && !Owns(After(m, events).instances, ss[0].row)
            && PlanOf(After(m, events), rows, caption, comment).Judge(parse, linktype, frame).0
  {
    hide PlanOf, StoreAfter, TwoOwners, Events, Sightings, OwnedFrom, After;
    var deeds, m := TwoOwners(first, second), RecordingOf(second);
    TwoOwnersSeen(first, second);
    TwoSightings(first, second);
    var events, rows := Events(0, deeds, 0), RowsAt(StoreAfter(0, deeds));
    assert rows == map[TUPLE := RowBy(second, 2)];
    var x, y := Sighting(RowBy(first, 1), false), Sighting(RowBy(second, 2), true);
    OwnedFromSecond(x, y, Identity(second, 1));
    assert y in [x, y, y];
    KeptIff(m, events, rows, caption, comment, parse, linktype, frame);
  }
}
