/** A whole recording: what is seen of the rows, the processes that join, and the plan made of it at the end. */
module RecordingRun {
  import opened Annotate
  import opened Bytes
  import opened Net
  import opened Procs
  import opened Recording
  import opened Rows
  import opened Wrappers

  /** A row as the history shows it: a disputed one has no owner. */
  type StoreRow = c: Conn | c.ownerAmbiguous ==> c.pid == None witness FreshRow(0, false)

  datatype Meta = Meta(onlyGroup: bool, started: nat, instances: set<Identity>, conns: Conns, limitReached: bool)

  predicate Admits(m: Meta, c: Conn) {
    (!m.onlyGroup || Owns(m.instances, c)) && |m.conns| < MAX_DUMP_CONNS
  }

  function Remembered(m: Meta, k: ConnKey, c: Conn): Meta {
    if c.lastSeen < m.started then m
    else if k in m.conns then m.(conns := m.conns[k := Merged(m.conns[k], c)])
    else if !m.onlyGroup || Owns(m.instances, c) then
      if |m.conns| >= MAX_DUMP_CONNS then m.(limitReached := true) else m.(conns := m.conns[k := c])
    else m
  }

  /** A row is seen, or processes join the group. */
  datatype Event = Seen(k: ConnKey, c: StoreRow) | Joined(ids: set<Identity>, limit: bool)

  function Next(m: Meta, e: Event): Meta {
    match e
    case Seen(k, c) => Remembered(m, k, c)
    case Joined(ids, limit) => m.(instances := m.instances + ids, limitReached := m.limitReached || limit)
  }

  function After(m: Meta, events: seq<Event>): Meta {
    if events == [] then m else Next(After(m, events[..|events| - 1]), events[|events| - 1])
  }

  /** The observations that went into the row, in order: from the first one that is admitted on, all. */
  ghost function Folds(m: Meta, events: seq<Event>, k: ConnKey): seq<StoreRow> {
    if events == [] then []
    else
      var init, e := events[..|events| - 1], events[|events| - 1];
      var h := Folds(m, init, k);
      if e.Seen? && e.k == k && e.c.lastSeen >= m.started && (h != [] || Admits(After(m, init), e.c)) then h + [e.c]
      else h
  }

  ghost predicate Matches(m: Meta, r: Meta, k: ConnKey, h: seq<StoreRow>) {
    && (k in r.conns <==> h != [])
    && (h != [] ==> r.conns[k] == Folded(h) && h[|h| - 1].lastSeen >= m.started)
    && (h != [] && m.onlyGroup ==> Owns(r.instances, h[0]))
  }

  lemma NextKeeps(m: Meta, e: Event)
    requires |m.conns| <= MAX_DUMP_CONNS
    ensures var r := Next(m, e);
            && r.onlyGroup == m.onlyGroup && r.started == m.started && m.instances <= r.instances
            && m.conns.Keys <= r.conns.Keys && |r.conns| <= MAX_DUMP_CONNS && (m.limitReached ==> r.limitReached)
  {
    hide Merged, Owns;
    if e.Seen? {
      var c := if e.k in m.conns then Merged(m.conns[e.k], e.c) else e.c;
      var r := m.conns[e.k := c];
      assert r.Keys == m.conns.Keys + {e.k};
      assert |r| == |r.Keys| && |m.conns| == |m.conns.Keys|;
    }
  }

  lemma {:induction false} AfterKeeps(m: Meta, events: seq<Event>)
    requires |m.conns| <= 40_000
    ensures var r := After(m, events);
            && r.onlyGroup == m.onlyGroup && r.started == m.started && m.instances <= r.instances
            && m.conns.Keys <= r.conns.Keys && |r.conns| <= 40_000 && (m.limitReached ==> r.limitReached)
  {
    hide Next;
    if events != [] {
      AfterKeeps(m, events[..|events| - 1]);
      NextKeeps(After(m, events[..|events| - 1]), events[|events| - 1]);
    }
  }

  /** The recording would take this in and has no room: a process beyond the limit, or a recent row of a recorded
      process, or of anyone when all traffic is recorded, with 40 000 others remembered already. */
  ghost predicate LeavesOut(m: Meta, e: Event) {
    match e
    case Joined(_, limit) => limit
    case Seen(k, c) =>
      && c.lastSeen >= m.started && k !in m.conns && |m.conns| >= 40_000
      && (m.onlyGroup ==> exists id :: id in m.instances && OwnedBy(c, id))
  }

  lemma NextLeavesOut(m: Meta, e: Event)
    ensures Next(m, e).limitReached <==> m.limitReached || LeavesOut(m, e)
  {
    hide Merged;
    if e.Seen? && Owns(m.instances, e.c) {
      assert OwnedBy(e.c, Identity(e.c.pid.value, e.c.ownerStarted.value));
    }
  }

  /** The limit is reported exactly when something was left out. */
  lemma {:induction false} LimitReachedIff(m: Meta, events: seq<Event>)
    ensures After(m, events).limitReached
            <==> m.limitReached || exists i :: 0 <= i < |events| && LeavesOut(After(m, events[..i]), events[i])
  {
    hide Next, LeavesOut;
    if events != [] {
      var n := |events| - 1;
      LimitReachedIff(m, events[..n]);
      NextLeavesOut(After(m, events[..n]), events[n]);
      assert forall i | 0 <= i < n :: events[..n][..i] == events[..i] && events[..n][i] == events[i];
      if i :| 0 <= i < n && LeavesOut(After(m, events[..n][..i]), events[..n][i]) {
        assert LeavesOut(After(m, events[..i]), events[i]);
      }
    }
  }

  /** As long as no limit is reported, every recent row that was ever seen with a recorded process, or at all when
      all traffic is recorded, is remembered. */
  lemma {:induction false} SeenIsRemembered(m: Meta, events: seq<Event>, i: nat)
    requires i < |events| && events[i].Seen? && events[i].c.lastSeen >= m.started
    requires |m.conns| <= MAX_DUMP_CONNS && !After(m, events).limitReached
    requires m.onlyGroup ==> exists id :: id in After(m, events[..i]).instances && OwnedBy(events[i].c, id)
    ensures events[i].k in After(m, events).conns
    decreases |events|
  {
    hide Next;
    var n := |events| - 1;
    AfterKeeps(m, events[..n]);
    NextKeeps(After(m, events[..n]), events[n]);
    NextLeavesOut(After(m, events[..n]), events[n]);
    if i == n {
      NextRemembers(After(m, events[..n]), events[n]);
    } else {
      assert events[..n][..i] == events[..i];
      SeenIsRemembered(m, events[..n], i);
    }
  }

  lemma NextRemembers(m: Meta, e: Event)
    requires e.Seen? && e.c.lastSeen >= m.started && !LeavesOut(m, e)
    requires m.onlyGroup ==> exists id :: id in m.instances && OwnedBy(e.c, id)
    ensures e.k in Next(m, e).conns
  {
    hide Merged;
  }

  lemma FoldedMore(h: seq<StoreRow>, c: StoreRow)
    ensures Folded(h + [c]) == if h == [] then c else Merged(Folded(h), c)
  {
    hide Merged;
    assert (h + [c])[..|h|] == h;
  }

  lemma {:induction false} FoldsMatch(m: Meta, events: seq<Event>, k: ConnKey)
    requires m.conns == map[]
    ensures Matches(m, After(m, events), k, Folds(m, events, k))
  {
    hide Merged, Owns, Folded, Next;
    if events != [] {
      var init, e := events[..|events| - 1], events[|events| - 1];
      FoldsMatch(m, init, k);
      AfterKeeps(m, init);
      var a, h := After(m, init), Folds(m, init, k);
      SeenMatches(m, a, e, k, h);
    }
  }

  lemma SeenMatches(m: Meta, a: Meta, e: Event, k: ConnKey, h: seq<StoreRow>)
    requires Matches(m, a, k, h) && a.started == m.started && a.onlyGroup == m.onlyGroup
    ensures Matches(m, Next(a, e), k,
                    if e.Seen? && e.k == k && e.c.lastSeen >= m.started && (h != [] || Admits(a, e.c)) then h + [e.c] else h)
  {
    hide Merged, Folded;
    if e.Seen? {
      FoldedMore(h, e.c);
    }
  }

  // The plan.

  type StoreRows = map<ConnKey, StoreRow>

  predicate Recent(m: Meta, rows: StoreRows, k: ConnKey) {
    k in rows && rows[k].lastSeen >= m.started
  }

  /** The remembered rows brought up to date with the history at the end. */
  function Recorded(m: Meta, rows: StoreRows): Conns {
    map k | k in m.conns.Keys + rows.Keys && (k in m.conns || Recent(m, rows, k)) ::
      if k !in m.conns then rows[k]
      else if Recent(m, rows, k) then Merged(m.conns[k], rows[k])
      else m.conns[k]
  }

  type Captions = (Option<string>, Option<int>, Option<string>) -> Option<seq<byte>>

  function PlanOf(m: Meta, rows: StoreRows, caption: Captions, comment: seq<byte>): Plan {
    var recorded := Recorded(m, rows);
    Plan(map k | k in recorded && recorded[k].lastSeen >= m.started ::
           Owner(caption(recorded[k].pname, recorded[k].pid, recorded[k].domain), Owns(m.instances, recorded[k])),
         m.onlyGroup, comment)
  }

  /** The observations of the tuple that count: those that went into the row, and the row at the end. */
  ghost function History(m: Meta, events: seq<Event>, rows: StoreRows, k: ConnKey): seq<StoreRow> {
    Folds(m, events, k) + if Recent(m, rows, k) then [rows[k]] else []
  }

  // Everything seen of a tuple, counted or not.

  /** A row as it was seen, and whether the recording took it in if it was the first: it belonged to a recorded
      process, or all traffic was recorded, and there was room. */
  datatype Sighting = Sighting(row: StoreRow, admitted: bool)

  ghost function SightingsIn(m: Meta, events: seq<Event>, k: ConnKey): seq<Sighting> {
    if events == [] then []
    else
      var init, e := events[..|events| - 1], events[|events| - 1];
      SightingsIn(m, init, k)
      + if e.Seen? && e.k == k && e.c.lastSeen >= m.started then [Sighting(e.c, TakesIn(After(m, init), e.c))] else []
  }

  /** A first sighting is taken in when a recorded process owns the row, or all traffic is recorded, and fewer than
      40 000 rows are remembered. */
  ghost predicate TakesIn(m: Meta, c: StoreRow) {
    |m.conns| < 40_000 && (m.onlyGroup ==> exists id :: id in m.instances && OwnedBy(c, id))
  }

  lemma AdmitsIff(m: Meta, c: StoreRow)
    ensures Admits(m, c) <==> TakesIn(m, c)
  {
    if Owns(m.instances, c) {
      assert OwnedBy(c, Identity(c.pid.value, c.ownerStarted.value));
    }
  }

  /** All sightings of the tuple since the start; what the history shows at the end is taken in whatever it is. */
  ghost function Sightings(m: Meta, events: seq<Event>, rows: StoreRows, k: ConnKey): seq<Sighting> {
    SightingsIn(m, events, k)
    + if k in rows && rows[k].lastSeen >= m.started then [Sighting(rows[k], true)] else []
  }

  function RowsOf(ss: seq<Sighting>): (rows: seq<StoreRow>)
    ensures |rows| == |ss|
  {
    seq(|ss|, i requires 0 <= i < |ss| => ss[i].row)
  }

  /** The first sighting that is taken in is number `n`. */
  predicate BeginsAt(ss: seq<Sighting>, n: nat) {
    n < |ss| && ss[n].admitted && forall i | 0 <= i < n :: !ss[i].admitted
  }

  predicate NoneAdmitted(ss: seq<Sighting>) {
    forall x | x in ss :: !x.admitted
  }

  /** What counts of the sightings: all from the first one on that is taken in. */
  function Counted(ss: seq<Sighting>): seq<StoreRow>
    decreases |ss|
  {
    if ss == [] then [] else if ss[0].admitted then RowsOf(ss) else Counted(ss[1..])
  }

  lemma {:induction false} CountedMore(ss: seq<Sighting>, x: Sighting)
    ensures Counted(ss + [x]) == if Counted(ss) != [] || x.admitted then Counted(ss) + [x.row] else []
    decreases |ss|
  {
    if ss == [] {
      assert [] + [x] == [x] && [x][1..] == [] && RowsOf([x]) == [x.row];
    } else if !ss[0].admitted {
      assert (ss + [x])[1..] == ss[1..] + [x];
      CountedMore(ss[1..], x);
    } else {
      assert RowsOf(ss + [x]) == RowsOf(ss) + [x.row];
    }
  }

  lemma {:induction false} FoldsAreCounted(m: Meta, events: seq<Event>, k: ConnKey)
    ensures Folds(m, events, k) == Counted(SightingsIn(m, events, k))
  {
    hide Admits, TakesIn, After;
    if events != [] {
      hide Counted;
      var init, e := events[..|events| - 1], events[|events| - 1];
      FoldsAreCounted(m, init, k);
      var ss := SightingsIn(m, init, k);
      assert ss + [] == ss;
      if e.Seen? && e.k == k && e.c.lastSeen >= m.started {
        AdmitsIff(After(m, init), e.c);
        CountedMore(ss, Sighting(e.c, TakesIn(After(m, init), e.c)));
      }
    }
  }

  /** What the recording makes of a tuple is made of its sightings from the first one on that is taken in; the
      sightings before leave no trace. */
  lemma HistoryIsCounted(m: Meta, events: seq<Event>, rows: StoreRows, k: ConnKey)
    ensures History(m, events, rows, k) == Counted(Sightings(m, events, rows, k))
  {
    hide Folds, SightingsIn, Counted;
    FoldsAreCounted(m, events, k);
    var ss := SightingsIn(m, events, k);
    assert ss + [] == ss && Folds(m, events, k) + [] == Folds(m, events, k);
    if Recent(m, rows, k) { CountedMore(ss, Sighting(rows[k], true)); }
  }

  lemma {:induction false} CountedFrom(ss: seq<Sighting>, n: nat)
    requires BeginsAt(ss, n)
    ensures Counted(ss) == RowsOf(ss[n..])
    decreases n
  {
    if n == 0 {
      assert ss[0..] == ss;
    } else {
      var rest := ss[1..];
      assert !ss[0].admitted && rest[n - 1] == ss[n] && forall i | 0 <= i < n - 1 :: rest[i] == ss[i + 1];
      CountedFrom(rest, n - 1);
      assert rest[n - 1..] == ss[n..];
    }
  }

  lemma {:induction false} NothingCounted(ss: seq<Sighting>)
    requires NoneAdmitted(ss)
    ensures Counted(ss) == []
    decreases |ss|
  {
    if ss != [] {
      assert !ss[0].admitted;
      NothingCounted(ss[1..]);
    }
  }

  lemma {:induction false} SomethingBegins(ss: seq<Sighting>) returns (n: nat)
    requires !NoneAdmitted(ss)
    ensures BeginsAt(ss, n)
    decreases |ss|
  {
    if ss[0].admitted {
      n := 0;
    } else {
      assert !NoneAdmitted(ss[1..]) by { var x :| x in ss && x.admitted; assert x in ss[1..]; }
      n := SomethingBegins(ss[1..]);
      assert forall i | 0 < i < n + 1 :: ss[i] == ss[1..][i - 1];
      n := n + 1;
    }
  }

  /** One recorded process owned the row in all sightings from the first one on that was taken in. */
  ghost predicate OwnedFrom(ss: seq<Sighting>, instances: set<Identity>) {
    exists n: nat :: BeginsAt(ss, n) && SomeOwner(RowsOf(ss[n..]), instances)
  }

  lemma OwnedFromIff(ss: seq<Sighting>, instances: set<Identity>)
    ensures OwnedFrom(ss, instances) <==> Counted(ss) != [] && SomeOwner(Counted(ss), instances)
    ensures Counted(ss) == [] <==> NoneAdmitted(ss)
  {
    hide Counted, SomeOwner;
    if NoneAdmitted(ss) {
      NothingCounted(ss);
    } else {
      var n := SomethingBegins(ss);
      CountedFrom(ss, n);
      assert forall i: nat | BeginsAt(ss, i) :: i == n;
    }
  }

  lemma MergedRecent(a: Conn, b: Conn)
    ensures Merged(a, b).lastSeen == b.lastSeen
  {}

  lemma {:induction false} FoldedRecent(h: seq<StoreRow>)
    requires h != []
    ensures Folded(h).lastSeen == h[|h| - 1].lastSeen
  {
    hide Merged;
    if |h| > 1 {
      MergedRecent(Folded(h[..|h| - 1]), h[|h| - 1]);
    }
  }

  /** The plan has a row for exactly the tuples of which a sighting was taken in, and it says what the
      sightings from that one on say. */
  lemma PlanRow(m: Meta, events: seq<Event>, rows: StoreRows, caption: Captions, comment: seq<byte>, k: ConnKey)
    requires m.conns == map[]
    ensures var r, h := After(m, events), History(m, events, rows, k);
            var plan := PlanOf(r, rows, caption, comment);
            && plan.onlyGroup == m.onlyGroup
            && (k in plan.owners <==> h != [])
            && (h != [] ==> plan.owners[k] == Owner(caption(Folded(h).pname, Folded(h).pid, Folded(h).domain),
                                                    Owns(r.instances, Folded(h))))
  {
    hide Merged, Owns, Folded, Folds, After;
    FoldsMatch(m, events, k);
    AfterKeeps(m, events);
    var f := Folds(m, events, k);
    if Recent(m, rows, k) {
      FoldedMore(f, rows[k]);
      FoldedRecent(f + [rows[k]]);
    } else {
      assert f + [] == f;
      if f != [] { FoldedRecent(f); }
    }
  }

  /** The row that decides about a packet: the tuple as sent, else as received. */
  ghost function FirstRow(m: Meta, events: seq<Event>, rows: StoreRows, p: Endpoints): Option<ConnKey> {
    var fwd, back := ConnKey(p.proto, p.src, p.sport, p.dst, p.dport), ConnKey(p.proto, p.dst, p.dport, p.src, p.sport);
    if !NoneAdmitted(Sightings(m, events, rows, fwd)) then Some(fwd)
    else if !NoneAdmitted(Sightings(m, events, rows, back)) then Some(back)
    else None
  }

  /** One recorded process owned the frame's tuple from the first sighting on that was taken in. */
  ghost predicate OwnedTraffic(m: Meta, events: seq<Event>, rows: StoreRows, parsed: Option<Endpoints>) {
    && parsed.Some?
    && var k := FirstRow(m, events, rows, parsed.value);
    && k.Some? && OwnedFrom(Sightings(m, events, rows, k.value), After(m, events).instances)
  }

  lemma HistoryOwned(m: Meta, events: seq<Event>, rows: StoreRows, k: ConnKey)
    requires m.conns == map[] && m.onlyGroup && History(m, events, rows, k) != []
    ensures var h := History(m, events, rows, k); |h| > 1 ==> Owns(After(m, events).instances, h[0])
  {
    hide Owns, Folds, After;
    FoldsMatch(m, events, k);
  }

  /** The plan keeps a tuple exactly when one recorded process owned it from the first sighting on that was
      taken in: none of these in doubt, never replaced other than by the same UDP socket. */
  lemma RowKeptIff(m: Meta, events: seq<Event>, rows: StoreRows, caption: Captions, comment: seq<byte>, k: ConnKey)
    requires m.conns == map[] && m.onlyGroup
    ensures var plan, ss := PlanOf(After(m, events), rows, caption, comment), Sightings(m, events, rows, k);
            && plan.onlyGroup && (k in plan.owners <==> !NoneAdmitted(ss))
            && (k in plan.owners ==> (plan.owners[k].keep <==> OwnedFrom(ss, After(m, events).instances)))
  {
    hide Owns, PlanOf, History, After, SomeOwner, Sightings, Counted, OwnedFrom, NoneAdmitted;
    PlanRow(m, events, rows, caption, comment, k);
    HistoryIsCounted(m, events, rows, k);
    OwnedFromIff(Sightings(m, events, rows, k), After(m, events).instances);
    if History(m, events, rows, k) != [] {
      HistoryOwned(m, events, rows, k);
      OwnedFoldIff(History(m, events, rows, k), After(m, events).instances);
    }
  }

  /** A process-only recording keeps a frame exactly when its tuple, as sent or else as received, was owned by
      one recorded process from the first sighting on that was taken in. What was seen of the tuple before,
      other owners too, makes no difference. */
  lemma {:induction false} KeptIff(m: Meta, events: seq<Event>, rows: StoreRows, caption: Captions,
                                   comment: seq<byte>, parse: LinkParser, linktype: nat, frame: seq<byte>)
    requires m.conns == map[] && m.onlyGroup
    ensures PlanOf(After(m, events), rows, caption, comment).Judge(parse, linktype, frame).0
            <==> OwnedTraffic(m, events, rows, parse(linktype, frame))
  {
    hide PlanOf, After, Sightings, OwnedFrom, NoneAdmitted;
    var parsed := parse(linktype, frame);
    if parsed.Some? {
      var p := parsed.value;
      var fwd, back := ConnKey(p.proto, p.src, p.sport, p.dst, p.dport), ConnKey(p.proto, p.dst, p.dport, p.src, p.sport);
      RowKeptIff(m, events, rows, caption, comment, fwd);
      RowKeptIff(m, events, rows, caption, comment, back);
    } else {
      RowKeptIff(m, events, rows, caption, comment, ConnKey(Tcp, V4(0), 0, V4(0), 0));
    }
  }

  /** From the first sighting on that was taken in, doubt about any, a change of owner or a replaced row drops
      every packet of the tuple and leaves its row unsigned. */
  lemma DoubtDropsAll(m: Meta, events: seq<Event>, rows: StoreRows, caption: Captions, comment: seq<byte>, k: ConnKey,
                      n: nat)
    requires m.conns == map[] && BeginsAt(Sightings(m, events, rows, k), n)
    requires !Undisputed(RowsOf(Sightings(m, events, rows, k)[n..]))
    ensures var plan := PlanOf(After(m, events), rows, caption, comment);
            && k in plan.owners && !plan.owners[k].keep
            && (n + 1 < |Sightings(m, events, rows, k)| ==>
                  exists domain :: plan.owners[k].caption == caption(None, None, domain))
  {
    hide PlanOf, History, After, Sightings, Counted;
    PlanRow(m, events, rows, caption, comment, k);
    HistoryIsCounted(m, events, rows, k);
    CountedFrom(Sightings(m, events, rows, k), n);
    var h := History(m, events, rows, k);
    FoldedIff(h);
    assert |h| > 1 ==> Folded(h).pname == None;
  }
}
