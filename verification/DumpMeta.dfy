/** What a running recording keeps, updated in place. RecordingRun and Tracking state what each operation does. */
module DumpMeta {
  import opened Annotate
  import opened Bytes
  import opened Group
  import opened Net
  import opened Procs
  import Recording
  import opened RecordingRun
  import opened Rows
  import opened Tracking
  import opened Wrappers

  /** Every row of the history seen once, in some order. */
  ghost predicate SeesAll(events: seq<Event>, rows: StoreRows) {
    && |events| == |rows|
    && (forall e | e in events :: e.Seen? && e.k in rows && e.c == rows[e.k])
    && (forall k | k in rows :: Seen(k, rows[k]) in events)
  }

  class DumpMeta {
    var process: Option<ProcInfo>
    var onlyGroup: bool
    var pids: set<int>
    var instances: set<Identity>
    var limitReached: bool
    var droppedAtStart: nat
    var started: nat
    var lastAlive: nat
    var conns: Recording.Conns

    constructor (process: Option<ProcInfo>, onlyGroup: bool, pids: set<int>, instances: set<Identity>,
                 droppedAtStart: nat, now: nat)
      ensures State() == Meta(onlyGroup, now, instances, map[], false)
      ensures this.process == process && this.pids == pids && this.droppedAtStart == droppedAtStart && lastAlive == now
    {
      this.process, this.onlyGroup, this.pids, this.instances := process, onlyGroup, pids, instances;
      this.limitReached, this.droppedAtStart, this.started, this.lastAlive := false, droppedAtStart, now, now;
      this.conns := map[];
    }

    function State(): Meta
      reads this
    {
      Meta(onlyGroup, started, instances, conns, limitReached)
    }

    method Remember(k: ConnKey, c: StoreRow)
      modifies this`conns, this`limitReached
      ensures State() == Next(old(State()), Seen(k, c))
    {
      hide Recording.Merged, Recording.Owns;
      if c.lastSeen < started { return; }
      if k in conns {
        conns := conns[k := Recording.Merged(conns[k], c)];
      } else if !onlyGroup || Recording.Owns(instances, c) {
        if |conns| >= Recording.MAX_DUMP_CONNS {
          limitReached := true;
          return;
        }
        conns := conns[k := c];
      }
    }

    method RememberAll(rows: StoreRows) returns (ghost events: seq<Event>)
      modifies this`conns, this`limitReached
      ensures SeesAll(events, rows) && State() == After(old(State()), events)
    {
      hide Next;
      events := [];
      var left := rows.Keys;
      while left != {}
        invariant left <= rows.Keys && |events| + |left| == |rows.Keys|
        invariant forall e | e in events :: e.Seen? && e.k in rows && e.c == rows[e.k]
        invariant forall k | k in rows.Keys - left :: Seen(k, rows[k]) in events
        invariant State() == After(old(State()), events)
        decreases left
      {
        var k :| k in left;
        Remember(k, rows[k]);
        assert (events + [Seen(k, rows[k])])[..|events|] == events;
        events := events + [Seen(k, rows[k])];
        left := left - {k};
      }
      assert |rows| == |rows.Keys|;
    }

    ghost function Group(): Gathering
      reads this
    {
      Gathering(instances, pids, limitReached)
    }

    /** The plan for the file, made of what was remembered and of the history at the end. */
    method PlanFor(rows: StoreRows, caption: Captions, comment: seq<byte>) returns (plan: Plan)
      ensures plan == PlanOf(State(), rows, caption, comment)
    {
      hide OwnerOf;
      var recorded := BroughtUpToDate(rows);
      var owners: map<ConnKey, Owner> := map[];
      var left := recorded.Keys;
      while left != {}
        invariant left <= recorded.Keys
        invariant forall k :: k in owners <==> k in recorded && k !in left && recorded[k].lastSeen >= started
        invariant forall k | k in owners :: owners[k] == OwnerOf(recorded[k], caption)
        decreases left
      {
        var k :| k in left;
        if recorded[k].lastSeen >= started {
          owners := owners[k := OwnerOf(recorded[k], caption)];
        }
        left := left - {k};
      }
      plan := Plan(owners, onlyGroup, comment);
      PlanMade(rows, caption, comment, recorded, owners);
    }

    lemma PlanMade(rows: StoreRows, caption: Captions, comment: seq<byte>, recorded: Recording.Conns,
                   owners: map<ConnKey, Owner>)
      requires recorded == Recorded(State(), rows)
      requires forall k :: k in owners <==> k in recorded && recorded[k].lastSeen >= started
      requires forall k | k in owners :: owners[k] == OwnerOf(recorded[k], caption)
      ensures Plan(owners, onlyGroup, comment) == PlanOf(State(), rows, caption, comment)
    {
      hide Recording.Merged, Recording.Owns, Recorded;
    }

    function OwnerOf(c: Conn, caption: Captions): Owner
      reads this
    {
      Owner(caption(c.pname, c.pid, c.domain), Recording.Owns(instances, c))
    }

    method BroughtUpToDate(rows: StoreRows) returns (recorded: Recording.Conns)
      ensures recorded == Recorded(State(), rows)
    {
      hide Recording.Merged;
      recorded := conns;
      var left := rows.Keys;
      while left != {}
        invariant left <= rows.Keys
        invariant forall k :: k in recorded <==> k in conns || (k !in left && Recent(State(), rows, k))
        invariant forall k | k in recorded ::
            recorded[k] == if k in left then conns[k] else Recorded(State(), rows)[k]
        decreases left
      {
        var k :| k in left;
        RecordedKeys(State(), rows, k);
        if rows[k].lastSeen >= started {
          recorded := recorded[k := if k in recorded then Recording.Merged(recorded[k], rows[k]) else rows[k]];
        }
        left := left - {k};
      }
    }

    /** The pids of the recorded processes that still run, in some order. */
    method Roots(live: map<int, ProcInfo>) returns (roots: seq<int>)
      ensures Members(roots) == RootsOf(instances, live)
    {
      roots := [];
      var left := instances;
      while left != {}
        invariant left <= instances && Members(roots) == RootsOf(instances - left, live)
        decreases left
      {
        var id :| id in left;
        RootsMore(instances - left, id, live);
        assert instances - (left - {id}) == (instances - left) + {id};
        if Alive(live, id) {
          MembersMore(roots, id.pid);
          roots := roots + [id.pid];
        }
        left := left - {id};
      }
      assert instances - left == instances;
    }

    /** A new process list: running descendants join, and the group is alive while any member runs. */
    method Track(list: seq<ProcInfo>, now: nat)
      modifies this`instances, this`pids, this`limitReached, this`lastAlive
      ensures process.None? ==> Group() == old(Group()) && lastAlive == old(lastAlive)
      ensures process.Some? ==> Tracks(old(Group()), list, Group())
      ensures State() == Next(old(State()), Joined(instances, limitReached))
      ensures process.Some? ==> lastAlive == if RootsOf(old(instances), LiveOf(list)) != {} then now else old(lastAlive)
    {
      hide LiveOf, Reachable, RootsOf, Gathered, Passed;
      if process.None? {
        assert instances + instances == instances;
        return;
      }
      var live := LiveOf(list);
      var roots := Roots(live);
      assert roots != [] <==> Members(roots) != {} by { SomeMember(roots); }
      if roots != [] { lastAlive := now; }
      var order := DescendantsFrom(list, roots);
      assert Lists(old(instances), list, order);
      PassedGrows(Group(), live, order);
      Gather(live, order);
      assert old(instances) + instances == instances;
    }

    method Gather(live: map<int, ProcInfo>, order: seq<int>)
      modifies this`instances, this`pids, this`limitReached
      ensures Group() == Passed(old(Group()), live, order)
    {
      ghost var start := old(Group()).(full := false);
      var i := 0;
      while i < |order|
        invariant i <= |order| && limitReached == old(limitReached)
        invariant Group().(full := false) == GatheredAll(start, live, order[..i])
      {
        assert order[..i + 1][..i] == order[..i];
        var pid := order[i];
        if pid in live && live[pid].started != 0 {
          var id := live[pid].Id();
          if id !in instances && |instances| >= MAX_DUMP_PROCS {
            limitReached := true;
            StaysFull(start, live, order, i + 1);
            return;
          }
          instances := instances + {id};
          pids := pids + {pid};
        }
        i := i + 1;
      }
      assert order[..i] == order;
    }
  }

  lemma RecordedKeys(m: Meta, rows: StoreRows, k: ConnKey)
    ensures k in Recorded(m, rows) <==> k in m.conns || Recent(m, rows, k)
  {}

  lemma SomeMember(xs: seq<int>)
    ensures xs != [] <==> Members(xs) != {}
  {
    if xs != [] { assert xs[0] in Members(xs); }
  }

  lemma RootsMore(instances: set<Identity>, id: Identity, live: map<int, ProcInfo>)
    ensures RootsOf(instances + {id}, live) == RootsOf(instances, live) + if Alive(live, id) then {id.pid} else {}
  {}

  lemma {:induction false} StaysFull(g: Gathering, live: map<int, ProcInfo>, order: seq<int>, n: nat)
    requires n <= |order| && GatheredAll(g, live, order[..n]).full
    ensures GatheredAll(g, live, order) == GatheredAll(g, live, order[..n])
    decreases |order|
  {
    hide Alive;
    if n < |order| {
      var init := order[..|order| - 1];
      assert init[..n] == order[..n];
      StaysFull(g, live, init, n);
    } else {
      assert order[..n] == order;
    }
  }
}
