/** How the group of a recording grows from one process list to the next. */
module Tracking {
  import opened Group
  import opened Procs
  import opened Wrappers

  const MAX_DUMP_PROCS := 4096

  /** Processes by pid; of two entries with the same pid the later counts. */
  function LiveOf(list: seq<ProcInfo>): (live: map<int, ProcInfo>)
    ensures forall pid | pid in live :: live[pid] in list && live[pid].pid == pid
    ensures forall p | p in list :: p.pid in live
  {
    if list == [] then map[]
    else
      var p := list[|list| - 1];
      LiveOf(list[..|list| - 1])[p.pid := p]
  }

  predicate Alive(live: map<int, ProcInfo>, id: Identity) {
    id.pid in live && live[id.pid].Id() == id
  }

  /** The pids of the recorded processes that still run. */
  function RootsOf(instances: set<Identity>, live: map<int, ProcInfo>): set<int> {
    set id | id in instances && Alive(live, id) :: id.pid
  }

  datatype Gathering = Gathering(instances: set<Identity>, pids: set<int>, full: bool)

  /** One pid of the group; nothing joins once the limit is hit. */
  function Gathered(g: Gathering, live: map<int, ProcInfo>, pid: int): Gathering {
    if g.full || pid !in live || live[pid].started == 0 then g
    else
      var id := live[pid].Id();
      if id !in g.instances && |g.instances| >= MAX_DUMP_PROCS then g.(full := true)
      else Gathering(g.instances + {id}, g.pids + {pid}, false)
  }

  function GatheredAll(g: Gathering, live: map<int, ProcInfo>, order: seq<int>): Gathering {
    if order == [] then g
    else Gathered(GatheredAll(g, live, order[..|order| - 1]), live, order[|order| - 1])
  }

  /** The processes that ask to join. */
  function Candidates(live: map<int, ProcInfo>, order: seq<int>): set<Identity> {
    set pid | pid in order && pid in live && live[pid].started != 0 :: live[pid].Id()
  }

  function Asking(live: map<int, ProcInfo>, pid: int): set<Identity> {
    if pid in live && live[pid].started != 0 then {live[pid].Id()} else {}
  }

  lemma CandidatesMore(live: map<int, ProcInfo>, order: seq<int>)
    requires order != []
    ensures var n := |order| - 1;
            Candidates(live, order) == Candidates(live, order[..n]) + Asking(live, order[n])
  {
    var n := |order| - 1;
    assert forall pid :: pid in order <==> pid in order[..n] || pid == order[n];
  }

  lemma SubsetSize(a: set<Identity>, b: set<Identity>)
    requires a <= b
    ensures |a| <= |b|
    ensures a != b ==> |a| < |b|
  {
    assert b == a + (b - a);
    assert a != b ==> b - a != {};
  }

  /** All of `all` joined if they fit; they do not fit exactly when the limit flag is set, and then the
      group is full. */
  ghost predicate Fits(r: Gathering, all: set<Identity>) {
    && r.instances <= all && |r.instances| <= 4096
    && (!r.full ==> r.instances == all)
    && (r.full <==> |all| > 4096)
    && (r.full ==> |r.instances| == 4096)
  }

  lemma {:induction false} GatheredIs(g: Gathering, live: map<int, ProcInfo>, order: seq<int>)
    requires |g.instances| <= 4096 && !g.full
    ensures Fits(GatheredAll(g, live, order), g.instances + Candidates(live, order))
    ensures g.instances <= GatheredAll(g, live, order).instances
  {
    hide Gathered, Candidates, Fits, Asking;
    if order == [] {
      assert Candidates(live, order) == {} by { NoCandidates(live); }
      assert g.instances + {} == g.instances;
      NobodyNew(g);
    } else {
      var init, pid := order[..|order| - 1], order[|order| - 1];
      GatheredIs(g, live, init);
      CandidatesMore(live, order);
      Together(g.instances, Candidates(live, init), Asking(live, pid));
      OneMore(GatheredAll(g, live, init), live, pid, g.instances + Candidates(live, init));
    }
  }

  lemma NoCandidates(live: map<int, ProcInfo>)
    ensures Candidates(live, []) == {}
  {}

  lemma NobodyNew(g: Gathering)
    requires |g.instances| <= MAX_DUMP_PROCS && !g.full
    ensures Fits(g, g.instances)
  {}

  lemma OneMore(g: Gathering, live: map<int, ProcInfo>, pid: int, some: set<Identity>)
    requires Fits(g, some)
    ensures var r := Gathered(g, live, pid);
            && g.instances <= r.instances
            && Fits(r, some + Asking(live, pid))
  {
    SubsetSize(some, some + Asking(live, pid));
  }

  lemma Together(a: set<Identity>, b: set<Identity>, c: set<Identity>)
    ensures a + (b + c) == a + b + c
  {}

  /** The order lists the group: everything reachable from the recorded processes that still run. */
  ghost predicate Lists(instances: set<Identity>, list: seq<ProcInfo>, order: seq<int>) {
    forall pid :: pid in order <==> Reachable(list, RootsOf(instances, LiveOf(list)), pid)
  }

  /** A pass over the group; the limit flag stays once it is set, and stops nothing by itself. */
  function Passed(a: Gathering, live: map<int, ProcInfo>, order: seq<int>): Gathering {
    var r := GatheredAll(a.(full := false), live, order);
    r.(full := a.full || r.full)
  }

  lemma {:induction false} PassedGrows(a: Gathering, live: map<int, ProcInfo>, order: seq<int>)
    ensures a.instances <= Passed(a, live, order).instances && a.pids <= Passed(a, live, order).pids
    ensures a.full ==> Passed(a, live, order).full
  {
    if order != [] {
      PassedGrows(a, live, order[..|order| - 1]);
    }
  }

  /** One process list takes the group from `a` to `b`. */
  ghost predicate Tracks(a: Gathering, list: seq<ProcInfo>, b: Gathering) {
    exists order :: Lists(a.instances, list, order) && b == Passed(a, LiveOf(list), order)
  }

  /** `id` runs and descends from a recorded process that runs. */
  ghost predicate ChildOf(list: seq<ProcInfo>, parent: Identity, id: Identity) {
    Alive(LiveOf(list), parent) && Alive(LiveOf(list), id) && Descends(list, parent.pid, id.pid)
  }

  lemma {:induction false} GatheredDescends(a: Gathering, list: seq<ProcInfo>, order: seq<int>, id: Identity)
    requires id in GatheredAll(a, LiveOf(list), order).instances && id !in a.instances
    ensures id.pid in order && Alive(LiveOf(list), id)
  {
    if order != [] {
      var n := |order| - 1;
      if id in GatheredAll(a, LiveOf(list), order[..n]).instances {
        GatheredDescends(a, list, order[..n], id);
      }
    }
  }

  /** Whoever joins runs and descends, in that very list, from a process recorded before that runs too.
      The same pid is not enough. */
  lemma JoinsByDescent(a: Gathering, list: seq<ProcInfo>, b: Gathering, id: Identity) returns (parent: Identity)
    requires Tracks(a, list, b) && id in b.instances && id !in a.instances
    ensures parent in a.instances && ChildOf(list, parent, id)
  {
    hide LiveOf, Descends, GatheredAll;
    var order :| Lists(a.instances, list, order) && b == Passed(a, LiveOf(list), order);
    GatheredDescends(a.(full := false), list, order, id);
    var roots := RootsOf(a.instances, LiveOf(list));
    assert Reachable(list, roots, id.pid);
    var r :| r in roots && Descends(list, r, id.pid);
    parent :| parent in a.instances && Alive(LiveOf(list), parent) && parent.pid == r;
  }

  /** The running processes of the group. */
  ghost predicate InGroup(a: Gathering, list: seq<ProcInfo>, id: Identity) {
    Alive(LiveOf(list), id) && id.started != 0 && Reachable(list, RootsOf(a.instances, LiveOf(list)), id.pid)
  }

  /** The group stays bounded and loses nobody; unless the limit is hit, every running descendant joins. */
  lemma TracksBounded(a: Gathering, list: seq<ProcInfo>, b: Gathering)
    requires Tracks(a, list, b) && |a.instances| <= 4096
    ensures a.instances <= b.instances && |b.instances| <= 4096
    ensures !b.full ==> forall id :: id in b.instances <==> id in a.instances || InGroup(a, list, id)
    ensures a.full ==> b.full
    ensures b.full && !a.full ==> |b.instances| == 4096 && exists id :: InGroup(a, list, id) && id !in b.instances
  {
    hide LiveOf, Reachable, GatheredAll, RootsOf;
    var order :| Lists(a.instances, list, order) && b == Passed(a, LiveOf(list), order);
    GatheredIs(a.(full := false), LiveOf(list), order);
    forall id
      ensures id in Candidates(LiveOf(list), order) <==> InGroup(a, list, id)
    {
      CandidateIff(LiveOf(list), order, id);
    }
    if b.full && !a.full {
      var all := a.instances + Candidates(LiveOf(list), order);
      assert all != b.instances;
      var id :| id in all && id !in b.instances;
      assert InGroup(a, list, id);
    }
  }

  lemma CandidateIff(live: map<int, ProcInfo>, order: seq<int>, id: Identity)
    requires forall pid | pid in live :: live[pid].pid == pid
    ensures id in Candidates(live, order) <==> id.pid in order && Alive(live, id) && id.started != 0
  {}

  // Whole recordings.

  ghost predicate TracksAll(states: seq<Gathering>, lists: seq<seq<ProcInfo>>) {
    && |states| == |lists| + 1
    && forall n | 0 <= n < |lists| :: Tracks(states[n], lists[n], states[n + 1])
  }

  ghost predicate HasParent(heirs: iset<Identity>, list: seq<ProcInfo>, id: Identity) {
    exists parent :: parent in heirs && ChildOf(list, parent, id)
  }

  ghost function WithChildren(heirs: iset<Identity>, list: seq<ProcInfo>): iset<Identity> {
    iset id | id in heirs || HasParent(heirs, list, id)
  }

  /** The first processes, and whoever descends from an heir at a list that shows both running. */
  ghost function Heirs(first: set<Identity>, lists: seq<seq<ProcInfo>>): iset<Identity> {
    if lists == [] then iset id | id in first
    else WithChildren(Heirs(first, lists[..|lists| - 1]), lists[|lists| - 1])
  }

  /** Over any sequence of process lists, every recorded process is an heir of the first ones. */
  lemma {:induction false} EveryoneIsHeir(states: seq<Gathering>, lists: seq<seq<ProcInfo>>, n: nat, id: Identity)
    requires TracksAll(states, lists) && n <= |lists| && id in states[n].instances
    ensures id in Heirs(states[0].instances, lists[..n])
  {
    hide Tracks, ChildOf;
    if n > 0 {
      assert Tracks(states[n - 1], lists[n - 1], states[n - 1 + 1]);
      assert lists[..n][..n - 1] == lists[..n - 1];
      if id in states[n - 1].instances {
        EveryoneIsHeir(states, lists, n - 1, id);
      } else {
        var parent := JoinsByDescent(states[n - 1], lists[n - 1], states[n], id);
        EveryoneIsHeir(states, lists, n - 1, parent);
        assert HasParent(Heirs(states[0].instances, lists[..n - 1]), lists[n - 1], id);
      }
    }
  }

  lemma {:induction false} GroupBounded(states: seq<Gathering>, lists: seq<seq<ProcInfo>>, i: nat, n: nat)
    requires TracksAll(states, lists) && i <= n <= |lists| && |states[0].instances| <= 4096
    ensures states[i].instances <= states[n].instances && |states[n].instances| <= 4096
    ensures states[i].full ==> states[n].full
  {
    hide Tracks;
    if n > 0 {
      GroupBounded(states, lists, if i < n then i else n - 1, n - 1);
      assert Tracks(states[n - 1], lists[n - 1], states[n - 1 + 1]);
      TracksBounded(states[n - 1], lists[n - 1], states[n]);
    }
  }
}
