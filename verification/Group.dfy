/** The group of a process: everything reachable from its roots in a process list, which may hold cycles. */
module Group {
  import opened Procs

  ghost predicate Child(list: seq<ProcInfo>, a: int, b: int) {
    exists p :: p in list && p.ppid == a && p.pid == b
  }

  ghost predicate Line(list: seq<ProcInfo>, path: seq<int>) {
    path != [] && forall i | 0 <= i < |path| - 1 :: Child(list, path[i], path[i + 1])
  }

  ghost predicate Leads(list: seq<ProcInfo>, path: seq<int>, a: int, b: int) {
    Line(list, path) && path[0] == a && path[|path| - 1] == b
  }

  ghost predicate Descends(list: seq<ProcInfo>, a: int, b: int) {
    exists path :: Leads(list, path, a, b)
  }

  ghost predicate Reachable(list: seq<ProcInfo>, roots: set<int>, b: int) {
    exists r :: r in roots && Descends(list, r, b)
  }

  lemma RootReachable(list: seq<ProcInfo>, roots: set<int>, r: int)
    requires r in roots
    ensures Reachable(list, roots, r)
  {
    assert Leads(list, [r], r, r);
  }

  lemma ChildReachable(list: seq<ProcInfo>, roots: set<int>, a: int, b: int)
    requires Reachable(list, roots, a) && Child(list, a, b)
    ensures Reachable(list, roots, b)
  {
    var r :| r in roots && Descends(list, r, a);
    var path :| Leads(list, path, r, a);
    var longer := path + [b];
    forall i | 0 <= i < |longer| - 1
      ensures Child(list, longer[i], longer[i + 1])
    {
      assert longer[i] == path[i];
      assert i < |path| - 1 ==> longer[i + 1] == path[i + 1];
    }
    assert Leads(list, longer, r, b);
  }

  ghost predicate Closed(list: seq<ProcInfo>, seen: set<int>, a: int) {
    forall b | Child(list, a, b) :: b in seen
  }

  lemma {:induction false} LineStays(list: seq<ProcInfo>, seen: set<int>, path: seq<int>)
    requires Line(list, path) && path[0] in seen && forall a | a in seen :: Closed(list, seen, a)
    ensures path[|path| - 1] in seen
    decreases |path|
  {
    if |path| > 1 {
      assert Child(list, path[0], path[0 + 1]);
      var rest := path[1..];
      forall i | 0 <= i < |rest| - 1
        ensures Child(list, rest[i], rest[i + 1])
      {
        assert Child(list, path[i + 1], path[i + 1 + 1]);
      }
      LineStays(list, seen, rest);
    }
  }

  /** A set that holds the roots and every child of its members holds everything reachable. */
  lemma ClosedHoldsReachable(list: seq<ProcInfo>, roots: set<int>, seen: set<int>)
    requires roots <= seen && forall a | a in seen :: Closed(list, seen, a)
    ensures forall b | Reachable(list, roots, b) :: b in seen
  {
    forall b | Reachable(list, roots, b)
      ensures b in seen
    {
      var r :| r in roots && Descends(list, r, b);
      var path :| Leads(list, path, r, b);
      LineStays(list, seen, path);
    }
  }

  // The children of every process.

  function Kids(children: map<int, seq<int>>, pid: int): seq<int> {
    if pid in children then children[pid] else []
  }

  method ChildrenOf(list: seq<ProcInfo>) returns (children: map<int, seq<int>>)
    ensures forall a, b :: b in Kids(children, a) <==> Child(list, a, b)
  {
    children := map[];
    var i := 0;
    while i < |list|
      invariant i <= |list|
      invariant forall a, b :: b in Kids(children, a) <==> Child(list[..i], a, b)
    {
      var p := list[i];
      ghost var before := children;
      children := children[p.ppid := Kids(children, p.ppid) + [p.pid]];
      forall a, b
        ensures b in Kids(children, a) <==> Child(list[..i + 1], a, b)
      {
        ChildMore(list, i, a, b);
        assert b in Kids(children, a) <==> b in Kids(before, a) || (a == p.ppid && b == p.pid);
      }
      i := i + 1;
    }
    assert list[..i] == list;
  }

  lemma ChildMore(list: seq<ProcInfo>, i: nat, a: int, b: int)
    requires i < |list|
    ensures Child(list[..i + 1], a, b) <==> Child(list[..i], a, b) || (a == list[i].ppid && b == list[i].pid)
  {
    assert list[..i + 1] == list[..i] + [list[i]];
    assert forall p :: p in list[..i + 1] <==> p in list[..i] || p == list[i];
  }

  // The worklist.

  ghost predicate Distinct(xs: seq<int>) {
    forall i, j | 0 <= i < j < |xs| :: xs[i] != xs[j]
  }

  function Members(xs: seq<int>): set<int> {
    set x | x in xs
  }

  /** The roots without repeats, in order. */
  function Firsts(roots: seq<int>): seq<int> {
    if roots == [] then []
    else
      var init, r := Firsts(roots[..|roots| - 1]), roots[|roots| - 1];
      if r in init then init else init + [r]
  }

  method DistinctRoots(roots: seq<int>) returns (out: seq<int>)
    ensures out == Firsts(roots) && Distinct(out) && Members(out) == Members(roots)
  {
    out := [];
    var i := 0;
    while i < |roots|
      invariant i <= |roots| && out == Firsts(roots[..i]) && Distinct(out) && Members(out) == Members(roots[..i])
    {
      assert roots[..i + 1][..i] == roots[..i];
      MembersMore(roots[..i], roots[i]);
      MembersMore(out, roots[i]);
      assert roots[..i + 1] == roots[..i] + [roots[i]];
      if roots[i] !in out {
        out := out + [roots[i]];
      }
      i := i + 1;
    }
    assert roots[..i] == roots;
  }

  lemma MembersMore(xs: seq<int>, x: int)
    ensures Members(xs + [x]) == Members(xs) + {x}
  {
    assert forall y :: y in xs + [x] <==> y in xs || y == x;
  }

  /** Everything that can ever be seen. */
  function Universe(list: seq<ProcInfo>, roots: seq<int>): set<int> {
    Members(roots) + set p | p in list :: p.pid
  }

  lemma KidsInUniverse(list: seq<ProcInfo>, roots: seq<int>, pid: int, kids: seq<int>)
    requires forall b :: b in kids <==> Child(list, pid, b)
    ensures Members(kids) <= Universe(list, roots)
  {
    forall b | b in kids
      ensures b in Universe(list, roots)
    {
      assert Child(list, pid, b);
    }
  }

  /** What the worklist keeps: what was seen is reachable, and what is not waiting has its children seen. */
  ghost predicate Explored(list: seq<ProcInfo>, roots: seq<int>, out: seq<int>, stack: seq<int>) {
    && Distinct(out) && Members(stack) <= Members(out) && Members(roots) <= Members(out) <= Universe(list, roots)
    && (forall x | x in out :: Reachable(list, Members(roots), x))
    && (forall x | x in out && x !in stack :: Closed(list, Members(out), x))
    && Firsts(roots) <= out
  }

  /** Every process reachable from the roots, each once, the roots first. */
  method DescendantsFrom(list: seq<ProcInfo>, roots: seq<int>) returns (out: seq<int>)
    ensures Distinct(out) && Firsts(roots) <= out
    ensures forall pid :: pid in out <==> Reachable(list, Members(roots), pid)
  {
    hide Reachable, Child, Distinct, Explored, Unseen, Firsts, Kids;
    var children := ChildrenOf(list);
    out := DistinctRoots(roots);
    var stack := out;
    StartExplored(list, roots, out);
    while stack != []
      invariant Explored(list, roots, out, stack)
      decreases Unseen(list, roots, out), |stack|
    {
      var pid := stack[|stack| - 1];
      assert stack == stack[..|stack| - 1] + [pid];
      DistinctOf(list, roots, out, stack);
      stack := stack[..|stack| - 1];
      var found := FoundBy(Kids(children, pid), out);
      Explores(list, roots, out, stack, pid, Kids(children, pid), found);
      assert found == [] ==> out + found == out && stack + found == stack;
      out := out + found;
      stack := stack + found;
    }
    AllExplored(list, roots, out);
  }

  /** The kids not seen yet, each once. */
  method FoundBy(kids: seq<int>, out: seq<int>) returns (found: seq<int>)
    requires Distinct(out)
    ensures Distinct(out + found) && Members(out + found) == Members(out) + Members(kids)
    ensures forall x | x in found :: x in kids && x !in out
  {
    found := [];
    var i := 0;
    while i < |kids|
      invariant i <= |kids| && Distinct(out + found) && Members(out + found) == Members(out) + Members(kids[..i])
      invariant forall x | x in found :: x in kids && x !in out
    {
      assert kids[..i + 1] == kids[..i] + [kids[i]];
      MembersMore(kids[..i], kids[i]);
      if kids[i] !in out + found {
        MembersMore(out + found, kids[i]);
        assert out + (found + [kids[i]]) == out + found + [kids[i]];
        found := found + [kids[i]];
      }
      i := i + 1;
    }
    assert kids[..i] == kids;
  }

  lemma StartExplored(list: seq<ProcInfo>, roots: seq<int>, out: seq<int>)
    requires out == Firsts(roots) && Distinct(out) && Members(out) == Members(roots)
    ensures Explored(list, roots, out, out)
  {
    hide Reachable, Distinct;
    forall x | x in out
      ensures Reachable(list, Members(roots), x)
    {
      assert x in Members(out);
      RootReachable(list, Members(roots), x);
    }
  }

  lemma AllExplored(list: seq<ProcInfo>, roots: seq<int>, out: seq<int>)
    requires Explored(list, roots, out, [])
    ensures Distinct(out) && Firsts(roots) <= out
    ensures forall pid :: pid in out <==> Reachable(list, Members(roots), pid)
  {
    hide Reachable, Closed, Distinct;
    assert forall x :: x in Members(out) <==> x in out;
    ClosedHoldsReachable(list, Members(roots), Members(out));
  }

  lemma DistinctOf(list: seq<ProcInfo>, roots: seq<int>, out: seq<int>, stack: seq<int>)
    requires Explored(list, roots, out, stack)
    ensures Distinct(out)
  {}

  ghost function Unseen(list: seq<ProcInfo>, roots: seq<int>, out: seq<int>): nat {
    |Universe(list, roots) - Members(out)|
  }

  lemma Fewer(all: set<int>, a: set<int>, b: set<int>, x: int)
    requires a <= b <= all && x in b && x !in a
    ensures |all - b| < |all - a|
  {
    assert all - a == (all - b) + (b - a);
    assert x in b - a;
  }

  lemma MembersBoth(xs: seq<int>, ys: seq<int>)
    ensures Members(xs + ys) == Members(xs) + Members(ys)
  {
    assert forall y :: y in xs + ys <==> y in xs || y in ys;
  }

  /** One turn of the worklist. */
  lemma Explores(list: seq<ProcInfo>, roots: seq<int>, out: seq<int>, stack: seq<int>, pid: int, kids: seq<int>,
                 found: seq<int>)
    requires Explored(list, roots, out, stack + [pid])
    requires forall b :: b in kids <==> Child(list, pid, b)
    requires Distinct(out + found) && Members(out + found) == Members(out) + Members(kids)
    requires forall x | x in found :: x in kids && x !in out
    ensures Explored(list, roots, out + found, stack + found)
    ensures found != [] ==> Unseen(list, roots, out + found) < Unseen(list, roots, out)
  {
    hide Reachable, Child, Distinct, Universe, Firsts, Closed, Unseen;
    MembersBoth(stack, [pid]);
    MembersBoth(stack, found);
    MembersBoth(out, found);
    KidsInUniverse(list, roots, pid, kids);
    assert pid in Members(stack + [pid]);
    FoundReachable(list, roots, out, pid, kids);
    FoundClosed(list, roots, out, stack, pid, kids, found);
    if found != [] { FoundFewer(list, roots, out, found); }
  }

  lemma FoundFewer(list: seq<ProcInfo>, roots: seq<int>, out: seq<int>, found: seq<int>)
    requires found != [] && Members(out + found) <= Universe(list, roots)
    requires forall x | x in found :: x !in out
    ensures Unseen(list, roots, out + found) < Unseen(list, roots, out)
  {
    hide Universe;
    MembersBoth(out, found);
    var x := found[0];
    assert x in found && x in Members(found) && x !in Members(out);
    Fewer(Universe(list, roots), Members(out), Members(out + found), x);
  }

  lemma FoundReachable(list: seq<ProcInfo>, roots: seq<int>, out: seq<int>, pid: int, kids: seq<int>)
    requires pid in out && forall x | x in out :: Reachable(list, Members(roots), x)
    requires forall b :: b in kids <==> Child(list, pid, b)
    ensures forall x | x in kids :: Reachable(list, Members(roots), x)
  {
    hide Reachable, Child;
    forall x | x in kids
      ensures Reachable(list, Members(roots), x)
    {
      ChildReachable(list, Members(roots), pid, x);
    }
  }

  lemma FoundClosed(list: seq<ProcInfo>, roots: seq<int>, out: seq<int>, stack: seq<int>, pid: int, kids: seq<int>,
                    found: seq<int>)
    requires forall x | x in out && x !in stack + [pid] :: Closed(list, Members(out), x)
    requires forall b :: b in kids <==> Child(list, pid, b)
    requires Members(out + found) == Members(out) + Members(kids)
    ensures forall x | x in out + found && x !in stack + found :: Closed(list, Members(out + found), x)
  {
    hide Child;
    forall x | x in out + found && x !in stack + found
      ensures Closed(list, Members(out + found), x)
    {
      if x == pid {
        assert forall b | b in kids :: b in Members(kids);
      } else {
        assert x in out && x !in stack + [pid];
      }
    }
  }
}
