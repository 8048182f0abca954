/**
 What a recording remembers of the rows it saw, and which packets of its file a process-only recording keeps.
 The reference is the whole history of observations that were folded into a row.
 */
module Recording {
  import opened Annotate
  import opened Bytes
  import opened Net
  import opened Procs
  import opened Rows
  import opened Wrappers

  const MAX_DUMP_CONNS := 40_000

  type Conns = map<ConnKey, Conn>

  // Folding observations of a row.

  /** The row was replaced, and not by the same UDP socket. */
  predicate Replaced(a: Conn, b: Conn) {
    a.firstSeen != b.firstSeen && !(a.udpGeneration.Some? && a.udpGeneration == b.udpGeneration)
  }

  /** The second observation does not continue the first. */
  predicate Disputes(a: Conn, b: Conn) {
    || Replaced(a, b)
    || (a.pid.Some? && a.pid != b.pid)
    || (a.ownerStarted.Some? && a.ownerStarted != b.ownerStarted)
    || (a.udpGeneration.Some? && a.udpGeneration != b.udpGeneration)
  }

  function Merged(a: Conn, b: Conn): Conn {
    if a.ownerAmbiguous || b.ownerAmbiguous || Disputes(a, b) then Disputed(b) else b
  }

  function Folded(obs: seq<Conn>): Conn
    requires obs != []
  {
    if |obs| == 1 then obs[0] else Merged(Folded(obs[..|obs| - 1]), obs[|obs| - 1])
  }

  /** No observation is in doubt and each continues the one before. */
  ghost predicate Undisputed(obs: seq<Conn>) {
    && (forall i | 0 <= i < |obs| :: !obs[i].ownerAmbiguous)
    && (forall i | 0 <= i < |obs| - 1 :: !Disputes(obs[i], obs[i + 1]))
  }

  /** Doubt about a recorded row is exactly doubt somewhere in its history; without it the row is as last seen. */
  lemma {:induction false} FoldedIff(obs: seq<Conn>)
    requires obs != []
    ensures !Folded(obs).ownerAmbiguous <==> Undisputed(obs)
    ensures Undisputed(obs) ==> Folded(obs) == obs[|obs| - 1]
    ensures !Undisputed(obs) && |obs| > 1 ==> Folded(obs) == Disputed(obs[|obs| - 1])
  {
    hide Disputes;
    if |obs| > 1 {
      var init := obs[..|obs| - 1];
      FoldedIff(init);
      UndisputedSplits(obs);
    }
  }

  lemma UndisputedSplits(obs: seq<Conn>)
    requires |obs| > 1
    ensures var n := |obs| - 1;
            Undisputed(obs) <==> Undisputed(obs[..n]) && !obs[n].ownerAmbiguous && !Disputes(obs[n - 1], obs[n])
  {
    hide Disputes;
    var n := |obs| - 1;
    var init := obs[..n];
    if Undisputed(obs) {
      assert forall i | 0 <= i < n :: init[i] == obs[i];
      assert !Disputes(obs[n - 1], obs[n - 1 + 1]);
    }
    if Undisputed(init) && !obs[n].ownerAmbiguous && !Disputes(obs[n - 1], obs[n]) {
      forall i | 0 <= i < n
        ensures !obs[i].ownerAmbiguous
      {
        assert !init[i].ownerAmbiguous;
      }
      forall i | 0 <= i < n
        ensures !Disputes(obs[i], obs[i + 1])
      {
        assert i < n - 1 ==> !Disputes(init[i], init[i + 1]);
      }
    }
  }

  // Ownership.

  predicate OwnedBy(c: Conn, id: Identity) {
    c.pid == Some(id.pid) && c.ownerStarted == Some(id.started)
  }

  predicate Owns(instances: set<Identity>, c: Conn) {
    c.pid.Some? && c.ownerStarted.Some? && Identity(c.pid.value, c.ownerStarted.value) in instances
  }

  /** Every observation shows the one process, none is in doubt, and the row was never replaced other than
      by the same UDP socket. */
  ghost predicate OneOwner(obs: seq<Conn>, id: Identity) {
    && (forall i | 0 <= i < |obs| :: OwnedBy(obs[i], id) && !obs[i].ownerAmbiguous)
    && (forall i | 0 <= i < |obs| - 1 :: !Replaced(obs[i], obs[i + 1]))
    && (forall i | 0 <= i < |obs| - 1 :: obs[i].udpGeneration.Some? ==> obs[i + 1].udpGeneration == obs[i].udpGeneration)
  }

  ghost predicate SomeOwner(obs: seq<Conn>, instances: set<Identity>) {
    exists id :: id in instances && OneOwner(obs, id)
  }

  lemma {:induction false} OwnedThroughout(obs: seq<Conn>, id: Identity, n: nat)
    requires obs != [] && Undisputed(obs) && OwnedBy(obs[0], id) && n < |obs|
    ensures OwnedBy(obs[n], id)
  {
    if n > 0 {
      OwnedThroughout(obs, id, n - 1);
      assert !Disputes(obs[n - 1], obs[n - 1 + 1]);
    }
  }

  /** A row whose first observation was owned ends up owned exactly when one recorded process owned it all along. */
  lemma OwnedFoldIff(obs: seq<Conn>, instances: set<Identity>)
    requires obs != [] && (|obs| > 1 ==> Owns(instances, obs[0]))
    requires forall c | c in obs && c.ownerAmbiguous :: c.pid == None
    ensures Owns(instances, Folded(obs)) <==> SomeOwner(obs, instances)
  {
    FoldedIff(obs);
    var n := |obs| - 1;
    assert obs[0] in obs;
    if Undisputed(obs) && Owns(instances, obs[0]) {
      var id := Identity(obs[0].pid.value, obs[0].ownerStarted.value);
      forall i | 0 <= i < |obs|
        ensures OwnedBy(obs[i], id) && !obs[i].ownerAmbiguous
      {
        OwnedThroughout(obs, id, i);
      }
      assert OneOwner(obs, id) by { Continues(obs); }
      assert OwnedBy(obs[n], id);
    } else {
      if id :| id in instances && OneOwner(obs, id) {
        OneOwnerUndisputed(obs, id);
      }
    }
  }

  lemma Continues(obs: seq<Conn>)
    requires Undisputed(obs)
    ensures forall i | 0 <= i < |obs| - 1 :: !Replaced(obs[i], obs[i + 1])
    ensures forall i | 0 <= i < |obs| - 1 :: obs[i].udpGeneration.Some? ==> obs[i + 1].udpGeneration == obs[i].udpGeneration
  {
    forall i | 0 <= i < |obs| - 1
      ensures !Replaced(obs[i], obs[i + 1])
      ensures obs[i].udpGeneration.Some? ==> obs[i + 1].udpGeneration == obs[i].udpGeneration
    {
      assert !Disputes(obs[i], obs[i + 1]);
    }
  }

  lemma OneOwnerUndisputed(obs: seq<Conn>, id: Identity)
    requires OneOwner(obs, id)
    ensures Undisputed(obs)
  {
    forall i | 0 <= i < |obs| - 1
      ensures !Disputes(obs[i], obs[i + 1])
    {
      assert OwnedBy(obs[i], id) && OwnedBy(obs[i + 1], id);
    }
  }

  /** For a row that lives on in the history between two observations, folding raises no doubt the history
      does not raise itself, save when the start time of a UDP owner was replaced. */
  lemma LivingRowDisputedIff(k: ConnKey, c: Conn, d: Conn)
    requires WellFormed(k, c) && WellFormed(k, d) && Keeps(k, c, d)
    ensures Merged(c, d).ownerAmbiguous
            <==> d.ownerAmbiguous || (k.proto == Udp && c.ownerStarted.Some? && c.ownerStarted != d.ownerStarted)
  {}
}
