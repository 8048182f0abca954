/**
 The worker that receives captured frames and the requests to start and stop a file through one queue:
 a frame is taken once though it passes several components, and a file holds what was queued between its
 start and its stop.
 */
module EtwWorker {
  import opened Bytes
  import opened EtwWriter
  import opened Pcapng
  import opened Wrappers

  const WINDOW := 8192

  /** The group and the number a frame keeps while it passes the components. */
  type Id = (nat, nat)

  // Frames seen before.

  function LastOf(ids: seq<Id>): seq<Id> {
    if |ids| <= 8192 then ids else ids[|ids| - 8192..]
  }

  /** The ids taken: all but those among the last ones taken before. */
  function Taken(ids: seq<Id>): seq<Id> {
    if ids == [] then []
    else
      var taken, id := Taken(ids[..|ids| - 1]), ids[|ids| - 1];
      if id in LastOf(taken) then taken else taken + [id]
  }

  function Noted(order: seq<Id>, id: Id): seq<Id> {
    if id in order then order
    else if |order| + 1 > WINDOW then (order + [id])[1..]
    else order + [id]
  }

  /** The list kept is the last ids taken. */
  lemma NotedIsWindow(ids: seq<Id>, id: Id)
    ensures LastOf(Taken(ids + [id])) == Noted(LastOf(Taken(ids)), id)
  {
    hide LastOf;
    assert (ids + [id])[..|ids|] == ids;
    if id !in LastOf(Taken(ids)) { WindowMore(Taken(ids), id); }
  }

  lemma WindowMore(taken: seq<Id>, id: Id)
    requires id !in LastOf(taken)
    ensures LastOf(taken + [id]) == Noted(LastOf(taken), id)
  {
    var n := |taken|;
    if n >= WINDOW {
      assert LastOf(taken) + [id] == (taken + [id])[n - WINDOW..];
      assert (taken + [id])[n - WINDOW..][1..] == (taken + [id])[n + 1 - WINDOW..];
    }
  }

  /** No id is taken twice within the window. */
  lemma {:induction false} NoRepeats(ids: seq<Id>, i: nat, j: nat)
    requires i < j < |Taken(ids)| && j - i <= 8192
    ensures Taken(ids)[i] != Taken(ids)[j]
  {
    hide LastOf;
    var init := ids[..|ids| - 1];
    if j < |Taken(init)| {
      NoRepeats(init, i, j);
    } else {
      InWindow(Taken(init), i);
    }
  }

  lemma InWindow(taken: seq<Id>, i: nat)
    requires i < |taken| <= i + WINDOW
    ensures taken[i] in LastOf(taken)
  {
    var last := LastOf(taken);
    assert taken[i] == last[i - (|taken| - |last|)];
  }

  class Dedup {
    var order: seq<Id>
    var seen: set<Id>

    ghost predicate Valid()
      reads this
    {
      && |order| <= WINDOW
      && (forall id :: id in seen <==> id in order)
      && (forall i, j | 0 <= i < j < |order| :: order[i] != order[j])
    }

    constructor ()
      ensures Valid() && order == []
    {
      order, seen := [], {};
    }

    method First(id: Id) returns (first: bool)
      requires Valid()
      modifies this
      ensures Valid() && first == (id !in old(order)) && order == Noted(old(order), id)
    {
      if id in seen { return false; }
      seen := seen + {id};
      order := order + [id];
      if |order| > WINDOW {
        var oldest := order[0];
        order := order[1..];
        seen := seen - {oldest};
        assert old(order)[0] == oldest && order == old(order)[1..] + [id];
      }
      return true;
    }
  }

  // The worker.

  /** A frame as it arrives: unreadable, of an unknown link type, or a capture. */
  datatype Arrival = Unreadable | UnknownLink | Arrived(id: Id, capture: Capture)

  datatype Work =
    | Frame(arrival: Arrival, writable: bool)
    | Start(ok: bool)
    | Stop
    | Shutdown

  datatype File = File(bytes: seq<byte>, failed: bool)

  datatype WorkerState = WorkerState(order: seq<Id>, file: Option<File>, sent: seq<Capture>, dropped: nat,
                                     finished: seq<File>, closed: bool)

  /** Nothing is written behind a failed write. */
  function Written(f: Option<File>, c: Capture, writable: bool): Option<File> {
    if f.None? || f.value.failed then f
    else if !writable then Some(f.value.(failed := true))
    else Some(File(f.value.bytes + Encode(PacketBlock(c)), false))
  }

  function OnFrame(s: WorkerState, a: Arrival, writable: bool): WorkerState {
    match a
    case Unreadable => s.(dropped := s.dropped + 1)
    case UnknownLink => s.(dropped := s.dropped + 1)
    case Arrived(id, c) =>
      if id in s.order then s
      else s.(order := Noted(s.order, id), file := Written(s.file, c, writable), sent := s.sent + [c])
  }

  function OnWork(s: WorkerState, w: Work): WorkerState {
    if s.closed then s
    else
      match w
      case Frame(a, writable) => OnFrame(s, a, writable)
      case Start(ok) =>
        if s.file.Some? || !ok then s else s.(file := Some(File(EncodeAll(Head()), false)))
      case Stop => if s.file.None? then s else s.(file := None, finished := s.finished + [s.file.value])
      case Shutdown => s.(closed := true)
  }

  function OnAll(s: WorkerState, works: seq<Work>): WorkerState
    decreases |works|
  {
    if works == [] then s else OnAll(OnWork(s, works[0]), works[1..])
  }

  /** What has no effect: anything behind the shutdown, a start that fails or finds a file open, a stop without one, and a
      frame whose id is among the last ones. What cannot be read is counted; a file whose writing failed once gets
      nothing more and is known as failed when it is finished. */
  lemma WithoutEffect(s: WorkerState, w: Work)
    ensures s.closed ==> OnWork(s, w) == s
    ensures w.Start? && (!w.ok || s.file.Some?) ==> OnWork(s, w) == s
    ensures w.Stop? && s.file.None? ==> OnWork(s, w) == s
    ensures w.Frame? && w.arrival.Arrived? && w.arrival.id in s.order ==> OnWork(s, w) == s
    ensures w.Frame? && !w.arrival.Arrived? && !s.closed ==> OnWork(s, w) == s.(dropped := s.dropped + 1)
    ensures w.Frame? && s.file.Some? && (s.file.value.failed || !w.writable) ==>
              var t := OnWork(s, w).file; t == s.file || t == Some(File(s.file.value.bytes, true))
  {
    hide Noted, Encode, PacketBlock;
  }

  class Worker {
    var dedup: Dedup
    var file: Option<File>
    var sent: seq<Capture>
    var dropped: nat
    var finished: seq<File>
    var closed: bool

    ghost predicate Valid()
      reads this, dedup
    {
      dedup.Valid()
    }

    function State(): WorkerState
      reads this, dedup
    {
      WorkerState(dedup.order, file, sent, dropped, finished, closed)
    }

    constructor ()
      ensures Valid() && fresh(dedup) && State() == WorkerState([], None, [], 0, [], false)
    {
      dedup := new Dedup();
      file, sent, dropped, finished, closed := None, [], 0, [], false;
    }

    method Handle(w: Work)
      requires Valid() && !closed
      modifies this, dedup
      ensures Valid() && dedup == old(dedup) && State() == OnWork(old(State()), w)
    {
      hide Encode, PacketBlock, Head;
      match w
      case Frame(a, writable) =>
        match a {
          case Unreadable => dropped := dropped + 1;
          case UnknownLink => dropped := dropped + 1;
          case Arrived(id, c) =>
            var first := dedup.First(id);
            if first {
              file := Written(file, c, writable);
              sent := sent + [c];
            }
        }
      case Start(ok) =>
        if file.None? && ok { file := Some(File(EncodeAll(Head()), false)); }
      case Stop =>
        if file.Some? { file, finished := None, finished + [file.value]; }
      case Shutdown => closed := true;
    }

    method Consume(works: seq<Work>)
      requires Valid()
      modifies this, dedup
      ensures Valid() && State() == OnAll(old(State()), works)
    {
      hide OnWork;
      var i := 0;
      while i < |works| && !closed
        invariant i <= |works| && Valid() && dedup == old(dedup)
        invariant OnAll(State(), works[i..]) == OnAll(old(State()), works)
      {
        Handle(works[i]);
        assert works[i..][1..] == works[i + 1..];
        i := i + 1;
      }
      if closed { ClosedStays(State(), works[i..]); }
    }
  }

  lemma {:induction false} ClosedStays(s: WorkerState, works: seq<Work>)
    requires s.closed
    ensures OnAll(s, works) == s
    decreases |works|
  {
    if works != [] { ClosedStays(s, works[1..]); }
  }

  // A recording.

  /** The frame taken of one piece of work, with its id. */
  function NewPair(order: seq<Id>, w: Work): (ps: seq<(Id, Capture)>)
    ensures |ps| <= 1
  {
    if w.Frame? && w.arrival.Arrived? && w.arrival.id !in order then [(w.arrival.id, w.arrival.capture)] else []
  }

  function NotedBy(order: seq<Id>, w: Work): seq<Id> {
    if NewPair(order, w) == [] then order else Noted(order, w.arrival.id)
  }

  /** The frames taken, each with its id, from a list of ids noted so far. */
  function NewPairs(order: seq<Id>, works: seq<Work>): seq<(Id, Capture)>
    decreases |works|
  {
    if works == [] then [] else NewPair(order, works[0]) + NewPairs(NotedBy(order, works[0]), works[1..])
  }

  function IdsIn(ps: seq<(Id, Capture)>): (ids: seq<Id>)
    ensures |ids| == |ps|
  {
    seq(|ps|, i requires 0 <= i < |ps| => ps[i].0)
  }

  function CapturesIn(ps: seq<(Id, Capture)>): (cs: seq<Capture>)
    ensures |cs| == |ps|
  {
    seq(|ps|, i requires 0 <= i < |ps| => ps[i].1)
  }

  lemma InSum(ps: seq<(Id, Capture)>, qs: seq<(Id, Capture)>)
    ensures IdsIn(ps + qs) == IdsIn(ps) + IdsIn(qs) && CapturesIn(ps + qs) == CapturesIn(ps) + CapturesIn(qs)
  {}

  /** Frames that can be written, and starts that are refused. */
  predicate Quiet(works: seq<Work>) {
    forall w | w in works :: (w.Frame? && w.writable) || w.Start?
  }

  lemma {:induction false} FramesWritten(s: WorkerState, works: seq<Work>)
    requires s.file.Some? && !s.file.value.failed && !s.closed && Quiet(works)
    ensures var r, cs := OnAll(s, works), CapturesIn(NewPairs(s.order, works));
            && r.file == Some(File(s.file.value.bytes + EncodeAll(PacketBlocks(cs)), false))
            && r.sent == s.sent + cs && r.finished == s.finished && !r.closed
    decreases |works|
  {
    hide Encode, PacketBlock, PacketBlocks, Noted, OnWork, EncodeAll, NewPair, NotedBy, CapturesIn;
    if works == [] {
      NoPackets();
      assert s.file.value.bytes + [] == s.file.value.bytes && s.sent + [] == s.sent;
    } else {
      assert works[0] in works && forall w | w in works[1..] :: w in works;
      var next := OnWork(s, works[0]);
      OneWritten(s, works[0]);
      FramesWritten(next, works[1..]);
      var one, others := NewPair(s.order, works[0]), NewPairs(next.order, works[1..]);
      InSum(one, others);
      assert s.sent + CapturesIn(one) + CapturesIn(others) == s.sent + (CapturesIn(one) + CapturesIn(others));
      BlocksSum(CapturesIn(one), CapturesIn(others));
      Joined(s.file.value.bytes, EncodeAll(PacketBlocks(CapturesIn(one))), EncodeAll(PacketBlocks(CapturesIn(others))));
    }
  }

  lemma OneWritten(s: WorkerState, w: Work)
    requires s.file.Some? && !s.file.value.failed && !s.closed && ((w.Frame? && w.writable) || w.Start?)
    ensures var r, one := OnWork(s, w), CapturesIn(NewPair(s.order, w));
            && r.file == Some(File(s.file.value.bytes + EncodeAll(PacketBlocks(one)), false))
            && r.sent == s.sent + one && r.finished == s.finished && !r.closed
            && r.order == NotedBy(s.order, w)
  {
    hide Encode, PacketBlock, Noted;
    if NewPair(s.order, w) == [] {
      assert CapturesIn([]) == [];
      assert s.file.value.bytes + [] == s.file.value.bytes && s.sent + [] == s.sent;
    } else {
      var c := w.arrival.capture;
      assert CapturesIn(NewPair(s.order, w)) == [c] && [c] + [] == [c];
      OnePacket(c, []);
      assert Encode(PacketBlock(c)) + [] == Encode(PacketBlock(c));
    }
  }

  lemma {:induction false} BlocksSum(a: seq<Capture>, b: seq<Capture>)
    requires |a| <= 1
    ensures EncodeAll(PacketBlocks(a + b)) == EncodeAll(PacketBlocks(a)) + EncodeAll(PacketBlocks(b))
  {
    hide Encode, PacketBlock;
    if a == [] {
      assert a + b == b;
    } else {
      assert a + b == [a[0]] + b && [a[0]] + [] == a;
      OnePacket(a[0], b);
      OnePacket(a[0], []);
      assert Encode(PacketBlock(a[0])) + [] == Encode(PacketBlock(a[0]));
    }
  }

  lemma NoPackets()
    ensures EncodeAll(PacketBlocks([])) == [] && CapturesIn([]) == []
  {}

  lemma Joined(a: seq<byte>, b: seq<byte>, c: seq<byte>)
    ensures a + b + c == a + (b + c)
  {}

  lemma OnePacket(c: Capture, others: seq<Capture>)
    ensures EncodeAll(PacketBlocks([c] + others)) == Encode(PacketBlock(c)) + EncodeAll(PacketBlocks(others))
  {
    hide Encode, PacketBlock;
    assert ([c] + others)[1..] == others;
    assert ([PacketBlock(c)] + PacketBlocks(others))[1..] == PacketBlocks(others);
  }

  lemma {:induction false} OnSum(s: WorkerState, a: seq<Work>, b: seq<Work>)
    ensures OnAll(s, a + b) == OnAll(OnAll(s, a), b)
    decreases |a|
  {
    hide OnWork;
    if a == [] {
      assert a + b == b;
    } else {
      assert (a + b)[1..] == a[1..] + b;
      OnSum(OnWork(s, a[0]), a[1..], b);
    }
  }

  /** A file holds the header and exactly the frames queued between its start and its stop, each taken once,
      in order; and the same frames go on to be analysed. */
  lemma FileHoldsTheRecording(s: WorkerState, works: seq<Work>)
    requires s.file.None? && !s.closed && Quiet(works)
    ensures var r, cs := OnAll(s, [Start(true)] + works + [Stop]), CapturesIn(NewPairs(s.order, works));
            && r.finished == s.finished + [File(EncodeAll(FileBlocks(cs)), false)]
            && r.file == None && r.sent == s.sent + cs
  {
    hide Head, PacketBlocks, NewPairs, CapturesIn, Encode, Quiet;
    var recording := s.(file := Some(File(EncodeAll(Head()), false)));
    OnOne(s, Start(true));
    OnSum(s, [Start(true)], works);
    OnSum(s, [Start(true)] + works, [Stop]);
    FramesWritten(recording, works);
    OnOne(OnAll(recording, works), Stop);
    EncodeAllSplits(Head(), PacketBlocks(CapturesIn(NewPairs(s.order, works))));
  }

  lemma OnOne(s: WorkerState, w: Work)
    ensures OnAll(s, [w]) == OnWork(s, w)
  {
    hide OnWork;
    assert [w][1..] == [];
  }

  // Each frame once.

  /** The ids of the captures among the work, in order. */
  function Ids(works: seq<Work>): seq<Id>
    decreases |works|
  {
    if works == [] then []
    else
      match works[0]
      case Frame(Arrived(id, _), _) => [id] + Ids(works[1..])
      case _ => Ids(works[1..])
  }

  /** The work has a frame of that id with that content. */
  ghost predicate Brings(works: seq<Work>, p: (Id, Capture)) {
    exists w | w in works :: w.Frame? && w.arrival == Arrived(p.0, p.1)
  }

  /** What is taken comes from the work. */
  lemma {:induction false} PairsBrought(order: seq<Id>, works: seq<Work>)
    ensures forall p | p in NewPairs(order, works) :: Brings(works, p)
    decreases |works|
  {
    hide Noted;
    if works != [] {
      PairsBrought(NotedBy(order, works[0]), works[1..]);
      assert forall w | w in works[1..] :: w in works;
      assert works[0] in works;
    }
  }

  /** The ids of a file are exactly those taken while it was written. */
  lemma {:induction false} TakenMore(history: seq<Id>, works: seq<Work>)
    ensures Taken(history + Ids(works)) == Taken(history) + IdsIn(NewPairs(LastOf(Taken(history)), works))
    decreases |works|
  {
    hide LastOf, Noted, Taken, NotedBy, NewPair, IdsIn;
    if works == [] {
      assert IdsIn([]) == [];
      assert history + [] == history && Taken(history) + [] == Taken(history);
    } else {
      var now := if works[0].Frame? && works[0].arrival.Arrived? then [works[0].arrival.id] else [];
      TakenMore(history + now, works[1..]);
      TakenStep(history, works[0]);
      assert Ids(works) == now + Ids(works[1..]);
      assert history + (now + Ids(works[1..])) == history + now + Ids(works[1..]);
      var one, others := NewPair(LastOf(Taken(history)), works[0]), NewPairs(LastOf(Taken(history + now)), works[1..]);
      InSum(one, others);
      assert Taken(history) + IdsIn(one) + IdsIn(others) == Taken(history) + (IdsIn(one) + IdsIn(others));
    }
  }

  lemma TakenStep(history: seq<Id>, w: Work)
    ensures var now := if w.Frame? && w.arrival.Arrived? then [w.arrival.id] else [];
            && Taken(history + now) == Taken(history) + IdsIn(NewPair(LastOf(Taken(history)), w))
            && LastOf(Taken(history + now)) == NotedBy(LastOf(Taken(history)), w)
  {
    hide LastOf, Noted, Taken;
    if w.Frame? && w.arrival.Arrived? {
      NotedIsWindow(history, w.arrival.id);
      OneTaken(history, w.arrival.id);
    } else {
      assert history + [] == history;
    }
    assert IdsIn([]) == [] && Taken(history) + [] == Taken(history);
  }

  lemma OneTaken(history: seq<Id>, id: Id)
    ensures Taken(history + [id]) == if id in LastOf(Taken(history)) then Taken(history) else Taken(history) + [id]
    ensures id in LastOf(Taken(history)) ==> Noted(LastOf(Taken(history)), id) == LastOf(Taken(history))
  {
    assert (history + [id])[..|history|] == history;
  }

  /** As long as it runs, the worker's list is the last ids taken of everything that came. */
  lemma {:induction false} OrderIsWindow(s: WorkerState, works: seq<Work>, history: seq<Id>)
    requires !s.closed && s.order == LastOf(Taken(history)) && Shutdown !in works
    ensures var r := OnAll(s, works); !r.closed && r.order == LastOf(Taken(history + Ids(works)))
    decreases |works|
  {
    hide LastOf, Noted, Taken, Encode, PacketBlock, Head, EncodeAll;
    if works == [] {
      assert history + [] == history;
    } else {
      assert works[0] in works;
      if works[0].Frame? && works[0].arrival.Arrived? {
        var id := works[0].arrival.id;
        assert history + ([id] + Ids(works[1..])) == history + [id] + Ids(works[1..]);
        NotedIsWindow(history, id);
        OneTaken(history, id);
        OrderIsWindow(OnWork(s, works[0]), works[1..], history + [id]);
      } else {
        OrderIsWindow(OnWork(s, works[0]), works[1..], history);
      }
    }
  }

  const IDLE := WorkerState([], None, [], 0, [], false)

  /** Whatever came before, the frames of a file are those taken between its start and its stop, each with the
      id and the content of one frame queued meanwhile; and no id comes twice among any 8192 of them in a row,
      nor again within 8192 taken before. */
  lemma FileHoldsEachOnce(before: seq<Work>, works: seq<Work>)
    requires Shutdown !in before && OnAll(IDLE, before).file.None? && Quiet(works)
    ensures var s := OnAll(IDLE, before);
            var ps := NewPairs(s.order, works);
            var taken := Taken(Ids(before)) + IdsIn(ps);
            && OnAll(s, [Start(true)] + works + [Stop]).finished
               == s.finished + [File(EncodeAll(FileBlocks(CapturesIn(ps))), false)]
            && (forall p | p in ps :: Brings(works, p)) && taken == Taken(Ids(before) + Ids(works))
            && forall i, j | 0 <= i < j < |taken| && j - i <= 8192 :: taken[i] != taken[j]
  {
    hide Taken, LastOf, NewPairs, CapturesIn, IdsIn, OnAll, Quiet, FileBlocks, EncodeAll;
    NothingTaken();
    OrderIsWindow(IDLE, before, []);
    assert [] + Ids(before) == Ids(before);
    var s := OnAll(IDLE, before);
    FileHoldsTheRecording(s, works);
    PairsBrought(s.order, works);
    TakenMore(Ids(before), works);
    forall i, j | 0 <= i < j < |Taken(Ids(before) + Ids(works))| && j - i <= 8192
      ensures Taken(Ids(before) + Ids(works))[i] != Taken(Ids(before) + Ids(works))[j]
    {
      NoRepeats(Ids(before) + Ids(works), i, j);
    }
  }

  lemma NothingTaken()
    ensures LastOf(Taken([])) == []
  {}
}
