/** A process-only recording from its start to its file: the protocol, the accounting of packets and the
    filtering joined. */
module FinishedRecording {
  import opened Annotate
  import opened Bytes
  import Drain
  import opened DumpFile
  import opened Filter
  import opened Layout
  import opened Net
  import opened Pcapng
  import opened Pipeline
  import opened Recording
  import RH = RecordedHistory
  import opened RecordingProtocol
  import opened RecordingRun
  import opened Rewriting
  import opened Wrappers

  /** The books of the capture as the finish found them: the loss counter read when the recording was asked
      for, the outcome of the wait, and the loss counter read afterwards. */
  ghost predicate Accounts(capture: seq<Drain.Op>, asked: nat, droppedAtStart: nat, accounted: bool, dropped: nat) {
    && Drain.OneSender(capture) && asked <= |capture|
    && droppedAtStart == Drain.Run(capture[..asked]).dropped
    && accounted == Drain.Run(capture).finisher.Drained?
    && dropped == Drain.Run(capture).dropped
  }

  /** When nothing more was dropped, every packet counted before the target of the wait was applied, unless it
      was counted as lost before the recording was asked for. */
  lemma NothingLost(capture: seq<Drain.Op>, asked: nat, id: nat)
    requires Drain.OneSender(capture) && asked <= |capture|
    requires Drain.Run(capture).finisher.Drained? && id in Drain.Run(capture).finisher.want
    requires Drain.Run(capture).dropped <= Drain.Run(capture[..asked]).dropped
    ensures id in Drain.Run(capture).applied || id in Drain.Run(capture[..asked]).lost
  {
    hide Drain.Run, Drain.OneSender;
    Drain.DrainedMeansSettled(capture, id);
    Drain.LossesGrow(capture, asked);
    var s, t := Drain.Run(capture[..asked]), Drain.Run(capture);
    assert |s.lost| == |t.lost| && s.lost == t.lost;
  }

  /** The recording that the task finishes in its last step. */
  function FinishedBy(ops: seq<Op>, id: nat, accounted: bool, dropped: nat, stopped: bool): Finished
    requires id in Run(ops).tasks && Run(ops).tasks[id].FinishTask?
  {
    var done := Step(Run(ops), FinishEnds(id, accounted, dropped, stopped)).finished;
    done[|done| - 1]
  }

  /** What a finish knows at its end: the path of the recording started last, everything seen since that start, and
      that it is complete exactly when the wait succeeded, the capture stopped in order, the loss counter is what it
      was when the recording was asked for, and no limit was hit. */
  lemma CompleteIff(ops: seq<Op>, id: nat, stopped: bool, capture: seq<Drain.Op>, asked: nat, accounted: bool,
                    dropped: nat)
    requires id in Run(ops).tasks && Run(ops).tasks[id].FinishTask?
    requires LastStart(ops).Some? ==> Accounts(capture, asked, LastStart(ops).value.request.dropped, accounted, dropped)
    ensures LastStart(ops).Some?
    ensures var done := FinishedBy(ops, id, accounted, dropped, stopped);
            var start := MetaOf(LastStart(ops).value.request, LastStart(ops).value.at);
            && done.path == Some(LastStart(ops).value.request.path)
            && done.meta == Some(After(start, SeenSince(ops)))
            && (done.complete
                <==> Drain.Run(capture).finisher.Drained? && stopped && !done.meta.value.limitReached
                     && Drain.Run(capture).dropped == Drain.Run(capture[..asked]).dropped)
  {
    hide Run, LastStart, SeenSince, After, Drain.Run, Drain.OneSender;
    MetadataIsHistory(ops, id);
    Drain.LossesGrow(capture, asked);
  }

  /** From start to file, in every interleaving of tasks and of the capture: the finish leaves the file of the
      recording started last as it was and reports it unfiltered, or the file holds, in order, exactly the frames
      whose tuple one recorded process owned from the first sighting since that start on that was taken in. The
      latter happens exactly when the wait for accepted packets succeeded, the capture stopped in order, the loss
      counter is what it was when the recording was asked for, no limit was hit, and the file is one that a pass goes
      through; and then every packet counted by the time the wait began was applied, or lost before the start. */
  lemma {:induction false} FilteredIff(ops: seq<Op>, id: nat, stopped: bool, capture: seq<Drain.Op>, asked: nat,
                                       accounted: bool, dropped: nat, rows: StoreRows, caption: Captions,
                                       comment: seq<byte>, parse: LinkParser, file: seq<byte>)
    returns (bs: seq<InBlock>, out: seq<Block>)
    requires id in Run(ops).tasks && Run(ops).tasks[id].FinishTask?
    requires LastStart(ops).Some? ==> LastStart(ops).value.request.filtered
    requires LastStart(ops).Some? ==> Accounts(capture, asked, LastStart(ops).value.request.dropped, accounted, dropped)
    ensures LastStart(ops).Some? && FinishedBy(ops, id, accounted, dropped, stopped).meta.Some?
    ensures var done := FinishedBy(ops, id, accounted, dropped, stopped);
            var start := MetaOf(LastStart(ops).value.request, LastStart(ops).value.at);
            var r := Process(PlanOf(done.meta.value, rows, caption, comment), parse, done.complete, file);
            && (r.unfiltered ==> r.file == file)
            && (!r.unfiltered
                <==> Drain.Run(capture).finisher.Drained? && stopped && !After(start, SeenSince(ops)).limitReached
                     && Drain.Run(capture).dropped == Drain.Run(capture[..asked]).dropped
                     && exists bs: seq<InBlock> :: file == EncodeAll(bs) && Annotatable(bs))
            && (!r.unfiltered ==>
                  && file == EncodeAll(bs) && r.file == EncodeAll(out)
                  && Frames(Views([], out)) == Owned(start, SeenSince(ops), rows, parse, Frames(Views([], bs)))
                  && forall p | p in Drain.Run(capture).finisher.want ::
                       p in Drain.Run(capture).applied || p in Drain.Run(capture[..asked]).lost)
  {
    hide Run, Step, LastStart, SeenSince, After, PlanOf, Drain.Run, Drain.OneSender, EncodeAll, Views, Frames, Owned,
      Annotatable, FinishedBy, Apply;
    CompleteIff(ops, id, stopped, capture, asked, accounted, dropped);
    var done := FinishedBy(ops, id, accounted, dropped, stopped);
    var start := MetaOf(LastStart(ops).value.request, LastStart(ops).value.at);
    bs, out := OnlyOwnedRemain(start, SeenSince(ops), rows, caption, comment, parse, done.complete, file);
    OnlyGroup(start, SeenSince(ops), rows, caption, comment);
    ApplySucceedsIff(PlanOf(done.meta.value, rows, caption, comment), parse, file);
    if done.complete {
      forall p | p in Drain.Run(capture).finisher.want
        ensures p in Drain.Run(capture).applied || p in Drain.Run(capture[..asked]).lost
      {
        NothingLost(capture, asked, p);
      }
    }
  }

  /** The bytes of a finished recording, of one process or of all traffic, in every interleaving: every section has
      the comment, every packet stays or goes and has its label by what was seen of its tuple since the start, and all
      else is as it was written. Only a process-only recording can be left as it was, and it is exactly when the wait
      failed, the capture did not stop in order, something was lost since the recording was asked for, or a limit was
      hit. */
  lemma {:induction false} FinishedFile(ops: seq<Op>, id: nat, stopped: bool, capture: seq<Drain.Op>, asked: nat,
                                        accounted: bool, dropped: nat, rows: StoreRows, caption: Captions,
                                        comment: seq<byte>, parse: LinkParser, ps: seq<InPiece>)
    requires id in Run(ops).tasks && Run(ops).tasks[id].FinishTask?
    requires LastStart(ops).Some? ==> Accounts(capture, asked, LastStart(ops).value.request.dropped, accounted, dropped)
    requires ps != [] && ps[0].SectionPiece?
    ensures LastStart(ops).Some? && FinishedBy(ops, id, accounted, dropped, stopped).meta.Some?
    ensures var done := FinishedBy(ops, id, accounted, dropped, stopped);
            var start := MetaOf(LastStart(ops).value.request, LastStart(ops).value.at);
            var n := Known(start, SeenSince(ops), rows, caption);
            var out := Rewritten(n, comment, parse, [], ps);
            Process(PlanOf(done.meta.value, rows, caption, comment), parse, done.complete, FileBytes(ps))
            == if LastStart(ops).value.request.filtered
                  && !(Drain.Run(capture).finisher.Drained? && stopped && !After(start, SeenSince(ops)).limitReached
                       && Drain.Run(capture).dropped == Drain.Run(capture[..asked]).dropped)
               then Processed(FileBytes(ps), true, None)
               else Processed(FileBytes(out), false, Some(Stats(Packets(ps), Packets(out), Labelled(n, parse, [], ps))))
  {
    hide Run, Step, LastStart, SeenSince, After, PlanOf, Drain.Run, Drain.OneSender, FileBytes, Rewritten, Labelled,
      Packets, FinishedBy, Process;
    CompleteIff(ops, id, stopped, capture, asked, accounted, dropped);
    var done := FinishedBy(ops, id, accounted, dropped, stopped);
    var start := MetaOf(LastStart(ops).value.request, LastStart(ops).value.at);
    FileRewritten(Known(start, SeenSince(ops), rows, caption), comment, parse, done.complete, ps);
  }

  /** What the recording saw was the history: the packets of a row that lived on since before its first sighting
      and was seen to the end are kept exactly when a recorded process owns the row in the end and, for UDP, the
      start time stayed from the sighting on that was taken in first. */
  lemma {:induction false} LivingRowInFile(ops: seq<Op>, id: nat, now: nat, deeds: seq<RH.Deed>, from: nat, a: nat,
                                           caption: Captions, comment: seq<byte>, k: ConnKey) returns (n: nat)
    requires id in Run(ops).tasks && Run(ops).tasks[id].FinishTask?
    requires LastStart(ops).Some? && LastStart(ops).value.request.filtered
    requires SeenSince(ops) == RH.Events(now, deeds, from)
    requires from <= a && RH.LivesFrom(now, deeds, a, k)
    requires var start := MetaOf(LastStart(ops).value.request, LastStart(ops).value.at);
             && SightingsIn(start, RH.Events(now, deeds[..a], from), k) == []
             && Recent(start, RH.RowsAt(RH.StoreAfter(now, deeds)), k)
    ensures Run(ops).tasks[id].meta.Some?
    ensures var meta, rows := Run(ops).tasks[id].meta.value, RH.RowsAt(RH.StoreAfter(now, deeds));
            var start := MetaOf(LastStart(ops).value.request, LastStart(ops).value.at);
            var plan, ss := PlanOf(meta, rows, caption, comment), Sightings(start, SeenSince(ops), rows, k);
            && BeginsAt(ss, n) && k in plan.owners
            && (plan.owners[k].keep
                <==> Owns(meta.instances, rows[k]) && (k.proto == Udp ==> RH.StartStays(RowsOf(ss[n..]))))
  {
    hide Run, LastStart, SeenSince, After, PlanOf, Sightings, SightingsIn, RH.StoreAfter, RH.Events, RH.LivesFrom, Owns;
    MetadataIsHistory(ops, id);
    var start := MetaOf(LastStart(ops).value.request, LastStart(ops).value.at);
    n := RH.LivingRowKeptIff(now, deeds, from, a, start, caption, comment, k);
  }
}
