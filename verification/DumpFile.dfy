/** A finished recording's file: filtered by what the recording knows, or left as it was. */
module DumpFile {
  import opened Annotate
  import opened Bytes
  import opened Filter
  import opened Net
  import opened Pcapng
  import opened Pipeline
  import opened RecordingRun
  import opened Wrappers

  datatype Processed = Processed(file: seq<byte>, unfiltered: bool, stats: Option<Stats>)

  /** With incomplete knowledge a process-only file is left alone, as it is when the pass fails. */
  function Process(plan: Plan, parse: LinkParser, complete: bool, file: seq<byte>): Processed {
    if plan.onlyGroup && !complete then Processed(file, true, None)
    else
      match Apply(plan, parse, file)
      case Success((stats, out)) => Processed(out, false, Some(stats))
      case Failure(_) => Processed(file, plan.onlyGroup, None)
  }

  /** The frames whose tuple one recorded process owned from the first sighting on that was taken in. */
  ghost function Owned(m: Meta, events: seq<Event>, rows: StoreRows, parse: LinkParser, fs: seq<(nat, seq<byte>)>)
    : seq<(nat, seq<byte>)>
  {
    if fs == [] then []
    else
      (if OwnedTraffic(m, events, rows, parse(fs[0].0, fs[0].1)) then [fs[0]] else [])
      + Owned(m, events, rows, parse, fs[1..])
  }

  lemma {:induction false} OwnedIsKept(m: Meta, events: seq<Event>, rows: StoreRows, caption: Captions,
                                       comment: seq<byte>, parse: LinkParser, fs: seq<(nat, seq<byte>)>)
    requires m.conns == map[] && m.onlyGroup
    ensures Kept(PlanOf(After(m, events), rows, caption, comment), parse, fs) == Owned(m, events, rows, parse, fs)
    decreases |fs|
  {
    hide OwnedTraffic, PlanOf, After;
    if fs != [] {
      OwnedIsKept(m, events, rows, caption, comment, parse, fs[1..]);
      KeptIff(m, events, rows, caption, comment, parse, fs[0].0, fs[0].1);
    }
  }

  /** A process-only recording end to end. Its file is left untouched and reported unfiltered, or the
      blocks written carry exactly the frames whose tuple one recorded process owned from the first sighting on
      that was taken in, in order; and it is filtered only when the knowledge is complete. */
  lemma {:induction false} OnlyOwnedRemain(m: Meta, events: seq<Event>, rows: StoreRows, caption: Captions,
                                           comment: seq<byte>, parse: LinkParser, complete: bool, file: seq<byte>)
    returns (bs: seq<InBlock>, out: seq<Block>)
    requires m.conns == map[] && m.onlyGroup
    ensures var r := Process(PlanOf(After(m, events), rows, caption, comment), parse, complete, file);
            && (r.unfiltered ==> r.file == file)
            && (!r.unfiltered ==>
                  && complete && file == EncodeAll(bs) && r.file == EncodeAll(out)
                  && Frames(Views([], out)) == Owned(m, events, rows, parse, Frames(Views([], bs))))
  {
    hide PlanOf, After, FilterAll, ApplyFrom, Views;
    bs, out := [], [];
    var plan := PlanOf(After(m, events), rows, caption, comment);
    OnlyGroup(m, events, rows, caption, comment);
    if complete && Apply(plan, parse, file).Success? {
      bs := ApplyOnlyOnBlocks(plan, parse, START, file);
      ApplyIsFilter(plan, parse, START, bs);
      out := FilterAll(plan, parse, START, bs).value.1;
      FilterMeaning(plan, parse, START, bs);
      FramesOfExpected(plan, parse, Views([], bs));
      OwnedIsKept(m, events, rows, caption, comment, parse, Frames(Views([], bs)));
    }
  }

  lemma OnlyGroup(m: Meta, events: seq<Event>, rows: StoreRows, caption: Captions, comment: seq<byte>)
    requires m.conns == map[] && m.onlyGroup
    ensures PlanOf(After(m, events), rows, caption, comment).onlyGroup
  {
    hide After, PlanOf, Sightings, OwnedFrom;
    RowKeptIff(m, events, rows, caption, comment, ConnKey(Tcp, V4(0), 0, V4(0), 0));
  }
}
