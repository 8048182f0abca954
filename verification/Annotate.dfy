/**
 The pass over a finished recording: every packet gets the label of its connection as a comment, and
 a process-only recording keeps the packets of the owned connections alone.
 */
module Annotate {
  import opened Bytes
  import opened Net
  import opened Pcapng
  import opened Wrappers

  /** The tuple a frame parses to. */
  datatype Endpoints = Endpoints(proto: Proto, src: IpAddr, sport: nat, dst: IpAddr, dport: nat)

  /** Link-layer parsing of a frame: link type and bytes to the tuple, if there is one. */
  type LinkParser = (nat, seq<byte>) -> Option<Endpoints>

  datatype Owner = Owner(caption: Option<seq<byte>>, keep: bool)

  datatype Plan = Plan(owners: map<ConnKey, Owner>, onlyGroup: bool, comment: seq<byte>)
  {
    /** The row of the tuple: as sent first, then as received. */
    function Lookup(p: Endpoints): Option<Owner> {
      var fwd := ConnKey(p.proto, p.src, p.sport, p.dst, p.dport);
      var back := ConnKey(p.proto, p.dst, p.dport, p.src, p.sport);
      if fwd in owners then Some(owners[fwd])
      else if back in owners then Some(owners[back])
      else None
    }

    /** Whether the frame stays, and its label. */
    function Judge(parse: LinkParser, linktype: nat, frame: seq<byte>): (bool, Option<seq<byte>>) {
      match parse(linktype, frame)
      case None => (!onlyGroup, None)
      case Some(p) =>
        match Lookup(p)
        case None => (!onlyGroup, None)
        case Some(o) => (!onlyGroup || o.keep, o.caption)
    }
  }

  // Options.

  const MAX_TEXT := 0xffff - 3

  function Padding(n: nat): (p: nat)
    ensures p < 4 && (n + p) % 4 == 0 && (4 + n + p) % 4 == 0
  {
    (4 - n % 4) % 4
  }

  function CutText(text: seq<byte>): (t: seq<byte>)
    ensures |t| <= MAX_TEXT
  {
    if |text| <= MAX_TEXT then text else text[..MAX_TEXT]
  }

  function CommentOption(text: seq<byte>): (o: seq<byte>)
    ensures |o| == 4 + |CutText(text)| + Padding(|CutText(text)|)
    ensures |o| % 4 == 0 && |o| <= 0x1_0000
  {
    var t := CutText(text);
    ToLe16(1) + ToLe16(|t|) + t + Zeros(Padding(|t|))
  }

  /** A block body with the comment in front of its options; a list of options is opened if there was none. */
  function WithComment(body: seq<byte>, fixed: nat, text: seq<byte>): (b: seq<byte>)
    requires fixed <= |body|
    ensures |b| == fixed + |CommentOption(text)| + if |body| > fixed then |body| - fixed else 4
    ensures b[..fixed] == body[..fixed]
  {
    body[..fixed] + CommentOption(text) + if |body| > fixed then body[fixed..] else Zeros(4)
  }

  /** The option list as a reader sees it: codes and values up to the end mark. */
  function Options(s: seq<byte>): seq<(nat, seq<byte>)> {
    if |s| < 4 then []
    else
      var code, len := Le16(s[0], s[1]), Le16(s[2], s[3]);
      if code == 0 || 4 + len + Padding(len) > |s| then []
      else [(code, s[4..4 + len])] + Options(s[4 + len + Padding(len)..])
  }

  lemma OptionsOfComment(text: seq<byte>, rest: seq<byte>)
    ensures Options(CommentOption(text) + rest) == [(1, CutText(text))] + Options(rest)
  {
    hide CutText;
    var t := CutText(text);
    var s := CommentOption(text) + rest;
    assert s[0] == ToLe16(1)[0] && s[1] == ToLe16(1)[1];
    assert s[2] == ToLe16(|t|)[0] && s[3] == ToLe16(|t|)[1];
    assert s[4..4 + |t|] == t;
    assert s[4 + |t| + Padding(|t|)..] == rest;
  }

  /** Adding the comment changes nothing of the options that were there. */
  lemma OptionsWithComment(body: seq<byte>, fixed: nat, text: seq<byte>)
    requires fixed <= |body|
    ensures Options(WithComment(body, fixed, text)[fixed..]) == [(1, CutText(text))] + Options(body[fixed..])
  {
    hide CommentOption, CutText;
    var rest := if |body| > fixed then body[fixed..] else Zeros(4);
    assert WithComment(body, fixed, text)[fixed..] == CommentOption(text) + rest;
    OptionsOfComment(text, rest);
    EmptyOptions();
    assert |body| == fixed ==> body[fixed..] == [];
  }

  lemma EmptyOptions()
    ensures Options(Zeros(4)) == []
  {}
}
