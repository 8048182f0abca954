/** What the answers of a DNS message say, told without following them record by record. */
module DnsAnswers {
  import opened Bytes
  import opened DnsMessage
  import opened DnsName
  import Names
  import opened Net
  import opened Wrappers

  /** The code of a character, capital letters counting as small ones. */
  function Code(c: char): int {
    if 65 <= c as int <= 90 then c as int + 32 else c as int
  }

  predicate Alike(a: string, b: string) {
    |a| == |b| && forall i | 0 <= i < |a| :: Code(a[i]) == Code(b[i])
  }

  lemma SameIsAlike(a: string, b: string)
    ensures Same(a, b) <==> Alike(a, b)
  {
    var x, y := Names.Lowered(a), Names.Lowered(b);
    assert forall i | 0 <= i < |a| :: x[i] as int == Code(a[i]);
    assert forall i | 0 <= i < |b| :: y[i] as int == Code(b[i]);
    if Alike(a, b) {
      assert forall i | 0 <= i < |x| :: x[i] as int == y[i] as int;
      assert x == y;
    }
    if x == y {
      assert forall i | 0 <= i < |a| :: x[i] == y[i];
    }
  }

  /** The name is the one asked for or, up to letter case, the target of one of the aliases before number `i`. */
  ghost predicate Known(asked: string, rs: seq<Rec>, aliases: seq<nat>, i: nat, name: string) {
    || Alike(asked, name)
    || exists j :: && j in aliases && j < i && j < |rs| && rs[j].target.Some?
                   && Alike(rs[j].target.value, name)
  }

  /** The record is an alias of a known name. */
  ghost predicate LeadsOn(asked: string, rs: seq<Rec>, aliases: seq<nat>, i: nat)
    requires i < |rs|
  {
    rs[i].rtype == 5 && rs[i].target.Some? && Known(asked, rs, aliases, i, rs[i].name)
  }

  ghost predicate Increasing(aliases: seq<nat>) {
    forall m, n | 0 <= m < n < |aliases| :: aliases[m] < aliases[n]
  }

  /** The aliases that are followed among the first `end` records: those of known names, the first fifteen. */
  ghost predicate Followed(asked: string, rs: seq<Rec>, aliases: seq<nat>, end: nat)
    requires end <= |rs|
  {
    && Increasing(aliases) && |aliases| <= 15
    && (forall j | j in aliases :: j < end && LeadsOn(asked, rs, aliases, j))
    && (forall i: nat | i < end && LeadsOn(asked, rs, aliases, i) ::
          i in aliases || (|aliases| == 15 && aliases[14] < i))
  }

  /** The least time to live of the aliases before number `i`, and of one more record. */
  function Least(rs: seq<Rec>, aliases: seq<nat>, i: nat, ttl: nat): nat {
    if aliases == [] then ttl
    else
      var rest := Least(rs, aliases[..|aliases| - 1], i, ttl);
      var j := aliases[|aliases| - 1];
      if j < i && j < |rs| && rs[j].ttl < rest then rs[j].ttl else rest
  }

  /** An address record gives its address: under the name asked for when it is of a known name, and then for the
      least time on the way, and otherwise under its own name for its own time. */
  ghost function Given(asked: Option<string>, rs: seq<Rec>, aliases: seq<nat>, i: nat): Address
    requires i < |rs| && IsAddress(rs[i])
  {
    var ip := if rs[i].rtype == 1 then V4(Big(rs[i].rdata)) else V6(Big(rs[i].rdata));
    if asked.Some? && Known(asked.value, rs, aliases, i, rs[i].name)
    then Address(asked.value, ip, Least(rs, aliases, i, rs[i].ttl))
    else Address(rs[i].name, ip, rs[i].ttl)
  }

  ghost function AllGiven(asked: Option<string>, rs: seq<Rec>, aliases: seq<nat>, i: nat): seq<Address>
    requires i <= |rs|
    decreases |rs| - i
  {
    if i == |rs| then []
    else (if IsAddress(rs[i]) then [Given(asked, rs, aliases, i)] else []) + AllGiven(asked, rs, aliases, i + 1)
  }

  function First64(xs: seq<Address>): seq<Address> {
    if |xs| <= 64 then xs else xs[..64]
  }

  // The chain that is kept on the way.

  function Targets(rs: seq<Rec>, aliases: seq<nat>): seq<string> {
    if aliases == [] then []
    else
      var j := aliases[|aliases| - 1];
      Targets(rs, aliases[..|aliases| - 1]) + [if j < |rs| && rs[j].target.Some? then rs[j].target.value else ""]
  }

  /** The chain after the first `i` records. */
  ghost predicate ChainIs(chain: Chain, asked: string, rs: seq<Rec>, aliases: seq<nat>, i: nat)
    requires i <= |rs|
  {
    && Followed(asked, rs, aliases, i)
    && chain.asked == Some(asked) && chain.names == [asked] + Targets(rs, aliases)
    && chain.ttl == Least(rs, aliases, i, 0xFFFF_FFFF)
  }

  lemma {:induction false} TargetsAre(rs: seq<Rec>, aliases: seq<nat>)
    requires forall j | j in aliases :: j < |rs| && rs[j].target.Some?
    ensures |Targets(rs, aliases)| == |aliases|
    ensures forall n | 0 <= n < |aliases| ::
              aliases[n] < |rs| && rs[aliases[n]].target.Some? && Targets(rs, aliases)[n] == rs[aliases[n]].target.value
  {
    if aliases != [] {
      var init := aliases[..|aliases| - 1];
      assert aliases[|aliases| - 1] in aliases && forall j | j in init :: j in aliases;
      TargetsAre(rs, init);
      forall n | 0 <= n < |aliases|
        ensures aliases[n] < |rs| && rs[aliases[n]].target.Some?
        ensures Targets(rs, aliases)[n] == rs[aliases[n]].target.value
      {
        assert n < |init| ==> init[n] == aliases[n];
      }
    }
  }

  /** A name is listed in the chain exactly when it is known. */
  lemma ListedIff(chain: Chain, asked: string, rs: seq<Rec>, aliases: seq<nat>, i: nat, name: string)
    requires i <= |rs| && ChainIs(chain, asked, rs, aliases, i)
    ensures Listed(chain.names, name) <==> Known(asked, rs, aliases, i, name)
  {
    hide Same, Alike, Least, Targets;
    TargetsAre(rs, aliases);
    forall x, y
      ensures Same(x, y) <==> Alike(x, y)
    {
      SameIsAlike(x, y);
    }
    var ts := Targets(rs, aliases);
    if n :| n in chain.names && Same(n, name) {
      if n != asked {
        var m :| 0 <= m < |ts| && ts[m] == n;
        assert aliases[m] in aliases;
      }
    }
    if Same(asked, name) {
      assert asked in chain.names;
    }
    if j :| j in aliases && j < i && rs[j].target.Some? && Same(rs[j].target.value, name) {
      var m :| 0 <= m < |aliases| && aliases[m] == j;
      assert ts[m] in chain.names;
    }
  }

  lemma {:induction false} LeastIsMin(rs: seq<Rec>, aliases: seq<nat>, i: nat, a: nat, b: nat)
    requires a <= b
    ensures Least(rs, aliases, i, a) == Min(a, Least(rs, aliases, i, b))
  {
    if aliases != [] {
      LeastIsMin(rs, aliases[..|aliases| - 1], i, a, b);
    }
  }

  lemma {:induction false} LeastLater(rs: seq<Rec>, aliases: seq<nat>, i: nat, a: nat)
    requires forall j | j in aliases :: j < i
    ensures Least(rs, aliases, i + 1, a) == Least(rs, aliases, i, a)
  {
    if aliases != [] {
      var init := aliases[..|aliases| - 1];
      assert aliases[|aliases| - 1] in aliases && forall j | j in init :: j in aliases;
      LeastLater(rs, init, i, a);
    }
  }

  /** Aliases at or behind `i` make no difference to it. */
  lemma KnownBefore(asked: string, rs: seq<Rec>, aliases: seq<nat>, more: seq<nat>, i: nat, name: string)
    requires forall j | j in more :: j >= i
    ensures Known(asked, rs, aliases + more, i, name) <==> Known(asked, rs, aliases, i, name)
  {
    hide Alike;
    assert forall j | j in aliases :: j in aliases + more;
  }

  lemma {:induction false} LeastBefore(rs: seq<Rec>, aliases: seq<nat>, more: seq<nat>, i: nat, a: nat)
    requires forall j | j in more :: j >= i
    ensures Least(rs, aliases + more, i, a) == Least(rs, aliases, i, a)
    decreases |more|
  {
    if more == [] {
      assert aliases + more == aliases;
    } else {
      var n := |more| - 1;
      assert more[n] in more && forall j | j in more[..n] :: j in more;
      assert (aliases + more)[..|aliases + more| - 1] == aliases + more[..n];
      LeastBefore(rs, aliases, more[..n], i, a);
    }
  }

  lemma GivenBefore(asked: string, rs: seq<Rec>, aliases: seq<nat>, more: seq<nat>, i: nat)
    requires i < |rs| && IsAddress(rs[i]) && forall j | j in more :: j >= i
    ensures Given(Some(asked), rs, aliases + more, i) == Given(Some(asked), rs, aliases, i)
  {
    hide Known, Least, Big;
    KnownBefore(asked, rs, aliases, more, i, rs[i].name);
    LeastBefore(rs, aliases, more, i, rs[i].ttl);
  }

  /** The aliases after record number `i`. */
  ghost function Onward(asked: string, rs: seq<Rec>, aliases: seq<nat>, i: nat): seq<nat>
    requires i < |rs|
  {
    if LeadsOn(asked, rs, aliases, i) && |aliases| < 15 then aliases + [i] else aliases
  }

  lemma OnwardFollowed(asked: string, rs: seq<Rec>, aliases: seq<nat>, i: nat)
    requires i < |rs| && Followed(asked, rs, aliases, i)
    ensures Followed(asked, rs, Onward(asked, rs, aliases, i), i + 1)
  {
    hide Known;
    var next := Onward(asked, rs, aliases, i);
    forall j: nat | j <= i
      ensures LeadsOn(asked, rs, next, j) <==> LeadsOn(asked, rs, aliases, j)
    {
      if next != aliases { KnownLater(asked, rs, aliases, i, j); }
    }
    IncreasingOn(aliases, i);
    FollowedOn(asked, rs, aliases, next, i);
  }

  lemma IncreasingOn(aliases: seq<nat>, i: nat)
    requires Increasing(aliases) && forall j | j in aliases :: j < i
    ensures Increasing(aliases + [i])
  {
    forall m, n | 0 <= m < n < |aliases| + 1
      ensures (aliases + [i])[m] < (aliases + [i])[n]
    {
      assert aliases[m] in aliases;
    }
  }

  lemma FollowedOn(asked: string, rs: seq<Rec>, aliases: seq<nat>, next: seq<nat>, i: nat)
    requires i < |rs| && Followed(asked, rs, aliases, i) && Increasing(next)
    requires next == if LeadsOn(asked, rs, aliases, i) && |aliases| < 15 then aliases + [i] else aliases
    requires forall j: nat | j <= i :: LeadsOn(asked, rs, next, j) <==> LeadsOn(asked, rs, aliases, j)
    ensures Followed(asked, rs, next, i + 1)
  {
    hide LeadsOn, Increasing;
    forall j | j in next
      ensures j < i + 1 && LeadsOn(asked, rs, next, j)
    {
      assert j in aliases || j == i;
    }
    forall j: nat | j < i + 1 && LeadsOn(asked, rs, next, j)
      ensures j in next || (|next| == 15 && next[14] < j)
    {
      if j < i {
        assert j in aliases || (|aliases| == 15 && aliases[14] < j);
      } else if |aliases| == 15 {
        assert aliases[14] in aliases;
      }
    }
  }

  lemma KnownLater(asked: string, rs: seq<Rec>, aliases: seq<nat>, i: nat, j: nat)
    requires j <= i < |rs|
    ensures LeadsOn(asked, rs, aliases + [i], j) <==> LeadsOn(asked, rs, aliases, j)
  {
    hide Known;
    KnownBefore(asked, rs, aliases, [i], j, rs[j].name);
  }

  /** One record does to the chain and the addresses what is told of it. */
  lemma RecordStep(found: seq<Address>, chain: Chain, asked: string, rs: seq<Rec>, aliases: seq<nat>, i: nat)
    requires i < |rs| && ChainIs(chain, asked, rs, aliases, i) && rs[i].ttl <= 0xFFFF_FFFF
    ensures var (more, next) := OnRecord(found, chain, rs[i]);
            && ChainIs(next, asked, rs, Onward(asked, rs, aliases, i), i + 1)
            && more == found + if IsAddress(rs[i]) then [Given(Some(asked), rs, aliases, i)] else []
  {
    hide Known, Listed, Same, Big, Followed, Least, Targets;
    ListedIff(chain, asked, rs, aliases, i, rs[i].name);
    OnwardFollowed(asked, rs, aliases, i);
    LeastIsMin(rs, aliases, i, rs[i].ttl, 0xFFFF_FFFF);
    NoneLater(asked, rs, aliases, i);
    LeastLater(rs, aliases, i, 0xFFFF_FFFF);
    AddedTarget(rs, aliases, i);
  }

  lemma NoneLater(asked: string, rs: seq<Rec>, aliases: seq<nat>, i: nat)
    requires i <= |rs| && Followed(asked, rs, aliases, i)
    ensures forall j | j in aliases :: j < i && j < |rs| && rs[j].target.Some?
    ensures |Targets(rs, aliases)| == |aliases| <= 15
  {
    hide Known, Targets;
    TargetsAre(rs, aliases);
  }

  lemma AddedTarget(rs: seq<Rec>, aliases: seq<nat>, i: nat)
    requires i < |rs|
    ensures rs[i].target.Some? ==> Targets(rs, aliases + [i]) == Targets(rs, aliases) + [rs[i].target.value]
    ensures Least(rs, aliases + [i], i + 1, 0xFFFF_FFFF) == Min(rs[i].ttl, Least(rs, aliases, i + 1, 0xFFFF_FFFF))
  {
    assert (aliases + [i])[..|aliases|] == aliases;
  }

  lemma {:induction false} FollowRest(asked: string, rs: seq<Rec>, aliases: seq<nat>, i: nat) returns (more: seq<nat>)
    requires i <= |rs| && Followed(asked, rs, aliases, i)
    ensures Followed(asked, rs, aliases + more, |rs|) && forall j | j in more :: j >= i
    decreases |rs| - i
  {
    hide Followed, LeadsOn;
    if i == |rs| {
      more := [];
      assert aliases + [] == aliases;
    } else {
      OnwardFollowed(asked, rs, aliases, i);
      var next := Onward(asked, rs, aliases, i);
      more := FollowRest(asked, rs, next, i + 1);
      if next != aliases {
        assert aliases + ([i] + more) == next + more;
        more := [i] + more;
      }
    }
  }

  lemma NoMoreGiven(found: seq<Address>, chain: Chain, asked: Option<string>, rs: seq<Rec>, aliases: seq<nat>, i: nat)
    requires i <= |rs| && |found| <= 64 && (i == |rs| || |found| == 64)
    ensures Collected(found, chain, rs[i..]) == First64(found + AllGiven(asked, rs, aliases, i))
  {
    hide Given, OnRecord;
    assert found + [] == found;
    assert (found + AllGiven(asked, rs, aliases, i))[..|found|] == found;
  }

  lemma CollectedNext(found: seq<Address>, chain: Chain, rs: seq<Rec>, i: nat)
    requires i < |rs| && |found| < 64
    ensures var (more, next) := OnRecord(found, chain, rs[i]);
            Collected(found, chain, rs[i..]) == Collected(more, next, rs[i + 1..])
  {
    hide OnRecord;
    assert rs[i..][0] == rs[i] && rs[i..][1..] == rs[i + 1..];
  }

  lemma AllGivenNext(asked: string, rs: seq<Rec>, aliases: seq<nat>, more: seq<nat>, i: nat)
    requires i < |rs| && forall j | j in more :: j >= i
    ensures AllGiven(Some(asked), rs, aliases + more, i)
            == (if IsAddress(rs[i]) then [Given(Some(asked), rs, aliases, i)] else [])
               + AllGiven(Some(asked), rs, aliases + more, i + 1)
  {
    hide Given, IsAddress;
    if IsAddress(rs[i]) { GivenBefore(asked, rs, aliases, more, i); }
  }

  lemma FollowedSoFar(chain: Chain, asked: string, rs: seq<Rec>, aliases: seq<nat>, i: nat)
    requires i <= |rs| && ChainIs(chain, asked, rs, aliases, i)
    ensures Followed(asked, rs, aliases, i)
  {
    hide Followed;
  }

  lemma {:induction false} GatherRest(asked: string, rs: seq<Rec>, aliases: seq<nat>, chain: Chain, found: seq<Address>,
                                      i: nat) returns (more: seq<nat>)
    requires i <= |rs| && ChainIs(chain, asked, rs, aliases, i) && |found| <= 64
    requires forall r | r in rs :: r.ttl <= 0xFFFF_FFFF
    ensures Followed(asked, rs, aliases + more, |rs|) && forall j | j in more :: j >= i
    ensures Collected(found, chain, rs[i..]) == First64(found + AllGiven(Some(asked), rs, aliases + more, i))
    decreases |rs| - i
  {
    hide Followed, LeadsOn, OnRecord, Given, Least, Targets, IsAddress, Collected, AllGiven, ChainIs;
    if i == |rs| || |found| == 64 {
      FollowedSoFar(chain, asked, rs, aliases, i);
      more := FollowRest(asked, rs, aliases, i);
      NoMoreGiven(found, chain, Some(asked), rs, aliases + more, i);
    } else {
      RecordStep(found, chain, asked, rs, aliases, i);
      var (grown, after) := OnRecord(found, chain, rs[i]);
      var next := Onward(asked, rs, aliases, i);
      var rest := GatherRest(asked, rs, next, after, grown, i + 1);
      more := if next != aliases then [i] + rest else rest;
      assert aliases + more == next + rest;
      CollectedNext(found, chain, rs, i);
      AllGivenNext(asked, rs, aliases, more, i);
      var one := if IsAddress(rs[i]) then [Given(Some(asked), rs, aliases, i)] else [];
      var others := AllGiven(Some(asked), rs, aliases + more, i + 1);
      assert found + one + others == found + (one + others);
    }
  }

  lemma {:induction false} NobodyAsked(rs: seq<Rec>, found: seq<Address>, i: nat)
    requires i <= |rs| && |found| <= 64
    ensures Collected(found, StartOf(None), rs[i..]) == First64(found + AllGiven(None, rs, [], i))
    decreases |rs| - i
  {
    hide Big;
    if i == |rs| || |found| == 64 {
      assert found + [] == found;
      assert (found + AllGiven(None, rs, [], i))[..|found|] == found;
    } else {
      var (grown, after) := OnRecord(found, StartOf(None), rs[i]);
      assert !Listed([], rs[i].name) && after == StartOf(None);
      NobodyAsked(rs, grown, i + 1);
      assert rs[i..][0] == rs[i] && rs[i..][1..] == rs[i + 1..];
      var others := AllGiven(None, rs, [], i + 1);
      if IsAddress(rs[i]) {
        assert found + [Given(None, rs, [], i)] + others == found + ([Given(None, rs, [], i)] + others);
      } else {
        assert found + [] + others == found + ([] + others);
      }
    }
  }

  /** The addresses of a list of answers are those of its address records, in order, at most 64: under the name
      asked for where the aliases that are followed lead from it, and under the record's own name elsewhere. */
  lemma AnswersAre(asked: Option<string>, rs: seq<Rec>) returns (aliases: seq<nat>)
    requires forall r | r in rs :: r.ttl <= 0xFFFF_FFFF
    ensures asked.Some? ==> Followed(asked.value, rs, aliases, |rs|)
    ensures Collected([], StartOf(asked), rs) == First64(AllGiven(asked, rs, aliases, 0))
  {
    hide Followed, Collected, AllGiven;
    assert rs[0..] == rs;
    if asked.None? {
      aliases := [];
      NobodyAsked(rs, [], 0);
      assert [] + AllGiven(None, rs, [], 0) == AllGiven(None, rs, [], 0);
    } else {
      NothingFollowed(asked.value, rs);
      aliases := GatherRest(asked.value, rs, [], StartOf(asked), [], 0);
      assert [] + aliases == aliases;
      assert [] + AllGiven(asked, rs, aliases, 0) == AllGiven(asked, rs, aliases, 0);
    }
  }

  lemma NothingFollowed(asked: string, rs: seq<Rec>)
    ensures ChainIs(StartOf(Some(asked)), asked, rs, [], 0)
  {
    assert [asked] + [] == [asked];
  }

  /** A response, complete and without error, gives the addresses of its answers; names and times are those laid out. */
  lemma ResponseGives(d: seq<byte>, h: Header, names: seq<Labels>, rs: seq<Record>, answers: nat, text: Lossy)
    returns (aliases: seq<nat>)
    requires Holds(d, 0, EncodeHeader(h)) && Answers(h) && h.questions == |names| && h.answers == |rs|
    requires Asked(d, 12, names, answers) && LaidOut(d, answers, rs)
    ensures var asked := if names == [] then None else Some(Joined(text, names[0]));
            && (asked.Some? ==> Followed(asked.value, MeanAll(rs, text), aliases, |MeanAll(rs, text)|))
            && Addresses(d, text) == First64(AllGiven(asked, MeanAll(rs, text), aliases, 0))
  {
    hide Followed, Collected, AllGiven, Asked, LaidOut, Addresses, EncodeHeader, Holds, StartOf, MeanAll;
    AddressesOfResponse(d, h, names, rs, answers, text);
    TimesFit(rs, text);
    aliases := AnswersAre(if names == [] then None else Some(Joined(text, names[0])), MeanAll(rs, text));
  }

  lemma {:induction false} TimesFit(rs: seq<Record>, text: Lossy)
    ensures forall r | r in MeanAll(rs, text) :: r.ttl <= 0xFFFF_FFFF
  {
    hide Joined;
    if rs != [] {
      TimesFit(rs[1..], text);
    }
  }
}
