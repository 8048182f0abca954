/**
 The names an address was seen to have in DNS answers: at most eight live ones, and a mark that more were
 live. The reference it is held to is the unbounded log of the latest expiry of every name.
 */
module Names {
  import opened Wrappers

  const MAX_LIVE := 8
  const MAX_NAME := 253
  const MAX_TTL := 86_400
  const LAST_MS := 0xFFFF_FFFF_FFFF_FFFF

  datatype DnsName = DnsName(name: string, expires: nat)

  datatype DnsEntry = DnsEntry(names: seq<DnsName>, overflowUntil: nat)

  const NO_NAMES := DnsEntry([], 0)

  function Retained(names: seq<DnsName>, keep: DnsName -> bool): (r: seq<DnsName>)
    ensures |r| <= |names|
    ensures forall n | n in r :: n in names && keep(n)
    ensures forall n | n in names && keep(n) :: n in r
  {
    if names == [] then []
    else (if keep(names[0]) then [names[0]] else []) + Retained(names[1..], keep)
  }

  function Live(names: seq<DnsName>, now: nat): seq<DnsName> {
    Retained(names, (n: DnsName) => n.expires > now)
  }

  /** The one name of the address, when it is certain. */
  function Unique(e: DnsEntry, now: nat): Option<string> {
    if e.overflowUntil > now then None
    else
      var live := Live(e.names, now);
      if |live| == 1 then Some(live[0].name) else None
  }

  predicate Acceptable(name: string) {
    name != "" && |name| <= MAX_NAME
  }

  function Lower(c: char): char {
    if 'A' <= c <= 'Z' then c + ' ' else c
  }

  function Lowered(name: string): (r: string)
    ensures |r| == |name|
  {
    seq(|name|, i requires 0 <= i < |name| => Lower(name[i]))
  }

  function Max(a: nat, b: nat): nat {
    if a < b then b else a
  }

  /** Times saturate at the last millisecond of 64 bits. */
  function Expiry(ttl: nat, now: nat): nat {
    var t := now + (if ttl < MAX_TTL then ttl else MAX_TTL) * 1000;
    if t > LAST_MS then LAST_MS else t
  }

  function Others(names: seq<DnsName>, name: string, now: nat): seq<DnsName> {
    Retained(names, (n: DnsName) => n.expires > now && n.name != name)
  }

  function Remembered(e: DnsEntry, name: string, ttl: nat, now: nat): DnsEntry {
    var others := Others(e.names, name, now);
    if ttl == 0 then DnsEntry(others, e.overflowUntil)
    else if |others| < MAX_LIVE then DnsEntry(others + [DnsName(name, Expiry(ttl, now))], e.overflowUntil)
    else DnsEntry(others, Max(e.overflowUntil, Expiry(ttl, now)))
  }

  // Saved and read back.

  function Readable(names: seq<DnsName>, now: nat): seq<DnsName> {
    Retained(names, (n: DnsName) => n.expires > now && Acceptable(n.name))
  }

  function LastExpiry(names: seq<DnsName>): (r: nat)
    ensures forall n | n in names :: n.expires <= r
  {
    if names == [] then 0 else Max(names[0].expires, LastExpiry(names[1..]))
  }

  function Restored(e: DnsEntry, now: nat): Option<DnsEntry> {
    var names := Readable(e.names, now);
    var r := if |names| > MAX_LIVE
             then DnsEntry(names[..MAX_LIVE], Max(e.overflowUntil, LastExpiry(names[MAX_LIVE..])))
             else DnsEntry(names, e.overflowUntil);
    if r.names == [] && r.overflowUntil <= now then None else Some(r)
  }

  // The reference.

  /** The latest expiry of every name ever remembered. */
  type Log = map<string, nat>

  /** A name lasts as long as was told, a day at most; times end with the 64-bit milliseconds. */
  function LastsUntil(ttl: nat, now: nat): nat {
    var until := if ttl >= 86_400 then now + 86_400_000 else now + 1000 * ttl;
    if until >= 18_446_744_073_709_551_615 then 18_446_744_073_709_551_615 else until
  }

  function Logged(log: Log, name: string, ttl: nat, now: nat): Log {
    if ttl == 0 then log - {name} else log[name := LastsUntil(ttl, now)]
  }

  lemma ExpiryIs(ttl: nat, now: nat)
    ensures Expiry(ttl, now) == LastsUntil(ttl, now)
  {}

  ghost predicate Sole(log: Log, now: nat, name: string) {
    && name in log && log[name] > now
    && forall other | other in log && log[other] > now :: other == name
  }

  function LiveIn(log: Log, now: nat): set<string> {
    set name | name in log && log[name] > now
  }

  ghost predicate Distinct(names: seq<DnsName>) {
    forall i, j | 0 <= i < j < |names| :: names[i].name != names[j].name
  }

  /** The entry is a summary of the log: what it holds is the truth, and what it lacks is dead by `now`
      or covered by the mark. */
  ghost predicate Summary(e: DnsEntry, log: Log, now: nat) {
    && |e.names| <= 8 && Distinct(e.names)
    && (forall n | n in e.names :: n.name in log && log[n.name] == n.expires && 1 <= |n.name| <= 253)
    && (forall name | name in log && log[name] > now && log[name] > e.overflowUntil :: DnsName(name, log[name]) in e.names)
  }

  lemma {:induction false} RetainedDistinct(names: seq<DnsName>, keep: DnsName -> bool)
    requires Distinct(names)
    ensures Distinct(Retained(names, keep))
  {
    if names != [] {
      RetainedDistinct(names[1..], keep);
      assert forall n | n in names[1..] :: n.name != names[0].name;
    }
  }

  lemma OthersAre(names: seq<DnsName>, name: string, now: nat)
    ensures Distinct(names) ==> Distinct(Others(names, name, now))
    ensures |Others(names, name, now)| <= |names|
    ensures forall n :: n in Others(names, name, now) <==> n in names && n.expires > now && n.name != name
  {
    var keep := (n: DnsName) => n.expires > now && n.name != name;
    assert Others(names, name, now) == Retained(names, keep);
    if Distinct(names) { RetainedDistinct(names, keep); }
  }

  lemma LiveAre(names: seq<DnsName>, now: nat)
    ensures Distinct(names) ==> Distinct(Live(names, now))
    ensures forall n :: n in Live(names, now) <==> n in names && n.expires > now
  {
    var keep := (n: DnsName) => n.expires > now;
    assert Live(names, now) == Retained(names, keep);
    if Distinct(names) { RetainedDistinct(names, keep); }
  }

  lemma ReadableAre(names: seq<DnsName>, now: nat)
    ensures Distinct(names) ==> Distinct(Readable(names, now))
    ensures |Readable(names, now)| <= |names|
    ensures forall n :: n in Readable(names, now) <==> n in names && n.expires > now && Acceptable(n.name)
  {
    var keep := (n: DnsName) => n.expires > now && Acceptable(n.name);
    assert Readable(names, now) == Retained(names, keep);
    if Distinct(names) { RetainedDistinct(names, keep); }
  }

  lemma RememberedSummary(e: DnsEntry, log: Log, before: nat, name: string, ttl: nat, now: nat)
    requires Summary(e, log, before) && before <= now && Acceptable(name)
    ensures Summary(Remembered(e, name, ttl, now), Logged(log, name, ttl, now), now)
  {
    hide Others, Expiry, LastsUntil;
    ExpiryIs(ttl, now);
    OthersAre(e.names, name, now);
    var r, next := Remembered(e, name, ttl, now), Logged(log, name, ttl, now);
    forall other | other in next && next[other] > now && next[other] > r.overflowUntil
      ensures DnsName(other, next[other]) in r.names
    {
      if other != name {
        assert DnsName(other, log[other]) in e.names;
      } else {
        assert r.names[|r.names| - 1] == DnsName(name, next[name]);
      }
    }
  }

  lemma RestoredSummary(e: DnsEntry, log: Log, before: nat, now: nat)
    requires Summary(e, log, before) && before <= now
    ensures Restored(e, now).Some? ==> Summary(Restored(e, now).value, log, now)
    ensures Restored(e, now).None? ==> Summary(NO_NAMES, log, now)
  {
    hide Readable;
    ReadableAre(e.names, now);
  }

  /** A name is given exactly when it is the only one in the whole log that is live, and no mark is. */
  lemma UniqueIff(e: DnsEntry, log: Log, before: nat, now: nat, name: string)
    requires Summary(e, log, before) && before <= now
    ensures Unique(e, now) == Some(name) <==> e.overflowUntil <= now && Sole(log, now, name)
  {
    hide Live, Acceptable;
    LiveAre(e.names, now);
    var live := Live(e.names, now);
    if e.overflowUntil <= now && Sole(log, now, name) {
      var n := DnsName(name, log[name]);
      assert n in live;
      AllOne(live, n);
    }
    if Unique(e, now) == Some(name) {
      assert live[0] in live;
      forall other | other in log && log[other] > now
        ensures other == name
      {
        assert DnsName(other, log[other]) in live;
      }
    }
  }

  lemma AllOne(names: seq<DnsName>, n: DnsName)
    requires Distinct(names) && n in names && forall m | m in names :: m.name == n.name
    ensures names == [n]
  {
    NamesOf(names, {n.name});
  }

  /** The mark moves only when more than eight names are live. */
  lemma MarkedOnlyBeyondEight(e: DnsEntry, log: Log, before: nat, name: string, ttl: nat, now: nat)
    requires Summary(e, log, before) && before <= now < 0xFFFF_FFFF_FFFF_FFFF && Acceptable(name)
    requires Remembered(e, name, ttl, now).overflowUntil != e.overflowUntil
    ensures |LiveIn(Logged(log, name, ttl, now), now)| > 8
  {
    hide Others, Acceptable;
    ExpiryIs(ttl, now);
    OthersAre(e.names, name, now);
    var others := Others(e.names, name, now);
    var live := LiveIn(Logged(log, name, ttl, now), now);
    NamesOf(others, live - {name});
    assert live == (live - {name}) + {name};
  }

  lemma {:induction false} NamesOf(names: seq<DnsName>, all: set<string>)
    requires Distinct(names) && forall n | n in names :: n.name in all
    ensures |names| <= |all|
  {
    if names != [] {
      var rest := all - {names[0].name};
      assert forall n | n in names[1..] :: n in names && n.name in rest;
      NamesOf(names[1..], rest);
      assert all == rest + {names[0].name};
    }
  }

  // What is read back answers as what was saved.

  function Answer(e: Option<DnsEntry>, now: nat): Option<string> {
    if e.Some? then Unique(e.value, now) else None
  }

  function Proper(names: seq<DnsName>): seq<DnsName> {
    Retained(names, (n: DnsName) => Acceptable(n.name))
  }

  lemma {:induction false} LiveOfReadable(names: seq<DnsName>, before: nat, now: nat)
    requires before <= now
    ensures Live(Readable(names, before), now) == Live(Proper(names), now)
  {
    hide Acceptable;
    if names != [] {
      LiveOfReadable(names[1..], before, now);
      var head := if names[0].expires > before && Acceptable(names[0].name) then [names[0]] else [];
      var proper := if Acceptable(names[0].name) then [names[0]] else [];
      LiveOfSum(head, Readable(names[1..], before), now);
      LiveOfSum(proper, Proper(names[1..]), now);
    }
  }

  lemma LiveOfSum(a: seq<DnsName>, b: seq<DnsName>, now: nat)
    ensures Live(a + b, now) == Live(a, now) + Live(b, now)
  {
    RetainedOfSum(a, b, (n: DnsName) => n.expires > now);
  }

  lemma {:induction false} RetainedOfSum(a: seq<DnsName>, b: seq<DnsName>, keep: DnsName -> bool)
    ensures Retained(a + b, keep) == Retained(a, keep) + Retained(b, keep)
    decreases |a|
  {
    if a == [] {
      assert a + b == b;
    } else {
      assert (a + b)[1..] == a[1..] + b;
      RetainedOfSum(a[1..], b, keep);
    }
  }

  lemma {:induction false} DeadNames(names: seq<DnsName>, now: nat)
    requires forall n | n in names :: n.expires <= now
    ensures Live(names, now) == []
  {
    if names != [] {
      DeadNames(names[1..], now);
    }
  }

  lemma {:induction false} AllProper(names: seq<DnsName>)
    requires forall n | n in names :: Acceptable(n.name)
    ensures Proper(names) == names
  {
    if names != [] {
      AllProper(names[1..]);
    }
  }

  /** The last expiry among the names beyond the eight that are read back. */
  function CutUntil(e: DnsEntry, now: nat): nat {
    var names := Readable(e.names, now);
    if |names| > MAX_LIVE then LastExpiry(names[MAX_LIVE..]) else 0
  }

  /** Whatever a saved entry holds, once read back it gives the same name as the saved one would at every
      later instant, except that it gives none while a name that did not fit is live. */
  lemma RestoredAnswers(e: DnsEntry, before: nat, now: nat)
    requires before <= now
    ensures Answer(Restored(e, before), now)
            == if CutUntil(e, before) > now then None else Unique(DnsEntry(Proper(e.names), e.overflowUntil), now)
  {
    hide Readable, Live, Proper;
    LiveOfReadable(e.names, before, now);
    LiveAre([], now);
    var names := Readable(e.names, before);
    if |names| > MAX_LIVE {
      LiveOfSum(names[..MAX_LIVE], names[MAX_LIVE..], now);
      assert names == names[..MAX_LIVE] + names[MAX_LIVE..];
      if CutUntil(e, before) <= now {
        DeadNames(names[MAX_LIVE..], now);
      }
    }
  }

  /** Saving and reading back an entry changes no answer. */
  lemma RestoredSame(e: DnsEntry, log: Log, saved: nat, before: nat, now: nat)
    requires Summary(e, log, saved) && before <= now
    ensures Answer(Restored(e, before), now) == Unique(e, now)
  {
    hide Readable, Unique;
    RestoredAnswers(e, before, now);
    ReadableAre(e.names, before);
    AllProper(e.names);
  }
}
