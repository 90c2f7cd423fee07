/** Low-watermark cleanup of the frame and event files.

    Deletions and space probes are oracles: `removeOk` answers each successive deletion and `probe`
    each successive space query of a run. `removed` lists the deleted paths in order. */
module StorageCleaner {
  import opened Wrappers

  const MAX64: nat := 0xFFFF_FFFF_FFFF_FFFF

  type Word64 = x: int | 0 <= x <= MAX64

  datatype DiskSpace = DiskSpace(total: Word64, available: Word64)

  datatype Probe = Probe(ok: bool, space: DiskSpace)

  datatype Options = Options(
    retention: int, minFree: Word64, lowPercent: nat, recoveryPercent: nat, recoveryExtra: Word64)

  datatype Candidate = Candidate(path: string, timestamp: int, frame: bool)

  datatype Environment = Environment(
    probe: nat -> Probe, removeOk: nat -> bool, scan: Option<seq<Candidate>>)

  // ----- Thresholds -----

  /** Percentage without forming `total * percent`, which would overflow 64 bits. */
  function PercentOf(total: Word64, percent: nat): (r: Word64)
    ensures r <= total
  {
    var bounded := if percent > 100 then 100 else percent;
    PercentExact(total, bounded);
    (total / 100) * bounded + (total % 100) * bounded / 100
  }

  /** Both products stay in range and the sum is the exact floor. */
  lemma PercentExact(total: Word64, p: nat)
    requires p <= 100
    ensures (total / 100) * p + (total % 100) * p / 100 == total * p / 100 <= total
    ensures (total / 100) * p <= MAX64 && (total % 100) * p <= 9900
  {
    var q, m := total / 100, total % 100;
    assert total == 100 * q + m;
    assert total * p == 100 * (q * p) + m * p by {
      assert (100 * q + m) * p == 100 * q * p + m * p;
    }
    assert (100 * (q * p) + m * p) / 100 == q * p + m * p / 100;
    assert q * p <= q * 100 by { MulMonotone(p, 100, q); }
    assert m * p <= m * 100 by { MulMonotone(p, 100, m); }
  }

  lemma MulMonotone(a: nat, b: nat, c: nat)
    requires a <= b
    ensures c * a <= c * b
  {
    assert c * b - c * a == c * (b - a);
  }

  function SaturatingAdd(a: Word64, b: Word64): (r: Word64)
    ensures r >= a && r >= b && (r == a + b || (r == MAX64 && a + b > MAX64))
  {
    if b > MAX64 - a then MAX64 else a + b
  }

  function Max(a: Word64, b: Word64): Word64 { if a >= b then a else b }

  function LowThreshold(o: Options, total: Word64): Word64 {
    Max(o.minFree, PercentOf(total, o.lowPercent))
  }

  function RecoveryThreshold(o: Options, total: Word64): (r: Word64)
    ensures r >= LowThreshold(o, total)
  {
    Max(SaturatingAdd(LowThreshold(o, total), o.recoveryExtra), PercentOf(total, o.recoveryPercent))
  }

  // ----- Candidate order: timestamp, then path -----

  predicate PathLess(a: string, b: string) {
    if b == [] then false
    else if a == [] then true
    else if a[0] != b[0] then a[0] < b[0]
    else PathLess(a[1..], b[1..])
  }

  predicate Before(a: Candidate, b: Candidate) {
    if a.timestamp != b.timestamp then a.timestamp < b.timestamp else PathLess(a.path, b.path)
  }

  function Insert(c: Candidate, cs: seq<Candidate>): seq<Candidate> {
    if cs == [] || !Before(cs[0], c) then [c] + cs else [cs[0]] + Insert(c, cs[1..])
  }

  function Sort(cs: seq<Candidate>): seq<Candidate> {
    if cs == [] then [] else Insert(cs[0], Sort(cs[1..]))
  }

  predicate ByTime(cs: seq<Candidate>) {
    forall i, j | 0 <= i < j < |cs| :: cs[i].timestamp <= cs[j].timestamp
  }

  /** No candidate comes before an earlier one: oldest first, and by path where times are equal. */
  predicate Sorted(cs: seq<Candidate>) {
    forall i, j | 0 <= i < j < |cs| :: !Before(cs[j], cs[i])
  }

  lemma {:induction false} PathLessOrder(a: string, b: string, c: string)
    ensures PathLess(a, b) ==> !PathLess(b, a)
    ensures !PathLess(b, a) && !PathLess(c, b) ==> !PathLess(c, a)
    decreases |a| + |b| + |c|
  {
    if a != [] && b != [] {
      PathLessOrder(a[1..], b[1..], if c == [] then c else c[1..]);
    }
  }

  lemma BeforeOrder(a: Candidate, b: Candidate, c: Candidate)
    ensures Before(a, b) ==> !Before(b, a)
    ensures !Before(b, a) && !Before(c, b) ==> !Before(c, a)
  {
    hide PathLess;
    PathLessOrder(a.path, b.path, c.path);
  }

  lemma ConsSorted(c: Candidate, cs: seq<Candidate>)
    requires Sorted(cs) && forall x | x in cs :: !Before(x, c)
    ensures Sorted([c] + cs)
  {
    hide Before;
  }

  lemma {:induction false} InsertKeeps(c: Candidate, cs: seq<Candidate>)
    requires Sorted(cs)
    ensures multiset(Insert(c, cs)) == multiset(cs) + multiset{c}
    ensures forall x | x in Insert(c, cs) :: x == c || x in cs
    ensures Sorted(Insert(c, cs))
  {
    hide Before;
    if cs != [] {
      assert cs == [cs[0]] + cs[1..];
      if Before(cs[0], c) {
        InsertKeeps(c, cs[1..]);
        BeforeOrder(cs[0], c, c);
        ConsSorted(cs[0], Insert(c, cs[1..]));
      } else {
        forall x | x in cs ensures !Before(x, c) {
          BeforeOrder(c, cs[0], x);
        }
        ConsSorted(c, cs);
      }
    }
  }

  /** Sorting keeps every candidate and puts them oldest first, equal times by path. */
  lemma {:induction false} SortKeeps(cs: seq<Candidate>)
    ensures Sorted(Sort(cs)) && ByTime(Sort(cs)) && multiset(Sort(cs)) == multiset(cs)
  {
    if cs != [] {
      assert cs == [cs[0]] + cs[1..];
      SortKeeps(cs[1..]);
      InsertKeeps(cs[0], Sort(cs[1..]));
    }
  }

  // ----- Deleting -----

  datatype Sweep = Sweep(
    space: DiskSpace, reported: Word64, removed: seq<string>, attempts: nat, probes: nat, failed: bool)

  /** One deletion and the space query after it. */
  function RemoveOne(e: Environment, s: Sweep, path: string): Sweep {
    if !e.removeOk(s.attempts) then s.(attempts := s.attempts + 1, failed := true)
    else
      var p := e.probe(s.probes);
      Sweep(p.space, if p.ok then p.space.available else s.reported,
            s.removed + [path], s.attempts + 1, s.probes + 1, !p.ok)
  }

  predicate Done(s: Sweep, recovery: nat) { s.failed || s.space.available >= recovery }

  /** The first pass at one candidate: only an expired one is deleted, and then its path is cleared. */
  function Expire(e: Environment, c: Candidate, cutoff: int, newest: Option<string>, s: Sweep): (Candidate, Sweep) {
    if c.timestamp < cutoff && Some(c.path) != newest then
      (if e.removeOk(s.attempts) then c.(path := "") else c, RemoveOne(e, s, c.path))
    else (c, s)
  }

  function PassOne(e: Environment, cs: seq<Candidate>, cutoff: int, newest: Option<string>, recovery: nat, s: Sweep)
    : (r: (seq<Candidate>, Sweep))
    ensures |r.0| == |cs|
  {
    if cs == [] || Done(s, recovery) then (cs, s)
    else
      var (head, s') := Expire(e, cs[0], cutoff, newest, s);
      var rest := PassOne(e, cs[1..], cutoff, newest, recovery, s');
      ([head] + rest.0, rest.1)
  }

  lemma PassOneStep(e: Environment, cs: seq<Candidate>, cutoff: int, newest: Option<string>, recovery: nat, s: Sweep)
    ensures var r := PassOne(e, cs, cutoff, newest, recovery, s);
            if cs == [] || Done(s, recovery) then r == (cs, s)
            else var (head, s') := Expire(e, cs[0], cutoff, newest, s);
                 var rest := PassOne(e, cs[1..], cutoff, newest, recovery, s');
                 r.0 == [head] + rest.0 && r.1 == rest.1
  {
  }

  /** Second pass: everything not yet cleared. */
  function PassTwo(e: Environment, cs: seq<Candidate>, newest: Option<string>, recovery: nat, s: Sweep): Sweep {
    if cs == [] || Done(s, recovery) then s
    else if cs[0].path != "" && Some(cs[0].path) != newest then
      PassTwo(e, cs[1..], newest, recovery, RemoveOne(e, s, cs[0].path))
    else PassTwo(e, cs[1..], newest, recovery, s)
  }

  function TwoPasses(e: Environment, cs: seq<Candidate>, cutoff: int, newest: Option<string>, recovery: nat,
      s: Sweep): Sweep {
    var r := PassOne(e, cs, cutoff, newest, recovery, s);
    if Done(r.1, recovery) then r.1 else PassTwo(e, r.0, newest, recovery, r.1)
  }

  /** The specification: one pass, oldest first, that spares the newest frame. */
  function OnePass(e: Environment, cs: seq<Candidate>, newest: Option<string>, recovery: nat, s: Sweep): Sweep {
    if cs == [] || Done(s, recovery) then s
    else if Some(cs[0].path) == newest then OnePass(e, cs[1..], newest, recovery, s)
    else OnePass(e, cs[1..], newest, recovery, RemoveOne(e, s, cs[0].path))
  }

  predicate Named(cs: seq<Candidate>) {
    forall i | 0 <= i < |cs| :: cs[i].path != ""
  }

  lemma {:induction false} NothingExpired(
    e: Environment, cs: seq<Candidate>, cutoff: int, newest: Option<string>, recovery: nat, s: Sweep)
    requires forall i | 0 <= i < |cs| :: cs[i].timestamp >= cutoff
    ensures PassOne(e, cs, cutoff, newest, recovery, s) == (cs, s)
  {
    if cs != [] {
      NothingExpired(e, cs[1..], cutoff, newest, recovery, s);
      assert cs == [cs[0]] + cs[1..];
    }
  }

  lemma {:induction false} PassTwoIsOnePass(
    e: Environment, cs: seq<Candidate>, newest: Option<string>, recovery: nat, s: Sweep)
    requires Named(cs)
    ensures PassTwo(e, cs, newest, recovery, s) == OnePass(e, cs, newest, recovery, s)
    decreases |cs|
  {
    if cs != [] {
      PassTwoIsOnePass(e, cs[1..], newest, recovery, s);
      PassTwoIsOnePass(e, cs[1..], newest, recovery, RemoveOne(e, s, cs[0].path));
    }
  }

  /** The two passes collapse to the single one, whatever the retention setting. */
  lemma {:induction false} TwoPassesAreOne(
    e: Environment, cs: seq<Candidate>, cutoff: int, newest: Option<string>, recovery: nat, s: Sweep)
    requires ByTime(cs) && Named(cs)
    ensures TwoPasses(e, cs, cutoff, newest, recovery, s) == OnePass(e, cs, newest, recovery, s)
    decreases |cs|
  {
    if cs == [] || Done(s, recovery) {
    } else if cs[0].timestamp >= cutoff {
      NothingExpired(e, cs, cutoff, newest, recovery, s);
      PassTwoIsOnePass(e, cs, newest, recovery, s);
    } else if Some(cs[0].path) == newest {
      TwoPassesAreOne(e, cs[1..], cutoff, newest, recovery, s);
      SkipHead(e, cs, cutoff, newest, recovery, s);
    } else {
      TwoPassesAreOne(e, cs[1..], cutoff, newest, recovery, RemoveOne(e, s, cs[0].path));
      SkipHead(e, cs, cutoff, newest, recovery, s);
    }
  }

  /** After the first pass has dealt with the head, the second pass ignores it. */
  lemma SkipHead(e: Environment, cs: seq<Candidate>, cutoff: int, newest: Option<string>, recovery: nat, s: Sweep)
    requires cs != [] && !Done(s, recovery) && cs[0].timestamp < cutoff
    ensures TwoPasses(e, cs, cutoff, newest, recovery, s) ==
            TwoPasses(e, cs[1..], cutoff, newest, recovery,
                      if Some(cs[0].path) == newest then s else RemoveOne(e, s, cs[0].path))
  {
    var s' := if Some(cs[0].path) == newest then s else RemoveOne(e, s, cs[0].path);
    var rest := PassOne(e, cs[1..], cutoff, newest, recovery, s');
    var all := PassOne(e, cs, cutoff, newest, recovery, s);
    assert all.1 == rest.1 && all.0[1..] == rest.0;
    if !Done(rest.1, recovery) {
      PassOneNotFailed(e, cs[1..], cutoff, newest, recovery, s');
    }
  }

  lemma {:induction false} PassOneNotFailed(
    e: Environment, cs: seq<Candidate>, cutoff: int, newest: Option<string>, recovery: nat, s: Sweep)
    requires !PassOne(e, cs, cutoff, newest, recovery, s).1.failed
    ensures !s.failed
    decreases |cs|
  {
    if cs != [] && !Done(s, recovery) {
      var s' := Expire(e, cs[0], cutoff, newest, s).1;
      PassOneNotFailed(e, cs[1..], cutoff, newest, recovery, s');
    }
  }

  // ----- What the single pass removes -----

  function Eligible(cs: seq<Candidate>, newest: Option<string>): seq<string> {
    if cs == [] then []
    else (if Some(cs[0].path) == newest then [] else [cs[0].path]) + Eligible(cs[1..], newest)
  }

  /** The removed files are the first `n` eligible ones, and the pass stops exactly at the first failed
      deletion or probe, the first probe at or above the threshold, or the end. */
  lemma {:induction false} OnePassRemovesPrefix(
    e: Environment, cs: seq<Candidate>, newest: Option<string>, recovery: nat, s: Sweep) returns (n: nat)
    ensures n <= |Eligible(cs, newest)|
    ensures var r := OnePass(e, cs, newest, recovery, s);
            && r.removed == s.removed + Eligible(cs, newest)[..n]
            && r.probes == s.probes + n
            && (n < |Eligible(cs, newest)| ==> Done(r, recovery))
            && (forall k | s.probes <= k < r.probes - 1 :: e.probe(k).ok && e.probe(k).space.available < recovery)
            && r.space == (if n == 0 then s.space else e.probe(s.probes + n - 1).space)
            && (r.failed ==> s.failed || (n > 0 && !e.probe(s.probes + n - 1).ok) || !e.removeOk(s.attempts + n))
            && (n > 0 && !e.probe(s.probes + n - 1).ok ==> r.failed)
    ensures Done(s, recovery) ==> n == 0
    ensures forall k | s.attempts <= k < s.attempts + n :: e.removeOk(k)
    decreases |cs|
  {
    if cs == [] || Done(s, recovery) {
      n := 0;
    } else if Some(cs[0].path) == newest {
      n := OnePassRemovesPrefix(e, cs[1..], newest, recovery, s);
      assert Eligible(cs, newest) == Eligible(cs[1..], newest);
    } else {
      var m := OnePassRemovesPrefix(e, cs[1..], newest, recovery, RemoveOne(e, s, cs[0].path));
      EligibleStep(cs, newest, m);
      if !e.removeOk(s.attempts) {
        n := 0;
        assert m == 0;
      } else {
        n := m + 1;
      }
    }
  }

  lemma EligibleStep(cs: seq<Candidate>, newest: Option<string>, m: nat)
    requires cs != [] && Some(cs[0].path) != newest && m <= |Eligible(cs[1..], newest)|
    ensures Eligible(cs, newest) == [cs[0].path] + Eligible(cs[1..], newest)
    ensures Eligible(cs, newest)[..m + 1] == [cs[0].path] + Eligible(cs[1..], newest)[..m]
  {
  }

  lemma {:induction false} EligibleSpares(cs: seq<Candidate>, newest: string)
    ensures newest !in Eligible(cs, Some(newest))
  {
    if cs != [] {
      EligibleSpares(cs[1..], newest);
    }
  }

  // ----- A run -----

  /** The newest frame: the first of those with the greatest timestamp. */
  function NewestFrame(cs: seq<Candidate>): Option<Candidate> {
    if cs == [] then None
    else
      var c, best := cs[|cs| - 1], NewestFrame(cs[..|cs| - 1]);
      if c.frame && (best.None? || c.timestamp > best.value.timestamp) then Some(c) else best
  }

  lemma {:induction false} NewestFrameIsGreatest(cs: seq<Candidate>)
    ensures match NewestFrame(cs)
            case None => forall c | c in cs :: !c.frame
            case Some(n) => n in cs && n.frame && forall c | c in cs && c.frame :: c.timestamp <= n.timestamp
  {
    if cs != [] {
      NewestFrameIsGreatest(cs[..|cs| - 1]);
      assert cs == cs[..|cs| - 1] + [cs[|cs| - 1]];
    }
  }

  function PathOf(c: Option<Candidate>): Option<string> {
    if c.None? then None else Some(c.value.path)
  }

  datatype CleanupResult = CleanupResult(
    lowWatermarkActive: bool, writesPaused: bool, deletionFailed: bool, removedFiles: nat,
    available: Word64, lowThreshold: Word64, recoveryThreshold: Word64)

  datatype Outcome = Outcome(result: CleanupResult, removed: seq<string>)

  /** A whole run, with the deletion loop in its collapsed form. */
  function Run(o: Options, paused: bool, now: int, e: Environment): Outcome {
    var first := e.probe(0);
    if !first.ok then Outcome(CleanupResult(false, true, true, 0, 0, 0, 0), [])
    else
      var space := first.space;
      var low, recovery := LowThreshold(o, space.total), RecoveryThreshold(o, space.total);
      if space.available >= (if paused then recovery else low) then
        Outcome(CleanupResult(false, false, false, 0, space.available, low, recovery), [])
      else if e.scan.None? then
        Outcome(CleanupResult(true, true, true, 0, space.available, low, recovery), [])
      else
        var cs := Sort(e.scan.value);
        var s := OnePass(e, cs, PathOf(NewestFrame(cs)), recovery, Sweep(space, space.available, [], 0, 1, false));
        Outcome(CleanupResult(s.space.available < low, s.failed || s.space.available < recovery, s.failed,
                              |s.removed|, s.reported, low, recovery), s.removed)
  }

  /** The cleaner object: a flag and options, and the two in-place deletion loops. */
  class Cleaner {
    var options: Options
    var writesPaused: bool

    constructor (o: Options)
      ensures options == o && !writesPaused
    {
      options, writesPaused := o, false;
    }

    method UpdateOptions(o: Options)
      modifies this`options
      ensures options == o
    {
      options := o;
    }

    /** The expiry test and deletion at one candidate. */
    method ExpireOne(e: Environment, c: Candidate, cutoff: int, newest: Option<string>, before: Sweep)
      returns (c': Candidate, s: Sweep)
      ensures (c', s) == Expire(e, c, cutoff, newest, before)
    {
      c', s := c, before;
      if c.timestamp < cutoff && Some(c.path) != newest {
        var deleted := e.removeOk(s.attempts);
        s := RemoveOne(e, s, c.path);
        if deleted {
          c' := c.(path := "");
        }
      }
    }

    /** Pass one over the candidate vector, clearing the paths of deleted files. */
    method DeleteExpired(e: Environment, all: seq<Candidate>, cutoff: int, newest: Option<string>, recovery: nat,
        start: Sweep)
      returns (cs: seq<Candidate>, s: Sweep)
      ensures (cs, s) == PassOne(e, all, cutoff, newest, recovery, start)
    {
      hide Expire, PassOne;
      cs, s := all, start;
      ghost var done, rest := [], all;
      ghost var spec := PassOne(e, all, cutoff, newest, recovery, start);
      assert [] + all == all && [] + spec.0 == spec.0;
      for i := 0 to |all|
        invariant |done| == i && |rest| == |all| - i && cs == done + rest
        invariant spec.0 == done + PassOne(e, rest, cutoff, newest, recovery, s).0
        invariant spec.1 == PassOne(e, rest, cutoff, newest, recovery, s).1
      {
        PassOneStep(e, rest, cutoff, newest, recovery, s);
        if Done(s, recovery) {
          return;
        }
        var c;
        c, s := ExpireOne(e, cs[i], cutoff, newest, s);
        cs := cs[i := c];
        ghost var tail := PassOne(e, rest[1..], cutoff, newest, recovery, s).0;
        assert done + ([c] + tail) == (done + [c]) + tail;
        assert cs == (done + [c]) + rest[1..];
        done, rest := done + [c], rest[1..];
      }
      PassOneStep(e, rest, cutoff, newest, recovery, s);
    }

    method DeleteRemaining(e: Environment, cs: seq<Candidate>, newest: Option<string>, recovery: nat, start: Sweep)
      returns (s: Sweep)
      ensures s == PassTwo(e, cs, newest, recovery, start)
    {
      s := start;
      for i := 0 to |cs|
        invariant PassTwo(e, cs, newest, recovery, start) == PassTwo(e, cs[i..], newest, recovery, s)
      {
        assert cs[i..][1..] == cs[i + 1..];
        if Done(s, recovery) {
          return;
        }
        if cs[i].path != "" && Some(cs[i].path) != newest {
          s := RemoveOne(e, s, cs[i].path);
        }
      }
    }

    method FindNewest(cs: seq<Candidate>) returns (newest: Option<Candidate>)
      ensures newest == NewestFrame(cs)
    {
      newest := None;
      for i := 0 to |cs|
        invariant newest == NewestFrame(cs[..i])
      {
        assert cs[..i + 1][..i] == cs[..i];
        if cs[i].frame && (newest.None? || cs[i].timestamp > newest.value.timestamp) {
          newest := Some(cs[i]);
        }
      }
      assert cs[..|cs|] == cs;
    }

    method RunOnce(now: int, e: Environment) returns (result: CleanupResult, removed: seq<string>)
      requires e.scan.Some? ==> Named(e.scan.value)
      modifies this`writesPaused
      ensures Outcome(result, removed) == Run(options, old(writesPaused), now, e)
      ensures writesPaused == result.writesPaused
    {
      var first := e.probe(0);
      if !first.ok {
        writesPaused := true;
        return CleanupResult(false, true, true, 0, 0, 0, 0), [];
      }
      var space := first.space;
      var low := LowThreshold(options, space.total);
      var recovery := RecoveryThreshold(options, space.total);
      if writesPaused && space.available >= recovery {
        writesPaused := false;
        return CleanupResult(false, false, false, 0, space.available, low, recovery), [];
      }
      if !writesPaused && space.available >= low {
        return CleanupResult(false, false, false, 0, space.available, low, recovery), [];
      }
      if e.scan.None? {
        writesPaused := true;
        return CleanupResult(true, true, true, 0, space.available, low, recovery), [];
      }
      var cs := Sort(e.scan.value);
      var newestFrame := FindNewest(cs);
      var newest := PathOf(newestFrame);
      var cutoff := now - options.retention;
      var start := Sweep(space, space.available, [], 0, 1, false);
      var left, s := DeleteExpired(e, cs, cutoff, newest, recovery, start);
      if !s.failed && s.space.available < recovery {
        s := DeleteRemaining(e, left, newest, recovery, s);
      }
      SortNamed(e.scan.value);
      TwoPassesAreOne(e, cs, cutoff, newest, recovery, start);
      writesPaused := s.failed || s.space.available < recovery;
      result := CleanupResult(s.space.available < low, writesPaused, s.failed, |s.removed|, s.reported, low, recovery);
      removed := s.removed;
    }
  }

  lemma SortNamed(cs: seq<Candidate>)
    requires Named(cs)
    ensures ByTime(Sort(cs)) && Named(Sort(cs))
  {
    SortKeeps(cs);
    forall i | 0 <= i < |Sort(cs)| ensures Sort(cs)[i].path != "" {
      assert Sort(cs)[i] in multiset(cs);
    }
  }

  /** The space the result reports is the last measured one unless something failed. */
  lemma {:induction false} OnePassReports(e: Environment, cs: seq<Candidate>, newest: Option<string>, recovery: nat,
      s: Sweep)
    requires !s.failed ==> s.reported == s.space.available
    ensures var r := OnePass(e, cs, newest, recovery, s); !r.failed ==> r.reported == r.space.available
    decreases |cs|
  {
    if cs != [] && !Done(s, recovery) {
      OnePassReports(e, cs[1..], newest, recovery,
          if Some(cs[0].path) == newest then s else RemoveOne(e, s, cs[0].path));
    }
  }

  /** Safety of every run, from either state of the flag. */
  lemma RunIsSafe(o: Options, paused: bool, now: int, e: Environment)
    ensures var r := Run(o, paused, now, e);
            && r.result.recoveryThreshold >= r.result.lowThreshold
            && (r.result.lowWatermarkActive ==> r.result.writesPaused)
            && (paused && !r.result.writesPaused ==> r.result.available >= r.result.recoveryThreshold)
            && (r.removed != [] && !r.result.writesPaused ==> r.result.available >= r.result.recoveryThreshold)
            && r.result.removedFiles == |r.removed|
            && (r.removed != [] ==> e.scan.Some?)
  {
    if e.scan.Some? {
      var cs := Sort(e.scan.value);
      var space := e.probe(0).space;
      OnePassReports(e, cs, PathOf(NewestFrame(cs)), RecoveryThreshold(o, space.total),
                     Sweep(space, space.available, [], 0, 1, false));
    }
  }

  /** The two limits, from the size of the disk and the options. */
  lemma ThresholdsMeaning(o: Options, total: Word64)
    ensures var p, q := Min(o.lowPercent, 100), Min(o.recoveryPercent, 100);
            var low := if o.minFree >= total * p / 100 then o.minFree else total * p / 100;
            var more := if low + o.recoveryExtra > MAX64 then MAX64 else low + o.recoveryExtra;
            && LowThreshold(o, total) == low
            && RecoveryThreshold(o, total) == if more >= total * q / 100 then more else total * q / 100
  {
    PercentExact(total, Min(o.lowPercent, 100));
    PercentExact(total, Min(o.recoveryPercent, 100));
  }

  function Min(a: nat, b: nat): nat { if a <= b then a else b }

  /** `n` files are deleted, oldest first and sparing the newest frame; each deletion but perhaps the last
      left too little space; and the run stopped because nothing was left, space was recovered, or a
      deletion or the measurement after one failed. */
  predicate Deletes(o: Options, e: Environment, frames: seq<Candidate>, r: Outcome, n: nat) {
    var recovery := RecoveryThreshold(o, e.probe(0).space.total);
    var cs := Sort(frames);
    var list := Eligible(cs, PathOf(NewestFrame(cs)));
    && n <= |list| && r.removed == list[..n]
    && (forall k | 0 <= k < n :: e.removeOk(k))
    && (forall k | 1 <= k < n :: e.probe(k).ok && e.probe(k).space.available < recovery)
    && (n < |list| ==> (n > 0 && (!e.probe(n).ok || e.probe(n).space.available >= recovery)) || !e.removeOk(n))
    && (!r.result.writesPaused ==> e.probe(n).space.available >= recovery)
    && (r.result.lowWatermarkActive <==> e.probe(n).space.available < LowThreshold(o, e.probe(0).space.total))
    && (r.result.deletionFailed ==> (n > 0 && !e.probe(n).ok) || !e.removeOk(n))
    && (n > 0 && !e.probe(n).ok ==> r.result.deletionFailed)
    && (r.result.writesPaused <==> r.result.deletionFailed || e.probe(n).space.available < recovery)
  }

  /** What a run does: with enough space nothing, otherwise it deletes until space is recovered. */
  lemma RunDeletes(o: Options, paused: bool, now: int, e: Environment)
    requires e.probe(0).ok
    ensures var r, space := Run(o, paused, now, e), e.probe(0).space;
            var limit := if paused then RecoveryThreshold(o, space.total) else LowThreshold(o, space.total);
            && (space.available >= limit ==> r.removed == [] && !r.result.writesPaused && !r.result.deletionFailed)
            && (space.available < limit && e.scan.None? ==>
                  r.removed == [] && r.result.writesPaused && r.result.deletionFailed)
            && (space.available < limit && e.scan.Some? ==> exists n: nat :: Deletes(o, e, e.scan.value, r, n))
  {
    hide Sort, NewestFrame, OnePass, Eligible, LowThreshold, RecoveryThreshold;
    var space := e.probe(0).space;
    var limit := if paused then RecoveryThreshold(o, space.total) else LowThreshold(o, space.total);
    if space.available < limit && e.scan.Some? {
      var cs := Sort(e.scan.value);
      var n := OnePassRemovesPrefix(e, cs, PathOf(NewestFrame(cs)), RecoveryThreshold(o, space.total),
                                    Sweep(space, space.available, [], 0, 1, false));
      assert [] + Eligible(cs, PathOf(NewestFrame(cs)))[..n] == Eligible(cs, PathOf(NewestFrame(cs)))[..n];
      assert Deletes(o, e, e.scan.value, Run(o, paused, now, e), n);
    }
  }

  /** A run that could not measure the space pauses writing and touches nothing. */
  lemma UnmeasuredRun(o: Options, paused: bool, now: int, e: Environment)
    requires !e.probe(0).ok
    ensures var r := Run(o, paused, now, e); r.removed == [] && r.result.writesPaused && r.result.deletionFailed
  {
  }

  /** The newest frame the scan found survives the run, together with anything sharing its path. */
  lemma NewestFrameSurvives(o: Options, paused: bool, now: int, e: Environment, frames: seq<Candidate>)
    requires e.scan == Some(frames) && exists c :: c in frames && c.frame
    ensures exists n :: n in frames && n.frame && (forall c | c in frames && c.frame :: c.timestamp <= n.timestamp)
                        && n.path !in Run(o, paused, now, e).removed
  {
    hide Run, Sort, NewestFrame;
    var cs := Sort(frames);
    SortMembers(frames);
    NewestFrameIsGreatest(cs);
    var n := NewestFrame(cs).value;
    SparedInRun(o, paused, now, e, n);
  }

  lemma SortMembers(cs: seq<Candidate>)
    ensures forall c :: c in Sort(cs) <==> c in cs
  {
    hide Sort;
    SortKeeps(cs);
    forall c ensures c in Sort(cs) <==> c in cs {
      assert c in Sort(cs) <==> c in multiset(Sort(cs));
      assert c in cs <==> c in multiset(cs);
    }
  }

  lemma SparedInRun(o: Options, paused: bool, now: int, e: Environment, n: Candidate)
    requires e.scan.Some? && NewestFrame(Sort(e.scan.value)) == Some(n)
    ensures n.path !in Run(o, paused, now, e).removed
  {
    hide Sort, NewestFrame, OnePass, Eligible, LowThreshold, RecoveryThreshold;
    var cs := Sort(e.scan.value);
    var space := e.probe(0).space;
    var k := OnePassRemovesPrefix(e, cs, Some(n.path), RecoveryThreshold(o, space.total),
                                  Sweep(space, space.available, [], 0, 1, false));
    EligibleSpares(cs, n.path);
  }
}
