/** Block::requestScan and Block::scanned: at most one I/O scan of a block at a time, and
    a request that finds one in progress is remembered. scanBusy, a bit mask over callback
    priorities, is the set of priorities whose bit is set. */
module ScanRequest {
  import opened Framing

  type Mask = set<nat>

  datatype Scan = Scan(busy: Mask, queued: bool, scanCount: nat, scanOflow: nat)

  const IDLE := Scan({}, false, 0, 0)

  /** io is what scanIoRequest returns: the priorities that have listeners. */
  function Request(s: Scan, io: Mask): Scan {
    if s.busy != {} then s.(queued := true, scanOflow := s.scanOflow + 1)
    else s.(busy := io, scanCount := s.scanCount + 1)
  }

  function Completed(s: Scan, prio: nat, io: Mask): Scan
    requires prio in s.busy
  {
    var s' := s.(busy := s.busy - {prio});
    if s'.busy == {} && s'.queued then Request(s'.(queued := false), io) else s'
  }

  /** New data has arrived, or one priority of the scan in progress is done. io is what
      scanIoRequest would return then. */
  datatype Event = Update(io: Mask) | Complete(prio: nat, io: Mask)

  /** A priority completes once, and only while its scan is in progress. */
  predicate Enabled(s: Scan, e: Event) { e.Complete? ==> e.prio in s.busy }

  function Next(s: Scan, e: Event): Scan
    requires Enabled(s, e)
  {
    match e
    case Update(io) => Request(s, io)
    case Complete(prio, io) => Completed(s, prio, io)
  }

  predicate IsRun(s: Scan, es: seq<Event>)
    decreases |es|, 0
  {
    es == [] || (IsRun(s, es[..|es| - 1]) && Enabled(After(s, es[..|es| - 1]), es[|es| - 1]))
  }

  function After(s: Scan, es: seq<Event>): Scan
    requires IsRun(s, es)
    decreases |es|, 1
  {
    if es == [] then s else Next(After(s, es[..|es| - 1]), es[|es| - 1])
  }

  lemma {:induction false} PrefixIsRun(s: Scan, es: seq<Event>, k: nat)
    requires IsRun(s, es) && k <= |es|
    ensures IsRun(s, es[..k])
    ensures k < |es| ==> Enabled(After(s, es[..k]), es[k])
    decreases |es|
  {
    var n := |es| - 1;
    if k == |es| {
      assert es[..k] == es;
    } else if k < n {
      PrefixIsRun(s, es[..n], k);
      assert es[..n][..k] == es[..k];
    }
  }

  // ----- what a run says -----

  function Updates(es: seq<Event>): nat {
    if es == [] then 0 else Updates(es[..|es| - 1]) + (if es[|es| - 1].Update? then 1 else 0)
  }

  function Completions(es: seq<Event>): Mask {
    if es == [] then {}
    else Completions(es[..|es| - 1]) + (if es[|es| - 1].Complete? then {es[|es| - 1].prio} else {})
  }

  /** The event finds the block idle, or ends its scan with an update come in meanwhile, so that
      scanIoRequest is called. */
  predicate Begins(s: Scan, e: Event) {
    match e
    case Update(_) => s.busy == {}
    case Complete(prio, _) => s.busy == {prio} && s.queued
  }

  /** How many events of the run, which starts idle, do; and the last one that does. */
  function Begun(es: seq<Event>): nat
    requires IsRun(IDLE, es)
  {
    if es == [] then 0
    else
      var n := |es| - 1;
      Begun(es[..n]) + (if Begins(After(IDLE, es[..n]), es[n]) then 1 else 0)
  }

  /** How many of them are the ends of scans. */
  function FollowUps(es: seq<Event>): nat
    requires IsRun(IDLE, es)
  {
    if es == [] then 0
    else
      var n := |es| - 1;
      FollowUps(es[..n]) + (if es[n].Complete? && Begins(After(IDLE, es[..n]), es[n]) then 1 else 0)
  }

  function LastBegin(es: seq<Event>): (r: Option<nat>)
    requires IsRun(IDLE, es)
    ensures r.Some? ==> r.value < |es|
  {
    if es == [] then None
    else
      var n := |es| - 1;
      if Begins(After(IDLE, es[..n]), es[n]) then Some(n) else LastBegin(es[..n])
  }

  /** The state of the block is what the events since the last scan began make it: busy is what
      scanIoRequest then returned, less the priorities completed since, and a request is queued
      exactly if an update came since. */
  ghost predicate AsTheEventsSay(es: seq<Event>)
    requires IsRun(IDLE, es)
  {
    var s, k := After(IDLE, es), LastBegin(es);
    && (k.None? ==> s.busy == {} && !s.queued && Updates(es) == 0)
    && (k.Some? ==>
          var since := es[k.value + 1..];
          && s.busy == es[k.value].io - Completions(since)
          && (s.queued <==> Updates(since) > 0)
          && (s.queued ==> s.busy != {}))
    && s.scanCount == Begun(es)
    && s.scanCount + s.scanOflow == Updates(es) + FollowUps(es)
  }

  lemma SinceGrows(es: seq<Event>, k: nat)
    requires k + 1 < |es|
    ensures var since, n := es[k + 1..], |es| - 1;
            since[..|since| - 1] == es[..n][k + 1..] && since[|since| - 1] == es[n]
  {
  }

  lemma {:induction false} RunsFollowEvents(es: seq<Event>)
    requires IsRun(IDLE, es)
    ensures AsTheEventsSay(es)
    decreases |es|
  {
    if es != [] {
      var n := |es| - 1;
      RunsFollowEvents(es[..n]);
      var s, e, k := After(IDLE, es[..n]), es[n], LastBegin(es[..n]);
      if Begins(s, e) {
        assert es[n + 1..] == [];
        assert e.Complete? ==> s.busy - {e.prio} == {};
      } else {
        assert e.Complete? ==> k.Some?;
        SinceGrows(es, k.value);
        assert k.value + 1 <= n && es[..n][k.value] == es[k.value];
      }
    }
  }

  /** A scan that some listener takes part in began at event k, after all updates. */
  predicate SawLastUpdate(es: seq<Event>, k: nat)
    requires IsRun(IDLE, es)
  {
    BeginsAt(es, k) && es[k].io != {} && Updates(es[k + 1..]) == 0
  }

  /** No update is lost: whenever no scan is in progress, some scan began at or after the last
      update, with a listener, exactly if the last scanIoRequest found one. */
  lemma NoLostUpdate(es: seq<Event>)
    requires IsRun(IDLE, es) && After(IDLE, es).busy == {} && Updates(es) > 0
    ensures LastBegin(es).Some?
    ensures (exists k :: SawLastUpdate(es, k)) <==> es[LastBegin(es).value].io != {}
  {
    RunsFollowEvents(es);
    var k := LastBegin(es).value;
    LastBeginIsLast(es);
    if j :| SawLastUpdate(es, j) && j < k {
      BeginsAfterUpdate(es, j, k);
    }
    assert es[k].io != {} ==> SawLastUpdate(es, k);
  }

  lemma {:induction false} UpdatesAppend(a: seq<Event>, b: seq<Event>)
    ensures Updates(a + b) == Updates(a) + Updates(b)
    decreases |b|
  {
    if b == [] {
      assert a + b == a;
    } else {
      UpdatesAppend(a, b[..|b| - 1]);
      assert (a + b)[..|a + b| - 1] == a + b[..|b| - 1];
    }
  }

  lemma UpdatesWithin(es: seq<Event>, lo: nat, mid: nat, hi: nat)
    requires lo <= mid <= hi <= |es|
    ensures Updates(es[mid..hi]) <= Updates(es[lo..])
  {
    UpdatesAppend(es[lo..mid], es[mid..hi] + es[hi..]);
    UpdatesAppend(es[mid..hi], es[hi..]);
    assert es[lo..] == es[lo..mid] + (es[mid..hi] + es[hi..]);
  }

  predicate BeginsAt(es: seq<Event>, k: nat) {
    k < |es| && IsRun(IDLE, es[..k]) && Begins(After(IDLE, es[..k]), es[k])
  }

  /** Between two begins, or at the second, there is an update. */
  lemma BeginsAfterUpdate(es: seq<Event>, j: nat, k: nat)
    requires IsRun(IDLE, es) && j < k && BeginsAt(es, j) && BeginsAt(es, k)
    ensures Updates(es[j + 1..]) > 0
  {
    if es[k].Update? {
      assert es[k..k + 1] == [es[k]];
      UpdatesWithin(es, j + 1, k, k + 1);
    } else {
      var before := es[..k];
      RunsFollowEvents(before);
      LastBeginIsLast(before);
      assert BeginsAt(before, j) by { assert before[..j] == es[..j] && before[j] == es[j]; }
      var i := LastBegin(before).value;
      assert Updates(before[i + 1..]) > 0;
      assert before[i + 1..] == es[i + 1..k];
      UpdatesWithin(es, j + 1, i + 1, k);
    }
  }

  /** The last begin is one, and there is none behind it. */
  lemma {:induction false} LastBeginIsLast(es: seq<Event>)
    requires IsRun(IDLE, es)
    ensures var k := LastBegin(es);
            && (k.Some? ==> BeginsAt(es, k.value))
            && forall j: nat :: BeginsAt(es, j) ==> k.Some? && j <= k.value
    decreases |es|
  {
    if es != [] {
      var n := |es| - 1;
      LastBeginIsLast(es[..n]);
      forall j: nat | BeginsAt(es, j) ensures LastBegin(es).Some? && j <= LastBegin(es).value {
        if j < n {
          assert es[..n][..j] == es[..j] && es[..n][j] == es[j];
          assert BeginsAt(es[..n], j);
        }
      }
      if LastBegin(es[..n]).Some? {
        var k := LastBegin(es[..n]).value;
        assert es[..n][..k] == es[..k] && es[..n][k] == es[k];
      }
    }
  }

  // ----- bursts -----

  /** The event ends the scan in progress. */
  predicate Ends(s: Scan, e: Event) { e.Complete? && s.busy == {e.prio} }

  predicate NoneEnds(s: Scan, es: seq<Event>)
    requires IsRun(s, es)
  {
    forall k :: 0 <= k < |es| && IsRun(s, es[..k]) ==> !Ends(After(s, es[..k]), es[k])
  }

  lemma {:induction false} WhileBusy(s: Scan, es: seq<Event>)
    requires s.busy != {} && IsRun(s, es) && NoneEnds(s, es)
    ensures var t := After(s, es);
            && t.busy == s.busy - Completions(es) && t.busy != {}
            && (t.queued <==> s.queued || Updates(es) > 0)
            && t.scanCount == s.scanCount && t.scanOflow == s.scanOflow + Updates(es)
    decreases |es|
  {
    if es != [] {
      var n := |es| - 1;
      assert forall k :: 0 <= k < n ==> es[..n][..k] == es[..k] && es[..n][k] == es[k];
      WhileBusy(s, es[..n]);
      var t, e := After(s, es[..n]), es[n];
      assert !Ends(t, e);
    }
  }

  /** However many requests arrive while a scan is in progress, and in whatever order its
      priorities complete between them, its end begins exactly one more scan, of the listeners
      there are then, and none if there were no requests. */
  lemma BurstHasOneFollowUp(s: Scan, es: seq<Event>, last: Event)
    requires s.busy != {} && IsRun(s, es) && NoneEnds(s, es) && Ends(After(s, es), last)
    ensures var t, again := Next(After(s, es), last), s.queued || Updates(es) > 0;
            && t.busy == (if again then last.io else {}) && !t.queued
            && t.scanCount == s.scanCount + (if again then 1 else 0)
            && t.scanOflow == s.scanOflow + Updates(es)
  {
    WhileBusy(s, es);
    assert After(s, es).busy - {last.prio} == {};
  }

  /** A request on an idle block begins a scan of the listeners there are. */
  lemma IdleRequestBegins(s: Scan, io: Mask)
    ensures s.busy == {} ==> Next(s, Update(io)) == Scan(io, s.queued, s.scanCount + 1, s.scanOflow)
    ensures s.busy != {} ==> Next(s, Update(io)) == Scan(s.busy, true, s.scanCount, s.scanOflow + 1)
  {
  }

  /** The scanning half of the source's Block. */
  class ScannedBlock {
    var scanBusy: Mask
    var scanQueued: bool
    var scanCount: nat
    var scanOflow: nat

    ghost function View(): Scan
      reads this
    {
      Scan(scanBusy, scanQueued, scanCount, scanOflow)
    }

    constructor ()
      ensures View() == IDLE
    {
      scanBusy, scanQueued, scanCount, scanOflow := {}, false, 0, 0;
    }

    method RequestScan(io: Mask)
      modifies this
      ensures View() == Request(old(View()), io)
      ensures old(scanBusy) == {} ==> scanBusy == io && scanCount == old(scanCount) + 1
      ensures old(scanBusy) != {} ==> scanBusy == old(scanBusy) && scanQueued && scanOflow == old(scanOflow) + 1
    {
      if scanBusy != {} {
        scanQueued := true;
        scanOflow := scanOflow + 1;
      } else {
        scanBusy := io;
        scanCount := scanCount + 1;
      }
    }

    /** The receive path: the block's data has just been replaced. */
    method DataReceived(io: Mask)
      modifies this
      ensures View() == Next(old(View()), Update(io))
    {
      RequestScan(io);
    }

    method Scanned(prio: nat, io: Mask)
      requires prio in scanBusy
      modifies this
      ensures View() == Next(old(View()), Complete(prio, io))
    {
      assert prio in scanBusy;
      scanBusy := scanBusy - {prio};
      if scanBusy == {} && scanQueued {
        scanQueued := false;
        RequestScan(io);
      }
    }
  }
}
