/** The daemon's liveness judged from outside it (src/container-watchdog.ts): how much watched time
    has passed since the heartbeat file was last seen to change. */
module Watchdog {
  import opened Wrappers

  const HEARTBEAT_CHECK_MS := 5000
  const UNWATCHED_GAP_MS := 6 * HEARTBEAT_CHECK_MS

  datatype Settings = Settings(staleMs: nat, graceMs: nat)

  /** The file's modification time, or None where it is absent or cannot be read. */
  type Mark = Option<int>

  /** One read of the file, and when, on a clock that may step either way. */
  datatype Reading = Reading(now: int, mark: Mark)

  datatype Verdict = Waiting | Grace | Alive | Stale(silentMs: int)

  // ---- what the readings say ----

  /** A gap counts as the time it shows, unless nobody was watching or the clock stepped. */
  function Counted(gap: int): nat {
    if 0 <= gap <= UNWATCHED_GAP_MS then gap else 0
  }

  /** The counted time between two readings. */
  function Watched(rs: seq<Reading>, i: nat, j: nat): nat
    requires i <= j < |rs|
  {
    if i == j then 0 else Watched(rs, i, j - 1) + Counted(rs[j].now - rs[j - 1].now)
  }

  /** The last mark that was read. */
  function LastMark(baseline: Mark, rs: seq<Reading>): Mark {
    if rs == [] then baseline
    else if rs[|rs| - 1].mark.Some? then rs[|rs| - 1].mark
    else LastMark(baseline, rs[..|rs| - 1])
  }

  /** Reading `k` saw the file rewritten. */
  predicate Beat(baseline: Mark, rs: seq<Reading>, k: nat)
    requires k < |rs|
  {
    rs[k].mark.Some? && rs[k].mark != LastMark(baseline, rs[..k])
  }

  ghost predicate FirstBeat(baseline: Mark, rs: seq<Reading>, k: nat)
    ensures FirstBeat(baseline, rs, k) ==> k < |rs|
  {
    k < |rs| && Beat(baseline, rs, k) && forall m: nat :: m < k ==> !Beat(baseline, rs, m)
  }

  ghost predicate LastBeat(baseline: Mark, rs: seq<Reading>, k: nat)
    ensures LastBeat(baseline, rs, k) ==> k < |rs|
  {
    k < |rs| && Beat(baseline, rs, k) && forall m: nat :: k < m < |rs| ==> !Beat(baseline, rs, m)
  }

  ghost predicate NoBeat(baseline: Mark, rs: seq<Reading>) {
    forall m: nat :: m < |rs| ==> !Beat(baseline, rs, m)
  }

  /** The verdict the readings call for. */
  ghost predicate CalledFor(v: Verdict, s: Settings, baseline: Mark, rs: seq<Reading>) {
    && rs != []
    && (v.Waiting? <==> NoBeat(baseline, rs))
    && (forall first: nat, last: nat :: FirstBeat(baseline, rs, first) && LastBeat(baseline, rs, last) ==>
          var silent := Watched(rs, last, |rs| - 1);
          && (v.Grace? <==> Watched(rs, first, |rs| - 1) < s.graceMs)
          && (v.Stale? <==> Watched(rs, first, |rs| - 1) >= s.graceMs && silent > s.staleMs)
          && (v.Stale? ==> v.silentMs == silent))
  }

  // ---- readings added ----

  lemma {:induction false} WatchedOn(rs: seq<Reading>, r: Reading, i: nat, j: nat)
    requires i <= j < |rs|
    ensures Watched(rs + [r], i, j) == Watched(rs, i, j)
    decreases j - i
  {
    if i < j { WatchedOn(rs, r, i, j - 1); }
  }

  lemma BeatOn(baseline: Mark, rs: seq<Reading>, r: Reading)
    ensures forall m: nat :: m < |rs| ==> Beat(baseline, rs + [r], m) == Beat(baseline, rs, m)
    ensures Beat(baseline, rs + [r], |rs|) == (r.mark.Some? && r.mark != LastMark(baseline, rs))
    ensures LastMark(baseline, rs + [r]) == if r.mark.Some? then r.mark else LastMark(baseline, rs)
  {
    assert (rs + [r])[..|rs|] == rs;
    forall m: nat | m < |rs|
      ensures (rs + [r])[..m] == rs[..m]
    {
    }
  }

  /** One reading more: a rewrite it saw is the last beat, and the first where there was none. */
  lemma ReadOn(baseline: Mark, rs: seq<Reading>, r: Reading)
    ensures var rs', beats := rs + [r], r.mark.Some? && r.mark != LastMark(baseline, rs);
            && LastMark(baseline, rs') == (if r.mark.Some? then r.mark else LastMark(baseline, rs))
            && (NoBeat(baseline, rs') <==> NoBeat(baseline, rs) && !beats)
            && (forall k: nat :: FirstBeat(baseline, rs, k) ==> FirstBeat(baseline, rs', k))
            && (NoBeat(baseline, rs) && beats ==> FirstBeat(baseline, rs', |rs|))
            && (forall k: nat :: LastBeat(baseline, rs, k) && !beats ==> LastBeat(baseline, rs', k))
            && (beats ==> LastBeat(baseline, rs', |rs|))
    ensures rs != [] ==> forall k: nat :: k < |rs| ==>
              Watched(rs + [r], k, |rs|) == Watched(rs, k, |rs| - 1) + Counted(r.now - rs[|rs| - 1].now)
  {
    BeatOn(baseline, rs, r);
    hide Beat, LastMark;
    forall k: nat | k < |rs|
      ensures Watched(rs + [r], k, |rs|) == Watched(rs, k, |rs| - 1) + Counted(r.now - rs[|rs| - 1].now)
    {
      WatchedOn(rs, r, k, |rs| - 1);
    }
  }

  lemma NothingWatched(rs: seq<Reading>, k: nat)
    requires k < |rs|
    ensures Watched(rs, k, k) == 0
  {
  }

  lemma StillWaiting(s: Settings, baseline: Mark, rs: seq<Reading>)
    requires NoBeat(baseline, rs) && rs != []
    ensures CalledFor(Waiting, s, baseline, rs)
  {
  }

  /** The verdict follows from the counted times since the first beat and the last. */
  lemma Judged(v: Verdict, s: Settings, baseline: Mark, rs: seq<Reading>, first: nat, latest: nat)
    requires FirstBeat(baseline, rs, first) && LastBeat(baseline, rs, latest)
    requires var silent := Watched(rs, latest, |rs| - 1);
             v == if Watched(rs, first, |rs| - 1) < s.graceMs then Grace
                  else if silent > s.staleMs then Stale(silent) else Alive
    ensures CalledFor(v, s, baseline, rs)
  {
    hide Beat, Watched;
  }

  // ---- the watch ----

  class HeartbeatWatch {
    const settings: Settings

    var last: Mark
    var firstBeatAt: Option<int>
    var lastBeatAt: int
    var lastReadAt: Option<int>

    ghost const baseline: Mark
    ghost var readings: seq<Reading>
    ghost var first: nat            // the reading that saw the first beat
    ghost var latest: nat           // and the last

    /** The two reference points stand where the counted time since the beats says. */
    ghost predicate Valid()
      reads this
    {
      && last == LastMark(baseline, readings)
      && (if readings == [] then lastReadAt == None else lastReadAt == Some(readings[|readings| - 1].now))
      && (firstBeatAt.None? <==> NoBeat(baseline, readings))
      && (firstBeatAt.Some? ==>
            && FirstBeat(baseline, readings, first)
            && LastBeat(baseline, readings, latest)
            && readings[|readings| - 1].now - firstBeatAt.value == Watched(readings, first, |readings| - 1)
            && readings[|readings| - 1].now - lastBeatAt == Watched(readings, latest, |readings| - 1))
    }

    constructor (settings: Settings, baseline: Mark)
      ensures Valid() && readings == [] && this.settings == settings && this.baseline == baseline
    {
      this.settings, this.baseline := settings, baseline;
      last, firstBeatAt, lastBeatAt, lastReadAt, readings := baseline, None, 0, None, [];
      first, latest := 0, 0;
    }

    method Observe(now: int, mark: Mark) returns (v: Verdict)
      requires Valid()
      modifies this
      ensures Valid() && readings == old(readings) + [Reading(now, mark)]
      ensures CalledFor(v, settings, baseline, readings)
    {
      hide FirstBeat, LastBeat, NoBeat, CalledFor, LastMark, Watched;
      ReadOn(baseline, readings, Reading(now, mark));
      if lastReadAt.Some? && firstBeatAt.Some? {
        var gap := now - lastReadAt.value;
        if gap < 0 || gap > UNWATCHED_GAP_MS {
          firstBeatAt := Some(firstBeatAt.value + gap);
          lastBeatAt := lastBeatAt + gap;
        }
      }
      lastReadAt := Some(now);
      if mark.Some? && mark != last {
        last := mark;
        if firstBeatAt.None? { firstBeatAt, first := Some(now), |readings|; }
        lastBeatAt, latest := now, |readings|;
      }
      readings := readings + [Reading(now, mark)];
      NothingWatched(readings, |readings| - 1);
      if firstBeatAt.None? {
        StillWaiting(settings, baseline, readings);
        return Waiting;
      }
      var silentMs := now - lastBeatAt;
      v := if now - firstBeatAt.value < settings.graceMs then Grace
           else if silentMs > settings.staleMs then Stale(silentMs) else Alive;
      Judged(v, settings, baseline, readings, first, latest);
    }
  }

  // ---- what follows ----

  /** Where the file was rewritten at all, there is a first rewrite and a last. */
  lemma {:induction false} SomeBeat(baseline: Mark, rs: seq<Reading>, m: nat) returns (first: nat, latest: nat)
    requires m < |rs| && Beat(baseline, rs, m)
    ensures FirstBeat(baseline, rs, first) && LastBeat(baseline, rs, latest)
  {
    first, latest := m, m;
    var i := m;
    while i > 0
      invariant i <= first < |rs| && Beat(baseline, rs, first)
      invariant forall k: nat :: i <= k < first ==> !Beat(baseline, rs, k)
    {
      i := i - 1;
      if Beat(baseline, rs, i) { first := i; }
    }
    i := m + 1;
    while i < |rs|
      invariant latest < i <= |rs| && Beat(baseline, rs, latest)
      invariant forall k: nat :: latest < k < i ==> !Beat(baseline, rs, k)
    {
      if Beat(baseline, rs, i) { latest := i; }
      i := i + 1;
    }
  }

  /** The file is rewritten within every `staleMs` of watched time. */
  ghost predicate Beating(baseline: Mark, rs: seq<Reading>, staleMs: nat) {
    forall i: nat, j: nat :: i <= j < |rs| && Watched(rs, i, j) > staleMs ==>
      exists k: nat :: i < k <= j && Beat(baseline, rs, k)
  }

  /** Such a daemon is never stopped. */
  lemma NeverStaleWhileBeating(v: Verdict, s: Settings, baseline: Mark, rs: seq<Reading>)
    requires CalledFor(v, s, baseline, rs) && Beating(baseline, rs, s.staleMs)
    ensures !v.Stale?
  {
    if !NoBeat(baseline, rs) {
      var m: nat :| m < |rs| && Beat(baseline, rs, m);
      var first, latest := SomeBeat(baseline, rs, m);
      if Watched(rs, latest, |rs| - 1) > s.staleMs {
        assert false;
      }
    }
  }

  /** The same marks, and the same counted gaps between them. */
  ghost predicate SameWatch(rs: seq<Reading>, rs': seq<Reading>) {
    && |rs| == |rs'|
    && (forall i :: 0 <= i < |rs| ==> rs[i].mark == rs'[i].mark)
    && (forall i, j :: 0 <= i < j < |rs| && j == i + 1 ==>
          Counted(rs[j].now - rs[i].now) == Counted(rs'[j].now - rs'[i].now))
  }

  lemma {:induction false} SameWatched(rs: seq<Reading>, rs': seq<Reading>, i: nat, j: nat)
    requires SameWatch(rs, rs') && i <= j < |rs|
    ensures Watched(rs, i, j) == Watched(rs', i, j)
    decreases j - i
  {
    if i < j {
      SameWatched(rs, rs', i, j - 1);
      assert Counted(rs[j].now - rs[j - 1].now) == Counted(rs'[j].now - rs'[j - 1].now);
    }
  }

  lemma {:induction false} SameMarks(baseline: Mark, rs: seq<Reading>, rs': seq<Reading>)
    requires |rs| == |rs'| && forall i :: 0 <= i < |rs| ==> rs[i].mark == rs'[i].mark
    ensures LastMark(baseline, rs) == LastMark(baseline, rs')
    decreases |rs|
  {
    if rs != [] { SameMarks(baseline, rs[..|rs| - 1], rs'[..|rs| - 1]); }
  }

  /** A step of the clock, and time nobody watched, count as nothing: replacing either by any other
      changes no verdict. */
  lemma StepsCountForNothing(v: Verdict, v': Verdict, s: Settings, baseline: Mark, rs: seq<Reading>, rs': seq<Reading>)
    requires SameWatch(rs, rs') && CalledFor(v, s, baseline, rs) && CalledFor(v', s, baseline, rs')
    ensures v == v'
  {
    forall k: nat | k < |rs|
      ensures Beat(baseline, rs, k) == Beat(baseline, rs', k)
      ensures Watched(rs, k, |rs| - 1) == Watched(rs', k, |rs| - 1)
    {
      SameMarks(baseline, rs[..k], rs'[..k]);
      SameWatched(rs, rs', k, |rs| - 1);
    }
    if !NoBeat(baseline, rs) {
      var m: nat :| m < |rs| && Beat(baseline, rs, m);
      var first, latest := SomeBeat(baseline, rs, m);
      hide Beat;
      assert FirstBeat(baseline, rs', first) && LastBeat(baseline, rs', latest);
    }
  }
}
