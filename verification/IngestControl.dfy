/** The ingest pause: the clamp that bounds it (src/console/ingest-control.ts), the anchor file
    that survives a restart (src/console/runtime-files.ts) and the refresh that ties the two
    together (src/host/main.ts). Times are milliseconds on one clock. */
module IngestControl {
  import opened Wrappers

  /** How far past its episode anchor a pause may hold the gate closed. */
  const PAUSE_CAP_MS := 15 * 60 * 1000

  datatype IngestControlRow = IngestControlRow(
    id: nat,
    pausedUntil: int,
    resumedAt: Option<int>,
    rowWrittenAt: int)

  datatype EffectivePause = EffectivePause(pausedUntil: Option<int>, capped: bool)

  const OPEN := EffectivePause(None, false)

  function Min(a: int, b: int): int { if a < b then a else b }

  /** The deadline of an unresumed episode first observed at `anchor`, before it is compared with
      the clock. */
  function Deadline(row: IngestControlRow, anchor: int): int {
    Min(row.pausedUntil, Min(row.rowWrittenAt + PAUSE_CAP_MS, anchor + PAUSE_CAP_MS))
  }

  function Effective(row: Option<IngestControlRow>, firstObservedAt: Option<int>, now: int): EffectivePause {
    if row.None? || row.value.resumedAt.Some? then OPEN
    else
      var anchor := if firstObservedAt.Some? then firstObservedAt.value else now;
      var effective := Deadline(row.value, anchor);
      var capped := effective < row.value.pausedUntil;
      EffectivePause(if effective <= now then None else Some(effective), capped)
  }

  /** What a cached pause says at time `now`. */
  function PausedUntil(pause: EffectivePause, now: int): Option<int> {
    if pause.pausedUntil.None? || pause.pausedUntil.value <= now then None else pause.pausedUntil
  }

  /** An episode armed no further ahead than the cap, and first observed after it was written, is
      enforced exactly as asked for: the gate closes until the requested instant and no other. */
  lemma UnclampedWithinCap(row: IngestControlRow, firstObservedAt: int, now: int)
    requires row.resumedAt.None?
    requires row.pausedUntil <= row.rowWrittenAt + PAUSE_CAP_MS
    requires row.rowWrittenAt <= firstObservedAt
    ensures Effective(Some(row), Some(firstObservedAt), now)
         == EffectivePause(if now < row.pausedUntil then Some(row.pausedUntil) else None, false)
  {
    assert Deadline(row, firstObservedAt) == row.pausedUntil;
  }

  /** The daemon's cached view of the pause. */
  class PauseState {
    var effective: EffectivePause
    var lastRefreshFailed: bool

    constructor ()
      ensures effective == OPEN && !lastRefreshFailed
    {
      effective, lastRefreshFailed := OPEN, false;
    }

    method Observe(pause: EffectivePause)
      modifies this
      ensures effective == pause && !lastRefreshFailed
    {
      effective, lastRefreshFailed := pause, false;
    }

    /** A failed read leaves the deadline in force untouched. */
    method ObserveUnavailable()
      modifies this
      ensures effective == old(effective) && lastRefreshFailed
    {
      lastRefreshFailed := true;
    }
  }

  datatype PauseAnchor = PauseAnchor(episodeId: nat, firstObservedAt: int)

  function Stamp(existing: Option<PauseAnchor>, episodeId: nat, at: int): PauseAnchor {
    if existing.Some? && existing.value.episodeId == episodeId then existing.value
    else PauseAnchor(episodeId, at)
  }

  /** What the anchor file holds after a refresh that read `row` at time `at`. */
  function Anchored(existing: Option<PauseAnchor>, row: Option<IngestControlRow>, at: int): Option<PauseAnchor> {
    if row.Some? && row.value.resumedAt.None? then Some(Stamp(existing, row.value.id, at)) else None
  }

  /** The durable anchor file and one process's cached view, as one value. */
  datatype Plane = Plane(anchor: Option<PauseAnchor>, effective: EffectivePause, stale: bool)

  datatype Event =
    | Refreshed(row: Option<IngestControlRow>, at: int)       // the read succeeded and was applied
    | ReadFailed(at: int)                                     // Postgres did not answer
    | DiedInRefresh(row: Option<IngestControlRow>, at: int)   // killed after the anchor, before the view
    | Restarted(at: int)                                      // a new process: the view starts open

  function Applied(p: Plane, row: Option<IngestControlRow>, at: int): Plane {
    var anchor := Anchored(p.anchor, row, at);
    var firstObservedAt := if anchor.Some? then Some(anchor.value.firstObservedAt) else None;
    Plane(anchor, Effective(row, firstObservedAt, at), false)
  }

  function Step(p: Plane, e: Event): Plane {
    match e
    case Refreshed(row, at) => Applied(p, row, at)
    case ReadFailed(_) => p.(stale := true)
    case DiedInRefresh(row, at) => Plane(Anchored(p.anchor, row, at), OPEN, false)
    case Restarted(_) => p.(effective := OPEN, stale := false)
  }

  /** Event sequences are read from their end: the last event is the latest. */
  function Run(p: Plane, events: seq<Event>): Plane {
    if events == [] then p else Step(Run(p, events[..|events| - 1]), events[|events| - 1])
  }

  /** The daemon: the anchor file, the cached state, and `refreshPause` over both. */
  class PausePlane {
    var anchor: Option<PauseAnchor>
    const state: PauseState

    ghost function View(): Plane
      reads this, state
    {
      Plane(anchor, state.effective, state.lastRefreshFailed)
    }

    constructor (anchor: Option<PauseAnchor>)
      ensures View() == Plane(anchor, OPEN, false) && fresh(state)
    {
      this.anchor := anchor;
      state := new PauseState();
    }

    method StampPauseAnchor(episodeId: nat, at: int) returns (stamped: PauseAnchor)
      modifies this`anchor
      ensures stamped == Stamp(old(anchor), episodeId, at) && anchor == Some(stamped)
    {
      if anchor.Some? && anchor.value.episodeId == episodeId { return anchor.value; }
      stamped := PauseAnchor(episodeId, at);
      anchor := Some(stamped);
    }

    /** `read` is None when the query threw. */
    method RefreshPause(read: Option<Option<IngestControlRow>>, now: int)
      modifies this`anchor, state
      ensures View() == Step(old(View()), if read.None? then ReadFailed(now) else Refreshed(read.value, now))
    {
      if read.None? {
        state.ObserveUnavailable();
        return;
      }
      var row := read.value;
      var firstObservedAt: Option<int> := None;
      if row.Some? && row.value.resumedAt.None? {
        var stamped := StampPauseAnchor(row.value.id, now);
        firstObservedAt := Some(stamped.firstObservedAt);
      } else {
        anchor := None;
      }
      state.Observe(Effective(row, firstObservedAt, now));
    }
  }

  // ---- one episode, over any run of refreshes, failures, crashes and restarts ----

  /** Every successful read returns `row`, and time does not run backwards. */
  ghost predicate OneEpisode(events: seq<Event>, row: IngestControlRow) {
    && (forall i :: 0 <= i < |events| ==>
          (events[i].Refreshed? || events[i].DiedInRefresh?) ==> events[i].row == Some(row))
    && (forall i, j :: 0 <= i < j < |events| ==> events[i].at <= events[j].at)
  }

  /** When the episode was first observed: what the anchor file already held about it, or else the
      time of the first event that reached the file. */
  function FirstObserved(p: Plane, events: seq<Event>, id: nat): Option<int> {
    if events == [] then
      if p.anchor.Some? && p.anchor.value.episodeId == id then Some(p.anchor.value.firstObservedAt) else None
    else
      var earlier := FirstObserved(p, events[..|events| - 1], id);
      var e := events[|events| - 1];
      if earlier.Some? then earlier
      else if e.Refreshed? || e.DiedInRefresh? then Some(e.at) else None
  }

  /** The running process has applied at least one successful read. */
  predicate Informed(events: seq<Event>) {
    events != [] &&
    var e := events[|events| - 1];
    match e
    case Refreshed(_, _) => true
    case ReadFailed(_) => Informed(events[..|events| - 1])
    case DiedInRefresh(_, _) => false
    case Restarted(_) => false
  }

  lemma {:induction false} OneEpisodeState(p: Plane, events: seq<Event>, row: IngestControlRow)
    requires row.resumedAt.None?
    requires OneEpisode(events, row)
    ensures var first := FirstObserved(p, events, row.id);
            Run(p, events).anchor == if first.Some? then Some(PauseAnchor(row.id, first.value)) else p.anchor
    ensures FirstObserved(p, events, row.id).None? ==>
              p.anchor.None? || p.anchor.value.episodeId != row.id
    ensures Informed(events) ==>
              && FirstObserved(p, events, row.id).Some?
              && (exists i ::
                    && 0 <= i < |events| && events[i].Refreshed?
                    && Run(p, events).effective
                       == Effective(Some(row), Some(FirstObserved(p, events, row.id).value), events[i].at))
  {
    if events != [] {
      var init := events[..|events| - 1];
      OneEpisodeState(p, init, row);
      var e := events[|events| - 1];
      assert forall i :: 0 <= i < |init| ==> init[i] == events[i];
      if e.Refreshed? { assert events[|events| - 1].row == Some(row); }
    }
  }

  /** The clamp over whole runs. However refreshes, failed reads, deaths between the anchor and
      the view, and restarts interleave, one unresumed episode has ONE deadline: the requested
      instant cut to CAP past the row's own stamp and to CAP past the first observation ever made.
      A process that has read the row once holds the gate closed exactly until it — a failed read
      moves it neither way. */
  lemma ClampOverRuns(p: Plane, events: seq<Event>, row: IngestControlRow, now: int)
    requires row.resumedAt.None?
    requires OneEpisode(events, row)
    requires Informed(events)
    requires forall i :: 0 <= i < |events| ==> events[i].at <= now
    ensures FirstObserved(p, events, row.id).Some?
    ensures var first := FirstObserved(p, events, row.id).value;
            var deadline := Deadline(row, first);
            && PausedUntil(Run(p, events).effective, now) == (if now < deadline then Some(deadline) else None)
            && deadline <= row.pausedUntil
            && deadline <= row.rowWrittenAt + PAUSE_CAP_MS
            && deadline <= first + PAUSE_CAP_MS
  {
    OneEpisodeState(p, events, row);
  }
}
