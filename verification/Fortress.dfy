/** The running fortress as a storage migration meets it: two buckets, the pause episodes and the
    daemon's CACHED view of them, the clients' calls in flight, and one clock. Everything the
    migration does not do itself is an `Action`; between any two of the migration's own steps the
    event loop may play any script of them. */
module Fortress {
  import opened Wrappers
  import opened Bytes
  import opened IngestControl
  import opened PauseGate

  // ---- buckets ----

  datatype SessionKey = SessionKey(userId: string, family: string, sessionId: string)

  /** A session owns its own objects and those of its agent lanes, `<sessionId>:a:<agentId>`. */
  predicate Owns(key: SessionKey, session: SessionKey) {
    && session.userId == key.userId
    && session.family == key.family
    && (session.sessionId == key.sessionId || key.sessionId + ":a:" <= session.sessionId)
  }

  const CANONICAL := "log.jsonl"

  datatype ObjectId = ObjectId(session: SessionKey, name: string)

  function Log(session: SessionKey): ObjectId { ObjectId(session, CANONICAL) }

  type Bucket = map<ObjectId, Bytes>

  /** The canonical a session has at each length it ever had: the hypothesis that a change of a
      canonical changes its byte length. */
  type Versions = (SessionKey, nat) -> Bytes

  ghost predicate Versioned(v: Versions, bucket: Bucket) {
    forall k: SessionKey :: Log(k) in bucket ==> bucket[Log(k)] == v(k, |bucket[Log(k)]|)
  }

  /** Everything `source` holds for a session it still lists is in `target`, byte for byte. */
  ghost predicate Mirrored(key: SessionKey, source: Bucket, target: Bucket) {
    Log(key) in source ==>
      forall o: ObjectId :: o in source && o.session == key ==> o in target && target[o] == source[o]
  }

  ghost predicate AllMirrored(source: Bucket, target: Bucket) {
    forall k: SessionKey :: Mirrored(k, source, target)
  }

  ghost predicate Covered(session: SessionKey, tombstones: seq<SessionKey>) {
    exists t :: t in tombstones && Owns(t, session)
  }

  /** No object of a permanently deleted session, or of one of its lanes, is left. */
  ghost predicate Gone(bucket: Bucket, tombstones: seq<SessionKey>) {
    forall o: ObjectId :: o in bucket ==> !Covered(o.session, tombstones)
  }

  ghost predicate NoLoss(source: Bucket, target: Bucket, tombstones: seq<SessionKey>) {
    forall k: SessionKey :: !Covered(k, tombstones) ==> Mirrored(k, source, target)
  }

  // ---- the world ----

  /** One row of hx.ingest_control, and when the run decided to insert it. */
  datatype Episode = Episode(issuedAt: int, row: IngestControlRow)

  /** How prompt the process is assumed to be: beats complete at most `beatGap` apart, and the
      gate's cached view is never more than `staleness` behind the newest row. */
  datatype Pace = Pace(beatGap: nat, staleness: nat)

  /** The clients' side of the gate. */
  datatype Clients = Clients(
    calls: nat,                     // gated calls admitted and not yet finished
    quiesce: Quiesce,
    signatures: seq<int>,           // expiry of every signature noted
    admissions: nat,                // gated calls admitted so far
    runOff: Option<int>)            // the signature floor when the drain was armed

  /** The pause: the rows, and the daemon's cached view of them. */
  datatype Pause = Pause(
    rows: seq<Episode>,             // pause episodes, oldest first
    gate: EffectivePause,           // what the gate is enforcing
    seen: int,                      // index of the row `gate` was computed from; -1 before any
    beatAt: Option<int>,            // when the last completed beat of the pause began
    sealedAt: Option<int>)          // when the gate was first proven closed

  /** What Postgres holds about one migration run: when the run was first started, the sessions it
      has recorded as copied, and every permanent delete, with its stamp. */
  datatype Database = Database(
    startedAt: int,
    records: set<SessionKey>,
    deleted: map<SessionKey, int>)

  datatype World = World(
    now: int,
    source: Bucket,
    target: Bucket,
    db: Database,
    pause: Pause,
    clients: Clients,
    pace: Pace,
    punctual: bool,                 // beats and gate refreshes have kept the pace
    inOrder: bool,                  // no refresh has landed behind one already observed
    prompt: bool,                   // calls ended, and drained signatures expire, within a minute
    reopened: bool,                 // the gate was open at some instant after it was proven closed
    trace: seq<Move>)               // everything that has happened, oldest first

  const MINUTE := 60 * 1000

  datatype Action =
    | Tick(ms: nat)
    | Admit                                                // the gate lets a call in
    | Change(object: ObjectId, text: Option<Bytes>)        // a call in flight writes or deletes
    | Finish(signature: Option<int>)                       // a call ends, noting what it signed
    | Observe(index: int, firstObservedAt: int, at: int)   // a refresh of the gate lands
    | MarkDeleted(key: SessionKey, at: int)                // a permanent delete is recorded

  /** What can happen: a turn of everybody else's, or a step of the run's own. */
  datatype Move =
    | Turn(action: Action)
    | Armed(issuedAt: int, until: int)                     // a new episode row
    | Beat(at: int)                                        // a heartbeat that began at `at` is over
    | Put(object: ObjectId, text: Bytes)                   // a write into the target
    | Removed(objects: set<ObjectId>)                      // a delete there
    | Copied(session: SessionKey)                          // a copy is put on record
    | DrainArmed
    | ProvenClosed
    | Released(index: nat)                                 // an episode is resumed

  predicate Enabled(v: Versions, w: World, a: Action) {
    match a
    case Tick(_) => true
    case Admit => PausedUntil(w.pause.gate, w.now).None?
    case Change(o, text) =>
      w.clients.calls > 0 && (text.Some? && o.name == CANONICAL ==> text.value == v(o.session, |text.value|))
    case Finish(_) => w.clients.calls > 0
    case Observe(i, first, at) =>
      && -1 <= i < |w.pause.rows|
      && at <= w.now
      && (i >= 0 ==> w.pause.rows[i].row.rowWrittenAt <= first <= at)
    case MarkDeleted(_, at) => at <= w.now
  }

  /** The id before any lane: tombstones are kept by it. */
  function BaseOf(sessionId: string): string {
    if sessionId == "" || sessionId[0] == ':' then "" else [sessionId[0]] + BaseOf(sessionId[1..])
  }

  ghost predicate BaseKeys(db: Database) {
    forall t :: t in db.deleted ==> BaseOf(t.sessionId) == t.sessionId
  }

  /** A tombstone keeps the stamp it was first given. */
  function Deleted(deleted: map<SessionKey, int>, key: SessionKey, at: int): map<SessionKey, int> {
    var base := key.(sessionId := BaseOf(key.sessionId));
    if base in deleted then deleted else deleted[base := at]
  }

  /** The run has a copy on record that such a delete is about. */
  predicate CarriedByRun(db: Database, t: SessionKey) {
    exists r :: r in db.records && r.userId == t.userId && BaseOf(r.sessionId) == t.sessionId
  }

  /** The deletes a run has to replay: those since it started, and those of what it has carried. */
  function Tombstones(db: Database): (r: set<SessionKey>)
    ensures forall t :: t in r <==> t in db.deleted && (db.deleted[t] >= db.startedAt || CarriedByRun(db, t))
  {
    set t | t in db.deleted && (db.deleted[t] >= db.startedAt || CarriedByRun(db, t))
  }

  predicate InTime(w: World) {
    && (w.pause.beatAt.Some? ==> w.now <= w.pause.beatAt.value + w.pace.beatGap)
    && (-1 <= w.pause.seen && w.pause.seen + 1 < |w.pause.rows| ==>
          w.now <= w.pause.rows[w.pause.seen + 1].row.rowWrittenAt + w.pace.staleness)
  }

  predicate Prompt(w: World) {
    w.clients.calls > 0 && w.pause.sealedAt.Some? ==> w.now <= w.pause.sealedAt.value + MINUTE
  }

  function FinishCall(c: Clients, signature: Option<int>): Clients {
    var quiesce := c.quiesce.Leave();
    c.(calls := if c.calls > 0 then c.calls - 1 else 0,
       quiesce := if signature.Some? then quiesce.NoteSignature(signature.value) else quiesce,
       signatures := if signature.Some? then c.signatures + [signature.value] else c.signatures)
  }

  function Effect(w: World, a: Action): World {
    match a
    case Tick(ms) => w.(now := w.now + ms)
    case Admit =>
      w.(clients := w.clients.(calls := w.clients.calls + 1, quiesce := w.clients.quiesce.Enter(),
                               admissions := w.clients.admissions + 1))
    case Change(o, text) =>
      w.(source := if text.Some? then w.source[o := text.value] else w.source - {o})
    case Finish(signature) =>
      w.(clients := FinishCall(w.clients, signature),
         prompt := w.prompt && (signature.Some? && w.clients.runOff.Some? ==>
                                  signature.value <= w.now + ARMED_PRESIGN_TTL_MS))
    case Observe(i, first, at) =>
      var rows := w.pause.rows;
      w.(pause := w.pause.(seen := i,
           gate := if 0 <= i < |rows| then Effective(Some(rows[i].row), Some(first), at) else OPEN))
    case MarkDeleted(k, at) => w.(db := w.db.(deleted := Deleted(w.db.deleted, k, at)))
  }

  /** The gate lets writes in, though it was proven closed before. */
  predicate OpenAgain(w: World) { w.pause.sealedAt.Some? && PausedUntil(w.pause.gate, w.now).None? }

  /** The hypotheses about timing are flags that, once broken, stay broken. A refresh that lands out
      of order, behind one already observed, breaks the first as well. */
  function Apply(w: World, a: Action): World {
    var w' := Effect(w, a);
    w'.(punctual := w.punctual && InTime(w') && w.pause.seen <= w'.pause.seen,
        inOrder := w.inOrder && w.pause.seen <= w'.pause.seen,
        prompt := w'.prompt && (a.Tick? ==> Prompt(w')),
        reopened := w.reopened || OpenAgain(w'),
        trace := w.trace + [Turn(a)])
  }

  predicate Playable(v: Versions, w: World, script: seq<Action>)
    decreases |script|
  {
    script == [] || (Enabled(v, w, script[0]) && Playable(v, Apply(w, script[0]), script[1..]))
  }

  function Play(w: World, script: seq<Action>): World
    decreases |script|
  {
    if script == [] then w else Play(Apply(w, script[0]), script[1..])
  }

  /** What no script can undo or reach. */
  ghost predicate Later(w: World, w': World) {
    && w.now <= w'.now
    && w'.target == w.target
    && w'.pause.rows == w.pause.rows
    && w'.pause.beatAt == w.pause.beatAt
    && w'.pause.sealedAt == w.pause.sealedAt
    && w'.clients.runOff == w.clients.runOff
    && w'.pace == w.pace
    && w.db.startedAt == w'.db.startedAt
    && w.db.records == w'.db.records
    && w.trace <= w'.trace
    && w.clients.admissions <= w'.clients.admissions
    && (w'.punctual ==> w.punctual)
    && (w'.inOrder ==> w.inOrder)
    && (w'.prompt ==> w.prompt)
  }

  // ---- the pause ----

  /** The window one episode asks for, and the instant no episode may pass. */
  datatype Budget = Budget(heartbeatMs: nat, endsAt: int)

  /** Timing is still as assumed, and the budget is not spent. Never true again once false. */
  predicate Hold(w: World, b: Budget) { w.punctual && w.now < b.endsAt }

  /** The rows the run wrote, in the order it wrote them. */
  ghost predicate RowsWritten(rows: seq<Episode>, b: Budget) {
    && (forall i :: 0 <= i < |rows| ==>
          && rows[i].row.resumedAt.None?
          && rows[i].issuedAt <= rows[i].row.rowWrittenAt
          && rows[i].row.pausedUntil == Min(b.endsAt, rows[i].issuedAt + b.heartbeatMs))
    && (forall i, j :: 0 <= i < j < |rows| ==> rows[i].issuedAt <= rows[j].issuedAt)
  }

  ghost predicate RowsInOrder(w: World, b: Budget) {
    && RowsWritten(w.pause.rows, b)
    && (forall i :: 0 <= i < |w.pause.rows| ==> w.pause.rows[i].row.rowWrittenAt <= w.now)
    && -1 <= w.pause.seen < |w.pause.rows|
    && (w.pause.seen == -1 ==> w.pause.gate.pausedUntil.None?)
    && (w.pause.seen >= 0 ==>
          var until := w.pause.rows[w.pause.seen].row.pausedUntil;
          w.pause.gate.pausedUntil == Some(until) || (w.pause.gate.pausedUntil.None? && until <= w.now))
  }

  /** An episode outlived the one that followed it by half a heartbeat less a beat. */
  ghost predicate Outlived(e: Episode, next: Episode, b: Budget, beatGap: nat) {
    || e.row.pausedUntil == b.endsAt
    || 2 * (e.row.pausedUntil - next.row.rowWrittenAt + beatGap) > b.heartbeatMs
  }

  ghost predicate Overlapping(w: World, b: Budget) {
    && (forall i, j :: 0 <= i < j < |w.pause.rows| && j == i + 1 ==>
          Outlived(w.pause.rows[i], w.pause.rows[j], b, w.pace.beatGap))
    && (w.pause.rows != [] && w.pause.beatAt.Some? ==>
          || w.pause.rows[|w.pause.rows| - 1].row.pausedUntil == b.endsAt
          || 2 * (w.pause.rows[|w.pause.rows| - 1].row.pausedUntil - w.pause.beatAt.value) > b.heartbeatMs)
  }

  ghost predicate Paced(w: World, b: Budget) {
    && 0 < b.heartbeatMs <= PAUSE_CAP_MS
    && 2 * (w.pace.beatGap + w.pace.staleness) <= b.heartbeatMs
  }

  ghost predicate PauseKept(w: World, b: Budget) {
    && Paced(w, b)
    && RowsInOrder(w, b)
    && (w.punctual ==> InTime(w))
    && (Hold(w, b) ==> Overlapping(w, b))
  }

  /** While the pace is kept, the row the gate is enforcing has not run out: requests are renewed
      half a window early, and the gate learns of a renewal before the old window closes. */
  lemma EnforcedRowUnexpired(w: World, b: Budget)
    requires Paced(w, b) && RowsInOrder(w, b) && InTime(w) && Overlapping(w, b)
    requires w.now < b.endsAt && w.pause.seen >= 0 && w.pause.beatAt.Some?
    ensures w.now < w.pause.rows[w.pause.seen].row.pausedUntil
  {
    hide RowsWritten;
  }

  lemma GateClosedWhileHeld(w: World, b: Budget)
    requires PauseKept(w, b) && Hold(w, b) && w.pause.seen >= 0 && w.pause.beatAt.Some?
    ensures PausedUntil(w.pause.gate, w.now).Some?
  {
    EnforcedRowUnexpired(w, b);
  }

  /** The gate never enforces past the newest request, nor past the budget. */
  lemma EnforcedWithinRequest(w: World, b: Budget)
    requires RowsInOrder(w, b) && w.pause.gate.pausedUntil.Some?
    ensures w.pause.rows != []
    ensures var last := w.pause.rows[|w.pause.rows| - 1].row.pausedUntil;
            w.pause.gate.pausedUntil.value <= last <= b.endsAt
  {
    assert w.pause.rows[w.pause.seen].issuedAt <= w.pause.rows[|w.pause.rows| - 1].issuedAt;
  }

  // ---- what is known at each phase of a run ----

  datatype Phase =
    | Ingesting
    | Arming(budget: Budget)                                   // rows are being written
    | Sealed(budget: Budget, admitted: nat)                    // the gate was proven closed
    | Frozen(budget: Budget, admitted: nat, held: Bucket)      // and the store was seen quiet

  ghost predicate Accounted(w: World) {
    && w.clients.calls == w.clients.quiesce.inFlight
    && (forall s :: s in w.clients.signatures ==> s <= w.clients.quiesce.signatureFloorMs)
    && (w.prompt && w.clients.runOff.Some? && w.pause.sealedAt.None? ==>
          || w.clients.quiesce.signatureFloorMs <= w.clients.runOff.value
          || w.clients.quiesce.signatureFloorMs <= w.now + MINUTE)
  }

  ghost predicate SealKept(w: World, b: Budget, admitted: nat) {
    && w.pause.beatAt.Some?
    && w.pause.sealedAt.Some?
    && w.pause.sealedAt.value <= w.now
    && w.pause.rows != []
    && w.pause.rows[0].issuedAt <= w.pause.sealedAt.value
    && w.clients.runOff.Some?
    && (Hold(w, b) ==>
          && w.pause.seen >= 0
          && !w.reopened
          && w.clients.admissions == admitted
          && (w.prompt ==>
                && Prompt(w)
                && w.clients.quiesce.signatureFloorMs <= w.pause.sealedAt.value + 2 * MINUTE))
  }

  ghost predicate Known(v: Versions, w: World, phase: Phase) {
    && Versioned(v, w.source)
    && Accounted(w)
    && (w.pause.sealedAt.None? ==> !w.reopened)
    && (phase.Ingesting? ==>
          && w.pause.rows == [] && w.pause.seen == -1 && w.pause.gate == OPEN
          && w.pause.beatAt.None? && w.pause.sealedAt.None?)
    && (phase.Arming? ==> PauseKept(w, phase.budget) && w.pause.sealedAt.None?)
    && (phase.Sealed? || phase.Frozen? ==>
          PauseKept(w, phase.budget) && SealKept(w, phase.budget, phase.admitted))
    && (phase.Frozen? ==> Hold(w, phase.budget) ==> w.source == phase.held && w.clients.calls == 0)
  }

  /** A step that touches neither the clock nor the view leaves the pause as it was. */
  lemma PauseUntouched(w: World, w': World, b: Budget)
    requires PauseKept(w, b)
    requires w'.pause.rows == w.pause.rows && w'.pause.gate == w.pause.gate && w'.pause.seen == w.pause.seen
    requires w'.pause.beatAt == w.pause.beatAt && w'.pace == w.pace
    requires w.now <= w'.now
    requires w'.punctual ==> w.punctual && InTime(w')
    ensures PauseKept(w', b)
  {
    hide RowsWritten, Outlived;
  }

  /** A refresh that reads a row of the run's own enforces it as asked. */
  lemma ObservedGate(w: World, i: int, first: int, at: int, b: Budget)
    requires Paced(w, b) && RowsInOrder(w, b)
    requires 0 <= i < |w.pause.rows| && w.pause.rows[i].row.rowWrittenAt <= first <= at
    ensures Effective(Some(w.pause.rows[i].row), Some(first), at).pausedUntil
         == if at < w.pause.rows[i].row.pausedUntil then Some(w.pause.rows[i].row.pausedUntil) else None
  {
    UnclampedWithinCap(w.pause.rows[i].row, first, at);
  }

  lemma PauseKeptByObserve(v: Versions, w: World, a: Action, b: Budget)
    requires PauseKept(w, b) && Enabled(v, w, a) && a.Observe?
    ensures PauseKept(Apply(w, a), b)
  {
    hide RowsWritten, Outlived;
    var w' := Apply(w, a);
    assert w'.pause.rows == w.pause.rows && w'.pause.beatAt == w.pause.beatAt && w'.now == w.now;
    if a.index >= 0 {
      ObservedGate(w, a.index, a.firstObservedAt, a.at, b);
    }
  }

  lemma LaterByStep(w: World, a: Action)
    ensures Later(w, Apply(w, a))
    ensures Apply(w, a).punctual ==> InTime(Apply(w, a))
    ensures !a.Observe? ==> Apply(w, a).pause == w.pause
    ensures !a.Change? ==> Apply(w, a).source == w.source
  {
  }

  lemma PauseKeptByStep(v: Versions, w: World, a: Action, b: Budget)
    requires PauseKept(w, b) && Enabled(v, w, a)
    ensures PauseKept(Apply(w, a), b)
  {
    hide RowsWritten, Outlived;
    LaterByStep(w, a);
    if a.Observe? {
      PauseKeptByObserve(v, w, a, b);
    } else {
      var w' := Apply(w, a);
      PauseUntouched(w, w', b);
    }
  }

  lemma AccountedByStep(v: Versions, w: World, a: Action)
    requires Accounted(w) && Enabled(v, w, a)
    ensures Accounted(Apply(w, a))
  {
  }

  lemma SealKeptByStep(v: Versions, w: World, a: Action, b: Budget, admitted: nat)
    requires PauseKept(w, b) && SealKept(w, b, admitted) && Enabled(v, w, a)
    ensures SealKept(Apply(w, a), b, admitted)
  {
    hide RowsWritten, Outlived;
    if Hold(Apply(w, a), b) {
      GateClosedWhileHeld(w, b);
      PauseKeptByStep(v, w, a, b);
      GateClosedWhileHeld(Apply(w, a), b);
    }
  }

  lemma KnownByStep(v: Versions, w: World, a: Action, phase: Phase)
    requires Known(v, w, phase) && Enabled(v, w, a)
    ensures Known(v, Apply(w, a), phase) && Later(w, Apply(w, a))
  {
    hide RowsWritten, Outlived;
    AccountedByStep(v, w, a);
    if !phase.Ingesting? { PauseKeptByStep(v, w, a, phase.budget); }
    if phase.Sealed? || phase.Frozen? {
      SealKeptByStep(v, w, a, phase.budget, phase.admitted);
      if Hold(Apply(w, a), phase.budget) { GateClosedWhileHeld(w, phase.budget); }
    }
  }

  lemma {:induction false} KnownByScript(v: Versions, w: World, script: seq<Action>, phase: Phase)
    requires Known(v, w, phase) && Playable(v, w, script)
    ensures Known(v, Play(w, script), phase) && Later(w, Play(w, script))
    decreases |script|
  {
    if script != [] {
      KnownByStep(v, w, script[0], phase);
      KnownByScript(v, Apply(w, script[0]), script[1..], phase);
    }
  }

  // ---- once the gate is closed for long enough ----

  /** The gate is closed until `until` at least, over a quiet store. */
  ghost predicate Shut(w: World, b: Budget, admitted: nat, held: Bucket, until: int) {
    && PauseKept(w, b)
    && w.pause.seen >= 0
    && w.pause.gate.pausedUntil.Some? && until <= w.pause.gate.pausedUntil.value
    && !w.reopened
    && w.clients.admissions == admitted && w.clients.calls == 0
    && w.source == held
  }

  lemma ShutByHold(v: Versions, w: World, phase: Phase, until: int)
    requires Known(v, w, phase) && phase.Frozen? && Hold(w, phase.budget)
    requires w.pause.gate.pausedUntil.Some? && until <= w.pause.gate.pausedUntil.value
    ensures Shut(w, phase.budget, phase.admitted, phase.held, until)
  {
    hide PauseKept, Versioned, Accounted;
  }

  lemma ShutByStep(v: Versions, w: World, a: Action, b: Budget, admitted: nat, held: Bucket, until: int)
    requires Shut(w, b, admitted, held, until) && Enabled(v, w, a)
    requires Apply(w, a).inOrder && Apply(w, a).now < until
    ensures Shut(Apply(w, a), b, admitted, held, until)
  {
    hide RowsWritten, Outlived, Overlapping;
    LaterByStep(w, a);
    PauseKeptByStep(v, w, a, b);
    if a.Observe? {
      ObservedGate(w, a.index, a.firstObservedAt, a.at, b);
      RowsLast(w.pause.rows, w.pause.seen, a.index, b);
    }
  }

  lemma RowsLast(rows: seq<Episode>, i: nat, j: nat, b: Budget)
    requires RowsWritten(rows, b) && i <= j < |rows|
    ensures rows[i].row.pausedUntil <= rows[j].row.pausedUntil
  {
    if i < j { assert rows[i].issuedAt <= rows[j].issuedAt; }
  }

  /** Until then it stays so whatever happens, and however late anybody is: refreshes need only land in
      order. */
  lemma {:induction false} ShutByScript(v: Versions, w: World, script: seq<Action>, b: Budget, admitted: nat,
                                        held: Bucket, until: int)
    requires Shut(w, b, admitted, held, until) && Playable(v, w, script)
    requires Play(w, script).inOrder && Play(w, script).now < until
    ensures Shut(Play(w, script), b, admitted, held, until)
    decreases |script|
  {
    if script != [] {
      hide Shut, Later;
      LaterByPlay(Apply(w, script[0]), script[1..]);
      ShutByStep(v, w, script[0], b, admitted, held, until);
      ShutByScript(v, Apply(w, script[0]), script[1..], b, admitted, held, until);
    }
  }

  lemma {:induction false} LaterByPlay(w: World, script: seq<Action>)
    ensures w.now <= Play(w, script).now && (Play(w, script).inOrder ==> w.inOrder)
    decreases |script|
  {
    if script != [] {
      LaterByStep(w, script[0]);
      LaterByPlay(Apply(w, script[0]), script[1..]);
    }
  }

  lemma StaysShut(v: Versions, w: World, script: seq<Action>, phase: Phase, until: int)
    requires Known(v, w, phase) && phase.Frozen? && Hold(w, phase.budget)
    requires w.pause.gate.pausedUntil.Some? && until <= w.pause.gate.pausedUntil.value
    requires Playable(v, w, script) && Play(w, script).inOrder && Play(w, script).now < until
    ensures Shut(Play(w, script), phase.budget, phase.admitted, phase.held, until)
  {
    hide Known, Shut;
    ShutByHold(v, w, phase, until);
    ShutByScript(v, w, script, phase.budget, phase.admitted, phase.held, until);
  }

  // ---- what the run itself writes ----

  /** A new episode row. */
  function Insert(w: World, issuedAt: int, until: int): World {
    var row := IngestControlRow(|w.pause.rows|, until, None, w.now);
    w.(pause := w.pause.(rows := w.pause.rows + [Episode(issuedAt, row)]), trace := w.trace + [Armed(issuedAt, until)])
  }

  /** A beat that began at `at` has completed. */
  function Beaten(w: World, at: int): World {
    var w' := w.(pause := w.pause.(beatAt := Some(at)), trace := w.trace + [Beat(at)]);
    w'.(punctual := w.punctual && InTime(w'))
  }

  function Written(w: World, o: ObjectId, text: Bytes): World {
    w.(target := w.target[o := text], trace := w.trace + [Put(o, text)])
  }

  function Erased(w: World, objects: set<ObjectId>): World {
    w.(target := w.target - objects, trace := w.trace + [Removed(objects)])
  }

  function Recorded(w: World, session: SessionKey): World {
    w.(db := w.db.(records := w.db.records + {session}), trace := w.trace + [Copied(session)])
  }

  /** The newest episode, released. */
  function Resumed(w: World, index: nat): World {
    var rows := w.pause.rows;
    w.(pause := if index < |rows|
                then w.pause.(rows := rows[index := rows[index].(row := rows[index].row.(resumedAt := Some(w.now)))])
                else w.pause,
       trace := w.trace + [Released(index)])
  }

  lemma KnownByOwnStores(v: Versions, w: World, w': World, phase: Phase)
    requires Known(v, w, phase)
    requires w' == w.(target := w'.target, db := w'.db, trace := w'.trace)
    ensures Known(v, w', phase)
  {
    hide RowsWritten, Outlived;
  }

  lemma OverlappingByInsert(w: World, b: Budget, issuedAt: int, until: int)
    requires Overlapping(w, b) && InTime(w)
    requires until == Min(b.endsAt, issuedAt + b.heartbeatMs) && 0 < b.heartbeatMs
    requires w.pause.beatAt.Some? ==> w.pause.beatAt.value <= issuedAt
    requires w.pause.rows != [] ==> w.pause.beatAt.Some?
    ensures Overlapping(Insert(w, issuedAt, until), b)
  {
    var rows, rows' := w.pause.rows, Insert(w, issuedAt, until).pause.rows;
    forall i, j | 0 <= i < j < |rows'| && j == i + 1
      ensures Outlived(rows'[i], rows'[j], b, w.pace.beatGap)
    {
      assert rows'[i] == rows[i];
      if j < |rows| { assert rows'[j] == rows[j]; }
    }
  }

  lemma RowsWrittenByInsert(rows: seq<Episode>, e: Episode, b: Budget)
    requires RowsWritten(rows, b)
    requires e.row.resumedAt.None? && e.issuedAt <= e.row.rowWrittenAt
    requires e.row.pausedUntil == Min(b.endsAt, e.issuedAt + b.heartbeatMs)
    requires rows != [] ==> rows[|rows| - 1].issuedAt <= e.issuedAt
    ensures RowsWritten(rows + [e], b)
  {
  }

  lemma KnownByInsert(v: Versions, w: World, phase: Phase, issuedAt: int, until: int)
    requires Known(v, w, phase) && !phase.Ingesting?
    requires issuedAt <= w.now
    requires until == Min(phase.budget.endsAt, issuedAt + phase.budget.heartbeatMs)
    requires w.pause.beatAt.Some? ==> w.pause.beatAt.value <= issuedAt
    requires w.pause.rows != [] ==>
               w.pause.beatAt.Some? && w.pause.rows[|w.pause.rows| - 1].issuedAt <= issuedAt
    ensures Known(v, Insert(w, issuedAt, until), phase)
  {
    hide Outlived, Overlapping, RowsWritten;
    var w' := Insert(w, issuedAt, until);
    RowsWrittenByInsert(w.pause.rows, w'.pause.rows[|w.pause.rows|], phase.budget);
    if Hold(w, phase.budget) { OverlappingByInsert(w, phase.budget, issuedAt, until); }
  }

  lemma KnownByBeat(v: Versions, w: World, phase: Phase, at: int)
    requires Known(v, w, phase) && !phase.Ingesting?
    requires w.pause.rows != [] && at <= w.now
    requires var until := w.pause.rows[|w.pause.rows| - 1].row.pausedUntil;
             until == phase.budget.endsAt || 2 * (until - at) > phase.budget.heartbeatMs
    ensures Known(v, Beaten(w, at), phase)
  {
    hide RowsWritten, Outlived;
  }

  // ---- from one phase to the next ----

  /** Arm the drain and, in the same instant, read what there is to run off. */
  function Drained(w: World): World {
    w.(clients := w.clients.(runOff := Some(w.clients.quiesce.signatureFloorMs)), trace := w.trace + [DrainArmed])
  }

  function Seal(w: World): World {
    w.(pause := w.pause.(sealedAt := Some(w.now)), trace := w.trace + [ProvenClosed])
  }

  lemma KnownByDrain(v: Versions, w: World)
    requires Known(v, w, Ingesting)
    ensures Known(v, Drained(w), Ingesting)
  {
  }

  /** The gate has been seen closed. From here on, while timing holds, nothing more is let in. */
  lemma KnownBySeal(v: Versions, w: World, b: Budget)
    requires Known(v, w, Arming(b)) && w.pause.beatAt.Some?
    requires PausedUntil(w.pause.gate, w.now).Some?
    requires w.clients.runOff.Some? && w.clients.runOff.value <= w.now
    ensures Known(v, Seal(w), Sealed(b, w.clients.admissions))
  {
    hide Outlived;
    assert PauseKept(Seal(w), b);
  }

  /** The store has been seen quiet under a closed gate. From here on, while timing holds, the
      source does not change. */
  lemma KnownByQuiet(v: Versions, w: World, b: Budget, admitted: nat)
    requires Known(v, w, Sealed(b, admitted)) && w.clients.calls == 0
    ensures Known(v, w, Frozen(b, admitted, w.source))
  {
  }

  // ---- why the timing is assumed ----

  lemma PlayTwo(v: Versions, w: World, a: Action, b: Action)
    requires Enabled(v, w, a) && Enabled(v, Apply(w, a), b)
    ensures Playable(v, w, [a, b]) && Play(w, [a, b]) == Apply(Apply(w, a), b)
  {
    assert [a, b][1..] == [b];
    assert [b][1..] == [];
    assert Playable(v, Apply(w, a), [b]);
    assert Play(Apply(w, a), [b]) == Apply(Apply(w, a), b);
  }

  /** A heartbeat renews the REQUEST. If the gate is not refreshed before the row it saw runs out,
      it opens with the newest request still standing, and lets a write in. */
  lemma UnrefreshedGateReopens(v: Versions, w: World) returns (script: seq<Action>)
    requires w.pause.rows != [] && PausedUntil(w.pause.gate, w.now).Some?
    requires w.pause.gate.pausedUntil.value < w.pause.rows[|w.pause.rows| - 1].row.pausedUntil
    ensures Playable(v, w, script)
    ensures var w' := Play(w, script);
            && w'.pause == w.pause
            && PausedUntil(w'.pause.gate, w'.now).None?
            && w'.now < w.pause.rows[|w.pause.rows| - 1].row.pausedUntil
            && w'.clients.admissions == w.clients.admissions + 1
  {
    var tick := Tick(w.pause.gate.pausedUntil.value - w.now);
    script := [tick, Admit];
    PlayTwo(v, w, tick, Admit);
  }

  predicate NoRefresh(script: seq<Action>) {
    forall i :: 0 <= i < |script| ==> !script[i].Observe?
  }

  lemma {:induction false} UnrefreshedLeavesGate(w: World, script: seq<Action>)
    requires NoRefresh(script)
    ensures Play(w, script).pause == w.pause
    decreases |script|
  {
    if script != [] {
      LaterByStep(w, script[0]);
      UnrefreshedLeavesGate(Apply(w, script[0]), script[1..]);
    }
  }

  /** Without a refresh, the gate stays closed as long as the newest request stands. */
  ghost predicate HoldsUnrefreshed(v: Versions, w: World)
    requires w.pause.rows != []
  {
    forall script ::
      && Playable(v, w, script) && NoRefresh(script)
      && Play(w, script).now < w.pause.rows[|w.pause.rows| - 1].row.pausedUntil
      ==> PausedUntil(Play(w, script).pause.gate, Play(w, script).now).Some?
  }

  /** It does so exactly if its own deadline reaches that far: what a heartbeat adds to the request
      counts for nothing until the gate is refreshed. */
  lemma UnrefreshedGateExactly(v: Versions, w: World)
    requires w.pause.rows != [] && PausedUntil(w.pause.gate, w.now).Some?
    ensures HoldsUnrefreshed(v, w) <==>
              w.pause.rows[|w.pause.rows| - 1].row.pausedUntil <= w.pause.gate.pausedUntil.value
  {
    if w.pause.rows[|w.pause.rows| - 1].row.pausedUntil <= w.pause.gate.pausedUntil.value {
      forall script | Playable(v, w, script) && NoRefresh(script)
        ensures Play(w, script).pause == w.pause
      {
        UnrefreshedLeavesGate(w, script);
      }
    } else {
      var tick := Tick(w.pause.gate.pausedUntil.value - w.now);
      assert Playable(v, w, [tick]) && Play(w, [tick]) == Apply(w, tick) by {
        assert [tick][1..] == [];
        assert Playable(v, Apply(w, tick), []);
        assert Play(Apply(w, tick), []) == Apply(w, tick);
      }
      assert NoRefresh([tick]);
    }
  }

  /** Whatever row a refresh read, and however late it lands, the gate is closed after it if and only
      if that row was not released and its deadline is still to come. */
  lemma RefreshClosesExactly(v: Versions, w: World, a: Action)
    requires a.Observe? && Enabled(v, w, a)
    ensures var w' := Apply(w, a);
            PausedUntil(w'.pause.gate, w'.now).Some? <==>
              && a.index >= 0
              && w.pause.rows[a.index].row.resumedAt.None?
              && w.now < Deadline(w.pause.rows[a.index].row, a.firstObservedAt)
  {
  }

  /** Of a run's own rows: if and only if it read one, and the request in it has not run out. */
  lemma LateRefreshExactly(v: Versions, w: World, a: Action, b: Budget)
    requires a.Observe? && Enabled(v, w, a) && Paced(w, b) && RowsInOrder(w, b)
    ensures var w' := Apply(w, a);
            PausedUntil(w'.pause.gate, w'.now).Some? <==>
              a.index >= 0 && w.now < w.pause.rows[a.index].row.pausedUntil
  {
    RefreshClosesExactly(v, w, a);
    if a.index >= 0 { ObservedGate(w, a.index, a.firstObservedAt, a.at, b); }
  }

  /** A refresh that read the table before the first row was written, and lands after the gate was
      proven closed, opens it again at that very instant. */
  lemma LateRefreshReopens(v: Versions, w: World) returns (script: seq<Action>)
    requires w.pause.seen >= 0 && PausedUntil(w.pause.gate, w.now).Some?
    ensures Playable(v, w, script)
    ensures var w' := Play(w, script);
            && w'.now == w.now
            && PausedUntil(w'.pause.gate, w'.now).None?
            && w'.clients.admissions == w.clients.admissions + 1
            && !w'.punctual
  {
    var late := Observe(-1, 0, w.now);
    script := [late, Admit];
    PlayTwo(v, w, late, Admit);
  }
}
