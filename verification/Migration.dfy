/** One storage migration (src/console/migration.ts), as the object its closures share. Every wait
    is an `Await`: the fortress plays any script before the next line runs, and any store call may
    throw instead of answering (`ok` is false). `phase` is ghost: it says what is known about the
    fortress at that point of the run. */
module Migration {
  import opened Wrappers
  import opened Bytes
  import opened IngestControl
  import opened PauseGate
  import opened Fortress
  import opened History
  import opened Listing

  const FENCE_MARGIN_MS := 30000
  const GATE_POLL_MS := 250
  const BARRIER_POLL_MS := 250
  const DRAIN_POLL_MS := 1000
  const DELETE_BATCH_LIMIT := 800
  const MAX_DELETE_PASSES := 800

  datatype Mode = PlanOnly | CopyOnly | Switch

  datatype Refusal =
    | ClampedPause
    | NeverInForce
    | NotQuiet
    | PauseExpired
    | NearlySpent
    | CouldNotRebind

  datatype MigrationResult = MigrationResult(
    switched: bool,
    version: Option<nat>,
    aborted: Option<Refusal>,
    resumeFailed: bool)

  /** A run that was not interrupted by an exception either switched or says why it did not; and one
      that switched has nothing to say but that it could not bind to the target. */
  predicate Accounts(ok: bool, r: MigrationResult) {
    && (ok ==> r.switched || r.aborted.Some?)
    && (r.switched && r.aborted.Some? ==> r.aborted.value.CouldNotRebind?)
    && (r.aborted == Some(CouldNotRebind) ==> r.switched)
  }

  /** How far a run had come when it gave that reason: the pause was armed and the gate not yet
      proven closed, or it was proven closed. */
  predicate Reached(w: World, reason: Refusal) {
    if reason.ClampedPause? || reason.NeverInForce? then w.pause.rows != [] && w.pause.sealedAt.None?
    else w.pause.sealedAt.Some?
  }

  /** The instant credentials.json named the target: the world the run began in, the world when the
      gate was first proven closed, when the permanent deletes were listed, when the fence was passed,
      and at the cut, and the deletes that had been replayed. */
  datatype Cut = Cut(
    origin: World,
    proof: World,
    listed: World,
    fenced: World,
    world: World,
    replayed: seq<SessionKey>)

  /** Beats and refreshes had kept the pace when the fence was passed; from there on refreshes landed in
      order, and the swap took less than the margin. */
  predicate Timely(c: Cut) {
    c.fenced.punctual && c.world.inOrder && c.world.now < c.fenced.now + FENCE_MARGIN_MS
  }

  /** Time passed, and nothing else that a later line relies on. */
  ghost predicate Since(w: World, w': World) {
    && w.now <= w'.now
    && w.trace <= w'.trace
    && w.db.records <= w'.db.records
    && w'.clients.runOff == w.clients.runOff
    && w'.pause.sealedAt == w.pause.sealedAt
    && w'.pace == w.pace
    && (w'.punctual ==> w.punctual)
    && (w'.prompt ==> w.prompt)
  }

  lemma SinceTwice(a: World, b: World, c: World)
    requires Since(a, b) && Since(b, c)
    ensures Since(a, c)
  {
  }

  /** Only objects of these sessions differ. */
  ghost predicate OnlySessions(keys: set<SessionKey>, before: Bucket, after: Bucket) {
    forall o: ObjectId :: o.session !in keys ==>
      && (o in before <==> o in after)
      && (o in before ==> before[o] == after[o])
  }

  /** The target has the session's canonical as the source does, if the source still has one. */
  ghost predicate SameCanonical(key: SessionKey, source: Bucket, target: Bucket) {
    Log(key) in source ==> Log(key) in target && target[Log(key)] == source[Log(key)]
  }

  ghost predicate SameSidecars(key: SessionKey, source: Bucket, target: Bucket) {
    forall o: ObjectId :: o in source && o.session == key && o.name != CANONICAL ==>
      o in target && target[o] == source[o]
  }

  lemma MirroredIs(key: SessionKey, source: Bucket, target: Bucket)
    requires Log(key) in source
    ensures Mirrored(key, source, target) <==> SameCanonical(key, source, target) && SameSidecars(key, source, target)
  {
    assert forall o: ObjectId :: o.name == CANONICAL && o.session == key ==> o == Log(key);
  }

  /** Copying some sessions leaves every other as proven as it was. */
  lemma MirroredElsewhere(keys: set<SessionKey>, k: SessionKey, source: Bucket, before: Bucket, after: Bucket)
    requires OnlySessions(keys, before, after) && k !in keys
    requires Mirrored(k, source, before)
    ensures Mirrored(k, source, after)
  {
  }

  lemma OnlySessionsTwice(keys: set<SessionKey>, key: SessionKey, a: Bucket, b: Bucket, c: Bucket)
    requires OnlySessions(keys, a, b) && OnlySessions({key}, b, c) && key in keys
    ensures OnlySessions(keys, a, c)
  {
  }

  /** The buckets differ in this object alone. */
  ghost predicate OnlyObject(o: ObjectId, before: Bucket, after: Bucket) {
    forall x: ObjectId :: x != o ==> (x in before <==> x in after) && (x in before ==> before[x] == after[x])
  }

  lemma OnlyOneObject(o: ObjectId, before: Bucket, after: Bucket)
    ensures OnlyObject(o, before, after) ==> OnlySessions({o.session}, before, after)
    ensures before == after ==> OnlyObject(o, before, after)
    ensures o in after && after == before[o := after[o]] ==> OnlyObject(o, before, after)
  {
  }

  lemma VersionedByCopy(v: Versions, key: SessionKey, before: Bucket, after: Bucket)
    requires Versioned(v, before) && OnlyObject(Log(key), before, after)
    ensures Log(key) in after && after[Log(key)] == v(key, |after[Log(key)]|) ==> Versioned(v, after)
  {
    assert forall k: SessionKey :: k != key ==> Log(k) != Log(key);
  }

  /** The target has every object of the session that the source has under these names. */
  ghost predicate Landing(names: seq<string>, key: SessionKey, source: Bucket, target: Bucket) {
    forall o: ObjectId :: o in source && o.session == key && o.name in names ==> o in target && target[o] == source[o]
  }

  lemma LandingOneMore(names: seq<string>, name: string, key: SessionKey, source: Bucket, before: Bucket,
                       after: Bucket)
    requires Landing(names, key, source, before) && OnlyObject(ObjectId(key, name), before, after)
    requires var o := ObjectId(key, name); o in source ==> o in after && after[o] == source[o]
    ensures Landing(names + [name], key, source, after)
  {
  }

  lemma LandedSidecars(names: seq<string>, key: SessionKey, source: Bucket, target: Bucket)
    requires Landing(names, key, source, target) && SidecarsOf(names, key, source)
    ensures SameSidecars(key, source, target)
  {
  }

  /** The names of all the session's sidecars, and only of sidecars. */
  ghost predicate SidecarsOf(names: seq<string>, key: SessionKey, bucket: Bucket) {
    && CANONICAL !in names
    && forall o: ObjectId :: o in bucket && o.session == key && o.name != CANONICAL ==> o.name in names
  }

  /** Objects of one session but its canonical may differ. */
  ghost predicate OnlySidecars(key: SessionKey, before: Bucket, after: Bucket) {
    && OnlySessions({key}, before, after)
    && (Log(key) in before ==> Log(key) in after && after[Log(key)] == before[Log(key)])
  }

  lemma OnlySidecarsTwice(key: SessionKey, name: string, a: Bucket, b: Bucket, c: Bucket)
    requires OnlySidecars(key, a, b) && OnlyObject(ObjectId(key, name), b, c) && name != CANONICAL
    ensures OnlySidecars(key, a, c)
  {
  }

  /** Deletes take only what `tombstones` cover, and leave the rest as it was. */
  ghost predicate OnlyDeleted(before: Bucket, after: Bucket, tombstones: seq<SessionKey>) {
    && (forall o: ObjectId :: o in after ==> o in before && after[o] == before[o])
    && (forall o: ObjectId :: o in before && !Covered(o.session, tombstones) ==> o in after)
  }

  /** Whatever is in a bucket that was not there before, as it is, belongs to a session on record; and
      whatever was there before is there still, as it was, unless it belongs to one on record or to
      one that was deleted. */
  ghost predicate Brought(before: Bucket, after: Bucket, records: set<SessionKey>, deleted: seq<SessionKey> := []) {
    && (forall o: ObjectId :: o in after ==> (o in before && after[o] == before[o]) || o.session in records)
    && (forall o: ObjectId :: o in before ==>
          (o in after && after[o] == before[o]) || o.session in records || Covered(o.session, deleted))
  }

  lemma BroughtNothing(a: Bucket, records: set<SessionKey>)
    ensures Brought(a, a, records)
  {
  }

  lemma BroughtByCopy(key: SessionKey, a: Bucket, b: Bucket, records: set<SessionKey>)
    requires OnlySessions({key}, a, b) && key in records
    ensures Brought(a, b, records)
  {
  }

  lemma BroughtTwice(a: Bucket, b: Bucket, c: Bucket, records: set<SessionKey>, more: set<SessionKey>,
                     deleted: seq<SessionKey> := [])
    requires Brought(a, b, records) && Brought(b, c, more, deleted) && records <= more
    ensures Brought(a, c, more, deleted)
  {
  }

  /** What a cut promises. It is the run's own: each of its worlds became the next. The gate was
      closed at the proof. The deletes replayed are exactly those the run had to replay when it
      listed them; none of their sessions has an object left, and whatever the run brought over is
      on record. The requested windows never lapsed, whatever the timing was. Where it was timely: the
      gate was closed at every step since the proof, not one call was admitted, none is running, and
      the target holds the whole source but for those deletes. */
  ghost predicate Safe(v: Versions, c: Cut) {
    && Then(v, c.origin, c.proof, c.listed)
    && Then(v, c.origin, c.listed, c.fenced)
    && Then(v, c.origin, c.fenced, c.world)
    && PausedUntil(c.proof.pause.gate, c.proof.now).Some?
    && c.proof.pause.sealedAt == Some(c.proof.now)
    && c.world.pause.sealedAt == Some(c.proof.now)
    && (forall t :: t in c.replayed <==> t in Tombstones(c.listed.db))
    && Gone(c.world.target, c.replayed)
    && Brought(c.origin.target, c.world.target, c.listed.db.records, c.replayed)
    && c.world.pause.rows != []
    && Chained(c.world.pause.rows)
    && c.world.pause.rows[0].issuedAt <= c.proof.now <= c.fenced.now <= c.world.now
    && c.fenced.now + FENCE_MARGIN_MS <= c.world.pause.rows[|c.world.pause.rows| - 1].row.pausedUntil
    && (Timely(c) ==>
          && PausedUntil(c.world.pause.gate, c.world.now).Some?
          && !c.world.reopened
          && c.world.clients.admissions == c.proof.clients.admissions
          && c.world.clients.calls == 0
          && NoLoss(c.world.source, c.world.target, c.replayed))
  }

  /** No instant from the proof to the end of the fence's margin was outside a requested window. */
  lemma RequestedThroughout(v: Versions, c: Cut, t: int)
    requires Safe(v, c) && c.proof.now <= t < c.fenced.now + FENCE_MARGIN_MS
    ensures exists i :: 0 <= i < |c.world.pause.rows|
              && c.world.pause.rows[i].issuedAt <= t < c.world.pause.rows[i].row.pausedUntil
  {
    ChainCovers(c.world.pause.rows, t);
  }

  /** At every step from the proof to such a cut, the gate was closed. */
  lemma ClosedThroughout(v: Versions, c: Cut, k: nat)
    requires Safe(v, c) && Timely(c)
    requires |c.proof.trace| <= k <= |c.world.trace|
    ensures var w := Replay(c.origin, c.world.trace[..k]); PausedUntil(w.pause.gate, w.now).Some?
  {
    hide Became;
    assert c.proof.trace <= c.listed.trace <= c.fenced.trace <= c.world.trace;
    ClosedAtEveryStep(v, c.origin, c.proof, c.world, k);
  }

  lemma {:induction false} BaseOfLane(base: string, rest: string)
    requires BaseOf(base) == base && (rest == "" || rest[0] == ':')
    ensures BaseOf(base + rest) == base
  {
    if base == "" {
      assert base + rest == rest;
    } else {
      assert (base + rest)[1..] == base[1..] + rest;
      BaseOfLane(base[1..], rest);
    }
  }

  lemma BaseOfOwned(t: SessionKey, session: SessionKey)
    requires Owns(t, session) && BaseOf(t.sessionId) == t.sessionId
    ensures BaseOf(session.sessionId) == t.sessionId
  {
    var base, id := t.sessionId, session.sessionId;
    if id == base {
      BaseOfLane(base, "");
      assert base + "" == base;
    } else {
      var lane := ":a:";
      assert id[|base|] == (base + lane)[|base|] == ':';
      BaseOfLane(base, id[|base|..]);
      assert base + id[|base|..] == id;
    }
  }

  /** No deleted session comes back: what the target holds of a session whose permanent delete was
      on record when the deletes were listed was there before the run, byte for byte, and the run
      never carried that session. */
  lemma NothingResurrected(v: Versions, c: Cut, t: SessionKey, o: ObjectId)
    requires Safe(v, c) && BaseKeys(c.origin.db)
    requires t in c.listed.db.deleted
    requires o in c.world.target && Owns(t, o.session)
    ensures o in c.origin.target && c.world.target[o] == c.origin.target[o]
    ensures o.session !in c.listed.db.records && c.listed.db.deleted[t] < c.listed.db.startedAt
  {
    KeysStayBase(v, c.origin, c.listed);
    hide Became, Then, NoLoss;
    BaseOfOwned(t, o.session);
    assert Covered(o.session, c.replayed) <== t in c.replayed;
  }

  /** The bucket has an object of this session, or of one of its lanes. */
  ghost predicate Holds(bucket: Bucket, t: SessionKey) {
    exists o :: o in bucket && Owns(t, o.session)
  }

  /** Deletes that the replay leaves out take nothing: what was there before the run is there at the
      cut. */
  lemma LeftAsItWas(v: Versions, c: Cut, t: SessionKey, o: ObjectId)
    requires Safe(v, c) && BaseKeys(c.origin.db)
    requires t in c.listed.db.deleted && t !in Tombstones(c.listed.db)
    requires o in c.origin.target && Owns(t, o.session)
    ensures o in c.world.target && c.world.target[o] == c.origin.target[o]
  {
    KeysStayBase(v, c.origin, c.listed);
    hide Became, Then, NoLoss;
    BaseOfOwned(t, o.session);
    forall other | other in c.replayed && Owns(other, o.session)
      ensures other == t
    {
      BaseOfOwned(other, o.session);
    }
  }

  /** A deleted session has something left in the target at the cut if and only if something of it was
      there before the run and the run had no reason to replay its delete, which is older than the run
      and about nothing the run has on record. */
  lemma LeftoverExactly(v: Versions, c: Cut, t: SessionKey)
    requires Safe(v, c) && BaseKeys(c.origin.db)
    requires t in c.listed.db.deleted
    ensures Holds(c.world.target, t) <==> t !in Tombstones(c.listed.db) && Holds(c.origin.target, t)
  {
    hide Safe;
    if Holds(c.world.target, t) {
      var o :| o in c.world.target && Owns(t, o.session);
      NothingResurrected(v, c, t, o);
      NotReplayed(v, c, t, o);
    }
    if t !in Tombstones(c.listed.db) && Holds(c.origin.target, t) {
      var o :| o in c.origin.target && Owns(t, o.session);
      LeftAsItWas(v, c, t, o);
    }
  }

  lemma NotReplayed(v: Versions, c: Cut, t: SessionKey, o: ObjectId)
    requires Safe(v, c) && o in c.world.target && Owns(t, o.session)
    ensures t !in Tombstones(c.listed.db)
  {
    hide Became, Then, NoLoss;
    assert Covered(o.session, c.replayed) <== t in c.replayed;
  }

  /** A run's first moments over a target that already has one object, of a session deleted before. */
  function Beginning(t: SessionKey, text: Bytes): World {
    World(1, map[], map[Log(t) := text], Database(1, {}, map[t := 0]),
          Pause([], OPEN, -1, None, None), Clients(0, Quiesce(0, 0), [], 0, None), Pace(0, 0),
          true, true, true, false, [])
  }

  /** The same, armed for a minute, refreshed, and proven closed, all at once. */
  function Closed(w: World): World {
    Seal(Apply(Insert(w, 1, 1 + MINUTE), Observe(0, 1, 1)))
  }

  lemma ClosedAtOnce(v: Versions, t: SessionKey, text: Bytes)
    ensures var w, w' := Beginning(t, text), Closed(Beginning(t, text));
            && Became(v, w, w')
            && w' == w.(pause := Pause([Episode(1, IngestControlRow(0, 1 + MINUTE, None, 1))],
                                       EffectivePause(Some(1 + MINUTE), false), 0, None, Some(1)),
                        trace := w'.trace)
  {
    var w0 := Beginning(t, text);
    var armed := Insert(w0, 1, 1 + MINUTE);
    assert Became(v, w0, w0);
    hide Became;
    BecameByMove(v, w0, w0, Move.Armed(1, 1 + MINUTE));
    BecameByMove(v, w0, armed, Turn(Observe(0, 1, 1)));
    BecameByMove(v, w0, Apply(armed, Observe(0, 1, 1)), ProvenClosed);
  }

  /** Such a cut there is: an attempt wrote the object and died before recording the copy, and the
      purge of its session had begun before the run did. The cut is safe, and timely, and the object
      of the deleted session is in the target. */
  lemma LeftoverHappens(v: Versions, t: SessionKey, text: Bytes) returns (c: Cut)
    requires BaseOf(t.sessionId) == t.sessionId
    ensures Safe(v, c) && BaseKeys(c.origin.db) && Timely(c)
    ensures t in c.listed.db.deleted && Holds(c.world.target, t)
  {
    ClosedAtOnce(v, t, text);
    hide Became, Closed;
    var w0 := Beginning(t, text);
    c := Cut(w0, Closed(w0), Closed(w0), Closed(w0), Closed(w0), []);
    assert Log(t) in c.world.target && Owns(t, Log(t).session);
  }

  ghost predicate IssuedInTime(e: Episode, next: Episode) {
    e.issuedAt <= next.issuedAt < e.row.pausedUntil
  }

  /** Every window was issued while the one before it was still open. */
  ghost predicate Chained(rows: seq<Episode>) {
    forall i, j :: 0 <= i < j < |rows| && j == i + 1 ==> IssuedInTime(rows[i], rows[j])
  }

  /** A chain of windows leaves no instant between its first and its last unrequested. */
  lemma {:induction false} ChainCovers(rows: seq<Episode>, t: int)
    requires Chained(rows) && rows != []
    requires rows[0].issuedAt <= t < rows[|rows| - 1].row.pausedUntil
    ensures exists i :: 0 <= i < |rows| && rows[i].issuedAt <= t < rows[i].row.pausedUntil
  {
    var last := |rows| - 1;
    if t < rows[last].issuedAt {
      var init := rows[..last];
      assert IssuedInTime(rows[last - 1], rows[last]);
      ChainCovers(init, t);
      var i :| 0 <= i < |init| && init[i].issuedAt <= t < init[i].row.pausedUntil;
      assert rows[i] == init[i];
    }
  }

  class Migration {
    const mode: Mode
    const version: Versions
    const sha256: Bytes -> int
    const swapPauseMs: nat
    const pauseHeartbeatMs: nat
    const gateConfirmMs: nat
    const barrierMs: nat
    const maxDeltaPasses: nat

    var world: World
    var result: MigrationResult
    var done: set<SessionKey>
    var budget: Budget
    var armedUntil: int
    var episode: nat
    var pauseLapsed: bool
    var beating: bool
    ghost const origin: World       // the world the run began in
    ghost var cut: Option<Cut>

    ghost predicate Hashing() {
      forall a: Bytes, b: Bytes :: sha256(a) == sha256(b) ==> a == b
    }

    /** Holds even where a call has thrown. */
    ghost predicate Sound(phase: Phase)
      reads this`world, this`budget, this`episode
    {
      && Hashing()
      && Known(version, world, phase)
      && Became(version, origin, world)
      && (!phase.Ingesting? ==> phase.budget == budget)
      && (if world.pause.rows == [] then world.pause.beatAt.None? else episode == |world.pause.rows| - 1)
    }

    /** The run's own variables agree with the rows it wrote. */
    ghost predicate Armed()
      reads this`world, this`armedUntil, this`pauseLapsed
    {
      && world.pause.rows != []
      && armedUntil == world.pause.rows[|world.pause.rows| - 1].row.pausedUntil
      && world.pause.rows[|world.pause.rows| - 1].issuedAt <= world.now
      && world.pause.beatAt.Some?
      && world.pause.beatAt.value <= world.now
      && (!pauseLapsed ==> Chained(world.pause.rows))
    }

    ghost predicate Valid(phase: Phase)
      reads this`world, this`budget, this`episode, this`armedUntil, this`pauseLapsed, this`beating
      ensures Valid(phase) ==> Sound(phase)
    {
      && Sound(phase)
      && (if phase.Ingesting? then !beating else Armed())
    }

    /** The source is exactly what it was when the store was seen quiet. */
    ghost predicate Still(phase: Phase)
      reads this`world
      ensures Still(phase) ==> phase.Frozen?
    {
      phase.Frozen? && Hold(world, phase.budget)
    }

    /** The cut, once there is one, is in this run's past, and nothing has touched the target since. */
    ghost predicate CutIsPast()
      reads this`world, this`cut
    {
      && Became(version, origin, world)
      && (cut.Some? ==>
            && cut.value.origin == origin
            && cut.value.world.trace <= world.trace
            && cut.value.world.target == world.target)
    }

    // ---- waiting ----

    method Await(ghost phase: Phase)
      requires Known(version, world, phase) && Became(version, origin, world)
      modifies this`world
      ensures Known(version, world, phase) && Became(version, origin, world) && Later(old(world), world)
    {
      hide Became, Known, Playable, Play;
      ghost var script := PlayAny(phase);
    }

    /** Everybody else plays some script. */
    method PlayAny(ghost phase: Phase) returns (ghost script: seq<Action>)
      requires Known(version, world, phase) && Became(version, origin, world)
      modifies this`world
      ensures Known(version, world, phase) && Became(version, origin, world) && Later(old(world), world)
      ensures Playable(version, old(world), script) && world == Play(old(world), script)
    {
      assert Playable(version, world, []);
      hide Became, Known;
      var played: seq<Action> :| Playable(version, world, played);
      script := played;
      KnownByScript(version, world, script, phase);
      BecameByScript(version, origin, world, script);
      world := Play(world, played);
    }

    method Sleep(ghost phase: Phase, ms: nat)
      requires Known(version, world, phase) && Became(version, origin, world)
      modifies this`world
      ensures Known(version, world, phase) && Became(version, origin, world) && Later(old(world), world)
      ensures old(world).now + ms <= world.now
    {
      hide Became;
      BecameByMove(version, origin, world, Turn(Tick(ms)));
      KnownByStep(version, world, Tick(ms), phase);
      world := Apply(world, Tick(ms));
      Await(phase);
    }

    // ---- the pause ----

    /** Arm, or extend: always a new row. */
    method ArmPause(ghost phase: Phase) returns (ok: bool)
      requires Sound(phase) && !phase.Ingesting?
      requires world.pause.rows == [] || (Armed() && (!pauseLapsed ==> world.now < armedUntil))
      modifies this`world, this`armedUntil, this`episode
      ensures Sound(phase) && Since(old(world), world)
      ensures world.target == old(world).target && world.pause.beatAt == old(world).pause.beatAt
      ensures armedUntil == Min(budget.endsAt, old(world).now + budget.heartbeatMs)
      ensures !ok ==> world.pause.rows == old(world).pause.rows
      ensures ok ==> exists writtenAt ::
                world.pause.rows
                == old(world).pause.rows
                   + [Episode(old(world).now, IngestControlRow(|old(world).pause.rows|, armedUntil, None, writtenAt))]
      ensures ok && old(world).pause.rows != [] ==> Armed()
    {
      hide Known, Became;
      var issuedAt := world.now;
      armedUntil := Min(budget.endsAt, issuedAt + budget.heartbeatMs);
      Await(phase);
      if * { return false; }
      KnownByInsert(version, world, phase, issuedAt, armedUntil);
      BecameByMove(version, origin, world, Move.Armed(issuedAt, armedUntil));
      world := Insert(world, issuedAt, armedUntil);
      episode := |world.pause.rows| - 1;
      Await(phase);
      return true;
    }

    /** History: a beat that began at `at` is over. */
    method CompleteBeat(ghost phase: Phase, at: int)
      requires Sound(phase) && !phase.Ingesting? && Armed() && world.pause.beatAt.value <= at <= world.now
      requires armedUntil == budget.endsAt || 2 * (armedUntil - at) > budget.heartbeatMs
      modifies this`world
      ensures Valid(phase) && Since(old(world), world) && world.target == old(world).target
      ensures world.pause.rows == old(world).pause.rows
      ensures Still(phase) ==> old(Still(phase))
    {
      hide Known, Became;
      KnownByBeat(version, world, phase, at);
      BecameByMove(version, origin, world, Move.Beat(at));
      world := Beaten(world, at);
    }

    /** Extend only when the window in force is close to lapsing. */
    method Heartbeat(ghost phase: Phase) returns (ok: bool)
      requires Valid(phase) && !phase.Ingesting?
      modifies this`world, this`armedUntil, this`episode, this`pauseLapsed
      ensures Sound(phase) && Since(old(world), world) && world.target == old(world).target
      ensures Still(phase) ==> old(Still(phase))
      ensures ok ==> Valid(phase)
      ensures pauseLapsed == (old(pauseLapsed) || old(armedUntil) <= old(world).now)
      ensures var now, rows := old(world).now, old(world).pause.rows;
              if now < budget.endsAt && 2 * (old(armedUntil) - now) <= budget.heartbeatMs then
                && armedUntil == Min(budget.endsAt, now + budget.heartbeatMs)
                && (ok ==> exists writtenAt ::
                      world.pause.rows
                      == rows + [Episode(now, IngestControlRow(|rows|, armedUntil, None, writtenAt))])
              else ok && armedUntil == old(armedUntil) && world.pause.rows == rows
    {
      assert 0 < budget.heartbeatMs;
      hide Known, Chained, Became;
      var now := world.now;
      if armedUntil <= now { pauseLapsed := true; }
      if now >= budget.endsAt { return true; }
      if 2 * (armedUntil - now) <= budget.heartbeatMs {
        ok := ArmPause(phase);
        if !ok { return; }
      }
      CompleteBeat(phase, now);
      return true;
    }

    method Beat(ghost phase: Phase) returns (ok: bool)
      requires Valid(phase)
      modifies this`world, this`armedUntil, this`episode, this`pauseLapsed
      ensures Sound(phase) && Since(old(world), world) && world.target == old(world).target
      ensures Still(phase) ==> old(Still(phase))
      ensures ok ==> Valid(phase)
      ensures old(pauseLapsed) ==> pauseLapsed
    {
      ok := true;
      if beating { ok := Heartbeat(phase); }
    }

    /** Wait for the daemon's own gate to report the pause, or give up. */
    method AwaitInForce(ghost phase: Phase) returns (ok: bool, state: EffectivePause)
      requires Valid(phase) && !phase.Ingesting?
      modifies this`world
      ensures Valid(phase) && Since(old(world), world)
      ensures world.target == old(world).target && world.pause.rows == old(world).pause.rows
      ensures ok && !state.capped && state.pausedUntil.Some? ==>
                && state.pausedUntil == PausedUntil(world.pause.gate, world.now)
                && armedUntil <= state.pausedUntil.value
    {
      hide Known, Became;
      var deadline := world.now + gateConfirmMs;
      while true
        invariant Valid(phase) && Since(old(world), world)
        invariant world.target == old(world).target && world.pause.rows == old(world).pause.rows
        decreases deadline - world.now
      {
        Await(phase);                                     // refreshGate
        if * { return false, OPEN; }
        state := EffectivePause(PausedUntil(world.pause.gate, world.now), world.pause.gate.capped);
        if state.capped { return true, state; }
        if state.pausedUntil.Some? && state.pausedUntil.value >= armedUntil { return true, state; }
        if world.now >= deadline { return true, EffectivePause(None, state.capped); }
        Sleep(phase, GATE_POLL_MS);
      }
    }

    // ---- the stores ----

    /** A wait, where the run's own variables agree with its rows. */
    method Pass(ghost phase: Phase)
      requires Valid(phase)
      modifies this`world
      ensures Valid(phase) && Since(old(world), world) && world.target == old(world).target
      ensures Still(phase) ==> old(Still(phase))
    {
      hide Known, Became;
      Await(phase);
    }

    method Nap(ghost phase: Phase, ms: nat)
      requires Valid(phase)
      modifies this`world
      ensures Valid(phase) && Since(old(world), world) && world.target == old(world).target
      ensures Still(phase) ==> old(Still(phase))
      ensures world.db.records == old(world).db.records
      ensures old(world).now + ms <= world.now
    {
      hide Known, Became;
      Sleep(phase, ms);
    }

    /** The live store's objects at the instant a read of it takes effect. */
    method Snapshot(ghost phase: Phase) returns (bucket: Bucket)
      requires Valid(phase)
      modifies this`world
      ensures Valid(phase) && Since(old(world), world) && world.target == old(world).target
      ensures Still(phase) ==> old(Still(phase)) && bucket == phase.held
      ensures Versioned(version, bucket)
    {
      Await(phase);
      bucket := world.source;
    }

    /** One read of the LIVE store: a stat, a canonical or an artifact. */
    method ReadSource(ghost phase: Phase, o: ObjectId) returns (ok: bool, text: Option<Bytes>)
      requires Valid(phase)
      modifies this`world
      ensures Valid(phase) && Since(old(world), world) && world.target == old(world).target
      ensures Still(phase) ==> old(Still(phase))
      ensures text.Some? && o.name == CANONICAL ==> text.value == version(o.session, |text.value|)
      ensures Still(phase) ==> text == if o in phase.held then Some(phase.held[o]) else None
    {
      hide Known, Sound, Armed, Hold, Became;
      var bucket := Snapshot(phase);
      text := if o in bucket then Some(bucket[o]) else None;
      assert o.name == CANONICAL ==> o == Log(o.session);
      Pass(phase);
      ok := *;
    }

    method ListCanonicalKeys(ghost phase: Phase) returns (ok: bool, keys: seq<SessionKey>)
      requires Valid(phase)
      modifies this`world
      ensures Valid(phase) && Since(old(world), world) && world.target == old(world).target
      ensures Still(phase) ==> old(Still(phase))
      ensures Distinct(keys)
      ensures Still(phase) ==> forall k: SessionKey :: k in keys <==> Log(k) in phase.held
    {
      hide Known, Sound, Armed, Hold, Became;
      var bucket := Snapshot(phase);
      var listed := set o: ObjectId | o in bucket && o.name == CANONICAL :: o.session;
      keys := Enumerate(listed);
      forall k: SessionKey
        ensures k in keys <==> Log(k) in bucket
      {
        if Log(k) in bucket { assert Log(k).session in listed; }
      }
      Pass(phase);
      ok := *;
    }

    method ListSessionArtifacts(ghost phase: Phase, key: SessionKey) returns (ok: bool, names: seq<string>)
      requires Valid(phase)
      modifies this`world
      ensures Valid(phase) && Since(old(world), world) && world.target == old(world).target
      ensures Still(phase) ==> old(Still(phase))
      ensures CANONICAL !in names
      ensures Still(phase) ==> SidecarsOf(names, key, phase.held)
    {
      hide Known, Sound, Armed, Hold, Became;
      var bucket := Snapshot(phase);
      names := Enumerate(set o: ObjectId | o in bucket && o.session == key && o.name != CANONICAL :: o.name);
      Pass(phase);
      ok := *;
    }

    /** Only this run touches the target, so what it reads there stays so. */
    method ReadTarget(ghost phase: Phase, o: ObjectId) returns (ok: bool, text: Option<Bytes>)
      requires Valid(phase)
      modifies this`world
      ensures Valid(phase) && Since(old(world), world) && world.target == old(world).target
      ensures Still(phase) ==> old(Still(phase))
      ensures text == if o in world.target then Some(world.target[o]) else None
    {
      hide Known, Sound, Armed, Hold, Became;
      Pass(phase);
      text := if o in world.target then Some(world.target[o]) else None;
      ok := *;
    }

    /** A write the bucket acknowledges. What it stored is another matter: `stored` is any bytes. */
    method WriteTarget(ghost phase: Phase, o: ObjectId, text: Bytes) returns (ok: bool)
      requires Valid(phase)
      modifies this`world
      ensures Valid(phase) && Since(old(world), world)
      ensures Still(phase) ==> old(Still(phase))
      ensures o in world.target && world.target == old(world).target[o := world.target[o]]
    {
      hide Known, Became;
      Await(phase);
      var stored: Bytes := *;
      KnownByOwnStores(version, world, Written(world, o, stored), phase);
      BecameByMove(version, origin, world, Put(o, stored));
      world := Written(world, o, stored);
      ok := *;
    }

    /** One bounded pass of a permanent delete: some of the session's objects go, and `complete`
        is claimed only of none left. */
    method DeleteBatch(ghost phase: Phase, key: SessionKey) returns (ok: bool, complete: bool)
      requires Valid(phase)
      modifies this`world
      ensures Valid(phase) && Since(old(world), world)
      ensures Still(phase) ==> old(Still(phase))
      ensures OnlyDeleted(old(world).target, world.target, [key])
      ensures ok && complete ==> forall o: ObjectId :: o in world.target ==> !Owns(key, o.session)
    {
      hide Known, Became;
      Await(phase);
      var owned := set o: ObjectId | o in world.target && Owns(key, o.session);
      var none: set<ObjectId> := {};
      assert none <= owned && |none| <= DELETE_BATCH_LIMIT;
      var removed: set<ObjectId> :| removed <= owned && |removed| <= DELETE_BATCH_LIMIT;
      KnownByOwnStores(version, world, Erased(world, removed), phase);
      BecameByMove(version, origin, world, Removed(removed));
      world := Erased(world, removed);
      complete := *;
      complete := complete && owned <= removed;
      ok := *;
      assert key in [key];
    }

    // ---- one session ----

    /** Whether the target holds this session as the source has it NOW: the canonical by length,
        and on request every sidecar by digest. */
    method TargetIsCurrent(ghost phase: Phase, key: SessionKey, alsoSidecars: bool)
      returns (ok: bool, current: bool)
      requires Valid(phase) && Versioned(version, world.target)
      modifies this`world, this`armedUntil, this`episode, this`pauseLapsed
      ensures Sound(phase) && Since(old(world), world) && world.target == old(world).target
      ensures Still(phase) ==> old(Still(phase))
      ensures ok ==> Valid(phase)
      ensures old(pauseLapsed) ==> pauseLapsed
      ensures ok && Still(phase) ==>
                (current <==> if alsoSidecars then Mirrored(key, phase.held, world.target)
                              else SameCanonical(key, phase.held, world.target))
    {
      hide Known, Armed, Hold, Became;
      var wanted, landed;
      ok, wanted := ReadSource(phase, Log(key));
      if !ok { return false, false; }
      if wanted.None? { return true, true; }
      ok, landed := ReadTarget(phase, Log(key));
      if !ok { return false, false; }
      if landed.None? || |landed.value| != |wanted.value| { return true, false; }
      assert landed == wanted;
      if !alsoSidecars { return true, true; }
      ok, current := SidecarsCurrent(phase, key);
      if !ok { return false, false; }
      if Still(phase) { MirroredIs(key, phase.held, world.target); }
    }

    /** `held` has the digest of every object of the session under these names, and of nothing else. */
    ghost predicate Digested(held: seq<(string, int)>, names: seq<string>, key: SessionKey, bucket: Bucket) {
      && (forall o: ObjectId :: o in bucket && o.session == key && o.name in names ==>
            (o.name, sha256(bucket[o])) in held)
      && Landed(held, |held|, key, bucket)
      && (forall j :: 0 <= j < |held| ==> held[j].0 in names)
    }

    lemma DigestedOneMore(held: seq<(string, int)>, names: seq<string>, name: string, key: SessionKey, bucket: Bucket)
      requires Digested(held, names, key, bucket)
      ensures var o := ObjectId(key, name);
              Digested(if o in bucket then held + [(name, sha256(bucket[o]))] else held, names + [name], key, bucket)
    {
      var o := ObjectId(key, name);
      if o in bucket {
        var held' := held + [(name, sha256(bucket[o]))];
        assert held'[|held|] == (name, sha256(bucket[o]));
        forall x: ObjectId | x in bucket && x.session == key && x.name in names + [name]
          ensures (x.name, sha256(bucket[x])) in held'
        {
          if x.name in names { assert (x.name, sha256(bucket[x])) in held; } else { assert x == o; }
        }
      }
    }

    /** The bucket has the first `n` of these sidecars, at these digests. */
    ghost predicate Landed(held: seq<(string, int)>, n: nat, key: SessionKey, bucket: Bucket) {
      forall j :: 0 <= j < |held| && j < n ==>
        && ObjectId(key, held[j].0) in bucket
        && sha256(bucket[ObjectId(key, held[j].0)]) == held[j].1
    }

    /** Equal digests, equal sidecars; and no equal sidecars without. */
    lemma DigestsProve(held: seq<(string, int)>, names: seq<string>, key: SessionKey, source: Bucket, target: Bucket)
      requires Hashing()
      requires SidecarsOf(names, key, source) && Digested(held, names, key, source)
      ensures Landed(held, |held|, key, target) <==> SameSidecars(key, source, target)
    {
      if Landed(held, |held|, key, target) {
        forall o: ObjectId | o in source && o.session == key && o.name != CANONICAL
          ensures o in target && target[o] == source[o]
        {
          var j :| 0 <= j < |held| && held[j] == (o.name, sha256(source[o]));
          assert o == ObjectId(key, held[j].0);
        }
      }
    }

    method HoldSidecar(ghost phase: Phase, key: SessionKey, name: string,
                       held: seq<(string, int)>, ghost names: seq<string>)
      returns (ok: bool, held': seq<(string, int)>)
      requires Valid(phase)
      requires Still(phase) ==> Digested(held, names, key, phase.held)
      modifies this`world, this`armedUntil, this`episode, this`pauseLapsed
      ensures Sound(phase) && Since(old(world), world) && world.target == old(world).target
      ensures Still(phase) ==> old(Still(phase))
      ensures ok ==> Valid(phase)
      ensures old(pauseLapsed) ==> pauseLapsed
      ensures ok && Still(phase) ==> Digested(held', names + [name], key, phase.held)
    {
      hide Known, Valid, Sound, Armed, Still, Hashing, Became, Digested;
      held' := held;
      ok := Beat(phase);
      if !ok { return; }
      var text;
      ok, text := ReadSource(phase, ObjectId(key, name));
      if !ok { return; }
      if Still(phase) { DigestedOneMore(held, names, name, key, phase.held); }
      if text.Some? { held' := held + [(name, sha256(text.value))]; }
    }

    /** The digest of every sidecar the source holds now. */
    method HeldSidecars(ghost phase: Phase, key: SessionKey)
      returns (ok: bool, held: seq<(string, int)>, ghost names: seq<string>)
      requires Valid(phase)
      modifies this`world, this`armedUntil, this`episode, this`pauseLapsed
      ensures Sound(phase) && Since(old(world), world) && world.target == old(world).target
      ensures Still(phase) ==> old(Still(phase))
      ensures ok ==> Valid(phase)
      ensures old(pauseLapsed) ==> pauseLapsed
      ensures ok && Still(phase) ==> SidecarsOf(names, key, phase.held) && Digested(held, names, key, phase.held)
    {
      assert Still(phase) ==> Digested([], [], key, phase.held);
      hide Known, Valid, Sound, Armed, Still, Hashing, Became, Digested, Since;
      held := [];
      var listed;
      ok, listed := ListSessionArtifacts(phase, key);
      names := listed;
      if !ok { return; }
      for i := 0 to |listed|
        invariant Valid(phase) && Since(old(world), world) && world.target == old(world).target
        invariant Still(phase) ==> old(Still(phase)) && SidecarsOf(listed, key, phase.held)
        invariant old(pauseLapsed) ==> pauseLapsed
        invariant Still(phase) ==> Digested(held, listed[..i], key, phase.held)
      {
        assert listed[..i + 1] == listed[..i] + [listed[i]];
        ghost var before := world;
        ok, held := HoldSidecar(phase, key, listed[i], held, listed[..i]);
        SinceTwice(old(world), before, world);
        if !ok { return; }
      }
      assert listed[..|listed|] == listed;
      ok := true;
    }

    method SidecarCurrent(ghost phase: Phase, o: ObjectId, digest: int) returns (ok: bool, current: bool)
      requires Valid(phase)
      modifies this`world, this`armedUntil, this`episode, this`pauseLapsed
      ensures Sound(phase) && Since(old(world), world) && world.target == old(world).target
      ensures Still(phase) ==> old(Still(phase))
      ensures ok ==> Valid(phase)
      ensures old(pauseLapsed) ==> pauseLapsed
      ensures ok ==> (current <==> o in world.target && sha256(world.target[o]) == digest)
    {
      hide Known, Valid, Sound, Armed, Still, Hashing, Became;
      ok := Beat(phase);
      if !ok { return false, false; }
      var arrived;
      ok, arrived := ReadTarget(phase, o);
      if !ok { return false, false; }
      current := arrived.Some? && sha256(arrived.value) == digest;
    }

    method CompareSidecars(ghost phase: Phase, key: SessionKey, held: seq<(string, int)>)
      returns (ok: bool, current: bool)
      requires Valid(phase)
      modifies this`world, this`armedUntil, this`episode, this`pauseLapsed
      ensures Sound(phase) && Since(old(world), world) && world.target == old(world).target
      ensures Still(phase) ==> old(Still(phase))
      ensures ok ==> Valid(phase)
      ensures old(pauseLapsed) ==> pauseLapsed
      ensures ok ==> (current <==> Landed(held, |held|, key, world.target))
    {
      hide Known, Valid, Sound, Armed, Still, Hashing, Became;
      for i := 0 to |held|
        invariant Valid(phase) && Since(old(world), world) && world.target == old(world).target
        invariant Still(phase) ==> old(Still(phase))
        invariant old(pauseLapsed) ==> pauseLapsed
        invariant Landed(held, i, key, world.target)
      {
        ok, current := SidecarCurrent(phase, ObjectId(key, held[i].0), held[i].1);
        if !ok || !current { return; }
      }
      return true, true;
    }

    method SidecarsCurrent(ghost phase: Phase, key: SessionKey) returns (ok: bool, current: bool)
      requires Valid(phase)
      modifies this`world, this`armedUntil, this`episode, this`pauseLapsed
      ensures Sound(phase) && Since(old(world), world) && world.target == old(world).target
      ensures Still(phase) ==> old(Still(phase))
      ensures ok ==> Valid(phase)
      ensures old(pauseLapsed) ==> pauseLapsed
      ensures ok && Still(phase) ==> (current <==> SameSidecars(key, phase.held, world.target))
    {
      assert Hashing();
      hide Known, Valid, Sound, Armed, Still, Hashing, Digested, Landed, Became;
      var held;
      ghost var names;
      ok, held, names := HeldSidecars(phase, key);
      if !ok { return false, false; }
      ok, current := CompareSidecars(phase, key, held);
      if ok && Still(phase) { DigestsProve(held, names, key, phase.held, world.target); }
    }

    /** Copy one canonical and prove it landed: what counts is what the target gives back. */
    method CopyCanonical(ghost phase: Phase, key: SessionKey) returns (ok: bool)
      requires Valid(phase) && Versioned(version, world.target)
      modifies this`world
      ensures Valid(phase) && Since(old(world), world)
      ensures Still(phase) ==> old(Still(phase))
      ensures OnlySessions({key}, old(world).target, world.target)
      ensures ok ==> Versioned(version, world.target) && Log(key) in world.target
      ensures ok && Still(phase) ==> Log(key) in phase.held && world.target[Log(key)] == phase.held[Log(key)]
    {
      assert Hashing();
      hide Known, Valid, Sound, Armed, Still, Became, OnlySessions, Versioned;
      OnlyOneObject(Log(key), world.target, world.target);
      var text, landed;
      ok, text := ReadSource(phase, Log(key));
      if !ok { return; }
      if text.None? { return false; }
      ok := WriteTarget(phase, Log(key), text.value);
      OnlyOneObject(Log(key), old(world).target, world.target);
      VersionedByCopy(version, key, old(world).target, world.target);
      if !ok { return; }
      ok, landed := ReadTarget(phase, Log(key));
      if !ok { return; }
      if landed.None? || sha256(landed.value) != sha256(text.value) { return false; }
    }

    method CopySession(ghost phase: Phase, key: SessionKey) returns (ok: bool)
      requires Valid(phase) && Versioned(version, world.target)
      modifies this`world, this`armedUntil, this`episode, this`pauseLapsed
      ensures Sound(phase) && Since(old(world), world)
      ensures Still(phase) ==> old(Still(phase))
      ensures old(pauseLapsed) ==> pauseLapsed
      ensures ok ==> Valid(phase) && Versioned(version, world.target)
      ensures OnlySessions({key}, old(world).target, world.target)
      ensures ok && Still(phase) ==> Mirrored(key, phase.held, world.target)
    {
      hide Known, Sound, Armed, Hold, Became;
      ok := CopyCanonical(phase, key);
      if !ok { return; }
      ok := CopySidecars(phase, key);
      if !ok { return; }
      assert forall o: ObjectId :: o.name == CANONICAL && o.session == key ==> o == Log(key);
    }

    method CopySidecars(ghost phase: Phase, key: SessionKey) returns (ok: bool)
      requires Valid(phase)
      modifies this`world, this`armedUntil, this`episode, this`pauseLapsed
      ensures Sound(phase) && Since(old(world), world)
      ensures Still(phase) ==> old(Still(phase))
      ensures old(pauseLapsed) ==> pauseLapsed
      ensures ok ==> Valid(phase)
      ensures OnlySidecars(key, old(world).target, world.target)
      ensures ok && Still(phase) ==> SameSidecars(key, phase.held, world.target)
    {
      assert OnlySidecars(key, world.target, world.target);
      hide Known, Valid, Sound, Armed, Still, Became, OnlySidecars, OnlyObject, Landing, SidecarsOf, SameSidecars,
           Since;
      var names;
      ok, names := ListSessionArtifacts(phase, key);
      if !ok { return; }
      if Still(phase) { NothingToLand(key, phase.held, world.target); }
      for i := 0 to |names|
        invariant Valid(phase) && Since(old(world), world)
        invariant Still(phase) ==> old(Still(phase)) && SidecarsOf(names, key, phase.held)
        invariant old(pauseLapsed) ==> pauseLapsed
        invariant OnlySidecars(key, old(world).target, world.target)
        invariant Still(phase) ==> Landing(names[..i], key, phase.held, world.target)
      {
        assert names[..i + 1] == names[..i] + [names[i]];
        ghost var before := world;
        ok := CarrySidecar(phase, key, names[i], names[..i]);
        SinceTwice(old(world), before, world);
        OnlySidecarsTwice(key, names[i], old(world).target, before.target, world.target);
        if !ok { return; }
      }
      assert names[..|names|] == names;
      if Still(phase) { LandedSidecars(names, key, phase.held, world.target); }
      return true;
    }

    lemma NothingToLand(key: SessionKey, source: Bucket, target: Bucket)
      ensures Landing([], key, source, target)
    {
    }

    method CarrySidecar(ghost phase: Phase, key: SessionKey, name: string, ghost names: seq<string>)
      returns (ok: bool)
      requires Valid(phase) && name != CANONICAL
      requires Still(phase) ==> Landing(names, key, phase.held, world.target)
      modifies this`world, this`armedUntil, this`episode, this`pauseLapsed
      ensures Sound(phase) && Since(old(world), world)
      ensures Still(phase) ==> old(Still(phase))
      ensures old(pauseLapsed) ==> pauseLapsed
      ensures ok ==> Valid(phase)
      ensures OnlyObject(ObjectId(key, name), old(world).target, world.target)
      ensures ok && Still(phase) ==> Landing(names + [name], key, phase.held, world.target)
    {
      OnlyOneObject(ObjectId(key, name), world.target, world.target);
      hide Known, Valid, Sound, Armed, Still, Became, OnlyObject, Landing;
      ok := Beat(phase);
      if !ok { return; }
      ok := CopySidecar(phase, key, name);
      if ok && Still(phase) { LandingOneMore(names, name, key, phase.held, old(world).target, world.target); }
    }

    method CopySidecar(ghost phase: Phase, key: SessionKey, name: string) returns (ok: bool)
      requires Valid(phase) && name != CANONICAL
      modifies this`world
      ensures Valid(phase) && Since(old(world), world)
      ensures Still(phase) ==> old(Still(phase))
      ensures OnlyObject(ObjectId(key, name), old(world).target, world.target)
      ensures ok && Still(phase) && ObjectId(key, name) in phase.held ==>
                && ObjectId(key, name) in world.target
                && world.target[ObjectId(key, name)] == phase.held[ObjectId(key, name)]
    {
      hide Known, Armed, Hold, Became;
      var o := ObjectId(key, name);
      var artifact, arrived;
      ok, artifact := ReadSource(phase, o);
      if !ok { return; }
      if artifact.None? { return; }
      ok := WriteTarget(phase, o, artifact.value);
      if !ok { return; }
      ok, arrived := ReadTarget(phase, o);
      if !ok { return; }
      if arrived.None? || sha256(arrived.value) != sha256(artifact.value) { return false; }
    }

    // ---- passes ----

    /** Copy a session, unless an earlier copy is on record and the target still agrees. */
    method CopyUnlessProven(ghost phase: Phase, key: SessionKey) returns (ok: bool)
      requires Valid(phase) && Versioned(version, world.target)
      modifies this`world, this`armedUntil, this`episode, this`pauseLapsed, this`done
      ensures Sound(phase) && Since(old(world), world)
      ensures Still(phase) ==> old(Still(phase))
      ensures old(pauseLapsed) ==> pauseLapsed
      ensures done <= old(done) + {key}
      ensures ok ==> Valid(phase) && Versioned(version, world.target)
      ensures ok ==> Brought(old(world).target, world.target, world.db.records)
      ensures OnlySessions({key}, old(world).target, world.target)
      ensures ok && Still(phase) && key !in old(done) ==> Mirrored(key, phase.held, world.target)
    {
      hide Known, Valid, Sound, Armed, Still, Mirrored, Versioned, Became, SameCanonical;
      ok := Beat(phase);
      if !ok { return; }
      if key in done {
        var current;
        ok, current := TargetIsCurrent(phase, key, false);
        if !ok || current { return; }
      }
      ok := CopyAndRecord(phase, key);
    }

    method CopyAndRecord(ghost phase: Phase, key: SessionKey) returns (ok: bool)
      requires Valid(phase) && Versioned(version, world.target)
      modifies this`world, this`armedUntil, this`episode, this`pauseLapsed, this`done
      ensures Sound(phase) && Since(old(world), world)
      ensures Still(phase) ==> old(Still(phase))
      ensures old(pauseLapsed) ==> pauseLapsed
      ensures done <= old(done) + {key}
      ensures ok ==> Valid(phase) && Versioned(version, world.target)
      ensures ok ==> key in world.db.records && Brought(old(world).target, world.target, world.db.records)
      ensures OnlySessions({key}, old(world).target, world.target)
      ensures ok && Still(phase) ==> Mirrored(key, phase.held, world.target)
    {
      hide Known, Valid, Sound, Armed, Still, Mirrored, Versioned, Became, Brought, OnlySessions;
      ok := CopySession(phase, key);
      if !ok { return; }
      done := done + {key};
      ok := RecordCopied(phase, key);
      BroughtByCopy(key, old(world).target, world.target, world.db.records);
    }

    /** Put a copy on the run's record. */
    method RecordCopied(ghost phase: Phase, key: SessionKey) returns (ok: bool)
      requires Valid(phase)
      modifies this`world
      ensures Valid(phase) && Since(old(world), world) && world.target == old(world).target
      ensures Still(phase) ==> old(Still(phase))
      ensures world.db.records == old(world).db.records + {key}
    {
      hide Known, Became;
      Await(phase);
      KnownByOwnStores(version, world, Recorded(world, key), phase);
      BecameByMove(version, origin, world, Copied(key));
      world := Recorded(world, key);
      ok := *;
    }

    method CopyMissing(ghost phase: Phase, keys: seq<SessionKey>) returns (ok: bool)
      requires Valid(phase) && Versioned(version, world.target) && Distinct(keys)
      modifies this`world, this`armedUntil, this`episode, this`pauseLapsed, this`done
      ensures Sound(phase) && Since(old(world), world)
      ensures Still(phase) ==> old(Still(phase))
      ensures old(pauseLapsed) ==> pauseLapsed
      ensures ok ==> Valid(phase) && Versioned(version, world.target)
      ensures ok ==> Brought(old(world).target, world.target, world.db.records)
      ensures OnlySessions((set k | k in keys), old(world).target, world.target)
      ensures ok && Still(phase) ==>
                forall k :: k in keys && k !in old(done) ==> Mirrored(k, phase.held, world.target)
    {
      hide Known, Sound, Armed, Hold, Mirrored, Versioned, Brought, Became;
      BroughtNothing(world.target, world.db.records);
      ghost var all := set k | k in keys;
      for i := 0 to |keys|
        invariant Valid(phase) && Versioned(version, world.target) && Since(old(world), world)
        invariant Still(phase) ==> old(Still(phase))
        invariant old(pauseLapsed) ==> pauseLapsed
        invariant OnlySessions(all, old(world).target, world.target)
        invariant forall k :: k in done ==> k in old(done) || k in keys[..i]
        invariant Brought(old(world).target, world.target, world.db.records)
        invariant Still(phase) ==>
                    forall k :: k in keys[..i] && k !in old(done) ==> Mirrored(k, phase.held, world.target)
      {
        var key := keys[i];
        assert key !in keys[..i];
        assert keys[..i + 1] == keys[..i] + [key];
        ghost var before, records := world.target, world.db.records;
        ok := CopyUnlessProven(phase, key);
        OnlySessionsTwice(all, key, old(world).target, before, world.target);
        if !ok { return; }
        BroughtTwice(old(world).target, before, world.target, records, world.db.records);
        forall k | Still(phase) && k in keys[..i] && Mirrored(k, phase.held, before)
          ensures Mirrored(k, phase.held, world.target)
        {
          MirroredElsewhere({key}, k, phase.held, before, world.target);
        }
      }
      assert keys[..|keys|] == keys;
      return true;
    }

    /** Which of the listed sessions the target does not hold as the source does. */
    method FindBehind(ghost phase: Phase, keys: seq<SessionKey>, alsoSidecars: bool)
      returns (ok: bool, behind: seq<SessionKey>)
      requires Valid(phase) && Versioned(version, world.target) && Distinct(keys)
      modifies this`world, this`armedUntil, this`episode, this`pauseLapsed
      ensures Sound(phase) && Since(old(world), world) && world.target == old(world).target
      ensures Still(phase) ==> old(Still(phase))
      ensures old(pauseLapsed) ==> pauseLapsed
      ensures ok ==> Valid(phase)
      ensures Distinct(behind)
      ensures ok && alsoSidecars && Still(phase) ==>
                forall k :: k in keys && k !in behind ==> Mirrored(k, phase.held, world.target)
    {
      hide Known, Sound, Armed, Hold, Mirrored, Versioned, Became;
      behind := [];
      for i := 0 to |keys|
        invariant Valid(phase) && Versioned(version, world.target) && Since(old(world), world)
        invariant Still(phase) ==> old(Still(phase))
        invariant world.target == old(world).target
        invariant old(pauseLapsed) ==> pauseLapsed
        invariant Distinct(behind) && forall k :: k in behind ==> k in keys[..i]
        invariant alsoSidecars && Still(phase) ==>
                    forall k :: k in keys[..i] && k !in behind ==> Mirrored(k, phase.held, world.target)
      {
        assert keys[i] !in keys[..i];
        assert keys[..i + 1] == keys[..i] + [keys[i]];
        ok := Beat(phase);
        if !ok { return; }
        var current;
        ok, current := TargetIsCurrent(phase, keys[i], alsoSidecars);
        if !ok { return; }
        if !current { behind := behind + [keys[i]]; }
      }
      assert keys[..|keys|] == keys;
      ok := true;
    }

    /** What was behind has been copied, and what was not behind was left alone. */
    lemma NarrowedToNothing(keys: seq<SessionKey>, behind: seq<SessionKey>,
                            source: Bucket, before: Bucket, after: Bucket)
      requires forall k: SessionKey :: k in keys <==> Log(k) in source
      requires forall k :: k in keys && k !in behind ==> Mirrored(k, source, before)
      requires OnlySessions((set k | k in behind), before, after)
      requires forall k :: k in behind ==> Mirrored(k, source, after)
      ensures AllMirrored(source, after)
    {
      forall k: SessionKey
        ensures Mirrored(k, source, after)
      {
        if k in keys && k !in behind { MirroredElsewhere((set b | b in behind), k, source, before, after); }
      }
    }

    lemma OnlyNone(bucket: Bucket)
      ensures forall keys: set<SessionKey> :: OnlySessions(keys, bucket, bucket)
    {
    }

    /** One narrowing pass over what the source lists now. */
    method DeltaPass(ghost phase: Phase, alsoSidecars: bool) returns (ok: bool, behindCount: nat)
      requires Valid(phase) && Versioned(version, world.target)
      modifies this`world, this`armedUntil, this`episode, this`pauseLapsed, this`done
      ensures Sound(phase) && Since(old(world), world)
      ensures Still(phase) ==> old(Still(phase))
      ensures old(pauseLapsed) ==> pauseLapsed
      ensures ok ==> Valid(phase) && Versioned(version, world.target)
      ensures ok ==> Brought(old(world).target, world.target, world.db.records)
      ensures ok && alsoSidecars && Still(phase) ==> AllMirrored(phase.held, world.target)
    {
      hide Known, Valid, Sound, Armed, Still, Versioned, Mirrored, AllMirrored, Brought, Became,
           OnlySessions, Distinct, Since;
      behindCount := 0;
      var keys, behind;
      ok, keys := ListCanonicalKeys(phase);
      if !ok { return; }
      ghost var listed := world;
      ok, behind := FindBehind(phase, keys, alsoSidecars);
      SinceTwice(old(world), listed, world);
      if !ok { return; }
      behindCount := |behind|;
      BroughtNothing(world.target, world.db.records);
      ghost var before := world;
      OnlyNone(world.target);
      if |behind| > 0 {
        done := done - (set k | k in behind);
        ok := CopyMissing(phase, behind);
        SinceTwice(old(world), before, world);
        if !ok { return; }
      }
      if alsoSidecars && Still(phase) { NarrowedToNothing(keys, behind, phase.held, before.target, world.target); }
      ok := true;
    }

    // ---- permanent deletes ----

    method DeleteToCompletion(ghost phase: Phase, key: SessionKey) returns (ok: bool, passes: nat)
      requires Valid(phase) && !phase.Ingesting?
      modifies this`world, this`armedUntil, this`episode, this`pauseLapsed
      ensures Sound(phase) && Since(old(world), world)
      ensures Still(phase) ==> old(Still(phase))
      ensures old(pauseLapsed) ==> pauseLapsed
      ensures ok ==> Valid(phase)
      ensures passes <= MAX_DELETE_PASSES
      ensures OnlyDeleted(old(world).target, world.target, [key])
      ensures ok ==> Gone(world.target, [key])
    {
      hide Known, Valid, Sound, Armed, Still, Hashing, Became;
      passes := 0;
      var complete := false;
      while !complete
        invariant Valid(phase) && Since(old(world), world)
        invariant Still(phase) ==> old(Still(phase))
        invariant old(pauseLapsed) ==> pauseLapsed
        invariant passes <= MAX_DELETE_PASSES
        invariant OnlyDeleted(old(world).target, world.target, [key])
        invariant complete ==> forall o: ObjectId :: o in world.target ==> !Owns(key, o.session)
        decreases MAX_DELETE_PASSES - passes, !complete
      {
        if passes >= MAX_DELETE_PASSES { return false, passes; }
        ok := Heartbeat(phase);
        if !ok { return; }
        ok, complete := DeleteBatch(phase, key);
        passes := passes + 1;
        if !ok { return; }
      }
      ok := true;
    }

    /** The deletes this run has to replay, as the database holds them when it is asked. */
    method ListTombstones(ghost phase: Phase) returns (ok: bool, tombstones: seq<SessionKey>, ghost listed: World)
      requires Valid(phase)
      modifies this`world
      ensures Valid(phase) && Since(old(world), world) && world.target == old(world).target
      ensures Still(phase) ==> old(Still(phase))
      ensures Became(version, origin, listed) && old(world).trace <= listed.trace <= world.trace
      ensures old(world).now <= listed.now <= world.now && old(world).db.records <= listed.db.records
      ensures forall t :: t in tombstones <==> t in Tombstones(listed.db)
    {
      hide Known, Became;
      Pass(phase);
      listed := world;
      tombstones := Enumerate(Tombstones(world.db));
      Pass(phase);
      ok := *;
    }

    /** Replay permanent deletes onto the target: the run's own list, each to completion. */
    method ReplayTombstones(ghost phase: Phase) returns (ok: bool, replayed: seq<SessionKey>, ghost listed: World)
      requires Valid(phase) && !phase.Ingesting?
      modifies this`world, this`armedUntil, this`episode, this`pauseLapsed
      ensures Sound(phase) && Since(old(world), world)
      ensures Still(phase) ==> old(Still(phase))
      ensures old(pauseLapsed) ==> pauseLapsed
      ensures ok ==> Valid(phase)
      ensures ok ==>
                && Became(version, origin, listed) && old(world).trace <= listed.trace <= world.trace
                && old(world).now <= listed.now <= world.now && old(world).db.records <= listed.db.records
                && (forall t :: t in replayed <==> t in Tombstones(listed.db))
      ensures ok ==> Gone(world.target, replayed) && OnlyDeleted(old(world).target, world.target, replayed)
    {
      hide Known, Valid, Sound, Armed, Still, Hashing, Became;
      replayed, listed := [], world;
      ok := Heartbeat(phase);
      if !ok { return; }
      var tombstones;
      ok, tombstones, listed := ListTombstones(phase);
      if !ok { return; }
      ok := DeleteAll(phase, tombstones);
      replayed := tombstones;
    }

    /** Every listed session, each to completion. */
    method DeleteAll(ghost phase: Phase, tombstones: seq<SessionKey>) returns (ok: bool)
      requires Valid(phase) && !phase.Ingesting?
      modifies this`world, this`armedUntil, this`episode, this`pauseLapsed
      ensures Sound(phase) && Since(old(world), world)
      ensures Still(phase) ==> old(Still(phase))
      ensures old(pauseLapsed) ==> pauseLapsed
      ensures ok ==> Valid(phase)
      ensures ok ==> Gone(world.target, tombstones) && OnlyDeleted(old(world).target, world.target, tombstones)
    {
      hide Known, Valid, Sound, Armed, Still, Hashing, Became;
      ok := Heartbeat(phase);
      if !ok { return; }
      for i := 0 to |tombstones|
        invariant Valid(phase) && Since(old(world), world)
        invariant Still(phase) ==> old(Still(phase))
        invariant old(pauseLapsed) ==> pauseLapsed
        invariant Gone(world.target, tombstones[..i])
        invariant OnlyDeleted(old(world).target, world.target, tombstones[..i])
      {
        ok := Heartbeat(phase);
        if !ok { return; }
        ghost var before := world.target;
        var passes;
        ok, passes := DeleteToCompletion(phase, tombstones[i]);
        if !ok { return; }
        DeletedOneMore(old(world).target, before, world.target, tombstones[..i], tombstones[i]);
        assert tombstones[..i + 1] == tombstones[..i] + [tombstones[i]];
      }
      assert tombstones[..|tombstones|] == tombstones;
      ok := true;
    }

    lemma DeletedOneMore(a: Bucket, b: Bucket, c: Bucket, done: seq<SessionKey>, key: SessionKey)
      requires Gone(b, done) && OnlyDeleted(a, b, done)
      requires Gone(c, [key]) && OnlyDeleted(b, c, [key])
      ensures Gone(c, done + [key]) && OnlyDeleted(a, c, done + [key])
    {
      forall o: ObjectId
        ensures Covered(o.session, done + [key]) <==> Covered(o.session, done) || Covered(o.session, [key])
      {
        if Covered(o.session, done) {
          var t :| t in done && Owns(t, o.session);
          assert t in done + [key];
        }
        if Covered(o.session, [key]) {
          assert key in done + [key];
        }
      }
    }

    // ---- the barrier ----

    /** Poll until the store is quiet, or the deadline lapses. */
    method AwaitQuiesced(ghost phase: Phase, deadline: int) returns (ok: bool, quiet: bool)
      requires Valid(phase) && phase.Sealed?
      modifies this`world, this`armedUntil, this`episode, this`pauseLapsed
      ensures Sound(phase) && Since(old(world), world) && world.target == old(world).target
      ensures ok ==> Valid(phase)
      ensures old(pauseLapsed) ==> pauseLapsed
      ensures ok && quiet ==>
                && world.clients.calls == 0
                && forall s :: s in world.clients.signatures ==> s <= world.now
      ensures (&& ok && Hold(world, budget) && world.prompt
               && deadline >= Min(budget.endsAt, world.pause.sealedAt.value + 2 * MINUTE)) ==> quiet
    {
      quiet := false;
      ok := PollQuiesced(phase, deadline);
      if !ok { return; }
      quiet := world.clients.quiesce.IsQuiesced(world.now);
    }

    method PollQuiesced(ghost phase: Phase, deadline: int) returns (ok: bool)
      requires Valid(phase) && phase.Sealed?
      modifies this`world, this`armedUntil, this`episode, this`pauseLapsed
      ensures Sound(phase) && Since(old(world), world) && world.target == old(world).target
      ensures ok ==> Valid(phase)
      ensures old(pauseLapsed) ==> pauseLapsed
      ensures ok ==> world.clients.quiesce.IsQuiesced(world.now) || deadline <= world.now
    {
      hide Known, Sound, Hashing, Became;
      while world.now < deadline
        invariant Valid(phase) && Since(old(world), world) && world.target == old(world).target
        invariant old(pauseLapsed) ==> pauseLapsed
        decreases deadline - world.now
      {
        if world.clients.quiesce.IsQuiesced(world.now) { return true; }
        Nap(phase, BARRIER_POLL_MS);
        ok := Heartbeat(phase);
        if !ok { return; }
      }
      ok := true;
    }

    // ---- the run ----

    constructor (mode: Mode, version: Versions, sha256: Bytes -> int, swapPauseMs: nat, pauseHeartbeatMs: nat,
                 gateConfirmMs: nat, barrierMs: nat, maxDeltaPasses: nat, world: World)
      ensures this.mode == mode && this.version == version && this.sha256 == sha256
      ensures this.swapPauseMs == swapPauseMs && this.pauseHeartbeatMs == pauseHeartbeatMs
      ensures this.barrierMs == barrierMs && this.world == world && this.origin == world
      ensures !beating && !pauseLapsed && cut.None?
      ensures result == MigrationResult(false, None, None, false)
    {
      this.mode, this.version, this.sha256 := mode, version, sha256;
      this.swapPauseMs, this.pauseHeartbeatMs := swapPauseMs, pauseHeartbeatMs;
      this.gateConfirmMs, this.barrierMs, this.maxDeltaPasses := gateConfirmMs, barrierMs, maxDeltaPasses;
      this.world, this.origin := world, world;
      result := MigrationResult(false, None, None, false);
      done, budget, armedUntil, episode := {}, Budget(0, 0), 0, 0;
      pauseLapsed, beating, cut := false, false, None;
    }

    /** Bulk copy, then narrowing passes, while clients go on writing. */
    method CopyWhileIngesting() returns (ok: bool)
      requires Valid(Ingesting) && Versioned(version, world.target)
      modifies this`world, this`armedUntil, this`episode, this`pauseLapsed, this`done
      ensures Sound(Ingesting) && Since(old(world), world)
      ensures ok ==> Valid(Ingesting) && Versioned(version, world.target)
      ensures ok ==> Brought(old(world).target, world.target, world.db.records)
    {
      hide Known, Sound, Hashing, Versioned, Brought, Became;
      BroughtNothing(world.target, world.db.records);
      var plan;
      ok, plan := ListCanonicalKeys(Ingesting);
      if !ok { return; }
      if mode.PlanOnly? {
        BroughtNothing(world.target, world.db.records);
        return;
      }
      Pass(Ingesting);                                    // target.selfTest
      if * { return false; }
      done := world.db.records;                           // alreadyCopied
      ok := CopyMissing(Ingesting, plan);
      if !ok { return; }
      for pass := 0 to maxDeltaPasses
        invariant Valid(Ingesting) && Versioned(version, world.target) && Since(old(world), world)
        invariant Brought(old(world).target, world.target, world.db.records)
      {
        ghost var before, records := world.target, world.db.records;
        var behind;
        ok, behind := DeltaPass(Ingesting, false);
        if !ok { return; }
        BroughtTwice(old(world).target, before, world.target, records, world.db.records);
        if behind == 0 { break; }
      }
      ok := true;
    }

    lemma NotYetSealed()
      requires Sound(Arming(budget))
      ensures world.pause.sealedAt.None?
    {
    }

    /** Wait for the gate; once it reports the pause, the run is sealed. */
    method ProveClosed() returns (ok: bool, proven: bool)
      requires Valid(Arming(budget))
      requires world.clients.runOff.Some? && world.clients.runOff.value <= world.now
      modifies this`world, this`result
      ensures ok && proven ==>
                && Valid(Sealed(budget, world.clients.admissions))
                && world.pause.sealedAt == Some(world.now)
                && PausedUntil(world.pause.gate, world.now).Some?
      ensures world.target == old(world).target && world.now >= old(world).now
      ensures old(world).db.records <= world.db.records
      ensures result.switched == old(result).switched && result.resumeFailed == old(result).resumeFailed
      ensures !(ok && proven) ==> Sound(Arming(budget))
      ensures if ok && !proven then result.aborted == Some(ClampedPause) || result.aborted == Some(NeverInForce)
              else result.aborted == old(result).aborted
      ensures ok && !proven ==> Reached(world, result.aborted.value)
    {
      hide Known, Hashing, Chained, Became;
      NotYetSealed();
      var state;
      ok, state := AwaitInForce(Arming(budget));
      if !ok { return false, false; }
      if state.capped {
        result := result.(aborted := Some(ClampedPause));
        return true, false;
      }
      if state.pausedUntil.None? {
        result := result.(aborted := Some(NeverInForce));
        return true, false;
      }
      KnownBySeal(version, world, budget);
      BecameByMove(version, origin, world, ProvenClosed);
      world := Seal(world);
      return true, true;
    }

    /** Final delta, sidecars and all, then the permanent deletes, beating between objects. */
    method FinalPass(ghost phase: Phase) returns (ok: bool, replayed: seq<SessionKey>, ghost listed: World)
      requires Valid(phase) && phase.Frozen? && Versioned(version, world.target)
      modifies this`world, this`armedUntil, this`episode, this`pauseLapsed, this`done, this`beating
      ensures Sound(phase) && Since(old(world), world)
      ensures Still(phase) ==> old(Still(phase))
      ensures !beating
      ensures ok ==> Valid(phase) && Gone(world.target, replayed)
      ensures ok ==>
                && Became(version, origin, listed) && old(world).trace <= listed.trace <= world.trace
                && old(world).now <= listed.now <= world.now && old(world).db.records <= listed.db.records
                && (forall t :: t in replayed <==> t in Tombstones(listed.db))
                && Brought(old(world).target, world.target, listed.db.records, replayed)
      ensures ok && Still(phase) ==> NoLoss(phase.held, world.target, replayed)
    {
      hide Known, Sound, Armed, Hashing, Versioned, Still, AllMirrored, OnlyDeleted, Gone, NoLoss, Became, Brought;
      replayed, listed := [], world;
      beating := true;
      var behind;
      ok, behind := DeltaPass(phase, true);
      if !ok { beating := false; return; }
      ghost var mirrored, records := world.target, world.db.records;
      ok, replayed, listed := ReplayTombstones(phase);
      beating := false;
      if ok { DeletingBringsNothing(old(world).target, mirrored, world.target, replayed, records, listed.db.records); }
      if ok && Still(phase) { NothingLost(phase.held, mirrored, world.target, replayed); }
    }

    lemma DeletingBringsNothing(a: Bucket, b: Bucket, c: Bucket, replayed: seq<SessionKey>,
                                records: set<SessionKey>, more: set<SessionKey>)
      requires Brought(a, b, records) && OnlyDeleted(b, c, replayed) && records <= more
      ensures Brought(a, c, more, replayed)
    {
    }

    lemma NothingLost(source: Bucket, before: Bucket, after: Bucket, replayed: seq<SessionKey>)
      requires AllMirrored(source, before) && OnlyDeleted(before, after, replayed)
      ensures NoLoss(source, after, replayed)
    {
      forall k: SessionKey | !Covered(k, replayed)
        ensures Mirrored(k, source, after)
      {
        assert Mirrored(k, source, before);
      }
    }

    lemma EnforcedAsAsked(phase: Phase)
      requires Valid(phase) && phase.Frozen? && world.pause.gate.pausedUntil.Some?
      ensures world.pause.rows != []
      ensures world.pause.gate.pausedUntil.value
           <= world.pause.rows[|world.pause.rows| - 1].row.pausedUntil <= budget.endsAt
    {
      EnforcedWithinRequest(world, budget);
    }

    /** Refuse a window that lapsed; else re-arm, re-prove, and demand a margin of what the GATE is
        enforcing. */
    method Fence(ghost phase: Phase) returns (ok: bool, passed: bool)
      requires Valid(phase) && phase.Frozen?
      modifies this`world, this`armedUntil, this`episode, this`result
      ensures Sound(phase) && Since(old(world), world) && world.target == old(world).target
      ensures Still(phase) ==> old(Still(phase))
      ensures result.switched == old(result).switched && result.resumeFailed == old(result).resumeFailed
      ensures ok && (pauseLapsed || old(armedUntil) <= old(world).now) ==> !passed
      ensures ok && !passed ==>
                result.aborted
                == Some(if pauseLapsed || old(armedUntil) <= old(world).now then PauseExpired else NearlySpent)
      ensures !ok || passed ==> result.aborted == old(result).aborted
      ensures ok && passed ==>
                && Valid(phase) && !pauseLapsed
                && world.now + FENCE_MARGIN_MS
                   <= world.pause.rows[|world.pause.rows| - 1].row.pausedUntil <= budget.endsAt
                && world.pause.gate.pausedUntil.Some?
                && world.now + FENCE_MARGIN_MS <= world.pause.gate.pausedUntil.value
    {
      hide Known, Hashing, Chained, Became;
      passed := false;
      if pauseLapsed || armedUntil <= world.now {
        result := result.(aborted := Some(PauseExpired));
        return true, false;
      }
      var fence;
      ok, fence := Reprove(phase);
      if !ok { return; }
      var remaining := if fence.pausedUntil.Some? then fence.pausedUntil.value - world.now else 0;
      if fence.capped || remaining < FENCE_MARGIN_MS {
        result := result.(aborted := Some(NearlySpent));
        return true, false;
      }
      EnforcedAsAsked(phase);
      return true, true;
    }

    method Reprove(ghost phase: Phase) returns (ok: bool, fence: EffectivePause)
      requires Valid(phase) && phase.Frozen? && !pauseLapsed && world.now < armedUntil
      modifies this`world, this`armedUntil, this`episode
      ensures Sound(phase) && Since(old(world), world) && world.target == old(world).target
      ensures Still(phase) ==> old(Still(phase))
      ensures ok ==> Valid(phase)
      ensures ok && !fence.capped && fence.pausedUntil.Some? ==>
                fence.pausedUntil == PausedUntil(world.pause.gate, world.now)
    {
      assert 0 < budget.heartbeatMs;
      hide Known, Hashing, Chained, Became;
      var now := world.now;
      ok := ArmPause(phase);
      if !ok { return false, OPEN; }
      CompleteBeat(phase, now);
      ok, fence := AwaitInForce(phase);
    }

    /** Name the target in credentials.json, then bind to it. */
    method CutOver(ghost phase: Phase, ghost proof: World, ghost listed: World, ghost replayed: seq<SessionKey>)
      returns (ok: bool)
      requires Valid(phase) && phase.Frozen? && !pauseLapsed && !result.switched && cut.None?
      requires world.now + FENCE_MARGIN_MS <= world.pause.rows[|world.pause.rows| - 1].row.pausedUntil <= budget.endsAt
      requires world.pause.gate.pausedUntil.Some?
      requires world.now + FENCE_MARGIN_MS <= world.pause.gate.pausedUntil.value
      requires Then(version, origin, proof, listed) && Then(version, origin, listed, world)
      requires PausedUntil(proof.pause.gate, proof.now).Some? && proof.pause.sealedAt == Some(proof.now)
      requires forall t :: t in replayed <==> t in Tombstones(listed.db)
      requires Gone(world.target, replayed) && Brought(origin.target, world.target, listed.db.records, replayed)
      requires Still(phase) ==> NoLoss(phase.held, world.target, replayed)
      requires world.pause.sealedAt == Some(proof.now) && phase.admitted == proof.clients.admissions
      modifies this`world, this`result, this`cut
      ensures Sound(phase) && CutIsPast()
      ensures result.resumeFailed == old(result).resumeFailed
      ensures cut.Some? <==> result.switched
      ensures if ok then
                && result.switched
                && (result.aborted == old(result).aborted || result.aborted == Some(CouldNotRebind))
              else !result.switched && result.aborted == old(result).aborted
      ensures world.pause.sealedAt == old(world).pause.sealedAt
      ensures cut.Some? ==>
                && Safe(version, cut.value)
                && cut.value.proof == proof && cut.value.listed == listed && cut.value.replayed == replayed
                && cut.value.fenced == old(world)
    {
      hide Became, Brought;
      ghost var fenced := world;
      Swap(phase, world.now + FENCE_MARGIN_MS);
      if * { return false; }                              // the CAS refused
      var named: nat := *;
      ghost var c := Cut(origin, proof, listed, fenced, world, replayed);
      assert Safe(version, c);
      cut := Some(c);
      result := result.(switched := true, version := Some(named));
      Pass(phase);                                        // rebindStore
      if * { result := result.(aborted := Some(CouldNotRebind)); }
      ok := true;
    }

    /** The swap itself. What the fence saw of the gate holds it closed until `until`, if refreshes land
        in order. */
    method Swap(ghost phase: Phase, ghost until: int)
      requires Valid(phase) && phase.Frozen?
      requires world.pause.gate.pausedUntil.Some? && until <= world.pause.gate.pausedUntil.value
      modifies this`world
      ensures Valid(phase) && Since(old(world), world)
      ensures world.target == old(world).target && world.pause.rows == old(world).pause.rows
      ensures Still(phase) ==> old(Still(phase))
      ensures old(Still(phase)) && world.inOrder && world.now < until ==>
                Shut(world, budget, phase.admitted, phase.held, until)
    {
      hide Known, Became, Shut, Chained, Hashing, Playable, Play;
      ghost var script := PlayAny(phase);
      if old(Still(phase)) && world.inOrder && world.now < until {
        StaysShut(version, old(world), script, phase, until);
      }
    }

    /** From the first armed row to the cut, or to whatever refused it. */
    method UnderPause() returns (ok: bool)
      requires Valid(Arming(budget)) && Versioned(version, world.target) && !beating
      requires Brought(origin.target, world.target, world.db.records)
      requires world.clients.runOff.Some? && world.clients.runOff.value <= world.now
      requires !result.switched && result.aborted.None? && cut.None?
      modifies this
      ensures world.pause.rows != [] ==> episode == |world.pause.rows| - 1
      ensures result.resumeFailed == old(result).resumeFailed
      ensures cut.Some? <==> result.switched
      ensures Accounts(ok, result)
      ensures result.aborted.Some? ==> Reached(world, result.aborted.value)
      ensures CutIsPast()
      ensures cut.Some? ==> Safe(version, cut.value) && cut.value.origin == origin
    {
      hide Known, Hashing, Versioned, Chained, NoLoss, Gone, Safe, Became, Brought;
      var proven;
      ok, proven := ProveClosed();
      if !ok || !proven { return; }
      ghost var proof := world;
      ghost var sealed := Sealed(budget, world.clients.admissions);
      var quiet;
      ok, quiet := AwaitQuiesced(sealed, Min(budget.endsAt, world.now + barrierMs));
      if !ok { return; }
      if !quiet {
        result := result.(aborted := Some(NotQuiet));
        return;
      }
      KnownByQuiet(version, world, budget, sealed.admitted);
      ghost var phase := Frozen(budget, sealed.admitted, world.source);
      ghost var mirror, records := world.target, world.db.records;
      BroughtNothing(mirror, records);
      BroughtTwice(origin.target, mirror, mirror, old(world).db.records, records);
      var replayed;
      ghost var listed;
      ok, replayed, listed := FinalPass(phase);
      if !ok { return; }
      BroughtTwice(origin.target, mirror, world.target, records, listed.db.records, replayed);
      var passed;
      ok, passed := Fence(phase);
      if !ok || !passed { return; }
      ok := CutOver(phase, proof, listed, replayed);
    }

    /** Engage the short-lived floor for new signatures, then keep narrowing until every signature
        minted before it has run off. */
    method RunOffSignatures() returns (ok: bool)
      requires Valid(Ingesting) && Versioned(version, world.target)
      modifies this`world, this`armedUntil, this`episode, this`pauseLapsed, this`done
      ensures Sound(Ingesting) && world.pace == old(world).pace
      ensures old(world).now <= world.now && old(world).db.records <= world.db.records
      ensures ok ==>
                && Valid(Ingesting) && Versioned(version, world.target)
                && Brought(old(world).target, world.target, world.db.records)
                && world.clients.runOff == Some(old(world).clients.quiesce.signatureFloorMs)
                && world.clients.runOff.value <= world.now
                && (forall s :: s in old(world).clients.signatures ==> s <= world.now)
    {
      KnownByDrain(version, world);
      BecameByMove(version, origin, world, DrainArmed);
      world := Drained(world);
      var runOff := world.clients.runOff.value;
      ok := PollRunOff(runOff);
    }

    method PollRunOff(runOff: int) returns (ok: bool)
      requires Valid(Ingesting) && Versioned(version, world.target)
      requires world.clients.runOff == Some(runOff)
      modifies this`world, this`armedUntil, this`episode, this`pauseLapsed, this`done
      ensures Sound(Ingesting) && Since(old(world), world)
      ensures ok ==> Valid(Ingesting) && Versioned(version, world.target) && runOff <= world.now
      ensures ok ==> Brought(old(world).target, world.target, world.db.records)
    {
      hide Known, Sound, Hashing, Versioned, Brought, Became;
      BroughtNothing(world.target, world.db.records);
      while world.now < runOff
        invariant Valid(Ingesting) && Versioned(version, world.target) && Since(old(world), world)
        invariant Brought(old(world).target, world.target, world.db.records)
        decreases runOff - world.now
      {
        ghost var before, records := world.target, world.db.records;
        var behind;
        ok, behind := DeltaPass(Ingesting, false);
        if !ok { return; }
        BroughtTwice(old(world).target, before, world.target, records, world.db.records);
        Nap(Ingesting, DRAIN_POLL_MS);
      }
      ok := true;
    }

    lemma NothingArmed()
      requires Sound(Ingesting)
      ensures world.pause.rows == []
    {
    }

    /** Release the newest episode, whatever became of the run. */
    method ResumeIngest()
      requires CutIsPast()
      requires world.pause.rows != [] ==> episode == |world.pause.rows| - 1
      modifies this`world, this`result
      ensures CutIsPast()
      ensures result.switched == old(result).switched && result.aborted == old(result).aborted
      ensures |world.pause.rows| == |old(world).pause.rows|
      ensures world.pause.sealedAt == old(world).pause.sealedAt
      ensures world.pause.rows != [] ==>
                result.resumeFailed || world.pause.rows[|world.pause.rows| - 1].row.resumedAt.Some?
    {
      hide Became;
      var released: bool := *;
      if episode >= |world.pause.rows| || !released {
        result := result.(resumeFailed := true);
      } else {
        BecameByMove(version, origin, world, Released(episode));
        world := Resumed(world, episode);
      }
    }

    /** The drain, the pause, and the cut. */
    method SwitchOver() returns (ok: bool)
      requires Valid(Ingesting) && Versioned(version, world.target)
      requires Brought(origin.target, world.target, world.db.records)
      requires Paced(world, Budget(if pauseHeartbeatMs < swapPauseMs then pauseHeartbeatMs else swapPauseMs, 0))
      requires !result.switched && result.aborted.None? && cut.None?
      modifies this
      ensures cut.Some? <==> result.switched
      ensures Accounts(ok, result)
      ensures result.aborted.Some? ==> Reached(world, result.aborted.value)
      ensures CutIsPast()
      ensures cut.Some? ==> Safe(version, cut.value) && cut.value.origin == origin
      ensures world.pause.rows != [] ==>
                result.resumeFailed || world.pause.rows[|world.pause.rows| - 1].row.resumedAt.Some?
    {
      hide Known, Hashing, Versioned, Became, Brought, Safe;
      ghost var target, records := world.target, world.db.records;
      ok := RunOffSignatures();
      NothingArmed();
      if !ok { return; }
      BroughtTwice(origin.target, target, world.target, records, world.db.records);
      pauseLapsed := false;
      var heartbeatMs := if pauseHeartbeatMs < swapPauseMs then pauseHeartbeatMs else swapPauseMs;
      budget := Budget(heartbeatMs, world.now + swapPauseMs);
      records := world.db.records;
      ok := FirstArm();
      if !ok { return; }
      BroughtNothing(world.target, world.db.records);
      BroughtTwice(origin.target, world.target, world.target, records, world.db.records);
      ok := UnderPause();
      ResumeIngest();
    }

    method FirstArm() returns (ok: bool)
      requires Valid(Ingesting) && Paced(world, budget) && !pauseLapsed
      modifies this`world, this`armedUntil, this`episode
      ensures world.target == old(world).target && Since(old(world), world)
      ensures !ok ==> world.pause.rows == []
      ensures Became(version, origin, world)
      ensures ok ==> Valid(Arming(budget))
    {
      var now := world.now;
      assert Known(version, world, Arming(budget));
      ok := ArmPause(Arming(budget));
      if !ok { return; }
      BeatOnce(now);
    }

    /** The first row counts as a beat that began when it was decided. */
    method BeatOnce(at: int)
      requires Sound(Arming(budget)) && world.pause.beatAt.None? && |world.pause.rows| == 1 && at <= world.now
      requires armedUntil == world.pause.rows[0].row.pausedUntil == Min(budget.endsAt, at + budget.heartbeatMs)
      requires world.pause.rows[0].issuedAt <= world.now
      modifies this`world
      ensures Valid(Arming(budget)) && Since(old(world), world) && world.target == old(world).target
    {
      assert 0 < budget.heartbeatMs;
      hide Known, Became;
      KnownByBeat(version, world, Arming(budget), at);
      BecameByMove(version, origin, world, Move.Beat(at));
      world := Beaten(world, at);
    }

    lemma CutIsOnTheWay()
      requires CutIsPast() && cut.Some? && Safe(version, cut.value)
      ensures Then(version, origin, cut.value.world, world)
      ensures origin.now <= cut.value.proof.now && cut.value.world.now <= world.now
      ensures cut.value.world.target == world.target
    {
      assert Became(version, origin, origin);
      hide Became;
      HistoryOnlyGrows(version, origin, origin, cut.value.proof);
      HistoryOnlyGrows(version, origin, cut.value.world, world);
    }

    /** One run, from any record of earlier copies. Whatever it reports, the world it leaves is what
        the world it found has become; and a cut it reports is one it made on the way. */
    method Run() returns (ok: bool)
      requires Valid(Ingesting) && Versioned(version, world.target) && world == origin
      requires Paced(world, Budget(if pauseHeartbeatMs < swapPauseMs then pauseHeartbeatMs else swapPauseMs, 0))
      requires !result.switched && result.aborted.None? && cut.None?
      modifies this
      ensures Became(version, old(world), world)
      ensures cut.Some? <==> result.switched
      ensures if mode.Switch? then Accounts(ok, result) else result == old(result)
      ensures result.aborted.Some? ==> Reached(world, result.aborted.value)
      ensures cut.Some? ==>
                && mode.Switch?
                && Safe(version, cut.value) && cut.value.origin == old(world)
                && Then(version, old(world), cut.value.world, world)
                && old(world).now <= cut.value.proof.now && cut.value.world.now <= world.now
                && cut.value.world.target == world.target
      ensures !mode.Switch? ==> world.pause.rows == []
      ensures world.pause.rows != [] ==>
                result.resumeFailed || world.pause.rows[|world.pause.rows| - 1].row.resumedAt.Some?
    {
      hide Known, Hashing, Versioned, Became, Brought, Safe, Valid;
      ok := CopyWhileIngesting();
      NothingArmed();
      if !ok || !mode.Switch? { return; }
      ok := SwitchOver();
      if cut.Some? { CutIsOnTheWay(); }
    }
  }
}
