/** What a world has been through. A world carries the list of everything that happened to it; here
    that list is replayed, so that a statement about two worlds can say that one became the other. */
module History {
  import opened Wrappers
  import opened Bytes
  import opened IngestControl
  import opened Fortress

  function Do(w: World, m: Move): World {
    match m
    case Turn(a) => Apply(w, a)
    case Armed(issuedAt, until) => Insert(w, issuedAt, until)
    case Beat(at) => Beaten(w, at)
    case Put(o, text) => Written(w, o, text)
    case Removed(objects) => Erased(w, objects)
    case Copied(session) => Recorded(w, session)
    case DrainArmed => Drained(w)
    case ProvenClosed => Seal(w)
    case Released(index) => Resumed(w, index)
  }

  /** Everybody else does only what the code admits. */
  predicate Possible(v: Versions, w: World, m: Move) {
    m.Turn? ==> Enabled(v, w, m.action)
  }

  function Replay(w0: World, moves: seq<Move>): World {
    if moves == [] then w0 else Do(Replay(w0, moves[..|moves| - 1]), moves[|moves| - 1])
  }

  ghost predicate Legal(v: Versions, w0: World, moves: seq<Move>) {
    moves == []
    || (&& Legal(v, w0, moves[..|moves| - 1])
        && Possible(v, Replay(w0, moves[..|moves| - 1]), moves[|moves| - 1]))
  }

  /** `w` is what `w0` became by the moves it lists. */
  ghost predicate Became(v: Versions, w0: World, w: World) {
    w0.trace == [] && Legal(v, w0, w.trace) && w == Replay(w0, w.trace)
  }

  /** And `later` is what `earlier` became in turn. */
  ghost predicate Then(v: Versions, w0: World, earlier: World, later: World) {
    Became(v, w0, earlier) && Became(v, w0, later) && earlier.trace <= later.trace
  }

  lemma BecameByMove(v: Versions, w0: World, w: World, m: Move)
    requires Became(v, w0, w) && Possible(v, w, m)
    ensures Became(v, w0, Do(w, m))
  {
    hide Apply, Enabled;
    var w' := Do(w, m);
    DoTraces(w, m);
    assert w'.trace[..|w.trace|] == w.trace;
  }

  lemma DoTraces(w: World, m: Move)
    ensures Do(w, m).trace == w.trace + [m]
  {
  }

  lemma {:induction false} BecameByScript(v: Versions, w0: World, w: World, script: seq<Action>)
    requires Became(v, w0, w) && Playable(v, w, script)
    ensures Became(v, w0, Play(w, script))
    decreases |script|
  {
    if script != [] {
      hide Became;
      BecameByMove(v, w0, w, Turn(script[0]));
      BecameByScript(v, w0, Apply(w, script[0]), script[1..]);
    }
  }

  // ---- what history cannot undo ----

  ghost predicate Onward(a: World, b: World) {
    && a.now <= b.now
    && a.db.startedAt == b.db.startedAt
    && a.db.records <= b.db.records
    && (forall t :: t in a.db.deleted ==> t in b.db.deleted && b.db.deleted[t] == a.db.deleted[t])
    && a.clients.admissions <= b.clients.admissions
    && |a.pause.rows| <= |b.pause.rows|
    && (a.reopened ==> b.reopened)
    && (a.pause.sealedAt.Some? ==> b.pause.sealedAt.Some?)
  }

  lemma OnwardByTurn(v: Versions, w: World, a: Action)
    requires Enabled(v, w, a)
    ensures Onward(w, Apply(w, a))
  {
    hide InTime, Prompt, OpenAgain, FinishCall, Effective;
    match a
    case Tick(_) =>
    case Admit =>
    case Change(_, _) =>
    case Finish(s) => FinishAdmits(w.clients, s);
    case Observe(_, _, _) =>
    case MarkDeleted(_, _) =>
  }

  lemma FinishAdmits(c: Clients, signature: Option<int>)
    ensures FinishCall(c, signature).admissions == c.admissions
  {
  }

  lemma OnwardByMove(v: Versions, w: World, m: Move)
    requires Possible(v, w, m)
    ensures Onward(w, Do(w, m))
  {
    hide Apply, Enabled, InTime;
    if m.Turn? { OnwardByTurn(v, w, m.action); }
  }

  /** Time, copies on record, permanent deletes, admissions and rows only grow. */
  lemma {:induction false} HistoryOnlyGrows(v: Versions, w0: World, earlier: World, later: World)
    requires Then(v, w0, earlier, later)
    ensures Onward(earlier, later)
    decreases |later.trace|
  {
    if earlier.trace != later.trace {
      var n := |later.trace| - 1;
      var before := Replay(w0, later.trace[..n]);
      TraceOfReplay(w0, later.trace[..n]);
      assert earlier.trace <= later.trace[..n];
      HistoryOnlyGrows(v, w0, earlier, before);
      OnwardByMove(v, before, later.trace[n]);
      hide Do;
    }
  }

  lemma {:induction false} TraceOfReplay(w0: World, moves: seq<Move>)
    requires w0.trace == []
    ensures Replay(w0, moves).trace == moves
    decreases |moves|
  {
    hide Do;
    if moves != [] {
      var n := |moves| - 1;
      TraceOfReplay(w0, moves[..n]);
      DoTraces(Replay(w0, moves[..n]), moves[n]);
      assert moves == moves[..n] + [moves[n]];
    }
  }

  lemma {:induction false} BaseOfBase(sessionId: string)
    ensures BaseOf(BaseOf(sessionId)) == BaseOf(sessionId)
  {
    if sessionId != "" && sessionId[0] != ':' { BaseOfBase(sessionId[1..]); }
  }

  /** Permanent deletes are kept by base ids, if they were to begin with. */
  lemma {:induction false} KeysStayBase(v: Versions, w0: World, w: World)
    requires Became(v, w0, w) && BaseKeys(w0.db)
    ensures BaseKeys(w.db)
    decreases |w.trace|
  {
    if w.trace != [] {
      var n := |w.trace| - 1;
      var before := Replay(w0, w.trace[..n]);
      TraceOfReplay(w0, w.trace[..n]);
      KeysStayBase(v, w0, before);
      KeysStayBaseByMove(before, w.trace[n]);
      hide Do;
    }
  }

  lemma KeysStayBaseByMove(w: World, m: Move)
    requires BaseKeys(w.db)
    ensures BaseKeys(Do(w, m).db)
  {
    hide InTime, Prompt, OpenAgain, FinishCall, Effective;
    if m.Turn? && m.action.MarkDeleted? { BaseOfBase(m.action.key.sessionId); }
  }

  /** Where the gate has not been open since it was proven closed, it was closed at every single
      step of the way. */
  lemma {:induction false} ClosedAtEveryStep(v: Versions, w0: World, proof: World, later: World, k: nat)
    requires Then(v, w0, proof, later) && !later.reopened
    requires proof.pause.sealedAt.Some? && PausedUntil(proof.pause.gate, proof.now).Some?
    requires |proof.trace| <= k <= |later.trace|
    ensures var w := Replay(w0, later.trace[..k]); PausedUntil(w.pause.gate, w.now).Some?
    decreases k
  {
    hide Do, Legal;
    var moves := later.trace[..k];
    var w := Replay(w0, moves);
    TraceOfReplay(w0, moves);
    PastIsLegal(v, w0, later.trace, k);
    HistoryOnlyGrows(v, w0, w, later);
    if k == |proof.trace| {
      assert moves == proof.trace;
    } else {
      assert later.trace[..k][..k - 1] == later.trace[..k - 1];
      ClosedAtEveryStep(v, w0, proof, later, k - 1);
      var before := Replay(w0, later.trace[..k - 1]);
      PastIsLegal(v, w0, later.trace, k - 1);
      TraceOfReplay(w0, later.trace[..k - 1]);
      HistoryOnlyGrows(v, w0, proof, before);
      StaysClosed(before, later.trace[k - 1]);
    }
  }

  lemma StaysClosed(w: World, m: Move)
    requires w.pause.sealedAt.Some? && PausedUntil(w.pause.gate, w.now).Some?
    ensures Do(w, m).reopened || PausedUntil(Do(w, m).pause.gate, Do(w, m).now).Some?
  {
    hide InTime, Prompt, FinishCall, Deleted, Effective;
    if m.Turn? { TurnsAreWatched(w, m.action); }
  }

  /** A turn that leaves a gate once proven closed open is noted. */
  lemma TurnsAreWatched(w: World, a: Action)
    requires w.pause.sealedAt.Some?
    ensures Apply(w, a).reopened || PausedUntil(Apply(w, a).pause.gate, Apply(w, a).now).Some?
  {
    hide InTime, Prompt, FinishCall, Deleted, Effective;
  }

  lemma {:induction false} PastIsLegal(v: Versions, w0: World, moves: seq<Move>, k: nat)
    requires Legal(v, w0, moves) && k <= |moves|
    ensures Legal(v, w0, moves[..k])
    decreases |moves|
  {
    if k < |moves| {
      PastIsLegal(v, w0, moves[..|moves| - 1], k);
      assert moves[..|moves| - 1][..k] == moves[..k];
    } else {
      assert moves[..k] == moves;
    }
  }
}
