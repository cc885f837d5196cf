/** The append-only audit spool (src/console/audit-spool.ts): records numbered within a file, files
    retired under way, and outcomes that point back at their intents across files. Between any two
    lines of a call other callers may append, fail to, and rotate. */
module AuditSpool {
  import opened Wrappers

  /** 128 random bits: no id is ever drawn twice. */
  type FileId = nat

  datatype Kind = Intent | Outcome

  datatype AuditRecordInput = AuditRecordInput(
    actor: Option<string>,
    sessionRef: Option<string>,
    tier: Option<string>,
    action: string,
    params: Option<string>,
    kind: Kind,
    refFileId: Option<FileId>,
    refSeq: Option<nat>,
    outcome: Option<string>,
    error: Option<string>,
    origin: string)

  datatype AuditRecord = AuditRecord(fileId: FileId, seqNo: nat, ts: int, body: AuditRecordInput)

  type Disk = map<FileId, seq<AuditRecord>>

  function FileOf(disk: Disk, f: FileId): seq<AuditRecord> { if f in disk then disk[f] else [] }

  predicate OnDisk(disk: Disk, r: AuditRecord) { r in FileOf(disk, r.fileId) }

  // ---- the spool, and what can happen to it ----

  datatype Spool = Spool(
    fileId: FileId,
    seqNo: nat,
    bytes: nat,
    rotating: bool,
    rotateDue: bool,
    inFlight: Option<AuditRecord>,  // numbered, and being written
    disk: Disk,
    used: set<FileId>)              // every id this process has drawn

  datatype Step =
    | Start(ts: int, body: AuditRecordInput)
    | Land(bytes: nat)
    | Fail(landed: bool)                    // the write or the sync threw
    | BeginRotation
    | EndRotation(next: Option<FileId>)     // None where `beforeRotate` threw

  predicate Enabled(s: Spool, step: Step) {
    match step
    case Start(_, _) => s.inFlight.None?
    case Land(_) => s.inFlight.Some?
    case Fail(_) => s.inFlight.Some?
    case BeginRotation => !s.rotating
    case EndRotation(next) => s.rotating && (next.Some? ==> next.value !in s.used)
  }

  /** The file a record lands in is the one its number was drawn for. */
  function Landed(disk: Disk, r: AuditRecord): Disk { disk[r.fileId := FileOf(disk, r.fileId) + [r]] }

  function Apply(s: Spool, step: Step, rotateBytes: nat): Spool
    requires Enabled(s, step)
  {
    match step
    case Start(ts, body) =>
      s.(seqNo := s.seqNo + 1, inFlight := Some(AuditRecord(s.fileId, s.seqNo + 1, ts, body)))
    case Land(n) =>
      s.(disk := Landed(s.disk, s.inFlight.value), inFlight := None, bytes := s.bytes + n,
         rotateDue := s.rotateDue || (!s.rotating && s.bytes + n >= rotateBytes))
    case Fail(landed) =>
      s.(disk := if landed then Landed(s.disk, s.inFlight.value) else s.disk, inFlight := None)
    case BeginRotation => s.(rotating := true, rotateDue := false)
    case EndRotation(next) =>
      if next.None? then s.(rotating := false)
      else s.(rotating := false, fileId := next.value, seqNo := 0, bytes := 0, used := s.used + {next.value})
  }

  // ---- identity ----

  /** A record is in the file it names, and numbers only grow along a file. */
  ghost predicate Numbered(f: FileId, records: seq<AuditRecord>) {
    && (forall i :: 0 <= i < |records| ==> records[i].fileId == f)
    && (forall i, j :: 0 <= i < j < |records| ==> records[i].seqNo < records[j].seqNo)
  }

  /** Nothing on disk under file `f` is numbered `n` or above. */
  ghost predicate Below(disk: Disk, f: FileId, n: nat) {
    forall i :: 0 <= i < |FileOf(disk, f)| ==> FileOf(disk, f)[i].seqNo < n
  }

  ghost predicate Valid(s: Spool) {
    && (forall f :: f in s.disk ==> f in s.used && Numbered(f, s.disk[f]))
    && s.fileId in s.used
    && Below(s.disk, s.fileId, s.seqNo + 1)
    && (s.inFlight.Some? ==>
          var r := s.inFlight.value;
          && r.fileId in s.used
          && Below(s.disk, r.fileId, r.seqNo)
          && (r.fileId == s.fileId ==> r.seqNo == s.seqNo))
  }

  /** Records stay, in their places, and a file once retired is not written to anew. */
  ghost predicate Later(s: Spool, s': Spool) {
    && (forall f :: f in s.disk ==> f in s'.disk && s.disk[f] <= s'.disk[f])
    && s.used <= s'.used
    && (s'.fileId == s.fileId || s'.fileId !in s.used)
  }

  /** A record in flight lands behind everything in its file, whichever file is current by then. */
  lemma LandingKeeps(s: Spool)
    requires Valid(s) && s.inFlight.Some?
    ensures var s' := s.(disk := Landed(s.disk, s.inFlight.value), inFlight := None);
            Valid(s') && Later(s, s')
  {
    var r := s.inFlight.value;
    var disk := Landed(s.disk, r);
    assert FileOf(disk, r.fileId) == FileOf(s.disk, r.fileId) + [r];
    assert s.fileId != r.fileId ==> FileOf(disk, s.fileId) == FileOf(s.disk, s.fileId);
    assert Numbered(r.fileId, FileOf(s.disk, r.fileId));
  }

  lemma RotationKeeps(s: Spool, next: FileId)
    requires Valid(s) && next !in s.used
    ensures Valid(s.(rotating := false, fileId := next, seqNo := 0, bytes := 0, used := s.used + {next}))
  {
    assert FileOf(s.disk, next) == [];
  }

  lemma StepKeeps(s: Spool, step: Step, rotateBytes: nat)
    requires Valid(s) && Enabled(s, step)
    ensures Valid(Apply(s, step, rotateBytes)) && Later(s, Apply(s, step, rotateBytes))
  {
    match step
    case Start(_, _) =>
    case Land(_) => LandingKeeps(s);
    case Fail(landed) => LandingKeeps(s);
    case BeginRotation =>
    case EndRotation(next) => if next.Some? { RotationKeeps(s, next.value); }
  }

  predicate Playable(s: Spool, script: seq<Step>, rotateBytes: nat)
    decreases |script|
  {
    script == [] || (Enabled(s, script[0]) && Playable(Apply(s, script[0], rotateBytes), script[1..], rotateBytes))
  }

  function Play(s: Spool, script: seq<Step>, rotateBytes: nat): Spool
    requires Playable(s, script, rotateBytes)
    decreases |script|
  {
    if script == [] then s else Play(Apply(s, script[0], rotateBytes), script[1..], rotateBytes)
  }

  /** Whatever callers do, and however writes and rotations interleave. */
  lemma {:induction false} ScriptKeeps(s: Spool, script: seq<Step>, rotateBytes: nat)
    requires Valid(s) && Playable(s, script, rotateBytes)
    ensures Valid(Play(s, script, rotateBytes)) && Later(s, Play(s, script, rotateBytes))
    decreases |script|
  {
    if script != [] {
      StepKeeps(s, script[0], rotateBytes);
      var s1 := Apply(s, script[0], rotateBytes);
      ScriptKeeps(s1, script[1..], rotateBytes);
      LaterTwice(s, s1, Play(s1, script[1..], rotateBytes));
    }
  }

  lemma LaterTwice(a: Spool, b: Spool, c: Spool)
    requires Later(a, b) && Later(b, c)
    ensures Later(a, c)
  {
  }

  /** (fileId, seqNo) names one record. */
  lemma IdentifiesOne(s: Spool, a: AuditRecord, b: AuditRecord)
    requires Valid(s) && OnDisk(s.disk, a) && OnDisk(s.disk, b)
    requires a.fileId == b.fileId && a.seqNo == b.seqNo
    ensures a == b
  {
    var file := FileOf(s.disk, a.fileId);
    var i :| 0 <= i < |file| && file[i] == a;
    var j :| 0 <= j < |file| && file[j] == b;
  }

  // ---- pairing ----

  /** The first intent among `records` that the outcome points at. */
  function ResolveIntent(outcome: AuditRecord, records: seq<AuditRecord>): Option<AuditRecord> {
    if outcome.body.refSeq.None? || records == [] then None
    else
      var file := if outcome.body.refFileId.Some? then outcome.body.refFileId.value else outcome.fileId;
      var r := records[0];
      if r.body.kind.Intent? && r.fileId == file && r.seqNo == outcome.body.refSeq.value then Some(r)
      else ResolveIntent(outcome, records[1..])
  }

  /** What `outcome()` writes about an intent. */
  predicate Answers(o: AuditRecord, intent: AuditRecord) {
    o.body.refFileId == Some(intent.fileId) && o.body.refSeq == Some(intent.seqNo)
  }

  /** However the files are listed, and whichever of the two files a rotation retired, an outcome
      resolves to the intent it was given, and to no other record that shares its number. */
  lemma {:induction false} ResolvesToItsIntent(s: Spool, o: AuditRecord, intent: AuditRecord, records: seq<AuditRecord>)
    requires Valid(s) && Answers(o, intent) && intent.body.kind.Intent?
    requires intent in records && forall r :: r in records ==> OnDisk(s.disk, r)
    ensures ResolveIntent(o, records) == Some(intent)
    decreases |records|
  {
    var r := records[0];
    if r.body.kind.Intent? && r.fileId == intent.fileId && r.seqNo == intent.seqNo {
      assert OnDisk(s.disk, r);
      IdentifiesOne(s, r, intent);
    } else {
      assert intent in records[1..];
      ResolvesToItsIntent(s, o, intent, records[1..]);
    }
  }

  lemma OnDiskStays(s: Spool, s': Spool, r: AuditRecord)
    requires Later(s, s') && OnDisk(s.disk, r)
    ensures OnDisk(s'.disk, r)
  {
    assert s.disk[r.fileId] <= s'.disk[r.fileId];
  }

  // ---- the writer ----

  /** Other callers' appends, and no rotation. */
  predicate AppendsOnly(script: seq<Step>) {
    forall i :: 0 <= i < |script| ==> !script[i].BeginRotation? && !script[i].EndRotation?
  }

  predicate RotationsOnly(script: seq<Step>) {
    forall i :: 0 <= i < |script| ==> script[i].BeginRotation? || script[i].EndRotation?
  }

  lemma {:induction false} RotationsLeaveFlight(s: Spool, script: seq<Step>, rotateBytes: nat)
    requires Playable(s, script, rotateBytes) && RotationsOnly(script)
    ensures Play(s, script, rotateBytes).inFlight == s.inFlight
    decreases |script|
  {
    if script != [] { RotationsLeaveFlight(Apply(s, script[0], rotateBytes), script[1..], rotateBytes); }
  }

  lemma {:induction false} AppendsLeaveRotation(s: Spool, script: seq<Step>, rotateBytes: nat)
    requires Playable(s, script, rotateBytes) && AppendsOnly(script)
    ensures Play(s, script, rotateBytes).rotating == s.rotating
    decreases |script|
  {
    if script != [] { AppendsLeaveRotation(Apply(s, script[0], rotateBytes), script[1..], rotateBytes); }
  }

  lemma {:induction false} SomeFreshId(used: set<FileId>) returns (id: FileId)
    ensures id !in used
  {
    id := 0;
    var rest := used;
    while rest != {}
      invariant rest <= used && forall u :: u in used && u !in rest ==> u < id
    {
      var u :| u in rest;
      rest := rest - {u};
      if u >= id { id := u + 1; }
    }
  }

  lemma SomeTurn(s: Spool, rotateBytes: nat) returns (script: seq<Step>)
    ensures Playable(s, script, rotateBytes) && Play(s, script, rotateBytes).inFlight.None?
  {
    if s.inFlight.None? {
      script := [];
    } else {
      script := [Fail(false)];
      assert script[1..] == [];
      assert Enabled(s, script[0]);
      assert Playable(Apply(s, Fail(false), rotateBytes), [], rotateBytes);
      assert Play(s, script, rotateBytes) == Play(Apply(s, Fail(false), rotateBytes), [], rotateBytes);
    }
  }

  /** An error as it goes to disk: credentials in it are taken out first. */
  function Redacted(redact: string -> string, error: Option<string>): Option<string> {
    if error.Some? then Some(redact(error.value)) else None
  }

  class AuditSpool {
    const rotateBytes: nat
    const redact: string -> string
    var spool: Spool

    constructor (rotateBytes: nat, fileId: FileId, redact: string -> string)
      ensures this.rotateBytes == rotateBytes && this.redact == redact
      ensures Valid(spool) && spool.disk == map[] && spool.inFlight.None? && !spool.rotating
    {
      this.rotateBytes, this.redact := rotateBytes, redact;
      spool := Spool(fileId, 0, 0, false, false, None, map[], {fileId});
    }

    /** Wait for whatever is ahead in the chain: anything may happen, and nothing is left in flight. */
    method AwaitTurn()
      requires Valid(spool)
      modifies this`spool
      ensures Valid(spool) && Later(old(spool), spool) && spool.inFlight.None?
    {
      ghost var first := SomeTurn(spool, rotateBytes);
      var script: seq<Step> :|
        Playable(spool, script, rotateBytes) && Play(spool, script, rotateBytes).inFlight.None?;
      ScriptKeeps(spool, script, rotateBytes);
      spool := Play(spool, script, rotateBytes);
    }

    /** While a record is in flight others can only rotate. */
    method AwaitWrite()
      requires Valid(spool)
      modifies this`spool
      ensures Valid(spool) && Later(old(spool), spool) && spool.inFlight == old(spool).inFlight
    {
      assert Playable(spool, [], rotateBytes);
      var script: seq<Step> :| Playable(spool, script, rotateBytes) && RotationsOnly(script);
      ScriptKeeps(spool, script, rotateBytes);
      RotationsLeaveFlight(spool, script, rotateBytes);
      spool := Play(spool, script, rotateBytes);
    }

    /** What `beforeRotate` appends, and what others append meanwhile. */
    method BeforeRotate() returns (ok: bool)
      requires Valid(spool) && spool.rotating
      modifies this`spool
      ensures Valid(spool) && Later(old(spool), spool) && spool.rotating
    {
      assert Playable(spool, [], rotateBytes);
      var script: seq<Step> :| Playable(spool, script, rotateBytes) && AppendsOnly(script);
      ScriptKeeps(spool, script, rotateBytes);
      AppendsLeaveRotation(spool, script, rotateBytes);
      spool := Play(spool, script, rotateBytes);
      ok := *;
    }

    /** One step of this call's own. */
    method Take(step: Step)
      requires Valid(spool) && Enabled(spool, step)
      modifies this`spool
      ensures spool == Apply(old(spool), step, rotateBytes)
      ensures Valid(spool) && Later(old(spool), spool)
    {
      StepKeeps(spool, step, rotateBytes);
      spool := Apply(spool, step, rotateBytes);
    }

    /** Retire this file and open a fresh one, unless a rotation is under way already. */
    method Rotate() returns (ok: bool)
      requires Valid(spool)
      modifies this`spool
      ensures Valid(spool) && Later(old(spool), spool)
      ensures !old(spool).rotating && ok ==> spool.fileId !in old(spool).used && spool.seqNo == 0 && !spool.rotating
    {
      hide Valid, Later;
      if spool.rotating {
        LaterThanItself(spool);
        return true;
      }
      ghost var s0 := spool;
      Take(BeginRotation);
      ghost var s1 := spool;
      ok := BeforeRotate();
      ghost var s2 := spool;
      LaterTwice(s0, s1, s2);
      if !ok {
        Take(EndRotation(None));
      } else {
        ghost var unused := SomeFreshId(spool.used);
        var id: FileId :| id !in spool.used;
        Take(EndRotation(Some(id)));
        OlderIds(s0, s2);
      }
      LaterTwice(s0, s2, spool);
    }

    /** Append and sync. The record comes back only if it is on disk, in the file it names, and is the
        one given but for what was redacted. */
    method Append(body: AuditRecordInput) returns (r: Option<AuditRecord>)
      requires Valid(spool)
      modifies this`spool
      ensures Valid(spool) && Later(old(spool), spool)
      ensures r.Some? ==> r.value.body == body.(error := Redacted(redact, body.error))
      ensures r.Some? ==> OnDisk(spool.disk, r.value) && !OnDisk(old(spool).disk, r.value)
      ensures r.Some? && old(spool).rotateDue && !old(spool).rotating ==> r.value.fileId !in old(spool).used
    {
      hide Valid, Later;
      ghost var s0 := spool;
      LaterThanItself(spool);
      if spool.rotateDue {
        var ok := Rotate();
        if !ok { return None; }
      }
      ghost var s1 := spool;
      AwaitTurn();
      ghost var s2 := spool;
      LaterTwice(s0, s1, s2);
      StillNew(s0, s1, s2);
      if * { return None; }                     // not the owner of the directory
      var ts: int := *;
      Take(Start(ts, body.(error := Redacted(redact, body.error))));
      ghost var s3 := spool;
      LaterTwice(s0, s2, s3);
      var record := spool.inFlight.value;
      NotYetOnDisk(s0, s3);
      AwaitWrite();
      ghost var s4 := spool;
      LaterTwice(s0, s3, s4);
      if * {
        var landed: bool := *;
        Take(Fail(landed));
        LaterTwice(s0, s4, spool);
        return None;
      }
      var length: nat := *;
      Take(Land(length));
      LaterTwice(s0, s4, spool);
      r := Some(record);
    }

    /** The record of an act before it happens. */
    method WriteIntent(action: string, sessionRef: Option<string>, params: Option<string>, origin: string)
      returns (r: Option<AuditRecord>)
      requires Valid(spool)
      modifies this`spool
      ensures Valid(spool) && Later(old(spool), spool)
      ensures r.Some? ==>
                && OnDisk(spool.disk, r.value) && !OnDisk(old(spool).disk, r.value)
                && r.value.body.kind.Intent? && r.value.body.sessionRef == sessionRef
                && r.value.body.action == action && r.value.body.params == params
    {
      hide Valid, Later;
      r := Append(AuditRecordInput(None, sessionRef, None, action, params, Intent, None, None, None, None, origin));
    }

    /** The record of how it went. It resolves to the intent it answers, wherever that is by now. */
    method WriteOutcome(intent: AuditRecord, outcome: string, error: Option<string>) returns (r: Option<AuditRecord>)
      requires Valid(spool) && OnDisk(spool.disk, intent) && intent.body.kind.Intent?
      modifies this`spool
      ensures Valid(spool) && Later(old(spool), spool) && OnDisk(spool.disk, intent)
      ensures r.Some? ==>
                && OnDisk(spool.disk, r.value) && !OnDisk(old(spool).disk, r.value)
                && r.value.body.kind.Outcome? && r.value.body.outcome == Some(outcome)
                && r.value.body.error == Redacted(redact, error)
                && r.value.body.action == intent.body.action && r.value.body.sessionRef == intent.body.sessionRef
      ensures r.Some? ==>
                forall records: seq<AuditRecord> ::
                  intent in records && (forall q :: q in records ==> OnDisk(spool.disk, q)) ==>
                    ResolveIntent(r.value, records) == Some(intent)
    {
      hide Later;
      r := Append(AuditRecordInput(
        intent.body.actor, intent.body.sessionRef, intent.body.tier, intent.body.action, None, Outcome,
        Some(intent.fileId), Some(intent.seqNo), Some(outcome), error, intent.body.origin));
      OnDiskStays(old(spool), spool, intent);
      if r.Some? { ResolvesWherever(spool, r.value, intent); }
    }
  }

  lemma ResolvesWherever(s: Spool, o: AuditRecord, intent: AuditRecord)
    requires Valid(s) && Answers(o, intent) && intent.body.kind.Intent?
    ensures forall records: seq<AuditRecord> ::
              intent in records && (forall q :: q in records ==> OnDisk(s.disk, q)) ==>
                ResolveIntent(o, records) == Some(intent)
  {
    forall records: seq<AuditRecord> | intent in records && (forall q :: q in records ==> OnDisk(s.disk, q))
      ensures ResolveIntent(o, records) == Some(intent)
    {
      ResolvesToItsIntent(s, o, intent, records);
    }
  }

  /** A file that was new stays so. */
  lemma StillNew(s0: Spool, s1: Spool, s2: Spool)
    requires Later(s0, s1) && Later(s1, s2)
    ensures s1.fileId !in s0.used ==> s2.fileId !in s0.used
  {
  }

  lemma LaterThanItself(s: Spool)
    ensures Later(s, s)
  {
  }

  lemma OlderIds(s: Spool, s': Spool)
    requires Later(s, s')
    ensures s.used <= s'.used
  {
  }

  /** A record in flight has a number nothing on disk has had. */
  lemma NotYetOnDisk(s0: Spool, s: Spool)
    requires Valid(s) && Later(s0, s) && s.inFlight.Some?
    ensures !OnDisk(s0.disk, s.inFlight.value)
  {
    var r := s.inFlight.value;
    if OnDisk(s0.disk, r) {
      OnDiskStays(s0, s, r);
      assert false;
    }
  }
}
