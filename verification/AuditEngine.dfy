/** The residency audit (src/console/audit-engine.ts): a verdict for every session it reaches, within
    a budget, counted and rolled up. */
module AuditEngine {
  import opened Wrappers
  import opened AuditVerdicts
  import opened Listing

  datatype AuditEngineLimits = AuditEngineLimits(opsPerSec: int, perRunBudget: int)

  datatype AuditSessionRow = AuditSessionRow(
    org: string,
    family: string,
    sessionId: string,
    userId: string,
    ingestChannel: Option<string>,
    eventCount: int,
    orgAttributed: bool)

  datatype AuditFinding = AuditFinding(
    org: string,
    family: string,
    sessionId: string,
    verdict: ResidencyVerdict,
    ingestChannel: Option<string>,
    acknowledged: bool)

  datatype WitnessAnswer = WitnessAnswer(copies: set<string>, known: set<string>, routedHere: set<string>)

  // ---- the keys ----

  function CanonicalKeyOf(row: AuditSessionRow): string {
    row.userId + "/" + row.family + "/" + row.sessionId + "/canonical.ndjson"
  }

  function WitnessIdOf(row: AuditSessionRow): string { row.userId + ":" + row.family + ":" + row.sessionId }

  function AckKey(org: string, sessionId: string): string { org + " " + sessionId }

  function OwnerKey(row: AuditSessionRow): string { row.userId + "/" + row.family + "/" + row.sessionId }

  /** `split("/")`. */
  function SplitPath(s: string): (parts: seq<string>)
    ensures |parts| >= 1
  {
    if s == "" then [""]
    else
      var rest := SplitPath(s[1..]);
      if s[0] == '/' then [""] + rest else [[s[0]] + rest[0]] + rest[1..]
  }

  /** `indexOf(":a:")`, or the length where there is none. */
  function LaneMark(s: string): (i: nat)
    ensures i <= |s|
  {
    if s == "" || ":a:" <= s then 0 else 1 + LaneMark(s[1..])
  }

  /** The session whose lane the object of this key is, if it is a lane's. */
  function LaneOwner(key: string): Option<string> {
    var parts := SplitPath(key);
    if |parts| < 3 then None
    else
      var lane := LaneMark(parts[2]);
      if 0 < lane < |parts[2]| then Some(parts[0] + "/" + parts[1] + "/" + parts[2][..lane]) else None
  }

  // ---- what a run knows ----

  /** Everything a run is told, before it looks at any row. */
  datatype Evidence = Evidence(
    present: set<string>,
    witnessed: Option<WitnessAnswer>,
    asked: set<string>,
    acknowledged: set<string>,
    headCanonical: AuditSessionRow -> bool)

  predicate Eligible(row: AuditSessionRow) { WitnessEligible(row.ingestChannel) && row.orgAttributed }

  function EligibleIds(rows: seq<AuditSessionRow>): seq<string> {
    if rows == [] then []
    else (if Eligible(rows[0]) then [WitnessIdOf(rows[0])] else []) + EligibleIds(rows[1..])
  }

  predicate Acknowledged(e: Evidence, row: AuditSessionRow) { AckKey(row.org, row.sessionId) in e.acknowledged }

  predicate HasLane(present: set<string>, row: AuditSessionRow) {
    exists key :: key in present && LaneOwner(key) == Some(OwnerKey(row))
  }

  /** The facts about one row: what the listing or the probe says, and what let.ai answered about an
      id it was asked about. */
  function Observed(e: Evidence, row: AuditSessionRow): VerdictInput {
    var id := WitnessIdOf(row);
    VerdictInput(
      CanonicalKeyOf(row) in e.present || e.headCanonical(row),
      e.witnessed.Some? && id in e.witnessed.value.copies,
      e.witnessed.Some? && id in e.witnessed.value.routedHere,
      row.ingestChannel,
      Acknowledged(e, row),
      row.eventCount > 0,
      HasLane(e.present, row),
      id in e.asked,
      e.witnessed.Some? && id in e.asked)
  }

  function Finding(e: Evidence, row: AuditSessionRow): AuditFinding {
    AuditFinding(row.org, row.family, row.sessionId, VerdictFor(Observed(e, row)), row.ingestChannel,
                 Acknowledged(e, row))
  }

  predicate Fails(f: AuditFinding) { !SessionCheckPasses(f.verdict, f.acknowledged) }

  // ---- counting ----

  const NO_COUNTS := RollUpCounts(0, 0, 0, 0, 0, 0, 0, 0, 0, 0, 0, 0, 0)

  /** The counter of a verdict. */
  function CounterOf(c: RollUpCounts, v: ResidencyVerdict): nat {
    match v
    case Confirmed => c.confirmed
    case AlsoAtLetai => c.alsoAtLetai
    case NotDeliveredHere => c.notDeliveredHere
    case NoRecord => c.noRecord
    case CopyUnchecked => c.copyUnchecked
    case MissingHere => c.missingHere
    case LanesHoldIt => c.lanesHoldIt
    case ResidencyUnchecked => c.residencyUnchecked
    case ResidencyUnwitnessable => c.residencyUnwitnessable
    case UnknownProvenance => c.unknownProvenance
    case NotApplicable => c.notApplicable
  }

  function WithVerdict(findings: seq<AuditFinding>, v: ResidencyVerdict): nat {
    if findings == [] then 0
    else
      var f := findings[|findings| - 1];
      WithVerdict(findings[..|findings| - 1], v) + if f.verdict == v then 1 else 0
  }

  function AcknowledgedCopies(findings: seq<AuditFinding>): nat {
    if findings == [] then 0
    else
      var f := findings[|findings| - 1];
      AcknowledgedCopies(findings[..|findings| - 1]) + if f.verdict.AlsoAtLetai? && f.acknowledged then 1 else 0
  }

  /** Each counter is the number of findings with its verdict. */
  ghost predicate Counts(c: RollUpCounts, findings: seq<AuditFinding>) {
    && c.sessionsChecked == |findings|
    && (forall v: ResidencyVerdict :: CounterOf(c, v) == WithVerdict(findings, v))
    && c.alsoAtLetaiAcknowledged == AcknowledgedCopies(findings)
  }

  lemma {:induction false} SomeWithVerdict(findings: seq<AuditFinding>, v: ResidencyVerdict)
    ensures WithVerdict(findings, v) > 0 <==> exists i :: 0 <= i < |findings| && findings[i].verdict == v
  {
    if findings != [] {
      var n := |findings| - 1;
      SomeWithVerdict(findings[..n], v);
      assert findings == findings[..n] + [findings[n]];
    }
  }

  lemma {:induction false} SomeUnacknowledged(findings: seq<AuditFinding>)
    ensures AcknowledgedCopies(findings) <= WithVerdict(findings, AlsoAtLetai)
    ensures WithVerdict(findings, AlsoAtLetai) > AcknowledgedCopies(findings)
       <==> exists i :: 0 <= i < |findings| && findings[i].verdict.AlsoAtLetai? && !findings[i].acknowledged
    ensures AcknowledgedCopies(findings) > 0
       <==> exists i :: 0 <= i < |findings| && findings[i].verdict.AlsoAtLetai? && findings[i].acknowledged
  {
    if findings != [] {
      var n := |findings| - 1;
      SomeUnacknowledged(findings[..n]);
      assert findings == findings[..n] + [findings[n]];
    }
  }

  // ---- the pace ----

  /** A ceiling on the rate, and a count of what was spent. The clock moves while a caller sleeps. */
  class Pacer {
    const limits: AuditEngineLimits
    var spent: nat
    var windowStart: int
    var inWindow: nat

    constructor (limits: AuditEngineLimits)
      ensures spent == 0 && this.limits == limits && Valid()
    {
      this.limits, spent, windowStart, inWindow := limits, 0, 0, 0;
    }

    /** No window ever holds more than it may. */
    ghost predicate Valid()
      reads this
    {
      inWindow <= if limits.opsPerSec < 0 then 0 else limits.opsPerSec
    }

    method Spend(now: int, later: int)
      requires Valid()
      modifies this
      ensures Valid() && spent == old(spent) + 1
    {
      spent := spent + 1;
      if now - windowStart >= 1000 { windowStart, inWindow := now, 0; }
      inWindow := inWindow + 1;
      if inWindow > limits.opsPerSec { windowStart, inWindow := later, 0; }
    }
  }

  // ---- the run ----

  datatype AuditRunResult = AuditRunResult(
    counts: RollUpCounts,
    findings: seq<AuditFinding>,
    verdict: FleetVerdict,
    qualification: Qualification,
    witnessState: WitnessState,
    opsSpent: nat,
    truncated: bool,
    stoppedAfter: Option<nat>)      // what the qualification adds where the budget stopped the run

  /** What a run asks of the world. */
  datatype AuditRunDeps = AuditRunDeps(
    sessions: seq<AuditSessionRow>,
    listCanonical: set<string>,
    headCanonical: AuditSessionRow -> bool,
    askWitness: Option<seq<string> -> Option<WitnessAnswer>>,
    acknowledged: set<string>,
    postureFresh: bool)

  function EvidenceOf(deps: AuditRunDeps): Evidence {
    var ids := EligibleIds(deps.sessions);
    Evidence(
      deps.listCanonical,
      if deps.askWitness.Some? then deps.askWitness.value(ids) else None,
      (set id | id in ids),
      deps.acknowledged,
      deps.headCanonical)
  }

  /** One more finding with this verdict, and no other change. */
  ghost predicate CountedOne(c: RollUpCounts, c': RollUpCounts, verdict: ResidencyVerdict, acknowledged: bool) {
    && (forall v: ResidencyVerdict :: CounterOf(c', v) == CounterOf(c, v) + if v == verdict then 1 else 0)
    && c'.alsoAtLetaiAcknowledged
       == c.alsoAtLetaiAcknowledged + (if verdict.AlsoAtLetai? && acknowledged then 1 else 0)
    && c'.sessionsChecked == c.sessionsChecked
  }

  lemma CountsOne(c: RollUpCounts, c': RollUpCounts, findings: seq<AuditFinding>, f: AuditFinding)
    requires Counts(c, findings)
    requires CountedOne(c.(sessionsChecked := c.sessionsChecked + 1), c', f.verdict, f.acknowledged)
    ensures Counts(c', findings + [f])
  {
    assert (findings + [f])[..|findings|] == findings;
    forall v: ResidencyVerdict
      ensures CounterOf(c', v) == WithVerdict(findings + [f], v)
    {
      var c1 := c.(sessionsChecked := c.sessionsChecked + 1);
      assert CounterOf(c', v) == CounterOf(c1, v) + if v == f.verdict then 1 else 0;
      assert CounterOf(c, v) == WithVerdict(findings, v);
    }
  }

  /** The counters of all verdicts together. */
  function Total(c: RollUpCounts): nat {
    c.confirmed + c.copyUnchecked + c.alsoAtLetai + c.notDeliveredHere + c.noRecord + c.missingHere
    + c.lanesHoldIt + c.residencyUnchecked + c.residencyUnwitnessable + c.unknownProvenance + c.notApplicable
  }

  ghost function EveryVerdict(findings: seq<AuditFinding>): nat {
    WithVerdict(findings, Confirmed) + WithVerdict(findings, CopyUnchecked) + WithVerdict(findings, AlsoAtLetai)
    + WithVerdict(findings, NotDeliveredHere) + WithVerdict(findings, NoRecord) + WithVerdict(findings, MissingHere)
    + WithVerdict(findings, LanesHoldIt) + WithVerdict(findings, ResidencyUnchecked)
    + WithVerdict(findings, ResidencyUnwitnessable) + WithVerdict(findings, UnknownProvenance)
    + WithVerdict(findings, NotApplicable)
  }

  lemma {:induction false} EveryFindingHasOne(findings: seq<AuditFinding>)
    ensures EveryVerdict(findings) == |findings|
  {
    if findings != [] { EveryFindingHasOne(findings[..|findings| - 1]); }
  }

  lemma CountersAddUp(c: RollUpCounts, findings: seq<AuditFinding>)
    requires Counts(c, findings)
    ensures Total(c) == |findings| == c.sessionsChecked
  {
    EveryFindingHasOne(findings);
    assert CounterOf(c, Confirmed) == c.confirmed && CounterOf(c, CopyUnchecked) == c.copyUnchecked;
    assert CounterOf(c, AlsoAtLetai) == c.alsoAtLetai && CounterOf(c, NotDeliveredHere) == c.notDeliveredHere;
    assert CounterOf(c, NoRecord) == c.noRecord && CounterOf(c, MissingHere) == c.missingHere;
    assert CounterOf(c, LanesHoldIt) == c.lanesHoldIt && CounterOf(c, ResidencyUnchecked) == c.residencyUnchecked;
    assert CounterOf(c, ResidencyUnwitnessable) == c.residencyUnwitnessable;
    assert CounterOf(c, UnknownProvenance) == c.unknownProvenance;
    assert CounterOf(c, NotApplicable) == c.notApplicable;
  }

  // ---- the fleet verdict and its rows ----

  ghost predicate SomeFails(findings: seq<AuditFinding>) {
    exists i :: 0 <= i < |findings| && Fails(findings[i])
  }

  predicate Settled(v: ResidencyVerdict) { v.Confirmed? || v.LanesHoldIt? }

  ghost predicate AllSettled(findings: seq<AuditFinding>) {
    forall i :: 0 <= i < |findings| ==> Settled(findings[i].verdict)
  }

  /** A fleet fails exactly if one of its rows does, and is clean exactly if every row is settled,
      under an answer and a fresh posture. */
  lemma FleetAgreesWithRows(c: RollUpCounts, findings: seq<AuditFinding>, postureFresh: bool, w: WitnessState)
    requires Counts(c, findings)
    ensures var verdict := RollUp(c, Context(postureFresh, Some(w))).0;
            && (verdict.Failed? <==> SomeFails(findings))
            && (verdict.Clean? <==> AllSettled(findings) && postureFresh && w.Attested?)
  {
    SomeUnacknowledged(findings);
    assert CounterOf(c, AlsoAtLetai) == WithVerdict(findings, AlsoAtLetai);
    RollUpExactly(c, Context(postureFresh, Some(w)));
    forall v: ResidencyVerdict
      ensures CounterOf(c, v) > 0 <==> exists i :: 0 <= i < |findings| && findings[i].verdict == v
    {
      SomeWithVerdict(findings, v);
    }
    hide RollUp, WithVerdict, AcknowledgedCopies;
    assert c.notDeliveredHere == CounterOf(c, NotDeliveredHere) && c.missingHere == CounterOf(c, MissingHere);
    assert c.residencyUnwitnessable == CounterOf(c, ResidencyUnwitnessable);
    assert c.residencyUnchecked == CounterOf(c, ResidencyUnchecked);
    assert c.unknownProvenance == CounterOf(c, UnknownProvenance) && c.notApplicable == CounterOf(c, NotApplicable);
    assert c.noRecord == CounterOf(c, NoRecord) && c.copyUnchecked == CounterOf(c, CopyUnchecked);
  }

  lemma AcknowledgedAreSome(c: RollUpCounts, findings: seq<AuditFinding>)
    requires Counts(c, findings)
    ensures c.alsoAtLetaiAcknowledged <= c.alsoAtLetai
  {
    SomeUnacknowledged(findings);
    assert CounterOf(c, AlsoAtLetai) == WithVerdict(findings, AlsoAtLetai);
  }

  /** The result says of a run exactly what the run found: a finding for each row reached, in order,
      the verdict its facts call for, a fleet verdict that agrees with the rows, and a qualification
      that names what the counters hold and where the run stopped. */
  ghost predicate Agrees(r: AuditRunResult, deps: AuditRunDeps, budget: int) {
    var e := EvidenceOf(deps);
    && |r.findings| <= |deps.sessions|
    && (forall i :: 0 <= i < |r.findings| ==> r.findings[i] == Finding(e, deps.sessions[i]))
    && (r.truncated <==> |r.findings| < |deps.sessions|)
    && Counts(r.counts, r.findings) && Total(r.counts) == |r.findings|
    && r.witnessState == (if e.witnessed.Some? then Attested else if deps.askWitness.Some? then Unavailable else Off)
    && (r.verdict.Failed? <==> SomeFails(r.findings))
    && (r.verdict.Clean? <==>
          AllSettled(r.findings) && !r.truncated && deps.postureFresh && r.witnessState.Attested?)
    && r.opsSpent <= (if budget < 1 then 1 else budget)
    && Explains(r.qualification, r.counts,
                Context(e.witnessed.Some? && deps.postureFresh, Some(r.witnessState)))
    && (r.verdict.Failed? <==> !r.qualification.HeldHereAndNowhereElse? && !r.qualification.Notes?)
    && (r.qualification.HeldHereAndNowhereElse? <==>
          AllSettled(r.findings) && deps.postureFresh && r.witnessState.Attested?)
    && r.stoppedAfter == if r.truncated then Some(|r.findings|) else None
  }

  /** What a clean run proves of every session there is: its object is here, let.ai was asked about
      it and answered the sweep, and no answer named a copy of it; or its lanes hold its bytes. */
  lemma CleanMeansHeldHere(r: AuditRunResult, deps: AuditRunDeps, budget: int, row: AuditSessionRow)
    requires Agrees(r, deps, budget) && r.verdict.Clean? && row in deps.sessions
    ensures var e, id := EvidenceOf(deps), WitnessIdOf(row);
            || (&& (CanonicalKeyOf(row) in deps.listCanonical || deps.headCanonical(row))
                && id in EligibleIds(deps.sessions)
                && e.witnessed.Some? && id !in e.witnessed.value.copies)
            || (row.eventCount <= 0 && HasLane(deps.listCanonical, row))
  {
    var e := EvidenceOf(deps);
    var i :| 0 <= i < |deps.sessions| && deps.sessions[i] == row;
    assert r.findings[i] == Finding(e, row);
    assert Settled(r.findings[i].verdict);
    OnlyAnswersAreReported(Observed(e, row));
  }

  class ResidencyAudit {
    const deps: AuditRunDeps
    const limits: AuditEngineLimits
    var counts: RollUpCounts
    var findings: seq<AuditFinding>

    constructor (deps: AuditRunDeps, limits: AuditEngineLimits)
      ensures this.deps == deps && this.limits == limits && counts == NO_COUNTS && findings == []
    {
      this.deps, this.limits, counts, findings := deps, limits, NO_COUNTS, [];
    }

    method CountVerdict(verdict: ResidencyVerdict, acknowledged: bool)
      modifies this`counts
      ensures CountedOne(old(counts), counts, verdict, acknowledged)
    {
      match verdict
      case Confirmed => counts := counts.(confirmed := counts.confirmed + 1);
      case CopyUnchecked => counts := counts.(copyUnchecked := counts.copyUnchecked + 1);
      case AlsoAtLetai =>
        counts := counts.(alsoAtLetai := counts.alsoAtLetai + 1);
        if acknowledged {
          counts := counts.(alsoAtLetaiAcknowledged := counts.alsoAtLetaiAcknowledged + 1);
        }
      case NotDeliveredHere => counts := counts.(notDeliveredHere := counts.notDeliveredHere + 1);
      case MissingHere => counts := counts.(missingHere := counts.missingHere + 1);
      case LanesHoldIt => counts := counts.(lanesHoldIt := counts.lanesHoldIt + 1);
      case ResidencyUnchecked => counts := counts.(residencyUnchecked := counts.residencyUnchecked + 1);
      case ResidencyUnwitnessable => counts := counts.(residencyUnwitnessable := counts.residencyUnwitnessable + 1);
      case NoRecord => counts := counts.(noRecord := counts.noRecord + 1);
      case UnknownProvenance => counts := counts.(unknownProvenance := counts.unknownProvenance + 1);
      case NotApplicable => counts := counts.(notApplicable := counts.notApplicable + 1);
    }

    /** One pass over the listing: which sessions own a lane object in it. */
    method LaneOwners(present: set<string>) returns (owners: set<string>)
      ensures forall owner :: owner in owners <==> exists key :: key in present && LaneOwner(key) == Some(owner)
    {
      hide LaneOwner;
      owners := {};
      var keys := Enumerate(present);
      for i := 0 to |keys|
        invariant forall owner ::
                    owner in owners <==> exists key :: key in keys[..i] && LaneOwner(key) == Some(owner)
      {
        assert keys[..i + 1] == keys[..i] + [keys[i]];
        var owner := LaneOwner(keys[i]);
        if owner.Some? { owners := owners + {owner.value}; }
      }
      assert keys[..|keys|] == keys;
    }

    /** The clock at the next line, and when a sleep that starts now is over. */
    method Clock() returns (now: int, later: int)
      ensures now <= later
    {
      now := *;
      var at: int :| now <= at;
      later := at;
    }

    /** One row: look for its object, judge it, count it. */
    method CheckRow(row: AuditSessionRow, e: Evidence, owners: set<string>, pace: Pacer)
      requires e == EvidenceOf(deps) && pace.Valid() && Counts(counts, findings)
      requires OwnerKey(row) in owners <==> HasLane(e.present, row)
      modifies this`counts, this`findings, pace
      ensures findings == old(findings) + [Finding(e, row)] && Counts(counts, findings)
      ensures pace.Valid() && old(pace.spent) <= pace.spent <= old(pace.spent) + 1
    {
      hide HasLane, EvidenceOf, LaneOwner;
      counts := counts.(sessionsChecked := counts.sessionsChecked + 1);
      var fortressPresent := CanonicalKeyOf(row) in e.present;
      if !fortressPresent {
        var now, later := Clock();
        pace.Spend(now, later);
        fortressPresent := e.headCanonical(row);
      }
      var id := WitnessIdOf(row);
      var ack := AckKey(row.org, row.sessionId) in e.acknowledged;
      var verdict := VerdictFor(VerdictInput(
        fortressPresent,
        e.witnessed.Some? && id in e.witnessed.value.copies,
        e.witnessed.Some? && id in e.witnessed.value.routedHere,
        row.ingestChannel,
        ack,
        row.eventCount > 0,
        OwnerKey(row) in owners,
        id in e.asked,
        e.witnessed.Some? && id in e.asked));
      ghost var before := counts;
      CountVerdict(verdict, ack);
      var finding := AuditFinding(row.org, row.family, row.sessionId, verdict, row.ingestChannel, ack);
      CountsOne(before.(sessionsChecked := before.sessionsChecked - 1), counts, findings, finding);
      findings := findings + [finding];
    }

    /** The rows in turn, until the budget is spent. */
    method CheckRows(e: Evidence, pace: Pacer) returns (truncated: bool)
      requires e == EvidenceOf(deps) && pace.Valid() && counts == NO_COUNTS && findings == []
      requires pace.limits == limits && pace.spent == 1
      modifies this`counts, this`findings, pace
      ensures |findings| <= |deps.sessions| && Counts(counts, findings)
      ensures forall i :: 0 <= i < |findings| ==> findings[i] == Finding(e, deps.sessions[i])
      ensures truncated <==> |findings| < |deps.sessions|
      ensures pace.spent <= if limits.perRunBudget < 1 then 1 else limits.perRunBudget
    {
      var rows := deps.sessions;
      var owners := LaneOwners(e.present);
      NothingCounted();
      hide LaneOwner, EvidenceOf, Counts, Finding;
      truncated := false;
      for i := 0 to |rows|
        invariant i == |findings| && Counts(counts, findings)
        invariant forall j :: 0 <= j < i ==> findings[j] == Finding(e, rows[j])
        invariant pace.Valid()
        invariant 1 <= pace.spent <= if limits.perRunBudget < 1 then 1 else limits.perRunBudget
        invariant !truncated
      {
        if pace.spent >= limits.perRunBudget {
          truncated := true;
          break;
        }
        CheckRow(rows[i], e, owners, pace);
      }
    }

    method Run() returns (r: AuditRunResult)
      requires counts == NO_COUNTS && findings == []
      modifies this`counts, this`findings
      ensures Agrees(r, deps, limits.perRunBudget)
    {
      hide EvidenceOf, Counts, Finding, RollUp, SomeFails, AllSettled, Total, Explains;
      var pace := new Pacer(limits);
      var now, later := Clock();
      pace.Spend(now, later);
      var e := EvidenceOf(deps);
      var witnessState := if e.witnessed.Some? then Attested else if deps.askWitness.Some? then Unavailable else Off;
      var truncated := CheckRows(e, pace);
      var postureFresh := e.witnessed.Some? && deps.postureFresh;
      var summary := RollUp(counts, Context(postureFresh, Some(witnessState)));
      FleetAgreesWithRows(counts, findings, postureFresh, witnessState);
      CountersAddUp(counts, findings);
      AcknowledgedAreSome(counts, findings);
      RefusalsNameTheCount(counts, Context(postureFresh, Some(witnessState)));
      var verdict := if truncated && summary.0.Clean? then Qualified else summary.0;
      r := AuditRunResult(counts, findings, verdict, summary.1, witnessState, pace.spent, truncated,
                          if truncated then Some(counts.sessionsChecked) else None);
    }
  }

  lemma NothingCounted()
    ensures Counts(NO_COUNTS, [])
  {
  }
}
