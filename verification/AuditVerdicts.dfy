/** The residency verdict of one session, and the verdict of a fleet (src/console/audit-verdicts.ts). */
module AuditVerdicts {
  import opened Wrappers

  datatype ResidencyVerdict =
    | Confirmed
    | AlsoAtLetai
    | NotDeliveredHere
    | NoRecord
    | CopyUnchecked
    | MissingHere
    | LanesHoldIt
    | ResidencyUnchecked
    | ResidencyUnwitnessable
    | UnknownProvenance
    | NotApplicable

  datatype VerdictInput = VerdictInput(
    fortressPresent: bool,
    letaiCopy: bool,
    hubRoutedHere: bool,
    ingestChannel: Option<string>,
    acknowledged: bool,
    hasOwnTranscript: bool,
    hasLaneObject: bool,
    witnessAskable: bool,
    witnessAnswered: bool)

  predicate WitnessEligible(channel: Option<string>) { channel == Some("tunnel") }

  function VerdictFor(i: VerdictInput): ResidencyVerdict {
    if !i.fortressPresent && !i.hasOwnTranscript && i.hasLaneObject && !i.hubRoutedHere
       && (!WitnessEligible(i.ingestChannel) || i.witnessAnswered)
    then LanesHoldIt
    else if !WitnessEligible(i.ingestChannel) then
      if !i.fortressPresent then MissingHere
      else if i.ingestChannel == Some("gateway") then NotApplicable
      else UnknownProvenance
    else if i.fortressPresent then
      if i.letaiCopy then AlsoAtLetai
      else if i.witnessAnswered then Confirmed
      else CopyUnchecked
    else if !i.witnessAskable then ResidencyUnwitnessable
    else if !i.witnessAnswered then ResidencyUnchecked
    else if i.hubRoutedHere then NotDeliveredHere
    else if i.hasOwnTranscript || !i.hasLaneObject then MissingHere
    else NoRecord
  }

  /** Whether the check of one session passes. */
  predicate SessionCheckPasses(v: ResidencyVerdict, acknowledged: bool) {
    if v.NotDeliveredHere? then false
    else if v.MissingHere? then false
    else if v.ResidencyUnchecked? then false
    else if v.ResidencyUnwitnessable? then false
    else if v.AlsoAtLetai? then acknowledged
    else true
  }

  // ---- what the matrix amounts to ----

  /** The lanes account for a transcript that is not here: there was none to expect, a lane holds
      the bytes, and nobody says otherwise, where somebody could have said so. */
  predicate LanesAccountForIt(i: VerdictInput) {
    && !i.hasOwnTranscript && i.hasLaneObject && !i.hubRoutedHere
    && (WitnessEligible(i.ingestChannel) ==> i.witnessAnswered)
  }

  /** A session passes exactly if its object is here and any copy elsewhere is acknowledged, or its
      lanes account for its absence. No other absence passes, whatever is known or acknowledged. */
  lemma PassesExactly(i: VerdictInput)
    ensures SessionCheckPasses(VerdictFor(i), i.acknowledged)
       <==> if i.fortressPresent then !WitnessEligible(i.ingestChannel) || !i.letaiCopy || i.acknowledged
            else LanesAccountForIt(i)
  {
  }

  /** What "nothing to do, it predates the records" would have been said of never happens. */
  lemma NoRecordIsNeverGiven(i: VerdictInput)
    ensures !VerdictFor(i).NoRecord?
  {
  }

  /** A verdict that says what let.ai answered is given only where it was asked and did answer; the
      incident exactly where, asked, it says it sent the session here and the object is not. */
  lemma OnlyAnswersAreReported(i: VerdictInput)
    ensures VerdictFor(i).Confirmed? <==>
              && i.fortressPresent && WitnessEligible(i.ingestChannel)
              && i.witnessAnswered && !i.letaiCopy
    ensures VerdictFor(i).NotDeliveredHere? <==>
              && !i.fortressPresent && WitnessEligible(i.ingestChannel)
              && i.witnessAskable && i.witnessAnswered && i.hubRoutedHere
    ensures VerdictFor(i).LanesHoldIt? <==> !i.fortressPresent && LanesAccountForIt(i)
    ensures VerdictFor(i).MissingHere? <==>
              && !i.fortressPresent && !LanesAccountForIt(i)
              && (WitnessEligible(i.ingestChannel) ==> i.witnessAskable && i.witnessAnswered && !i.hubRoutedHere)
  {
  }

  /** And a verdict that says nothing was answered says why: the id is never sent, nobody answered,
      or there was nothing to ask. */
  lemma SilencesAreToldApart(i: VerdictInput)
    ensures VerdictFor(i).ResidencyUnwitnessable? <==>
              !i.fortressPresent && WitnessEligible(i.ingestChannel) && !i.witnessAskable && !LanesAccountForIt(i)
    ensures VerdictFor(i).ResidencyUnchecked? <==>
              !i.fortressPresent && WitnessEligible(i.ingestChannel) && i.witnessAskable && !i.witnessAnswered
    ensures VerdictFor(i).CopyUnchecked? <==>
              i.fortressPresent && WitnessEligible(i.ingestChannel) && !i.witnessAnswered && !i.letaiCopy
    ensures VerdictFor(i).AlsoAtLetai? <==>
              i.fortressPresent && WitnessEligible(i.ingestChannel) && i.letaiCopy
    ensures VerdictFor(i).NotApplicable? <==> i.fortressPresent && i.ingestChannel == Some("gateway")
    ensures VerdictFor(i).UnknownProvenance? <==>
              i.fortressPresent && i.ingestChannel != Some("gateway") && i.ingestChannel != Some("tunnel")
  {
  }

  // ---- the fleet ----

  datatype RollUpCounts = RollUpCounts(
    sessionsChecked: nat,
    confirmed: nat,
    copyUnchecked: nat,
    alsoAtLetai: nat,
    alsoAtLetaiAcknowledged: nat,
    notDeliveredHere: nat,
    noRecord: nat,
    missingHere: nat,
    lanesHoldIt: nat,
    residencyUnchecked: nat,
    residencyUnwitnessable: nat,
    unknownProvenance: nat,
    notApplicable: nat)

  datatype FleetVerdict = Clean | Qualified | Failed

  datatype WitnessState = Attested | Off | Unavailable

  datatype Note =
    | CopiesAcknowledged(n: nat)
    | OfUnknownChannel(n: nat)
    | UploadedDirectly(n: nat)
    | PredatingTracking(n: nat)
    | CopyNotAsked(n: nat)
    | WitnessUnchecked(witnessState: WitnessState)
    | PostureNotRefreshed

  datatype Qualification =
    | ShouldBeHere(n: nat)
    | NotInBucket(n: nat)
    | CannotBeAsked(n: nat)
    | NotAccountedFor(n: nat, witnessState: WitnessState)
    | CopiesOutstanding(n: nat)
    | HeldHereAndNowhereElse
    | Notes(notes: seq<Note>)

  datatype Context = Context(postureFresh: bool, witnessState: Option<WitnessState>)

  function When(applies: bool, note: Note): (r: seq<Note>)
    ensures forall x :: x in r <==> applies && x == note
  {
    if applies then [note] else []
  }

  /** What qualifies a run that has not failed. */
  function NotesOf(c: RollUpCounts, context: Context): seq<Note> {
    var witnessState := if context.witnessState.Some? then context.witnessState.value else Attested;
    When(c.alsoAtLetaiAcknowledged > 0, CopiesAcknowledged(c.alsoAtLetaiAcknowledged))
    + When(c.unknownProvenance > 0, OfUnknownChannel(c.unknownProvenance))
    + When(c.notApplicable > 0, UploadedDirectly(c.notApplicable))
    + When(c.noRecord > 0, PredatingTracking(c.noRecord))
    + When(c.copyUnchecked > 0, CopyNotAsked(c.copyUnchecked))
    + (if !witnessState.Attested? then [WitnessUnchecked(witnessState)]
       else When(!context.postureFresh, PostureNotRefreshed))
  }

  function RollUp(c: RollUpCounts, context: Context): (FleetVerdict, Qualification) {
    var outstanding := c.alsoAtLetai - c.alsoAtLetaiAcknowledged;
    if c.notDeliveredHere > 0 then (Failed, ShouldBeHere(c.notDeliveredHere))
    else if c.missingHere > 0 then (Failed, NotInBucket(c.missingHere))
    else if c.residencyUnwitnessable > 0 then (Failed, CannotBeAsked(c.residencyUnwitnessable))
    else if c.residencyUnchecked > 0 then
      (Failed, NotAccountedFor(c.residencyUnchecked,
                               if context.witnessState.Some? then context.witnessState.value else Unavailable))
    else if outstanding > 0 then (Failed, CopiesOutstanding(outstanding))
    else
      var notes := NotesOf(c, context);
      if notes == [] then (Clean, HeldHereAndNowhereElse) else (Qualified, Notes(notes))
  }

  /** A fleet fails exactly if something failing was counted, and is clean exactly if nothing was
      counted but sessions confirmed, or held by their lanes, under a fresh posture and an answer. */
  lemma RollUpExactly(c: RollUpCounts, context: Context)
    requires c.alsoAtLetaiAcknowledged <= c.alsoAtLetai
    ensures RollUp(c, context).0.Failed? <==>
              || c.notDeliveredHere > 0 || c.missingHere > 0
              || c.residencyUnwitnessable > 0 || c.residencyUnchecked > 0
              || c.alsoAtLetai > c.alsoAtLetaiAcknowledged
    ensures context.witnessState.Some? ==>
              (RollUp(c, context).0.Clean? <==>
                && c.notDeliveredHere == c.missingHere == c.residencyUnwitnessable == c.residencyUnchecked == 0
                && c.alsoAtLetai == c.unknownProvenance == c.notApplicable == c.noRecord == c.copyUnchecked == 0
                && context.postureFresh && context.witnessState.value.Attested?)
  {
  }

  /** One note for each counter that qualifies a run, with its count; one where let.ai was not asked or
      did not answer; one where it was and the posture was not refreshed; and no other. */
  ghost predicate NotesExactly(notes: seq<Note>, c: RollUpCounts, context: Context) {
    var witnessState := if context.witnessState.Some? then context.witnessState.value else Attested;
    && (forall n :: CopiesAcknowledged(n) in notes <==> n == c.alsoAtLetaiAcknowledged > 0)
    && (forall n :: OfUnknownChannel(n) in notes <==> n == c.unknownProvenance > 0)
    && (forall n :: UploadedDirectly(n) in notes <==> n == c.notApplicable > 0)
    && (forall n :: PredatingTracking(n) in notes <==> n == c.noRecord > 0)
    && (forall n :: CopyNotAsked(n) in notes <==> n == c.copyUnchecked > 0)
    && (forall w :: WitnessUnchecked(w) in notes <==> w == witnessState && !witnessState.Attested?)
    && (PostureNotRefreshed in notes <==> witnessState.Attested? && !context.postureFresh)
  }

  lemma NotesNameTheCounts(c: RollUpCounts, context: Context)
    ensures NotesExactly(NotesOf(c, context), c, context)
  {
    hide When;
  }

  /** A failed run names one failing counter, with its count, and the incident before all others; one
      that has not failed gives its notes, or that there is nothing to note. */
  ghost predicate Explains(q: Qualification, c: RollUpCounts, context: Context) {
    match q
    case ShouldBeHere(n) => n == c.notDeliveredHere > 0
    case NotInBucket(n) => n == c.missingHere > 0 && c.notDeliveredHere == 0
    case CannotBeAsked(n) => n == c.residencyUnwitnessable > 0 && c.notDeliveredHere == 0
    case NotAccountedFor(n, w) =>
      && n == c.residencyUnchecked > 0 && c.notDeliveredHere == 0
      && (context.witnessState.Some? ==> w == context.witnessState.value)
    case CopiesOutstanding(n) => n == c.alsoAtLetai - c.alsoAtLetaiAcknowledged > 0 && c.notDeliveredHere == 0
    case HeldHereAndNowhereElse => NotesExactly([], c, context)
    case Notes(notes) => NotesExactly(notes, c, context) && notes != []
  }

  lemma RefusalsNameTheCount(c: RollUpCounts, context: Context)
    requires c.alsoAtLetaiAcknowledged <= c.alsoAtLetai
    ensures var (verdict, q) := RollUp(c, context);
            && Explains(q, c, context)
            && (c.notDeliveredHere > 0 ==> q == ShouldBeHere(c.notDeliveredHere))
            && (verdict.Qualified? <==> q.Notes?)
            && (verdict.Clean? <==> q.HeldHereAndNowhereElse?)
  {
    NotesNameTheCounts(c, context);
    hide NotesOf, NotesExactly;
  }
}
