/** What the daemon writes about command transitions (src/console/daemon-audit.ts): a claim is an
    intent, and the terminal record that follows points back at it. */
module DaemonAudit {
  import opened Wrappers
  import opened AuditSpool
  import C = Commands

  const COMMAND_OUTCOME_ACTION := "console.command.outcome"

  /** Exactly the payload the routine wrote: a rejection puts its reason in the error, and has no
      outcome. */
  function OutcomeOf(t: C.TransitionRecord): Option<string> {
    if t.transition.Rejected? then None else t.outcome
  }

  function ErrorOf(t: C.TransitionRecord): Option<string> {
    if t.transition.Rejected? then t.reason else t.error
  }

  class DaemonAudit {
    const spool: AuditSpool
    const render: (string, C.TransitionRecord) -> string    // the parameters: kind, end, and acceptance
    var claims: map<C.Id, AuditRecord>
    ghost var answered: set<AuditRecord>    // claims a terminal record was made out for

    /** Every claim waiting is on disk, is about its own command, and has not been answered. */
    ghost predicate Ready()
      reads this, spool
    {
      && Valid(spool.spool)
      && (forall id :: id in claims ==>
            && OnDisk(spool.spool.disk, claims[id])
            && claims[id].body.kind.Intent?
            && claims[id].body.sessionRef == Some(id)
            && claims[id] !in answered)
      && (forall r :: r in answered ==> OnDisk(spool.spool.disk, r))
    }

    constructor (rotateBytes: nat, fileId: FileId, render: (string, C.TransitionRecord) -> string,
                 redact: string -> string)
      ensures this.render == render && spool.redact == redact && fresh(spool)
      ensures Ready() && claims == map[] && answered == {}
    {
      spool := new AuditSpool(rotateBytes, fileId, redact);
      this.render, claims, answered := render, map[], {};
    }

    /** A record of this transition, new on disk. */
    ghost predicate Tells(kind: string, t: C.TransitionRecord, r: AuditRecord, before: Spool, after: Spool) {
      && OnDisk(after.disk, r) && !OnDisk(before.disk, r)
      && r.body.sessionRef == Some(t.id)
      && r.body.params == Some(render(kind, t))
    }

    /** It carries the payload the routine was given, the error redacted: for a rejection its reason as
        the error, and no outcome; and whatever list of records on disk it is looked up in, it leads to its
        command's claim, if one was waiting, and else nowhere. */
    ghost predicate Ends(t: C.TransitionRecord, r: AuditRecord, claim: Option<AuditRecord>, after: Spool) {
      && (if t.transition.Rejected? then r.body.outcome == None && r.body.error == Redacted(spool.redact, t.reason)
          else r.body.outcome == t.outcome && r.body.error == Redacted(spool.redact, t.error))
      && (claim.Some? ==>
            forall records: seq<AuditRecord> ::
              claim.value in records && (forall q :: q in records ==> OnDisk(after.disk, q)) ==>
                ResolveIntent(r, records) == claim)
      && (claim.None? ==> forall records :: ResolveIntent(r, records) == None)
    }

    /** One record per transition the daemon performed, accepted or refused (Running stands for
        "claimed"; a transition to requested is none it performs, and is not recorded). A terminal
        one points at the claim of its own command, if that is still unanswered, and answers it once
        and for all; with no claim waiting it points at nothing. */
    method Record(kind: string, t: C.TransitionRecord) returns (r: Option<AuditRecord>)
      requires Ready()
      modifies this, spool
      ensures Ready() && Later(old(spool.spool), spool.spool)
      ensures r.Some? ==> Tells(kind, t, r.value, old(spool.spool), spool.spool)
      ensures t.transition.Requested? ==> r.None? && claims == old(claims) && answered == old(answered)
      ensures t.transition.Running? ==>
                && answered == old(answered)
                && claims == (if r.Some? then old(claims)[t.id := r.value] else old(claims))
                && (r.Some? ==> r.value.body.kind.Intent?)
      ensures C.IsTerminal(t.transition) ==>
                && claims == old(claims) - {t.id}
                && (t.id in old(claims) ==> old(claims)[t.id] !in old(answered))
                && answered == old(answered) + (if t.id in old(claims) then {old(claims)[t.id]} else {})
                && (r.Some? ==>
                      Ends(t, r.value, if t.id in old(claims) then Some(old(claims)[t.id]) else None, spool.spool))
    {
      assert Later(spool.spool, spool.spool);
      hide Valid, Later, OnDisk, Ready, Tells, Ends;
      match t.transition
      case Requested => return None;
      case Running => r := RecordClaim(kind, t);
      case Done => r := RecordEnd(kind, t);
      case Failed => r := RecordEnd(kind, t);
      case Rejected => r := RecordEnd(kind, t);
    }

    method RecordClaim(kind: string, t: C.TransitionRecord) returns (r: Option<AuditRecord>)
      requires Ready()
      modifies this, spool
      ensures Ready() && Later(old(spool.spool), spool.spool)
      ensures r.Some? ==> Tells(kind, t, r.value, old(spool.spool), spool.spool) && r.value.body.kind.Intent?
      ensures answered == old(answered)
      ensures claims == if r.Some? then old(claims)[t.id := r.value] else old(claims)
    {
      hide Valid, Later, OnDisk;
      r := spool.WriteIntent(COMMAND_OUTCOME_ACTION, Some(t.id), Some(render(kind, t)), "system");
      StillOnDisk(old(spool.spool), spool.spool);
      if r.Some? { claims := claims[t.id := r.value]; }
    }

    method RecordEnd(kind: string, t: C.TransitionRecord) returns (r: Option<AuditRecord>)
      requires Ready()
      modifies this, spool
      ensures Ready() && Later(old(spool.spool), spool.spool)
      ensures r.Some? ==> Tells(kind, t, r.value, old(spool.spool), spool.spool)
      ensures claims == old(claims) - {t.id}
      ensures t.id in old(claims) ==> old(claims)[t.id] !in old(answered)
      ensures answered == old(answered) + (if t.id in old(claims) then {old(claims)[t.id]} else {})
      ensures r.Some? ==>
                Ends(t, r.value, if t.id in old(claims) then Some(old(claims)[t.id]) else None, spool.spool)
    {
      hide Valid, Later, OnDisk;
      var claim := if t.id in claims then Some(claims[t.id]) else None;
      claims := claims - {t.id};
      if claim.Some? { answered := answered + {claim.value}; }
      r := spool.Append(AuditRecordInput(
        None, Some(t.id), None, COMMAND_OUTCOME_ACTION, Some(render(kind, t)), Outcome,
        if claim.Some? then Some(claim.value.fileId) else None,
        if claim.Some? then Some(claim.value.seqNo) else None,
        OutcomeOf(t), ErrorOf(t), "system"));
      StillOnDisk(old(spool.spool), spool.spool);
      if r.Some? && claim.Some? { ResolvesWherever(spool.spool, r.value, claim.value); }
    }
  }

  lemma StillOnDisk(s: Spool, s': Spool)
    ensures Later(s, s') ==> forall r :: OnDisk(s.disk, r) ==> OnDisk(s'.disk, r)
  {
    if Later(s, s') {
      forall r | OnDisk(s.disk, r)
        ensures OnDisk(s'.disk, r)
      {
        OnDiskStays(s, s', r);
      }
    }
  }
}
