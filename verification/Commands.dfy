/** The daemon's command plane (src/console/commands.ts) over its durable state: the command rows,
    the in-flight file, and the trail of what was done. A process may die, and a call may throw, at
    any wait; other roles move rows forward, and plant new ones, while it waits. */
module Commands {
  import opened Wrappers
  import opened Listing

  type Id = string

  const COMMAND_REQUEST_TTL_MS := 30 * 60 * 1000
  const REJECT_BOOT_FENCE := "rejected_boot_fence"
  const REJECT_DEADLINE := "rejected_deadline"
  const REJECT_INVALID_PARAMS := "rejected_invalid_params"
  const FAIL_CREDENTIAL_CONSUMED := "credential consumed — re-issue"

  datatype Status = Requested | Running | Done | Failed | Rejected

  predicate IsTerminal(s: Status) { s.Done? || s.Failed? || s.Rejected? }

  datatype Command = Command(
    kind: string,
    params: string,
    requestedAt: int,
    deadlineAt: Option<int>,
    credentialRef: Option<string>)

  datatype Row = Row(command: Command, status: Status)

  /** When a request is too old to run. */
  function Deadline(c: Command): int {
    if c.deadlineAt.Some? then c.deadlineAt.value else c.requestedAt + COMMAND_REQUEST_TTL_MS
  }

  datatype TransitionRecord = TransitionRecord(
    id: Id,
    transition: Status,             // Running stands for "claimed"
    outcome: Option<string>,
    error: Option<string>,
    reason: Option<string>,         // why it was rejected
    accepted: bool)

  /** The record of an accepted claim. */
  function ClaimRecord(id: Id): TransitionRecord { TransitionRecord(id, Running, None, None, None, true) }

  datatype Event =
    | Booted
    | Fenced(redriven: set<Id>)
    | Answered(record: TransitionRecord)                          // what a routine was told, and said
    | Recorded(record: TransitionRecord)                          // what reached the audit spool
    | Entered(id: Id, command: Command, checkedAt: int, inFile: bool)   // an executor starts

  // ---- counting ----

  function Entries(log: seq<Event>, id: Id): nat {
    if log == [] then 0
    else
      var e := log[|log| - 1];
      Entries(log[..|log| - 1], id) + if e.Entered? && e.id == id then 1 else 0
  }

  function EntriesThisBoot(log: seq<Event>, id: Id): nat {
    if log == [] || log[|log| - 1].Booted? then 0
    else
      var e := log[|log| - 1];
      EntriesThisBoot(log[..|log| - 1], id) + if e.Entered? && e.id == id then 1 else 0
  }

  /** How many fences redrove the row. */
  function Redrives(log: seq<Event>, id: Id): nat {
    if log == [] then 0
    else
      var e := log[|log| - 1];
      Redrives(log[..|log| - 1], id) + if e.Fenced? && id in e.redriven then 1 else 0
  }

  lemma Appended(log: seq<Event>, e: Event, id: Id)
    ensures Entries(log + [e], id) == Entries(log, id) + if e.Entered? && e.id == id then 1 else 0
    ensures EntriesThisBoot(log + [e], id)
         == if e.Booted? then 0 else EntriesThisBoot(log, id) + if e.Entered? && e.id == id then 1 else 0
    ensures Redrives(log + [e], id) == Redrives(log, id) + if e.Fenced? && id in e.redriven then 1 else 0
  {
    assert (log + [e])[..|log|] == log;
  }

  /** What one life of the process adds to the history, between its fence and its end. */
  ghost predicate Grew(before: seq<Event>, after: seq<Event>)
    ensures Grew(before, after) ==> before <= after
  {
    && before <= after
    && (forall i :: |before| <= i < |after| ==> !after[i].Booted? && !after[i].Fenced?)
  }

  lemma GrewNothing(log: seq<Event>)
    ensures Grew(log, log)
  {
  }

  lemma GrewByEntry(log: seq<Event>, e: Event)
    requires e.Entered?
    ensures Grew(log, log + [e])
  {
  }

  lemma GrewTwice(a: seq<Event>, b: seq<Event>, c: seq<Event>)
    requires Grew(a, b) && Grew(b, c)
    ensures Grew(a, c)
  {
  }

  lemma {:induction false} GrownRedrives(before: seq<Event>, after: seq<Event>, id: Id)
    requires Grew(before, after)
    ensures Redrives(after, id) == Redrives(before, id)
    decreases |after|
  {
    if before != after {
      var init := after[..|after| - 1];
      assert before <= init;
      GrownRedrives(before, init, id);
    }
  }

  lemma {:induction false} EntriesSplit(before: seq<Event>, more: seq<Event>, id: Id)
    ensures Entries(before + more, id) == Entries(before, id) + Entries(more, id)
    decreases |more|
  {
    if more == [] {
      assert before + more == before;
    } else {
      var init := more[..|more| - 1];
      EntriesSplit(before, init, id);
      assert (before + more)[..|before + more| - 1] == before + init;
    }
  }

  lemma {:induction false} EntriesAreEntered(log: seq<Event>, id: Id)
    ensures Entries(log, id) > 0 <==> exists i :: 0 <= i < |log| && log[i].Entered? && log[i].id == id
  {
    if log != [] {
      var init := log[..|log| - 1];
      EntriesAreEntered(init, id);
      assert log == init + [log[|log| - 1]];
    }
  }

  lemma EnteredSince(before: seq<Event>, after: seq<Event>, id: Id)
    requires before <= after
    ensures Entries(after, id) == Entries(before, id) + Entries(after[|before|..], id)
    ensures Entries(after, id) > Entries(before, id) ==>
              exists i :: |before| <= i < |after| && after[i].Entered? && after[i].id == id
  {
    var more := after[|before|..];
    assert after == before + more;
    EntriesSplit(before, more, id);
    EntriesAreEntered(more, id);
    if Entries(more, id) > 0 {
      var i :| 0 <= i < |more| && more[i].Entered? && more[i].id == id;
      assert after[|before| + i] == more[i];
    }
  }

  // ---- what the routines guarantee ----

  function Rank(s: Status): nat { if s.Requested? then 0 else if s.Running? then 1 else 2 }

  /** Rows are never removed, never changed in content, and only move towards a terminal state. */
  predicate RowsLater(before: map<Id, Row>, after: map<Id, Row>) {
    forall id :: id in before ==>
      && id in after
      && after[id].command == before[id].command
      && Rank(before[id].status) <= Rank(after[id].status)
      && (IsTerminal(before[id].status) ==> after[id] == before[id])
  }

  /** Every row that is not as it was has been moved by another role. */
  ghost predicate OthersMoved(before: map<Id, Row>, after: map<Id, Row>, moved: set<Id>) {
    forall id :: id in after && (id !in before || before[id] != after[id]) ==> id in moved
  }

  lemma OthersTwice(a: map<Id, Row>, b: map<Id, Row>, c: map<Id, Row>, moved: set<Id>, moved': set<Id>)
    requires OthersMoved(a, b, moved) && OthersMoved(b, c, moved') && moved <= moved'
    ensures OthersMoved(a, c, moved')
  {
  }

  /** Nobody else need have moved the row this daemon changes itself. */
  lemma OthersButOne(a: map<Id, Row>, b: map<Id, Row>, moved: set<Id>, id: Id)
    requires OthersMoved(a, b, moved)
    ensures OthersMoved(a, b, moved + {id})
  {
  }

  lemma ExplainedByAnswer(before: map<Id, Row>, after: map<Id, Row>, moved: set<Id>, log: seq<Event>, from: nat, id: Id)
    requires OthersMoved(before, after, moved + {id}) && AnsweredFor(log, from, id)
    ensures Explained(before, after, moved, log, from)
  {
  }

  lemma ExplainedByOneAnswer(before: map<Id, Row>, after: map<Id, Row>, moved: set<Id>, log: seq<Event>,
                             log': seq<Event>, id: Id)
    requires OthersMoved(before, after, moved + {id})
    requires |log'| > |log| && log'[|log|].Answered? && log'[|log|].record.id == id
    ensures Explained(before, after, moved, log', |log|)
  {
    ExplainedByAnswer(before, after, moved, log', |log|, id);
  }

  predicate AnsweredFor(log: seq<Event>, from: nat, id: Id) {
    exists i :: from <= i < |log| && log[i].Answered? && log[i].record.id == id
  }

  /** Every row that is not as it was has been moved by another role, or answered for since. */
  ghost predicate Explained(before: map<Id, Row>, after: map<Id, Row>, moved: set<Id>, log: seq<Event>, from: nat) {
    forall id :: id in after && (id !in before || before[id] != after[id]) ==>
      id in moved || AnsweredFor(log, from, id)
  }

  lemma OthersExplain(before: map<Id, Row>, after: map<Id, Row>, moved: set<Id>, log: seq<Event>, from: nat)
    requires OthersMoved(before, after, moved)
    ensures Explained(before, after, moved, log, from)
  {
  }

  lemma ExplainedLonger(before: map<Id, Row>, after: map<Id, Row>, moved: set<Id>, log: seq<Event>, log': seq<Event>,
                        from: nat)
    requires Explained(before, after, moved, log, from) && log <= log'
    ensures Explained(before, after, moved, log', from)
  {
    forall id | AnsweredFor(log, from, id)
      ensures AnsweredFor(log', from, id)
    {
      var i :| from <= i < |log| && log[i].Answered? && log[i].record.id == id;
      assert log'[i] == log[i];
    }
  }

  lemma ExplainedTwice(a: map<Id, Row>, b: map<Id, Row>, c: map<Id, Row>, moved: set<Id>, moved': set<Id>,
                       log: seq<Event>, log': seq<Event>, from: nat)
    requires RowsLater(a, b)
    requires Explained(a, b, moved, log, from) && Explained(b, c, moved', log', |log|)
    requires from <= |log| && log <= log' && moved <= moved'
    ensures Explained(a, c, moved', log', from)
  {
    forall id | id in c && (id !in a || a[id] != c[id])
      ensures id in moved' || AnsweredFor(log', from, id)
    {
      if id !in b || b[id] != c[id] {
        if AnsweredFor(log', |log|, id) {
          var i :| |log| <= i < |log'| && log'[i].Answered? && log'[i].record.id == id;
          assert from <= i;
        }
      } else if AnsweredFor(log, from, id) {
        var i :| from <= i < |log| && log[i].Answered? && log[i].record.id == id;
        assert log'[i] == log[i];
      }
    }
  }

  predicate NoneRequested(rows: map<Id, Row>, ids: seq<Id>) {
    forall id :: id in ids ==> id in rows && !rows[id].status.Requested?
  }

  lemma NoneRequestedStays(rows: map<Id, Row>, rows': map<Id, Row>, ids: seq<Id>)
    requires RowsLater(rows, rows') && NoneRequested(rows, ids)
    ensures NoneRequested(rows', ids)
  {
  }

  lemma NoneRequestedAtAll(before: map<Id, Row>, seen: map<Id, Row>, rows: map<Id, Row>, ids: seq<Id>)
    requires RowsLater(before, seen) && RowsLater(seen, rows) && NoneRequested(rows, ids)
    requires forall id :: id in seen && !IsTerminal(seen[id].status) ==> id in ids
    ensures forall id :: id in before ==> id in rows && !rows[id].status.Requested?
  {
  }

  lemma RowsLaterTwice(a: map<Id, Row>, b: map<Id, Row>, c: map<Id, Row>)
    requires RowsLater(a, b) && RowsLater(b, c)
    ensures RowsLater(a, c)
  {
  }

  /** What a fence has settled about the rows `done`. */
  ghost predicate Fences(rows: map<Id, Row>, done: seq<Id>, redriven: seq<Id>, rejected: seq<Id>, failed: seq<Id>) {
    && (forall id :: id in done && id !in redriven ==> id in rows && IsTerminal(rows[id].status))
    && (forall id :: id in rejected ==> id in rows && rows[id].status.Rejected?)
    && (forall id :: id in failed ==> id in rows && rows[id].status.Failed?)
  }

  lemma FencesLater(rows: map<Id, Row>, rows': map<Id, Row>, done: seq<Id>, redriven: seq<Id>, rejected: seq<Id>,
                    failed: seq<Id>)
    requires Fences(rows, done, redriven, rejected, failed) && RowsLater(rows, rows')
    ensures Fences(rows', done, redriven, rejected, failed)
  {
  }

  lemma FencesOne(rows: map<Id, Row>, done: seq<Id>, redriven: seq<Id>, rejected: seq<Id>, failed: seq<Id>, id: Id,
                  wasRejected: bool, wasFailed: bool)
    requires Fences(rows, done, redriven, rejected, failed)
    requires id in rows && IsTerminal(rows[id].status)
    requires (wasRejected ==> rows[id].status.Rejected?) && (wasFailed ==> rows[id].status.Failed?)
    ensures Fences(rows, done + [id], redriven,
                   if wasRejected then rejected + [id] else rejected, if wasFailed then failed + [id] else failed)
  {
  }

  /** No ticket is issued here, and one goes only where its row was claimed. */
  ghost predicate TicketsKept(before: set<Id>, after: set<Id>, log: seq<Event>, log': seq<Event>) {
    && after <= before
    && log <= log'
    && (forall id :: id in before && id !in after ==> Answered(ClaimRecord(id)) in log'[|log|..])
  }

  lemma TicketsKeptTwice(a: set<Id>, b: set<Id>, c: set<Id>, log: seq<Event>, log': seq<Event>, log'': seq<Event>)
    requires TicketsKept(a, b, log, log') && TicketsKept(b, c, log', log'')
    ensures TicketsKept(a, c, log, log'')
  {
    assert log''[|log|..] == log'[|log|..] + log''[|log'|..];
  }

  lemma TicketsUntouched(tickets: set<Id>, log: seq<Event>, log': seq<Event>)
    requires log <= log'
    ensures TicketsKept(tickets, tickets, log, log')
  {
  }

  // ---- the invariants ----

  predicate Open(rows: map<Id, Row>, id: Id) { id !in rows || rows[id].status.Requested? }

  /** One entry for having been requested, one more for each fence that redrove the row; a ticket
      outstanding is an entry not yet made. */
  ghost predicate Metered(rows: map<Id, Row>, tickets: set<Id>, log: seq<Event>, id: Id) {
    var ticket := if id in tickets then 1 else 0;
    && Entries(log, id) + ticket <= Redrives(log, id) + (if Open(rows, id) then 0 else 1)
    && EntriesThisBoot(log, id) + ticket + (if Open(rows, id) then 1 else 0) <= 1
    && (id in rows && rows[id].command.credentialRef.Some? ==> Redrives(log, id) == 0 && id !in tickets)
    && (id !in rows ==> Redrives(log, id) == 0)
  }

  /** The executor of `id` may be entered once more. */
  ghost predicate Granted(rows: map<Id, Row>, tickets: set<Id>, log: seq<Event>, id: Id) {
    var ticket := if id in tickets then 1 else 0;
    && id in rows
    && !rows[id].status.Requested?
    && Entries(log, id) + 1 + ticket <= Redrives(log, id) + 1
    && EntriesThisBoot(log, id) + 1 + ticket <= 1
    && (rows[id].command.credentialRef.Some? ==> Redrives(log, id) == 0 && id !in tickets)
  }

  /** Nothing was answered that still has to be recorded. */
  predicate Settled(log: seq<Event>) { log == [] || !log[|log| - 1].Answered? }

  /** What may come right after what. An answer is followed at once by its record, unless the
      process died in between; a record follows the answer it records; an executor starts right
      after the record of its claim, with its id in the in-flight file, on a request whose time had
      come and not run out. */
  predicate MayFollow(a: Event, b: Event) {
    && (a.Answered? ==> b.Booted? || b == Recorded(a.record))
    && (b.Recorded? ==> a == Answered(b.record))
    && (b.Entered? ==>
          && a == Recorded(ClaimRecord(b.id))
          && b.inFile
          && b.command.requestedAt <= b.checkedAt < Deadline(b.command))
  }

  ghost predicate WellOrdered(log: seq<Event>) {
    && (log != [] ==> !log[0].Recorded? && !log[0].Entered?)
    && (forall i, j :: 0 <= i < j < |log| && j == i + 1 ==> MayFollow(log[i], log[j]))
  }

  lemma WellOrderedAppend(log: seq<Event>, e: Event)
    requires WellOrdered(log)
    requires if log == [] then !e.Recorded? && !e.Entered? else MayFollow(log[|log| - 1], e)
    ensures WellOrdered(log + [e])
  {
  }

  ghost predicate Consistent(rows: map<Id, Row>, tickets: set<Id>, log: seq<Event>) {
    && (forall id :: Metered(rows, tickets, log, id))
    && WellOrdered(log)
  }

  lemma ConsistentLater(rows: map<Id, Row>, rows': map<Id, Row>, tickets: set<Id>, log: seq<Event>)
    requires Consistent(rows, tickets, log) && RowsLater(rows, rows')
    ensures Consistent(rows', tickets, log)
    ensures forall id :: Granted(rows, tickets, log, id) ==> Granted(rows', tickets, log, id)
  {
    forall id
      ensures Metered(rows', tickets, log, id)
    {
      assert Metered(rows, tickets, log, id);
    }
  }

  lemma ConsistentAnswer(rows: map<Id, Row>, tickets: set<Id>, log: seq<Event>, e: Event)
    requires Consistent(rows, tickets, log)
    requires if e.Recorded? then log != [] && log[|log| - 1] == Answered(e.record)
             else e.Answered? && Settled(log)
    ensures Consistent(rows, tickets, log + [e])
    ensures forall id :: Granted(rows, tickets, log, id) ==> Granted(rows, tickets, log + [e], id)
    ensures forall id :: EntriesThisBoot(log + [e], id) == EntriesThisBoot(log, id)
  {
    WellOrderedAppend(log, e);
    hide WellOrdered;
    forall id
      ensures Metered(rows, tickets, log + [e], id)
      ensures Granted(rows, tickets, log, id) ==> Granted(rows, tickets, log + [e], id)
      ensures EntriesThisBoot(log + [e], id) == EntriesThisBoot(log, id)
    {
      Appended(log, e, id);
      assert Metered(rows, tickets, log, id);
    }
  }

  lemma ConsistentEntry(rows: map<Id, Row>, tickets: set<Id>, log: seq<Event>, e: Event)
    requires Consistent(rows, tickets, log) && e.Entered? && Granted(rows, tickets, log, e.id)
    requires log != [] && log[|log| - 1] == Recorded(ClaimRecord(e.id))
    requires e.inFile && e.command.requestedAt <= e.checkedAt < Deadline(e.command)
    ensures Consistent(rows, tickets, log + [e])
    ensures forall id :: EntriesThisBoot(log + [e], id) == EntriesThisBoot(log, id) + if id == e.id then 1 else 0
  {
    WellOrderedAppend(log, e);
    hide WellOrdered;
    forall id
      ensures Metered(rows, tickets, log + [e], id)
      ensures EntriesThisBoot(log + [e], id) == EntriesThisBoot(log, id) + if id == e.id then 1 else 0
    {
      Appended(log, e, id);
      assert Metered(rows, tickets, log, id);
    }
  }

  lemma ConsistentBoot(rows: map<Id, Row>, tickets: set<Id>, log: seq<Event>)
    requires Consistent(rows, tickets, log)
    ensures Consistent(rows, {}, log + [Booted])
    ensures forall id :: EntriesThisBoot(log + [Booted], id) == 0
  {
    WellOrderedAppend(log, Booted);
    hide WellOrdered;
    forall id
      ensures Metered(rows, {}, log + [Booted], id) && EntriesThisBoot(log + [Booted], id) == 0
    {
      Appended(log, Booted, id);
      assert Metered(rows, tickets, log, id);
    }
  }

  lemma MeteredFence(rows: map<Id, Row>, log: seq<Event>, redriven: set<Id>, id: Id)
    requires Metered(rows, {}, log, id) && EntriesThisBoot(log, id) == 0
    requires id in redriven ==>
               id in rows && !rows[id].status.Requested? && rows[id].command.credentialRef.None?
    ensures Metered(rows, redriven, log + [Fenced(redriven)], id)
    ensures EntriesThisBoot(log + [Fenced(redriven)], id) == 0
  {
    Appended(log, Fenced(redriven), id);
  }

  lemma ConsistentFence(rows: map<Id, Row>, log: seq<Event>, redriven: set<Id>)
    requires Consistent(rows, {}, log) && Settled(log)
    requires forall id :: EntriesThisBoot(log, id) == 0
    requires forall id :: id in redriven ==>
               id in rows && !rows[id].status.Requested? && rows[id].command.credentialRef.None?
    ensures Consistent(rows, redriven, log + [Fenced(redriven)])
    ensures forall id :: EntriesThisBoot(log + [Fenced(redriven)], id) == 0
  {
    WellOrderedAppend(log, Fenced(redriven));
    hide Metered, EntriesThisBoot, WellOrdered;
    forall id
      ensures Metered(rows, redriven, log + [Fenced(redriven)], id)
      ensures EntriesThisBoot(log + [Fenced(redriven)], id) == 0
    {
      MeteredFence(rows, log, redriven, id);
    }
  }

  lemma ConsistentClaim(rows: map<Id, Row>, tickets: set<Id>, log: seq<Event>, id: Id)
    requires Consistent(rows, tickets, log) && id in rows && !IsTerminal(rows[id].status)
    ensures var rows' := rows[id := rows[id].(status := Running)];
            && Consistent(rows', tickets, log)
            && RowsLater(rows, rows')
            && (rows[id].status.Requested? ==> Granted(rows', tickets, log, id))
  {
    var rows' := rows[id := rows[id].(status := Running)];
    forall other
      ensures Metered(rows', tickets, log, other)
    {
      assert Metered(rows, tickets, log, other);
    }
    assert Metered(rows, tickets, log, id);
  }

  /** Spending a ticket turns it into the one entry it stood for. */
  lemma ConsistentSpend(rows: map<Id, Row>, tickets: set<Id>, log: seq<Event>, id: Id)
    requires Consistent(rows, tickets, log) && id in tickets && id in rows && !rows[id].status.Requested?
    ensures Consistent(rows, tickets - {id}, log)
    ensures Granted(rows, tickets - {id}, log, id)
  {
    forall other
      ensures Metered(rows, tickets - {id}, log, other)
    {
      assert Metered(rows, tickets, log, other);
    }
    assert Metered(rows, tickets, log, id);
  }

  /** At most once. Over any run of boots, polls and deaths, and whatever other roles do to the
      table: an executor starts at most once per boot, at most once more than the fences that
      redrove its row, and, for a row that carries a single-use credential, at most once ever. */
  lemma AtMostOnce(rows: map<Id, Row>, tickets: set<Id>, log: seq<Event>, id: Id)
    requires Consistent(rows, tickets, log)
    ensures EntriesThisBoot(log, id) <= 1
    ensures Entries(log, id) <= 1 + Redrives(log, id)
    ensures id in rows && rows[id].command.credentialRef.Some? ==> Entries(log, id) <= 1
  {
    assert Metered(rows, tickets, log, id);
  }

  // ---- the trail ----

  function Answers(log: seq<Event>): seq<TransitionRecord> {
    if log == [] then []
    else
      var e := log[|log| - 1];
      Answers(log[..|log| - 1]) + if e.Answered? then [e.record] else []
  }

  function Records(log: seq<Event>): seq<TransitionRecord> {
    if log == [] then []
    else
      var e := log[|log| - 1];
      Records(log[..|log| - 1]) + if e.Recorded? then [e.record] else []
  }

  /** In one life of the process the audit holds, in order, exactly what the routines were told and
      said — refusals included. */
  lemma {:induction false} RecordsAreAnswers(log: seq<Event>)
    requires WellOrdered(log) && Settled(log)
    requires forall i :: 0 < i < |log| ==> !log[i].Booted?
    ensures Records(log) == Answers(log)
  {
    if log != [] {
      var init := log[..|log| - 1];
      assert WellOrdered(init);
      if log[|log| - 1].Recorded? {
        var rest := init[..|init| - 1];
        assert MayFollow(log[|log| - 2], log[|log| - 1]);
        assert WellOrdered(rest);
        if rest != [] { assert MayFollow(log[|log| - 3], log[|log| - 2]); }
        assert Settled(rest);
        RecordsAreAnswers(rest);
      } else {
        if init != [] { assert MayFollow(log[|log| - 2], log[|log| - 1]); }
        RecordsAreAnswers(init);
      }
    }
  }

  /** How an executor ended, with an outcome or with an error, and whether telling the routine that
      it was done threw. */
  datatype Ending = Ending(returned: bool, outcome: Option<string>, error: string, tellingThrew: bool)

  /** One answer, on record: what the executor brought back, or that it, or reporting it, failed. */
  ghost predicate Reported(tail: seq<Event>, id: Id, ending: Ending) {
    exists r: TransitionRecord ::
      && tail == [Answered(r), Recorded(r)]
      && r.id == id
      && (r.transition.Done? || r.transition.Failed?)
      && (r.transition.Done? ==> r.outcome == ending.outcome && r.error.None?)
      && (r.transition.Failed? ==> r.outcome.None? && r.error == Some(ending.error))
      && (r.transition.Done? <==> ending.returned && !ending.tellingThrew)
  }

  // ---- the daemon ----

  /** How a call came back: with its answer, as an exception, or not at all. */
  datatype Fate = Returned | Threw | Died

  class CommandPlane {
    /** Why the parameters of a command are refused, or None. */
    const validate: Command -> Option<string>

    var rows: map<Id, Row>
    var file: set<Id>
    var tickets: set<Id>
    var now: int
    ghost var log: seq<Event>
    ghost var moved: set<Id>        // rows other roles have moved on, or planted
    ghost var fencedOut: set<Id>    // listed by this boot's fence, and not redriven

    ghost predicate Valid()
      reads this
    {
      && Consistent(rows, tickets, log)
      && (forall id :: id in fencedOut ==>
            id in rows && IsTerminal(rows[id].status) && EntriesThisBoot(log, id) == 0)
    }

    /** No executor of this process has started, and no row may be re-claimed. */
    ghost predicate Quiet()
      reads this
    {
      tickets == {} && forall id :: EntriesThisBoot(log, id) == 0
    }

    constructor (validate: Command -> Option<string>, rows: map<Id, Row>)
      ensures Valid() && Settled(log) && Quiet() && file == {} && fencedOut == {}
      ensures this.rows == rows && this.validate == validate
    {
      this.validate, this.rows, this.now := validate, rows, 0;
      file, tickets, log, moved, fencedOut := {}, {}, [], {}, {};
      new;
      forall id
        ensures Metered(this.rows, {}, [], id)
      {
      }
    }

    // ---- waiting ----

    /** Other roles act, time passes, and this process may be gone when it is over. */
    method Await() returns (alive: bool)
      requires Valid()
      modifies this`rows, this`now, this`moved
      ensures Valid() && RowsLater(old(rows), rows) && old(now) <= now
      ensures old(moved) <= moved && OthersMoved(old(rows), rows, moved)
      ensures forall id :: old(Granted(rows, tickets, log, id)) ==> Granted(rows, tickets, log, id)
    {
      assert RowsLater(rows, rows);
      var later: map<Id, Row> :| RowsLater(rows, later);
      ConsistentLater(rows, later, tickets, log);
      moved := moved + set id | id in later && (id !in rows || rows[id] != later[id]);
      rows := later;
      var soon: int :| now <= soon;
      now := soon;
      alive := *;
    }

    ghost method Append(record: TransitionRecord, answered: bool)
      requires Valid()
      requires if answered then Settled(log) else log != [] && log[|log| - 1] == Answered(record)
      modifies this`log
      ensures Valid()
      ensures log == old(log) + [if answered then Answered(record) else Recorded(record)]
      ensures forall id :: old(Granted(rows, tickets, log, id)) ==> Granted(rows, tickets, log, id)
      ensures forall id :: EntriesThisBoot(log, id) == old(EntriesThisBoot(log, id))
    {
      var e := if answered then Answered(record) else Recorded(record);
      ConsistentAnswer(rows, tickets, log, e);
      log := log + [e];
    }

    // ---- the in-flight file ----

    method AddInFlight(id: Id) returns (fate: Fate)
      requires Valid()
      modifies this`rows, this`now, this`moved, this`file
      ensures Valid() && RowsLater(old(rows), rows) && old(now) <= now
      ensures fate.Returned? ==> file == old(file) + {id}
      ensures file == old(file) || file == old(file) + {id}
      ensures old(moved) <= moved && OthersMoved(old(rows), rows, moved)
    {
      var alive := Await();
      if !alive { return Died; }
      if * { return Threw; }
      file := file + {id};
      alive := Await();
      return if alive then Returned else Died;
    }

    method RemoveInFlight(id: Id) returns (fate: Fate)
      requires Valid()
      modifies this`rows, this`now, this`moved, this`file
      ensures Valid() && RowsLater(old(rows), rows)
      ensures fate.Returned? ==> file == old(file) - {id}
      ensures file == old(file) || file == old(file) - {id}
      ensures old(moved) <= moved && OthersMoved(old(rows), rows, moved)
    {
      var alive := Await();
      if !alive { return Died; }
      if * { return Threw; }
      file := file - {id};
      alive := Await();
      return if alive then Returned else Died;
    }

    // ---- the routines ----

    /** requested to running; or running to running, for a caller that asserts a re-drive. */
    method Claim(id: Id, redrive: bool) returns (fate: Fate, accepted: bool)
      requires Valid() && Settled(log) && id in rows
      requires redrive ==> !rows[id].status.Requested? && id in tickets
      modifies this`rows, this`now, this`moved, this`log
      ensures Valid() && RowsLater(old(rows), rows)
      ensures fate.Returned? && accepted ==>
                && id !in fencedOut
                && (!redrive ==> Granted(rows, tickets, log, id))
                && log == old(log) + [Answered(ClaimRecord(id))]
      ensures !(fate.Returned? && accepted) ==> log == old(log)
      ensures fate.Returned? && !accepted && rows[id].command.requestedAt <= old(now) ==> !rows[id].status.Requested?
      ensures old(moved) <= moved && OthersMoved(old(rows), rows, moved + {id})
      ensures fate.Returned? && !accepted ==> OthersMoved(old(rows), rows, moved)
    {
      accepted := false;
      var alive := Await();
      if !alive { return Died, false; }
      if * { return Threw, false; }
      var row := rows[id];
      if row.command.requestedAt <= now && (row.status.Requested? || (row.status.Running? && redrive)) {
        ConsistentClaim(rows, tickets, log, id);
        rows := rows[id := row.(status := Running)];
        accepted := true;
      }
      alive := Await();
      if !alive { return Died, false; }
      if * { return Threw, false; }
      if accepted { Append(ClaimRecord(id), true); }
      fate := Returned;
    }

    /** running to done or failed. */
    method Complete(id: Id, status: Status, outcome: Option<string>, error: Option<string>)
      returns (fate: Fate, accepted: bool)
      requires Valid() && Settled(log) && id in rows && (status.Done? || status.Failed?)
      modifies this`rows, this`now, this`moved, this`log
      ensures Valid() && RowsLater(old(rows), rows)
      ensures fate.Returned? ==>
                && log == old(log) + [Answered(TransitionRecord(id, status, outcome, error, None, accepted))]
                && (!old(rows)[id].status.Requested? ==> IsTerminal(rows[id].status))
                && (accepted ==> rows[id].status == status)
      ensures !fate.Returned? ==> log == old(log)
      ensures forall other :: EntriesThisBoot(log, other) == old(EntriesThisBoot(log, other))
      ensures old(moved) <= moved && OthersMoved(old(rows), rows, moved + {id})
    {
      hide Consistent;
      var alive := Await();
      if !alive { return Died, false; }
      if * { return Threw, false; }
      var row := rows[id];
      accepted := row.status.Running?;
      if accepted {
        var later := rows[id := row.(status := status)];
        ConsistentLater(rows, later, tickets, log);
        rows := later;
      }
      alive := Await();
      if !alive { return Died, accepted; }
      if * { return Threw, accepted; }
      Append(TransitionRecord(id, status, outcome, error, None, accepted), true);
      fate := Returned;
    }

    /** requested or running to rejected. */
    method Reject(id: Id, reason: string) returns (fate: Fate, accepted: bool)
      requires Valid() && Settled(log) && id in rows
      modifies this`rows, this`now, this`moved, this`log
      ensures Valid() && RowsLater(old(rows), rows)
      ensures fate.Returned? ==>
                && log == old(log) + [Answered(TransitionRecord(id, Rejected, None, None, Some(reason), accepted))]
                && IsTerminal(rows[id].status)
                && (accepted ==> rows[id].status.Rejected?)
      ensures !fate.Returned? ==> log == old(log)
      ensures forall other :: EntriesThisBoot(log, other) == old(EntriesThisBoot(log, other))
      ensures old(moved) <= moved && OthersMoved(old(rows), rows, moved + {id})
    {
      hide Consistent;
      var alive := Await();
      if !alive { return Died, false; }
      if * { return Threw, false; }
      var row := rows[id];
      accepted := !IsTerminal(row.status);
      if accepted {
        var later := rows[id := row.(status := Rejected)];
        ConsistentLater(rows, later, tickets, log);
        rows := later;
      }
      alive := Await();
      if !alive { return Died, accepted; }
      if * { return Threw, accepted; }
      Append(TransitionRecord(id, Rejected, None, None, Some(reason), accepted), true);
      fate := Returned;
    }

    /** Hand the audit the record of the answer just had, and wait until it is on disk. It never
        throws. */
    method Record(record: TransitionRecord) returns (fate: Fate)
      requires Valid() && log != [] && log[|log| - 1] == Answered(record)
      modifies this`rows, this`now, this`moved, this`log
      ensures Valid() && RowsLater(old(rows), rows)
      ensures fate.Returned? ==> log == old(log) + [Recorded(record)]
      ensures !fate.Returned? ==> fate.Died? && log == old(log)
      ensures forall id :: old(Granted(rows, tickets, log, id)) ==> Granted(rows, tickets, log, id)
      ensures forall id :: EntriesThisBoot(log, id) == old(EntriesThisBoot(log, id))
      ensures old(moved) <= moved && OthersMoved(old(rows), rows, moved)
    {
      var alive := Await();
      if !alive { return Died; }
      Append(record, false);
      fate := Returned;
    }

    // ---- one poll pass ----

    /** The rows that are open, each once, as they stood when they were read. */
    method ListOpen() returns (fate: Fate, ids: seq<Id>, seen: map<Id, Row>)
      requires Valid()
      modifies this`rows, this`now, this`moved
      ensures Valid() && RowsLater(old(rows), rows)
      ensures fate.Returned? ==>
                && Distinct(ids)
                && RowsLater(seen, rows) && RowsLater(old(rows), seen)
                && (forall id :: id in seen && !IsTerminal(seen[id].status) <==> id in ids)
                && (forall id :: id in ids ==> id in seen)
      ensures old(moved) <= moved && OthersMoved(old(rows), rows, moved)
    {
      ids, seen := [], map[];
      var alive := Await();
      if !alive { return Died, [], map[]; }
      if * { return Threw, [], map[]; }
      seen := rows;
      ids := Enumerate(set id | id in rows && !IsTerminal(rows[id].status));
      alive := Await();
      fate := if alive then Returned else Died;
    }

    /** The executor of a claimed row, from its first line to its last. */
    method Execute(id: Id, command: Command, checkedAt: int)
      returns (fate: Fate, outcome: Option<string>, error: string)
      requires Valid() && Granted(rows, tickets, log, id) && id in file && id !in fencedOut
      requires log != [] && log[|log| - 1] == Recorded(ClaimRecord(id))
      requires command.requestedAt <= checkedAt < Deadline(command)
      modifies this`rows, this`now, this`moved, this`log
      ensures Valid() && RowsLater(old(rows), rows)
      ensures log == old(log) + [Entered(id, command, checkedAt, true)]
      ensures old(moved) <= moved && OthersMoved(old(rows), rows, moved)
    {
      outcome, error := None, "";
      var e := Entered(id, command, checkedAt, id in file);
      ConsistentEntry(rows, tickets, log, e);
      log := log + [e];
      var alive := Await();
      if !alive { return Died, None, ""; }
      outcome := *;
      error := *;
      if * { fate := Returned; } else { fate := Threw; }
    }

    /** Tell the routine how a claimed row ended, and say what it answered. */
    method Report(id: Id, status: Status, outcome: Option<string>, error: Option<string>) returns (fate: Fate)
      requires Valid() && Settled(log) && id in rows && !rows[id].status.Requested?
      requires status.Done? || status.Failed?
      modifies this`rows, this`now, this`moved, this`log
      ensures Valid() && RowsLater(old(rows), rows)
      ensures fate.Returned? ==>
                && IsTerminal(rows[id].status)
                && exists accepted ::
                     var record := TransitionRecord(id, status, outcome, error, None, accepted);
                     log == old(log) + [Answered(record), Recorded(record)]
      ensures fate.Threw? ==> log == old(log)
      ensures !fate.Died? ==> Settled(log)
      ensures Grew(old(log), log)
      ensures old(moved) <= moved && OthersMoved(old(rows), rows, moved + {id})
    {
      hide Valid, Consistent, Metered;
      var accepted;
      fate, accepted := Complete(id, status, outcome, error);
      if !fate.Returned? { return; }
      fate := Record(TransitionRecord(id, status, outcome, error, None, accepted));
    }

    /** Run a claimed row and report; the in-flight entry goes whatever happened, short of death. */
    method RunClaimed(id: Id, command: Command, checkedAt: int) returns (fate: Fate, ghost ending: Ending)
      requires Valid() && Granted(rows, tickets, log, id) && id in file && id !in fencedOut
      requires log != [] && log[|log| - 1] == Recorded(ClaimRecord(id))
      requires command.requestedAt <= checkedAt < Deadline(command)
      modifies this`rows, this`now, this`moved, this`log, this`file
      ensures Valid() && RowsLater(old(rows), rows)
      ensures !fate.Died? ==> Settled(log)
      ensures fate.Returned? ==> id in rows && IsTerminal(rows[id].status) && file == old(file) - {id}
      ensures old(log) + [Entered(id, command, checkedAt, true)] <= log
      ensures fate.Returned? ==> Reported(log[|old(log)| + 1..], id, ending)
      ensures Grew(old(log), log)
      ensures old(moved) <= moved && OthersMoved(old(rows), rows, moved + {id})
    {
      hide Valid, Consistent, Metered, Grew;
      var outcome, error;
      fate, outcome, error := Execute(id, command, checkedAt);
      ghost var entered := log;
      GrewByEntry(old(log), entered[|old(log)|]);
      GrewNothing(entered);
      ending := Ending(fate.Returned?, outcome, error, false);
      if fate.Died? { return; }
      if fate.Returned? {
        fate := Report(id, Done, outcome, None);
        ending := ending.(tellingThrew := fate.Threw?);
      }
      ghost var told := log;
      GrewNothing(told);
      if fate.Threw? { fate := Report(id, Failed, None, Some(error)); }
      GrewTwice(entered, told, log);
      GrewTwice(old(log), entered, log);
      if fate.Died? { return; }
      var removed := RemoveInFlight(id);
      if !removed.Returned? { fate := removed; }
    }

    /** Reject a row, and say so. */
    method RejectRow(id: Id, reason: string) returns (fate: Fate, accepted: bool)
      requires Valid() && Settled(log) && id in rows
      modifies this`rows, this`now, this`moved, this`log
      ensures Valid() && RowsLater(old(rows), rows)
      ensures !fate.Died? ==> Settled(log)
      ensures fate.Returned? ==>
                && IsTerminal(rows[id].status) && (accepted ==> rows[id].status.Rejected?)
                && var r := TransitionRecord(id, Rejected, None, None, Some(reason), accepted);
                   log == old(log) + [Answered(r), Recorded(r)]
      ensures forall other :: EntriesThisBoot(log, other) == old(EntriesThisBoot(log, other))
      ensures Grew(old(log), log)
      ensures old(moved) <= moved && OthersMoved(old(rows), rows, moved + {id})
    {
      fate, accepted := Reject(id, reason);
      if !fate.Returned? { return; }
      fate := Record(TransitionRecord(id, Rejected, None, None, Some(reason), accepted));
    }

    /** Why a command may not run at time `at`, if it may not. */
    function Refusal(c: Command, at: int): Option<string> {
      if c.requestedAt > at || Deadline(c) <= at then Some(REJECT_DEADLINE)
      else if validate(c).Some? then Some(REJECT_INVALID_PARAMS + ": " + validate(c).value)
      else None
    }

    /** One row of a poll pass, as the pass listed it. */
    method DriveRow(id: Id, row: Row) returns (fate: Fate, handled: bool)
      requires Valid() && Settled(log) && id in rows && rows[id].command == row.command
      requires row.status.Running? ==> !rows[id].status.Requested?
      modifies this`rows, this`now, this`moved, this`log, this`file, this`tickets
      ensures Valid() && RowsLater(old(rows), rows)
      ensures !fate.Died? ==> Settled(log)
      ensures fate.Returned? && !handled ==>
                || (row.status.Running? && id !in old(tickets))
                || !rows[id].status.Requested?
      ensures row.status.Running? && id !in old(tickets) ==>
                fate.Returned? && !handled && log == old(log) && rows == old(rows) && file == old(file)
      ensures fate.Returned? && (row.status.Running? ==> id in old(tickets)) && Refusal(row.command, old(now)).Some? ==>
                var r := TransitionRecord(id, Rejected, None, None, Refusal(row.command, old(now)), handled);
                log == old(log) + [Answered(r), Recorded(r)]
      ensures fate.Returned? && handled ==>
                && IsTerminal(rows[id].status)
                && (if Refusal(row.command, old(now)).Some? then rows[id].status.Rejected?
                    else |log| > |old(log)| + 2 && log[|old(log)| + 2] == Entered(id, row.command, old(now), true))
      ensures Grew(old(log), log)
      ensures TicketsKept(old(tickets), tickets, old(log), log)
      ensures fate.Returned? ==> file == old(file) || file == old(file) - {id}
      ensures old(moved) <= moved
      ensures fate.Returned? ==> Explained(old(rows), rows, moved, log, |old(log)|)
    {
      assert OthersMoved(rows, rows, moved);
      hide Valid, Consistent, OthersMoved, Explained;
      OthersExplain(rows, rows, moved, log, |log|);
      handled := false;
      var isRedrive := row.status.Running? && id in tickets;
      if row.status.Running? && !isRedrive { return Returned, false; }
      var checkedAt := now;
      if row.command.requestedAt > checkedAt || Deadline(row.command) <= checkedAt {
        fate, handled := RejectRow(id, REJECT_DEADLINE);
        if fate.Returned? { ExplainedByOneAnswer(old(rows), rows, moved, old(log), log, id); }
        return;
      }
      var invalid := validate(row.command);
      if invalid.Some? {
        fate, handled := RejectRow(id, REJECT_INVALID_PARAMS + ": " + invalid.value);
        if fate.Returned? { ExplainedByOneAnswer(old(rows), rows, moved, old(log), log, id); }
        return;
      }
      fate, handled := ClaimAndRun(id, row.command, isRedrive, checkedAt);
    }

    /** A ticket is spent the instant the claim lands, before the executor is entered. */
    method SpendTicket(id: Id)
      requires Valid() && id in tickets && id in rows && !rows[id].status.Requested?
      modifies this`tickets
      ensures Valid() && tickets == old(tickets) - {id}
      ensures Granted(rows, tickets, log, id)
    {
      ConsistentSpend(rows, tickets, log, id);
      tickets := tickets - {id};
    }

    /** An accepted claim goes on record before anything runs. */
    method SettleClaim(id: Id, isRedrive: bool) returns (fate: Fate)
      requires Valid() && id in rows && log != [] && log[|log| - 1] == Answered(ClaimRecord(id))
      requires if isRedrive then id in tickets && !rows[id].status.Requested? else Granted(rows, tickets, log, id)
      modifies this`rows, this`now, this`moved, this`log, this`tickets
      ensures Valid() && RowsLater(old(rows), rows)
      ensures if fate.Returned? then log == old(log) + [Recorded(ClaimRecord(id))] else fate.Died?
      ensures fate.Returned? ==> Granted(rows, tickets, log, id)
      ensures tickets == if isRedrive then old(tickets) - {id} else old(tickets)
      ensures Grew(old(log), log)
      ensures old(moved) <= moved && OthersMoved(old(rows), rows, moved)
    {
      hide Valid, Consistent, Metered, Granted;
      if isRedrive { SpendTicket(id); }
      fate := Record(ClaimRecord(id));
    }

    /** The entry goes into the file before the claim: a death one line later must leave the row
        ours. */
    method AskClaim(id: Id, isRedrive: bool) returns (fate: Fate, claimed: bool)
      requires Valid() && Settled(log) && id in rows
      requires isRedrive ==> id in tickets && !rows[id].status.Requested?
      modifies this`rows, this`now, this`moved, this`log, this`file
      ensures Valid() && RowsLater(old(rows), rows)
      ensures fate.Returned? ==> file == old(file) + {id}
      ensures fate.Returned? && claimed ==>
                && id !in fencedOut
                && (!isRedrive ==> Granted(rows, tickets, log, id))
                && log == old(log) + [Answered(ClaimRecord(id))]
      ensures !(fate.Returned? && claimed) ==> log == old(log)
      ensures fate.Returned? && !claimed && rows[id].command.requestedAt <= old(now) ==> !rows[id].status.Requested?
      ensures old(moved) <= moved && OthersMoved(old(rows), rows, moved + {id})
      ensures fate.Returned? && !claimed ==> OthersMoved(old(rows), rows, moved)
    {
      hide Valid, Consistent, Metered, Granted, OthersMoved;
      claimed := false;
      fate := AddInFlight(id);
      OthersButOne(old(rows), rows, moved, id);
      if !fate.Returned? { return; }
      ghost var were, others := rows, moved;
      fate, claimed := Claim(id, isRedrive);
      OthersButOne(old(rows), were, others, id);
      OthersTwice(old(rows), were, rows, others + {id}, moved + {id});
      if fate.Returned? && !claimed { OthersTwice(old(rows), were, rows, others, moved); }
    }

    /** Claim a row this pass may run. */
    method ClaimRow(id: Id, isRedrive: bool) returns (fate: Fate, claimed: bool)
      requires Valid() && Settled(log) && id in rows
      requires isRedrive ==> id in tickets && !rows[id].status.Requested?
      modifies this`rows, this`now, this`moved, this`log, this`file, this`tickets
      ensures Valid() && RowsLater(old(rows), rows)
      ensures !fate.Died? ==> Settled(log)
      ensures fate.Returned? && !claimed && rows[id].command.requestedAt <= old(now) ==>
                !rows[id].status.Requested?
      ensures fate.Returned? && claimed ==>
                && Granted(rows, tickets, log, id) && id in file && id !in fencedOut
                && log == old(log) + [Answered(ClaimRecord(id)), Recorded(ClaimRecord(id))]
      ensures fate.Returned? ==> file == if claimed then old(file) + {id} else old(file) - {id}
      ensures fate.Returned? && !claimed ==> log == old(log) && tickets == old(tickets)
      ensures TicketsKept(old(tickets), tickets, old(log), log)
      ensures Grew(old(log), log)
      ensures old(moved) <= moved && OthersMoved(old(rows), rows, moved + {id})
      ensures fate.Returned? && !claimed ==> OthersMoved(old(rows), rows, moved)
    {
      hide Valid, Consistent, Metered, Granted, OthersMoved;
      fate, claimed := AskClaim(id, isRedrive);
      if !fate.Returned? { return; }
      ghost var were, others := rows, moved;
      if !claimed {
        fate := RemoveInFlight(id);
        OthersTwice(old(rows), were, rows, others, moved);
        OthersButOne(old(rows), rows, moved, id);
        return;
      }
      fate := SettleClaim(id, isRedrive);
      OthersButOne(were, rows, moved, id);
      OthersTwice(old(rows), were, rows, others + {id}, moved + {id});
    }

    method ClaimAndRun(id: Id, command: Command, isRedrive: bool, checkedAt: int) returns (fate: Fate, handled: bool)
      requires Valid() && Settled(log) && id in rows
      requires isRedrive ==> id in tickets && !rows[id].status.Requested?
      requires command.requestedAt <= checkedAt < Deadline(command) && rows[id].command == command && checkedAt <= now
      modifies this`rows, this`now, this`moved, this`log, this`file, this`tickets
      ensures Valid() && RowsLater(old(rows), rows)
      ensures !fate.Died? ==> Settled(log)
      ensures fate.Returned? && !handled ==> !rows[id].status.Requested?
      ensures fate.Returned? && handled ==>
                && IsTerminal(rows[id].status)
                && |log| > |old(log)| + 2 && log[|old(log)| + 2] == Entered(id, command, checkedAt, true)
      ensures Grew(old(log), log)
      ensures TicketsKept(old(tickets), tickets, old(log), log)
      ensures fate.Returned? ==> file == old(file) - {id}
      ensures old(moved) <= moved && OthersMoved(old(rows), rows, moved + {id})
      ensures fate.Returned? ==> Explained(old(rows), rows, moved, log, |old(log)|)
    {
      hide Valid, Consistent, Granted, OthersMoved, Explained;
      fate, handled := ClaimRow(id, isRedrive);
      if !fate.Returned? { return; }
      if !handled {
        OthersExplain(old(rows), rows, moved, log, |old(log)|);
        return;
      }
      ghost var ending;
      ghost var before, were, others := log, rows, moved;
      fate, ending := RunClaimed(id, command, checkedAt);
      TicketsUntouched(tickets, before, log);
      OthersTwice(old(rows), were, rows, others + {id}, moved + {id});
      assert log[|old(log)|] == Answered(ClaimRecord(id));
      ExplainedByAnswer(old(rows), rows, moved, log, |old(log)|, id);
    }

    method PollCommands() returns (fate: Fate, handled: nat)
      requires Valid() && Settled(log)
      modifies this`rows, this`now, this`moved, this`log, this`file, this`tickets
      ensures Valid() && RowsLater(old(rows), rows)
      ensures !fate.Died? ==> Settled(log)
      ensures fate.Returned? ==> forall id :: id in old(rows) ==> !rows[id].status.Requested?
      ensures Grew(old(log), log)
      ensures TicketsKept(old(tickets), tickets, old(log), log)
      ensures fate.Returned? ==> file <= old(file)
      ensures old(moved) <= moved
      ensures fate.Returned? ==> Explained(old(rows), rows, moved, log, |old(log)|)
    {
      hide Valid, Consistent, Metered, Grew, TicketsKept, Explained, OthersMoved, RowsLater;
      GrewNothing(log);
      TicketsUntouched(tickets, log, log);
      handled := 0;
      var ids, seen;
      fate, ids, seen := ListOpen();
      if !fate.Returned? { return; }
      OthersExplain(old(rows), rows, moved, log, |old(log)|);
      for i := 0 to |ids|
        invariant Valid() && Settled(log) && RowsLater(old(rows), rows) && RowsLater(seen, rows)
        invariant NoneRequested(rows, ids[..i])
        invariant old(moved) <= moved && Explained(old(rows), rows, moved, log, |old(log)|)
        invariant Grew(old(log), log) && TicketsKept(old(tickets), tickets, old(log), log) && file <= old(file)
      {
        var id := ids[i];
        assert ids[..i + 1] == ids[..i] + [id];
        if IsTerminal(seen[id].status) { continue; }
        ghost var before, held, were, others := log, tickets, rows, moved;
        SeenIsLater(seen, rows, id);
        var drove;
        fate, drove := DriveRow(id, seen[id]);
        GrewTwice(old(log), before, log);
        TicketsKeptTwice(old(tickets), held, tickets, old(log), before, log);
        RowsLaterTwice(old(rows), were, rows);
        RowsLaterTwice(seen, were, rows);
        if !fate.Returned? { return; }
        ExplainedTwice(old(rows), were, rows, others, moved, before, log, |old(log)|);
        NoneRequestedStays(were, rows, ids[..i]);
        if drove { handled := handled + 1; }
      }
      assert ids[..|ids|] == ids;
      NoneRequestedAtAll(old(rows), seen, rows, ids);
      fate := Returned;
    }

    // ---- boot ----

    /** A new process: no tickets, and nothing started yet. */
    method Boot()
      requires Valid()
      modifies this`log, this`tickets, this`fencedOut
      ensures Valid() && Settled(log) && Quiet() && fencedOut == {}
      ensures log == old(log) + [Booted]
    {
      ConsistentBoot(rows, tickets, log);
      log := log + [Booted];
      tickets, fencedOut := {}, {};
    }

    /** Whether the fence may redrive a row it listed. */
    static predicate Ours(row: Row, id: Id, inFlight: set<Id>) {
      row.status.Running? && id in inFlight && row.command.credentialRef.None?
    }

    /** What the fence says of a row it closes: one it was running lost its credential with the
        process, and any other is none of its own. */
    static function FenceRecord(id: Id, wasRunning: bool, accepted: bool): TransitionRecord {
      if wasRunning then TransitionRecord(id, Failed, None, Some(FAIL_CREDENTIAL_CONSUMED), None, accepted)
      else TransitionRecord(id, Rejected, None, None, Some(REJECT_BOOT_FENCE), accepted)
    }

    /** Close a row, and say so. */
    method CloseRow(id: Id, row: Row, inFlight: set<Id>) returns (fate: Fate, rejected: bool, failed: bool)
      requires Valid() && Settled(log) && Quiet() && id in rows && !Ours(row, id, inFlight)
      requires row.status.Running? ==> !rows[id].status.Requested?
      modifies this`rows, this`now, this`moved, this`log
      ensures Valid() && RowsLater(old(rows), rows) && Quiet()
      ensures !fate.Died? ==> Settled(log)
      ensures fate.Returned? ==>
                && IsTerminal(rows[id].status)
                && (rejected ==> rows[id].status.Rejected?)
                && (failed ==> rows[id].status.Failed?)
                && var r := FenceRecord(id, row.status.Running? && id in inFlight, rejected || failed);
                   && log == old(log) + [Answered(r), Recorded(r)]
                   && (rejected ==> r.transition.Rejected?) && (failed ==> r.transition.Failed?)
      ensures Grew(old(log), log)
      ensures old(moved) <= moved && OthersMoved(old(rows), rows, moved + {id})
    {
      hide Valid, Consistent, OthersMoved;
      rejected, failed := false, false;
      if row.status.Running? && id in inFlight {
        // Its single-use credential is gone: terminal, never re-driven.
        fate, failed := Complete(id, Failed, None, Some(FAIL_CREDENTIAL_CONSUMED));
        if !fate.Returned? { return; }
        ghost var were, others := rows, moved;
        fate := Record(TransitionRecord(id, Failed, None, Some(FAIL_CREDENTIAL_CONSUMED), None, failed));
        OthersButOne(were, rows, moved, id);
        OthersTwice(old(rows), were, rows, others + {id}, moved + {id});
      } else {
        fate, rejected := RejectRow(id, REJECT_BOOT_FENCE);
      }
    }

    /** One row of the fence. */
    method FenceRow(id: Id, row: Row, inFlight: set<Id>) returns (fate: Fate, rejected: bool, failed: bool)
      requires Valid() && Settled(log) && Quiet() && id in rows && !Ours(row, id, inFlight)
      requires row.status.Running? ==> !rows[id].status.Requested?
      modifies this`rows, this`now, this`moved, this`log, this`file
      ensures Valid() && RowsLater(old(rows), rows) && Quiet()
      ensures !fate.Died? ==> Settled(log)
      ensures fate.Returned? ==>
                && IsTerminal(rows[id].status)
                && file == old(file) - {id}
                && (rejected ==> rows[id].status.Rejected?)
                && (failed ==> rows[id].status.Failed?)
                && var r := FenceRecord(id, row.status.Running? && id in inFlight, rejected || failed);
                   && log == old(log) + [Answered(r), Recorded(r)]
                   && (rejected ==> r.transition.Rejected?) && (failed ==> r.transition.Failed?)
      ensures Grew(old(log), log)
      ensures old(moved) <= moved
      ensures fate.Returned? ==> Explained(old(rows), rows, moved, log, |old(log)|)
    {
      hide Valid, Consistent, OthersMoved, Explained, EntriesThisBoot, Grew;
      fate, rejected, failed := CloseRow(id, row, inFlight);
      if !fate.Returned? { return; }
      ghost var were, others := rows, moved;
      fate := RemoveInFlight(id);
      OthersButOne(were, rows, moved, id);
      OthersTwice(old(rows), were, rows, others + {id}, moved + {id});
      ExplainedByOneAnswer(old(rows), rows, moved, old(log), log, id);
    }

    /** Every listed row, in turn. */
    method FenceRows(ids: seq<Id>, seen: map<Id, Row>, inFlight: set<Id>)
      returns (fate: Fate, redriven: seq<Id>, rejected: seq<Id>, failed: seq<Id>)
      requires Valid() && Settled(log) && Quiet() && fencedOut == {} && file == inFlight
      requires Distinct(ids) && RowsLater(seen, rows) && forall id :: id in ids ==> id in seen
      modifies this`rows, this`now, this`moved, this`log, this`file
      ensures Valid() && RowsLater(old(rows), rows) && Quiet()
      ensures !fate.Died? ==> Settled(log)
      ensures forall id :: id in redriven ==> id in ids && Ours(seen[id], id, inFlight)
      ensures fate.Returned? ==>
                && (forall id :: id in file <==> id in inFlight && (id !in ids || id in redriven))
                && Fences(rows, ids, redriven, rejected, failed)
      ensures Grew(old(log), log)
      ensures old(moved) <= moved
      ensures fate.Returned? ==> Explained(old(rows), rows, moved, log, |old(log)|)
    {
      assert RowsLater(rows, rows) && OthersMoved(rows, rows, moved);
      hide Valid, Consistent, Metered, Grew, EntriesThisBoot, Quiet, RowsLater, OthersMoved, Explained;
      OthersExplain(rows, rows, moved, log, |log|);
      GrewNothing(log);
      redriven, rejected, failed := [], [], [];
      for i := 0 to |ids|
        invariant Valid() && Settled(log) && Quiet() && fencedOut == {}
        invariant RowsLater(old(rows), rows) && RowsLater(seen, rows)
        invariant forall id :: id in redriven ==> id in ids[..i] && Ours(seen[id], id, inFlight)
        invariant Fences(rows, ids[..i], redriven, rejected, failed)
        invariant forall id :: id in file <==> id in inFlight && (id !in ids[..i] || id in redriven)
        invariant Grew(old(log), log)
        invariant old(moved) <= moved && Explained(old(rows), rows, moved, log, |old(log)|)
      {
        var id := ids[i];
        assert id !in ids[..i];
        assert ids[..i + 1] == ids[..i] + [id];
        if Ours(seen[id], id, inFlight) {
          redriven := redriven + [id];
          continue;
        }
        SeenIsLater(seen, rows, id);
        ghost var before, were, others := log, rows, moved;
        var wasRejected, wasFailed;
        fate, wasRejected, wasFailed := FenceRow(id, seen[id], inFlight);
        GrewTwice(old(log), before, log);
        RowsLaterTwice(old(rows), were, rows);
        RowsLaterTwice(seen, were, rows);
        if !fate.Returned? { return; }
        ExplainedTwice(old(rows), were, rows, others, moved, before, log, |old(log)|);
        FencesLater(were, rows, ids[..i], redriven, rejected, failed);
        FencesOne(rows, ids[..i], redriven, rejected, failed, id, wasRejected, wasFailed);
        if wasRejected { rejected := rejected + [id]; }
        if wasFailed { failed := failed + [id]; }
      }
      assert ids[..|ids|] == ids;
      fate := Returned;
    }

    lemma SeenIsLater(seen: map<Id, Row>, rows: map<Id, Row>, id: Id)
      requires RowsLater(seen, rows) && id in seen
      ensures id in rows && rows[id].command == seen[id].command
      ensures seen[id].status.Running? ==> !rows[id].status.Requested?
    {
    }

    /** One ticket for each row to redrive; every other is closed. */
    method IssueTickets(redriven: seq<Id>)
      requires Valid() && Settled(log) && Quiet()
      requires forall id :: id in redriven ==>
                 id in rows && !rows[id].status.Requested? && rows[id].command.credentialRef.None?
      modifies this`log, this`tickets, this`fencedOut
      ensures Valid() && Settled(log)
      ensures tickets == (set id | id in redriven) && log == old(log) + [Fenced(tickets)]
      ensures fencedOut == (set id | id in rows && IsTerminal(rows[id].status))
    {
      tickets := set id | id in redriven;
      ConsistentFence(rows, log, tickets);
      log := log + [Fenced(tickets)];
      fencedOut := set id | id in rows && IsTerminal(rows[id].status);
    }

    /** Close out every row this daemon cannot prove it was running. */
    method RunBootFence()
      returns (fate: Fate, redriven: seq<Id>, rejected: seq<Id>, failed: seq<Id>, ghost listed: map<Id, Row>)
      requires Valid() && Settled(log) && Quiet() && fencedOut == {}
      modifies this`rows, this`now, this`moved, this`log, this`file, this`tickets, this`fencedOut
      ensures Valid() && RowsLater(old(rows), rows)
      ensures !fate.Died? ==> Settled(log)
      ensures fate.Returned? ==>
                && tickets == (set id | id in redriven)
                && log != [] && log[|log| - 1] == Fenced(tickets)
                && RowsLater(old(rows), listed) && RowsLater(listed, rows)
                && (forall id :: id in redriven ==>
                      && id in listed && Ours(listed[id], id, old(file))
                      && id in rows && !rows[id].status.Requested? && id in file)
                && (forall id :: id in listed && id !in redriven ==> IsTerminal(rows[id].status))
                && fencedOut == (set id | id in rows && IsTerminal(rows[id].status))
                && (forall id :: id in rejected ==> id in rows && rows[id].status.Rejected?)
                && (forall id :: id in failed ==> id in rows && rows[id].status.Failed?)
      ensures old(log) <= log
      ensures if fate.Returned? then log != [] && Grew(old(log), log[..|log| - 1]) else Grew(old(log), log)
      ensures old(moved) <= moved
      ensures fate.Returned? ==> Explained(old(rows), rows, moved, log, |old(log)|)
    {
      hide Valid, Consistent, Metered, OthersMoved, Explained;
      redriven, rejected, failed, listed := [], [], [], map[];
      var alive := Await();                               // read the in-flight file
      if !alive { return Died, [], [], [], map[]; }
      var inFlight := file;
      ghost var were, others := rows, moved;
      var ids, seen;
      fate, ids, seen := ListOpen();
      listed := seen;
      if !fate.Returned? { return; }
      OthersTwice(old(rows), were, rows, others, moved);
      OthersExplain(old(rows), rows, moved, log, |old(log)|);
      were, others := rows, moved;
      fate, redriven, rejected, failed := FenceRows(ids, seen, inFlight);
      if !fate.Returned? { return; }
      ghost var fenced := log;
      ExplainedTwice(old(rows), were, rows, others, moved, old(log), log, |old(log)|);
      IssueTickets(redriven);
      ExplainedLonger(old(rows), rows, moved, fenced, log, |old(log)|);
    }

    /** Any number of lives, each a boot, its fence and any number of poll passes, each cut short
        wherever it may be. Each life may redrive a row once; and whatever was entered was entered by
        an event of this history's own. */
    method Live(lives: nat, passes: nat)
      requires Valid()
      modifies this
      ensures Valid() && old(log) <= log
      ensures forall id :: Entries(log, id) == Entries(old(log), id) + Entries(log[|old(log)|..], id)
      ensures forall id :: Entries(log, id) > Entries(old(log), id) ==>
                exists i :: |old(log)| <= i < |log| && log[i].Entered? && log[i].id == id
      ensures forall id :: EntriesThisBoot(log, id) <= 1 && Entries(log, id) <= 1 + Redrives(log, id)
      ensures forall id :: Redrives(log, id) <= Redrives(old(log), id) + lives
      ensures forall id :: id in rows && rows[id].command.credentialRef.Some? ==> Entries(log, id) <= 1
    {
      hide Consistent, Redrives, Entries, EntriesThisBoot, Grew;
      for life := 0 to lives
        invariant Valid() && old(log) <= log
        invariant forall id :: Redrives(log, id) <= Redrives(old(log), id) + life
      {
        ghost var before := log;
        LiveOnce(passes);
        assert forall id :: Redrives(log, id) <= Redrives(before, id) + 1;
      }
      forall id
        ensures EntriesThisBoot(log, id) <= 1 && Entries(log, id) <= 1 + Redrives(log, id)
        ensures id in rows && rows[id].command.credentialRef.Some? ==> Entries(log, id) <= 1
        ensures Entries(log, id) == Entries(old(log), id) + Entries(log[|old(log)|..], id)
        ensures Entries(log, id) > Entries(old(log), id) ==>
                  exists i :: |old(log)| <= i < |log| && log[i].Entered? && log[i].id == id
      {
        AtMostOnce(rows, tickets, log, id);
        EnteredSince(old(log), log, id);
      }
    }

    /** One life. */
    method LiveOnce(passes: nat)
      requires Valid()
      modifies this
      ensures Valid() && old(log) + [Booted] <= log
      ensures forall id :: Redrives(log, id) <= Redrives(old(log), id) + 1
    {
      hide Valid, Consistent, Metered, Redrives;
      Boot();
      ghost var booted := log;
      ghost var listed;
      var fate, redriven, rejected, failed;
      fate, redriven, rejected, failed, listed := RunBootFence();
      ghost var fenced := log;
      for pass := 0 to passes
        invariant Valid() && (!fate.Died? ==> Settled(log)) && Grew(fenced, log)
      {
        if fate.Died? { break; }
        ghost var before := log;
        var handled;
        fate, handled := PollCommands();
        GrewTwice(fenced, before, log);
      }
      forall id
        ensures Redrives(log, id) <= Redrives(old(log), id) + 1
      {
        GrownRedrives(fenced, log, id);
        Appended(old(log), Booted, id);
        FencedOnce(booted, fenced, id);
      }
    }

    /** A fence redrives a row at most once. */
    lemma FencedOnce(before: seq<Event>, after: seq<Event>, id: Id)
      requires Grew(before, after) || (after != [] && Grew(before, after[..|after| - 1]))
      ensures Redrives(after, id) <= Redrives(before, id) + 1
    {
      if Grew(before, after) {
        GrownRedrives(before, after, id);
      } else {
        GrownRedrives(before, after[..|after| - 1], id);
      }
    }
  }
}
