/** Asking let.ai about the eligible sessions (src/console/audit-witness.ts): in batches, one at a
    time, all of them or none, within a bounded wait. The hub may answer, answer something else,
    refuse, or refuse and name a wait; every question and every wait takes time. */
module AuditWitness {
  import opened Wrappers
  import opened AuditEngine

  const EXTRA_WAITS := 12
  const MAX_WAIT_MS := 5000
  const WAIT_MS_PER_BATCH := 2000
  const MAX_TOTAL_WAIT_MS := 240000
  const FORTRESS_QUERY_TIMEOUT_MS := 10000

  datatype Answer = Answer(sessionId: string, letaiCopy: bool, anyDestinationRecord: bool, hubRoutedHere: bool)

  datatype Reply =
    | Residency(answers: seq<Answer>)
    | SomethingElse
    | Refused(retryAfterMs: Option<int>)

  /** A question sent, and what came back. */
  datatype Asked = Asked(batch: seq<string>, reply: Reply)

  /** A batch, and what the hub answered about it. */
  datatype Exchange = Exchange(batch: seq<string>, answers: seq<Answer>)

  function Questions(exchanges: seq<Exchange>): seq<string> {
    if exchanges == [] then [] else Questions(exchanges[..|exchanges| - 1]) + exchanges[|exchanges| - 1].batch
  }

  /** All the answers, in the order they came. */
  function AllAnswers(exchanges: seq<Exchange>): seq<Answer> {
    if exchanges == [] then [] else AllAnswers(exchanges[..|exchanges| - 1]) + exchanges[|exchanges| - 1].answers
  }

  /** The questions that were answered. */
  function Answered(log: seq<Asked>): seq<Exchange> {
    if log == [] then []
    else
      var last := log[|log| - 1];
      Answered(log[..|log| - 1])
      + if last.reply.Residency? then [Exchange(last.batch, last.reply.answers)] else []
  }

  lemma AnsweredOne(log: seq<Asked>, a: Asked)
    ensures Answered(log + [a])
         == Answered(log) + if a.reply.Residency? then [Exchange(a.batch, a.reply.answers)] else []
  {
    assert (log + [a])[..|log|] == log;
  }

  /** How long a refusal is worth sitting out. */
  function WaitOf(retryAfterMs: Option<int>): nat {
    if retryAfterMs.Some? && retryAfterMs.value > 0 then Min(retryAfterMs.value, MAX_WAIT_MS) else 0
  }

  /** A reply that ends a sweep without an answer. */
  predicate EndsSweep(reply: Reply, left: Allowance, cap: int) {
    match reply
    case Residency(_) => false
    case SomethingElse => true
    case Refused(after) => WaitOf(after) == 0 || left.waitsLeft == 0 || left.waitedMs + WaitOf(after) > cap
  }

  /** The sets are the answers, sorted by what they say; nothing added and nothing dropped. */
  ghost predicate Unions(w: WitnessAnswer, answers: seq<Answer>) {
    && (forall id :: id in w.copies <==> exists a :: a in answers && a.letaiCopy && a.sessionId == id)
    && (forall id :: id in w.known <==> exists a :: a in answers && a.anyDestinationRecord && a.sessionId == id)
    && (forall id :: id in w.routedHere <==> exists a :: a in answers && a.hubRoutedHere && a.sessionId == id)
  }

  function Min(a: int, b: int): int { if a < b then a else b }

  function Max(a: int, b: int): int { if a < b then b else a }

  /** How many batches `n` ids make: `ceil(n / size)`, the least number that has room for them. */
  function Batches(n: nat, size: nat): (r: nat)
    requires size > 0
    ensures n <= r * size
    ensures n > 0 ==> (r - 1) * size < n
  {
    if n == 0 then 0
    else if n <= size then 1
    else
      var rest := Batches(n - size, size);
      assert (1 + rest) * size == size + rest * size;
      assert (1 + rest - 1) * size == size + (rest - 1) * size;
      1 + rest
  }

  function TotalWaitCap(batches: nat): int { Min(batches * WAIT_MS_PER_BATCH + 10000, MAX_TOTAL_WAIT_MS) }

  lemma OneMoreExchange(exchanges: seq<Exchange>, e: Exchange)
    ensures Questions(exchanges + [e]) == Questions(exchanges) + e.batch
    ensures AllAnswers(exchanges + [e]) == AllAnswers(exchanges) + e.answers
  {
    assert (exchanges + [e])[..|exchanges|] == exchanges;
  }

  /** One answer put where it belongs. */
  function Sorted(w: WitnessAnswer, a: Answer): WitnessAnswer {
    WitnessAnswer(
      if a.letaiCopy then w.copies + {a.sessionId} else w.copies,
      if a.anyDestinationRecord then w.known + {a.sessionId} else w.known,
      if a.hubRoutedHere then w.routedHere + {a.sessionId} else w.routedHere)
  }

  lemma UnionsOne(w: WitnessAnswer, answers: seq<Answer>, a: Answer)
    requires Unions(w, answers)
    ensures Unions(Sorted(w, a), answers + [a])
  {
  }

  /** What one sweep has left: waits, and time already spent waiting. */
  datatype Allowance = Allowance(waitsLeft: nat, waitedMs: nat)

  class WitnessClient {
    const batchSize: nat
    const transport: bool           // whether there is a transport to ask over
    var now: int
    var asks: nat                   // questions sent so far
    ghost var prompt: bool          // no question outlived its timeout, no sleep its length
    ghost var waited: nat           // the sleeps asked for so far, in milliseconds
    ghost var log: seq<Asked>       // every question sent, and its reply

    /** The batch size is clamped to the protocol's cap, whatever was asked for. */
    constructor (wanted: Option<int>, maxIds: nat, transport: bool)
      requires maxIds >= 1
      ensures 1 <= batchSize <= maxIds && this.transport == transport
      ensures wanted.Some? && 1 <= wanted.value <= maxIds ==> batchSize == wanted.value
    {
      batchSize := Max(1, Min(if wanted.Some? then wanted.value else maxIds, maxIds));
      this.transport := transport;
      now, asks, prompt, waited, log := 0, 0, true, 0, [];
    }

    /** Time passes; where all is prompt, no more than `atMost`. */
    method Pass(atMost: int)
      requires atMost >= 0
      modifies this`now, this`prompt
      ensures old(now) <= now && (prompt ==> old(prompt) && now <= old(now) + atMost)
    {
      var later: int :| now <= later;
      prompt := prompt && later <= now + atMost;
      now := later;
    }

    /** Sit a refusal out. */
    method Wait(ms: nat)
      modifies this`now, this`prompt, this`waited
      ensures waited == old(waited) + ms
      ensures old(now) <= now && (prompt ==> old(prompt) && now <= old(now) + ms)
    {
      Pass(ms);
      waited := waited + ms;
    }

    /** One question over the tunnel. */
    method Ask(batch: seq<string>, timeoutMs: int) returns (reply: Reply)
      requires timeoutMs >= 0
      modifies this`now, this`prompt, this`asks, this`log
      ensures asks == old(asks) + 1 && log == old(log) + [Asked(batch, reply)]
      ensures old(now) <= now && (prompt ==> old(prompt) && now <= old(now) + timeoutMs)
    {
      asks := asks + 1;
      Pass(timeoutMs);
      reply := *;
      log := log + [Asked(batch, reply)];
    }

    /** One batch, asked until it is answered, refused for good, or the sweep's time or waits are
        spent. */
    method AskBatch(batch: seq<string>, cap: int, startedAt: int, budget: Allowance)
      returns (answers: Option<seq<Answer>>, left: Allowance)
      requires budget.waitedMs <= cap
      modifies this`now, this`prompt, this`asks, this`waited, this`log
      ensures old(log) <= log && asks - old(asks) == |log| - |old(log)|
      ensures Answered(log)
           == Answered(old(log)) + if answers.Some? then [Exchange(batch, answers.value)] else []
      ensures forall i :: |old(log)| <= i < |log| ==> log[i].batch == batch
      ensures answers.None? ==>
                cap <= now - startedAt || (old(log) < log && EndsSweep(log[|log| - 1].reply, left, cap))
      ensures waited - left.waitedMs == old(waited) - budget.waitedMs
      ensures left.waitsLeft <= budget.waitsLeft && left.waitedMs <= cap
      ensures asks <= old(asks) + (budget.waitsLeft - left.waitsLeft) + 1
      ensures old(now) <= now && (prompt ==> old(prompt))
      ensures prompt && old(now) - startedAt <= cap + MAX_WAIT_MS ==> now - startedAt <= cap + MAX_WAIT_MS
    {
      hide Answered;
      left := budget;
      while true
        invariant old(log) <= log && asks - old(asks) == |log| - |old(log)|
        invariant Answered(log) == Answered(old(log))
        invariant forall i :: |old(log)| <= i < |log| ==> log[i].batch == batch
        invariant left.waitsLeft <= budget.waitsLeft && left.waitedMs <= cap
        invariant waited - left.waitedMs == old(waited) - budget.waitedMs
        invariant asks == old(asks) + (budget.waitsLeft - left.waitsLeft)
        invariant old(now) <= now && (prompt ==> old(prompt))
        invariant prompt && old(now) - startedAt <= cap + MAX_WAIT_MS ==> now - startedAt <= cap + MAX_WAIT_MS
        decreases left.waitsLeft
      {
        var remaining := cap - (now - startedAt);
        if remaining <= 0 { return None, left; }
        ghost var before := log;
        var reply := Ask(batch, Min(remaining, FORTRESS_QUERY_TIMEOUT_MS));
        AnsweredOne(before, Asked(batch, reply));
        match reply {
          case Residency(given) => return Some(given), left;
          case SomethingElse => return None, left;
          case Refused(retryAfterMs) =>
            var wait := WaitOf(retryAfterMs);
            if wait == 0 || left.waitsLeft == 0 || left.waitedMs + wait > cap { return None, left; }
            left := Allowance(left.waitsLeft - 1, left.waitedMs + wait);
            Wait(wait);
        }
      }
    }

    /** Sort one batch's answers into the three sets. */
    method Collect(w: WitnessAnswer, answers: seq<Answer>, ghost before: seq<Answer>) returns (w': WitnessAnswer)
      requires Unions(w, before)
      ensures Unions(w', before + answers)
    {
      hide Unions, Sorted;
      w' := w;
      assert before + [] == before;
      for i := 0 to |answers|
        invariant Unions(w', before + answers[..i])
      {
        UnionsOne(w', before + answers[..i], answers[i]);
        assert before + answers[..i] + [answers[i]] == before + answers[..i + 1];
        w' := Sorted(w', answers[i]);
      }
      assert answers[..|answers|] == answers;
    }

    /** One sweep over all the ids. The exchanges are the questions it sent that were answered, in
        order. An answer is a complete one: every id was in exactly one batch that was answered, and
        the sets are the answers. It gives none without a transport, where the time ran out, or where
        the last reply ended it. However the hub behaves the sweep ends, after at most two questions a
        batch and a few, and a bounded time. */
    method Sweep(ids: seq<string>) returns (w: Option<WitnessAnswer>, ghost exchanges: seq<Exchange>)
      requires batchSize >= 1
      modifies this`now, this`prompt, this`asks, this`waited, this`log
      ensures old(log) <= log && asks - old(asks) == |log| - |old(log)|
      ensures Answered(log) == Answered(old(log)) + exchanges
      ensures !transport ==> w.None? && log == old(log)
      ensures transport && w.None? ==>
                || TotalWaitCap(Batches(|ids|, batchSize)) <= now - old(now)
                || (old(log) < log && !log[|log| - 1].reply.Residency?)
      ensures w.Some? ==>
                && Questions(exchanges) == ids
                && (forall i :: 0 <= i < |exchanges| ==> 1 <= |exchanges[i].batch| <= batchSize)
                && |exchanges| == Batches(|ids|, batchSize)
                && Unions(w.value, AllAnswers(exchanges))
      ensures asks <= old(asks) + 2 * Batches(|ids|, batchSize) + EXTRA_WAITS
      ensures waited - old(waited) <= TotalWaitCap(Batches(|ids|, batchSize)) <= MAX_TOTAL_WAIT_MS
      ensures prompt ==> now <= old(now) + TotalWaitCap(Batches(|ids|, batchSize)) + MAX_WAIT_MS
    {
      hide Unions, Questions, AllAnswers, Sorted, Answered;
      exchanges := [];
      if !transport { return None, exchanges; }
      var sets := WitnessAnswer({}, {}, {});
      NothingAsked();
      if |ids| == 0 { return Some(sets), exchanges; }
      var batches := Batches(|ids|, batchSize);
      var budget := Allowance(batches + EXTRA_WAITS, 0);
      var cap := TotalWaitCap(batches);
      var startedAt := now;
      var start := 0;
      while start < |ids|
        invariant 0 <= start <= |ids| && Questions(exchanges) == ids[..start]
        invariant batches == |exchanges| + Batches(|ids| - start, batchSize)
        invariant forall i :: 0 <= i < |exchanges| ==> 1 <= |exchanges[i].batch| <= batchSize
        invariant Unions(sets, AllAnswers(exchanges))
        invariant budget.waitedMs <= cap && budget.waitsLeft <= batches + EXTRA_WAITS
        invariant asks <= old(asks) + |exchanges| + (batches + EXTRA_WAITS - budget.waitsLeft)
        invariant old(now) <= now && (prompt ==> now - startedAt <= cap + MAX_WAIT_MS)
        invariant waited == old(waited) + budget.waitedMs
        invariant old(log) <= log && asks - old(asks) == |log| - |old(log)|
        invariant Answered(log) == Answered(old(log)) + exchanges
      {
        var end := Min(start + batchSize, |ids|);
        var batch := ids[start..end];
        if now - startedAt > cap { return None, exchanges; }
        var answers;
        answers, budget := AskBatch(batch, cap, startedAt, budget);
        if answers.None? { return None, exchanges; }
        sets := Collect(sets, answers.value, AllAnswers(exchanges));
        OneMoreExchange(exchanges, Exchange(batch, answers.value));
        assert ids[..start] + batch == ids[..end];
        exchanges := exchanges + [Exchange(batch, answers.value)];
        start := end;
      }
      assert ids[..start] == ids;
      w := Some(sets);
    }
  }

  // ---- what a silence about an id is worth ----

  predicate Names(answers: seq<Answer>, id: string) {
    exists a :: a in answers && a.sessionId == id
  }

  predicate DeniesCopy(answers: seq<Answer>, id: string) {
    exists a :: a in answers && a.sessionId == id && !a.letaiCopy
  }

  /** Whatever is not reported as a copy was answered to be none. */
  ghost predicate SilenceIsDenial(w: WitnessAnswer, ids: seq<string>, answers: seq<Answer>) {
    forall id :: id in ids && id !in w.copies ==> DeniesCopy(answers, id)
  }

  /** A hub may answer a batch and name none of its ids. The sweep is complete all the same, and every
      id counts as answered. */
  lemma EmptyReplyPassesForDenial(id: string)
    ensures var exchanges := [Exchange([id], [])];
            && Questions(exchanges) == [id]
            && Unions(WitnessAnswer({}, {}, {}), AllAnswers(exchanges))
            && !SilenceIsDenial(WitnessAnswer({}, {}, {}), [id], AllAnswers(exchanges))
  {
    OneMoreExchange([], Exchange([id], []));
    assert [] + [Exchange([id], [])] == [Exchange([id], [])];
    assert id in [id];
  }

  /** So an id not reported as a copy was denied to be one, for every id asked about, exactly if every
      id asked about is named by an answer. */
  lemma SilenceIsDenialExactly(w: WitnessAnswer, ids: seq<string>, answers: seq<Answer>)
    requires Unions(w, answers)
    ensures SilenceIsDenial(w, ids, answers) <==> forall id :: id in ids ==> Names(answers, id)
  {
    forall id | id in ids
      ensures Names(answers, id) <==> id in w.copies || DeniesCopy(answers, id)
    {
      if Names(answers, id) && !DeniesCopy(answers, id) {
        var a :| a in answers && a.sessionId == id;
        assert a.letaiCopy;
      }
    }
  }

  /** Where the hub named every id it was asked about, a clean run proves of every session that let.ai
      said it holds no copy, or that its lanes hold its bytes. */
  lemma CleanMeansDenied(r: AuditRunResult, deps: AuditRunDeps, budget: int, row: AuditSessionRow,
                         answers: seq<Answer>)
    requires Agrees(r, deps, budget) && r.verdict.Clean? && row in deps.sessions
    requires var e := EvidenceOf(deps);
             && e.witnessed.Some? && Unions(e.witnessed.value, answers)
             && forall id :: id in EligibleIds(deps.sessions) ==> Names(answers, id)
    ensures || (&& (CanonicalKeyOf(row) in deps.listCanonical || deps.headCanonical(row))
                && DeniesCopy(answers, WitnessIdOf(row)))
            || (row.eventCount <= 0 && HasLane(deps.listCanonical, row))
  {
    hide Agrees, EvidenceOf, CanonicalKeyOf, WitnessIdOf, HasLane, EligibleIds;
    SilenceIsDenialExactly(EvidenceOf(deps).witnessed.value, EligibleIds(deps.sessions), answers);
    CleanMeansHeldHere(r, deps, budget, row);
  }

  lemma NothingAsked()
    ensures Questions([]) == [] && AllAnswers([]) == []
    ensures Unions(WitnessAnswer({}, {}, {}), [])
  {
  }
}
