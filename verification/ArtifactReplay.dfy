/** The park of post-commit writes that a pause refused (src/console/artifact-replay.ts): the park
    file, its `.draining` twin, and the drain that replays one into the bucket. At every wait the
    gateway may park more, and the process may die; an append, a rename or an unlink may fail. */
module ArtifactReplay {
  import opened Wrappers

  datatype ParkedArtifact = ParkedArtifact(
    session: string,
    name: string,
    text: string,
    parkedAt: Option<int>,          // None where the stamp does not parse
    replace: bool)

  type Entries = seq<ParkedArtifact>
  type Pile = multiset<ParkedArtifact>
  type File = Option<Entries>

  function Lines(f: File): Entries { if f.Some? then f.value else [] }

  // ---- the order of a replay ----

  datatype Held = Held(entry: ParkedArtifact, at: nat)

  /** By stamp; a missing or equal stamp keeps file order. */
  predicate Precedes(a: Held, b: Held) {
    if a.entry.parkedAt.Some? && b.entry.parkedAt.Some? && a.entry.parkedAt != b.entry.parkedAt
    then a.entry.parkedAt.value < b.entry.parkedAt.value
    else a.at < b.at
  }

  /** Two stamped entries stand in the file against their stamps, with an unparsed one between them. */
  predicate Crossed(entries: Entries) {
    exists i, j, k :: 0 <= i < j < k < |entries| && CrossedAt(entries, i, j, k)
  }

  predicate CrossedAt(entries: Entries, i: nat, j: nat, k: nat)
    requires i < |entries| && j < |entries| && k < |entries|
  {
    && entries[i].parkedAt.Some? && entries[j].parkedAt.None? && entries[k].parkedAt.Some?
    && entries[i].parkedAt.value > entries[k].parkedAt.value
  }

  function Released(held: seq<Held>): Entries {
    seq(|held|, i requires 0 <= i < |held| => held[i].entry)
  }

  /** `held` is `entries` rearranged: every place of the file exactly once. */
  ghost predicate Rearranges(held: seq<Held>, entries: Entries) {
    && |held| == |entries|
    && (forall i :: 0 <= i < |held| ==> held[i].at < |entries| && held[i].entry == entries[held[i].at])
    && (forall i, j :: 0 <= i < j < |held| ==> held[i].at != held[j].at)
    && (forall at :: 0 <= at < |entries| ==> Placed(held, at))
    && multiset(Released(held)) == multiset(entries)
  }

  predicate Placed(held: seq<Held>, at: nat) {
    exists i :: 0 <= i < |held| && held[i].at == at
  }

  ghost predicate InParkOrder(held: seq<Held>) {
    forall i, j :: 0 <= i < j < |held| ==> Precedes(held[i], held[j])
  }

  lemma ReleasedParts(a: seq<Held>, b: seq<Held>)
    ensures Released(a + b) == Released(a) + Released(b)
  {
  }

  lemma ReleasedFrom(held: seq<Held>, i: nat)
    requires i <= |held|
    ensures Released(held[i..]) == if i == |held| then [] else [held[i].entry] + Released(held[i + 1..])
  {
  }

  lemma InsertReleases(held: seq<Held>, k: nat, h: Held)
    requires k <= |held|
    ensures multiset(Released(held[..k] + [h] + held[k..])) == multiset(Released(held)) + multiset{h.entry}
  {
    var front, back := held[..k], held[k..];
    ReleasedParts(front, back);
    ReleasedParts(front + [h], back);
    ReleasedParts(front, [h]);
    assert held == front + back && Released([h]) == [h.entry];
    hide Released;
  }

  lemma InsertPlaces(held: seq<Held>, k: nat, h: Held, at: nat)
    requires k <= |held| && (Placed(held, at) || at == h.at)
    ensures Placed(held[..k] + [h] + held[k..], at)
  {
    var held' := held[..k] + [h] + held[k..];
    if at == h.at {
      assert held'[k] == h;
    } else {
      var i :| 0 <= i < |held| && held[i].at == at;
      assert held'[if i < k then i else i + 1] == held[i];
    }
  }

  lemma InsertKeeps(held: seq<Held>, k: nat, h: Held, entries: Entries)
    requires Rearranges(held, entries) && k <= |held| && h.at == |entries|
    ensures Rearranges(held[..k] + [h] + held[k..], entries + [h.entry])
  {
    InsertReleases(held, k, h);
    forall at: nat | at <= |entries|
      ensures Placed(held[..k] + [h] + held[k..], at)
    {
      InsertPlaces(held, k, h, at);
    }
    hide Released, Placed;
  }

  lemma InsertInOrder(held: seq<Held>, k: nat, h: Held)
    requires InParkOrder(held) && k <= |held|
    requires forall i :: 0 <= i < k ==> Precedes(held[i], h)
    requires forall i :: k <= i < |held| ==> Precedes(h, held[i])
    ensures InParkOrder(held[..k] + [h] + held[k..])
  {
  }

  /** Where none are crossed the comparator is an order. */
  lemma PrecedesOn(x: Held, y: Held, z: Held, entries: Entries)
    requires x.at < |entries| && y.at < |entries| && z.at < |entries|
    requires entries[x.at] == x.entry && entries[y.at] == y.entry && entries[z.at] == z.entry
    requires !Crossed(entries) && x.at != z.at
    requires Precedes(x, y) && Precedes(y, z)
    ensures Precedes(x, z)
  {
    if Precedes(z, x) {
      assert y.at < z.at < x.at ==> !CrossedAt(entries, y.at, z.at, x.at);
      assert z.at < x.at < y.at ==> !CrossedAt(entries, z.at, x.at, y.at);
      assert x.at < y.at < z.at ==> !CrossedAt(entries, x.at, y.at, z.at);
    }
  }

  /** Where the sort puts one more entry. The comparator orders entries totally where none are crossed;
      where some are it is not transitive, and the place is the sort's own affair. */
  method Place(held: seq<Held>, h: Held, entries: Entries, ordered: bool) returns (k: nat)
    requires Rearranges(held, entries) && h.at == |entries|
    requires ordered ==> InParkOrder(held) && !Crossed(entries + [h.entry])
    ensures k <= |held|
    ensures ordered ==>
              && (forall i :: 0 <= i < k ==> Precedes(held[i], h))
              && (forall i :: k <= i < |held| ==> Precedes(h, held[i]))
  {
    if !ordered {
      var anywhere: nat :| anywhere <= |held|;
      return anywhere;
    }
    k := |held|;
    while k > 0 && Precedes(h, held[k - 1])
      invariant k <= |held|
      invariant forall i :: k <= i < |held| ==> Precedes(h, held[i])
    {
      k := k - 1;
    }
    forall i | 0 <= i < k
      ensures Precedes(held[i], h)
    {
      if i < k - 1 { PrecedesOn(held[i], held[k - 1], h, entries + [h.entry]); }
    }
  }

  lemma CrossedEarlier(entries: Entries, n: nat)
    requires n <= |entries| && Crossed(entries[..n])
    ensures Crossed(entries)
  {
    var front := entries[..n];
    var i, j, k :| 0 <= i < j < k < |front| && CrossedAt(front, i, j, k);
    assert CrossedAt(entries, i, j, k);
  }

  /** A rearrangement in park order has no three entries each preceding the next around a circle. */
  lemma CrossedHasNoOrder(held: seq<Held>, entries: Entries)
    requires Rearranges(held, entries) && Crossed(entries)
    ensures !InParkOrder(held)
  {
    var i, j, k :| 0 <= i < j < k < |entries| && CrossedAt(entries, i, j, k);
    assert Placed(held, i) && Placed(held, j) && Placed(held, k);
    var p :| 0 <= p < |held| && held[p].at == i;
    var q :| 0 <= q < |held| && held[q].at == j;
    var r :| 0 <= r < |held| && held[r].at == k;
    assert Precedes(held[p], held[q]) && Precedes(held[q], held[r]) && Precedes(held[r], held[p]);
  }

  /** Every place of the file exactly once; and in park order if and only if there is such an order. */
  method SortParked(entries: Entries) returns (held: seq<Held>)
    ensures Rearranges(held, entries)
    ensures InParkOrder(held) <==> !Crossed(entries)
  {
    held := [];
    var ordered := !Crossed(entries);
    for n := 0 to |entries|
      invariant Rearranges(held, entries[..n])
      invariant ordered ==> InParkOrder(held)
    {
      var h := Held(entries[n], n);
      assert entries[..n + 1] == entries[..n] + [h.entry];
      if Crossed(entries[..n + 1]) { CrossedEarlier(entries, n + 1); }
      var k := Place(held, h, entries[..n], ordered);
      InsertKeeps(held, k, h, entries[..n]);
      if ordered { InsertInOrder(held, k, h); }
      held := held[..k] + [h] + held[k..];
    }
    assert entries[..|entries|] == entries;
    if Crossed(entries) { CrossedHasNoOrder(held, entries); }
  }

  /** Where entries are crossed there is no order to sort into: each precedes the next, and the last
      the first. */
  lemma UnparsedStampsCycle(newer: ParkedArtifact, unparsed: ParkedArtifact, older: ParkedArtifact)
    requires newer.parkedAt == Some(2) && unparsed.parkedAt == None && older.parkedAt == Some(1)
    ensures Crossed([newer, unparsed, older])
    ensures var x, y, z := Held(newer, 0), Held(unparsed, 1), Held(older, 2);
            Precedes(x, y) && Precedes(y, z) && Precedes(z, x)
  {
    assert CrossedAt([newer, unparsed, older], 0, 1, 2);
  }

  // ---- what a drain did ----

  datatype Outcome = Wrote | Declined | Threw

  datatype Attempt = Attempt(entry: ParkedArtifact, outcome: Outcome)

  function Count(attempts: seq<Attempt>, outcome: Outcome): nat {
    if attempts == [] then 0
    else
      var last := attempts[|attempts| - 1];
      Count(attempts[..|attempts| - 1], outcome) + if last.outcome == outcome then 1 else 0
  }

  function Rewritten(attempts: seq<Attempt>): seq<string> {
    if attempts == [] then []
    else
      var last := attempts[|attempts| - 1];
      Rewritten(attempts[..|attempts| - 1]) + if last.outcome.Wrote? then [last.entry.session] else []
  }

  datatype ReplayResult = ReplayResult(replayed: nat, failed: nat, dropped: nat, rewrote: seq<string>)

  /** The result says what was attempted, and nothing else. */
  predicate Reports(result: ReplayResult, attempts: seq<Attempt>) {
    && result.replayed == Count(attempts, Wrote)
    && result.failed == Count(attempts, Threw)
    && result.dropped == Count(attempts, Declined)
    && result.rewrote == Rewritten(attempts)
  }

  function Tally(r: ReplayResult, a: Attempt): ReplayResult {
    match a.outcome
    case Wrote => r.(replayed := r.replayed + 1, rewrote := r.rewrote + [a.entry.session])
    case Declined => r.(dropped := r.dropped + 1)
    case Threw => r.(failed := r.failed + 1)
  }

  lemma NothingToReport()
    ensures Reports(ReplayResult(0, 0, 0, []), [])
  {
  }

  lemma ReportsOne(r: ReplayResult, attempts: seq<Attempt>, a: Attempt)
    requires Reports(r, attempts)
    ensures Reports(Tally(r, a), attempts + [a])
  {
    assert (attempts + [a])[..|attempts|] == attempts;
  }

  lemma {:induction false} EveryAttemptIsCounted(result: ReplayResult, attempts: seq<Attempt>)
    requires Reports(result, attempts)
    decreases |attempts|
    ensures result.replayed + result.failed + result.dropped == |attempts|
    ensures |result.rewrote| == result.replayed
  {
    if attempts != [] {
      var init := attempts[..|attempts| - 1];
      EveryAttemptIsCounted(
        ReplayResult(Count(init, Wrote), Count(init, Threw), Count(init, Declined), Rewritten(init)), init);
    }
  }

  /** What the attempts settled: every entry written or declined, as often as it was. */
  function SettledBy(attempts: seq<Attempt>): Pile {
    if attempts == [] then multiset{}
    else
      var last := attempts[|attempts| - 1];
      SettledBy(attempts[..|attempts| - 1]) + if last.outcome.Threw? then multiset{} else multiset{last.entry}
  }

  lemma {:induction false} SettledByParts(a: seq<Attempt>, b: seq<Attempt>)
    ensures SettledBy(a + b) == SettledBy(a) + SettledBy(b)
    decreases |b|
  {
    if b == [] {
      assert a + b == a;
    } else {
      var init, last := b[..|b| - 1], b[|b| - 1];
      SettledByParts(a, init);
      assert (a + b)[..|a + b| - 1] == a + init;
      var one := if last.outcome.Threw? then multiset{} else multiset{last.entry};
      assert SettledBy(b) == SettledBy(init) + one && SettledBy(a + b) == SettledBy(a + init) + one;
    }
  }

  predicate Settles(attempts: seq<Attempt>, e: ParkedArtifact) {
    exists i :: 0 <= i < |attempts| && attempts[i].entry == e && !attempts[i].outcome.Threw?
  }

  lemma {:induction false} SettledByOne(attempts: seq<Attempt>, e: ParkedArtifact)
    ensures e in SettledBy(attempts) <==> Settles(attempts, e)
    decreases |attempts|
  {
    if attempts != [] {
      var init, last := attempts[..|attempts| - 1], attempts[|attempts| - 1];
      SettledByOne(init, e);
      if Settles(init, e) {
        var i :| 0 <= i < |init| && init[i].entry == e && !init[i].outcome.Threw?;
        assert attempts[i] == init[i];
      }
      if Settles(attempts, e) && !(last.entry == e && !last.outcome.Threw?) {
        var i :| 0 <= i < |attempts| && attempts[i].entry == e && !attempts[i].outcome.Threw?;
        assert init[i] == attempts[i];
      }
    }
  }

  predicate Attempted(e: ParkedArtifact, attempts: seq<Attempt>) {
    exists i :: 0 <= i < |attempts| && attempts[i].entry == e
  }

  predicate NoneThrew(attempts: seq<Attempt>) {
    forall i :: 0 <= i < |attempts| ==> !attempts[i].outcome.Threw?
  }

  lemma {:induction false} CountThrew(attempts: seq<Attempt>)
    ensures Count(attempts, Threw) == 0 <==> NoneThrew(attempts)
    decreases |attempts|
  {
    if attempts != [] {
      var init := attempts[..|attempts| - 1];
      CountThrew(init);
      assert attempts == init + [attempts[|attempts| - 1]];
    }
  }

  // ---- the park ----

  datatype Disk = Disk(park: File, twin: File)

  /** A call on the disk and how it came back: what the twin held and what a read of it gave, or
      whether there was a park to rename and it was renamed. */
  datatype FileCall = Read(held: Entries, got: Entries) | Rename(there: bool, done: bool)

  /** The last rename tried failed over a file that is there. */
  predicate Stuck(calls: seq<FileCall>) {
    if calls == [] then false
    else
      var last := calls[|calls| - 1];
      if last.Rename? then last.there && !last.done else Stuck(calls[..|calls| - 1])
  }

  lemma StuckOnlyByRename(calls: seq<FileCall>, held: Entries, got: Entries)
    ensures Stuck(calls + [Read(held, got)]) == Stuck(calls)
    ensures forall there, done :: Stuck(calls + [Rename(there, done)]) <==> there && !done
  {
    assert (calls + [Read(held, got)])[..|calls|] == calls;
  }

  /** A read of a file that holds the entry did not give what the file held. */
  predicate Hidden(calls: seq<FileCall>, e: ParkedArtifact) {
    exists c :: c in calls && c.Read? && c.got != c.held && e in c.held
  }

  /** What the park owes, and what went wrong. An entry is owed from the instant its line is in the
      file, which is before the device is answered, until a write of it succeeds or is deliberately
      declined. */
  datatype Book = Book(
    parked: Pile,                   // every line the gateway ever appended
    settled: Pile,                  // every entry written or declined
    owed: set<ParkedArtifact>,
    late: set<ParkedArtifact>,      // appended since a drain last took the file
    clean: bool,                    // no death and no failed file operation yet
    calls: seq<FileCall>)           // every read of the twin and every rename, oldest first

  /** Nothing was invented, and whatever is owed is in one of the files, or was in one that a read
      missed: what holds at every instant, wherever a process dies. */
  ghost predicate Safe(d: Disk, b: Book) {
    && (forall e :: e in Lines(d.park) || e in Lines(d.twin) ==> e in b.parked)
    && (forall e :: e in b.owed ==> e in Lines(d.park) || e in Lines(d.twin) || Hidden(b.calls, e))
  }

  /** Until something goes wrong each line ever parked is settled, in the park, or in `rest`. */
  ghost predicate Balanced(d: Disk, b: Book, rest: Pile) {
    b.clean ==>
      && (forall c :: c in b.calls && c.Read? ==> c.got == c.held)
      && !Stuck(b.calls)
      && multiset(Lines(d.park)) + rest + b.settled == b.parked
  }

  /** In the middle of a drain with `rest` to go: what is owed is in the park, or is both in `rest`
      and in the twin, or a read missed it. */
  ghost predicate Draining(d: Disk, b: Book, rest: Pile)
    ensures Draining(d, b, rest) ==> Safe(d, b)
  {
    && Safe(d, b)
    && Balanced(d, b, rest)
    && (forall e :: e in rest ==> e in b.parked)
    && (forall e :: e in b.owed ==> e in Lines(d.park) || e in rest || Hidden(b.calls, e))
  }

  /** Everything owed is in `rest`, unless it arrived after this drain took the file, or a read
      missed it. */
  ghost predicate Takes(b: Book, rest: Pile) {
    !Stuck(b.calls) ==> forall e :: e in b.owed ==> e in rest || e in b.late || Hidden(b.calls, e)
  }

  /** Between drains. */
  ghost predicate Resting(d: Disk, b: Book)
    ensures Resting(d, b) ==> Safe(d, b)
  {
    Safe(d, b) && Balanced(d, b, multiset{}) && (b.clean ==> d.twin.None?)
  }

  /** Whatever a dead drain left behind is in the park again. */
  ghost predicate Recovered(d: Disk, b: Book, orphaned: Entries)
    ensures Recovered(d, b, orphaned) ==> Resting(d, b)
  {
    && Resting(d, b)
    && (b.clean ==> orphaned == [])
    && (forall e :: e in orphaned ==> e in b.parked)
    && (forall e :: e in Lines(d.twin) || e in orphaned ==> e in Lines(d.park) || Hidden(b.calls, e))
  }

  /** From one book to a later one. Lines are only added; an entry is settled once for each attempt
      that wrote or declined it; and whatever was owed, or was parked meanwhile, is owed still unless
      such an attempt settled it. Only what was parked is attempted, and no call is
      forgotten. */
  ghost predicate Kept(b: Book, before: seq<Attempt>, b': Book, after: seq<Attempt>) {
    && before <= after
    && (forall i :: |before| <= i < |after| ==> after[i].entry in b'.parked)
    && KeptBut(b, b', SettledBy(after[|before|..]))
  }

  ghost predicate KeptBut(b: Book, b': Book, settled: Pile) {
    && (forall e :: b.parked[e] <= b'.parked[e])
    && b'.settled == b.settled + settled
    && (forall e :: e in b.owed || b.parked[e] < b'.parked[e] ==> e in b'.owed || e in settled)
    && (forall e :: e in b'.owed ==> e in b.owed || b.parked[e] < b'.parked[e])
    && b.calls <= b'.calls
    && (b'.clean ==> b.clean)
  }

  lemma KeptButTwice(b: Book, b': Book, b'': Book, s: Pile, t: Pile)
    requires KeptBut(b, b', s) && KeptBut(b', b'', t)
    ensures KeptBut(b, b'', s + t)
  {
    assert forall e :: e in s || e in t ==> e in s + t;
    assert (b.settled + s) + t == b.settled + (s + t);
  }

  lemma ParkedStays(b: Book, b': Book, s: Pile)
    requires KeptBut(b, b', s)
    ensures forall e :: e in b.parked ==> e in b'.parked
  {
    assert forall e :: e in b.parked <==> b.parked[e] > 0;
  }

  lemma KeptTwice(b: Book, before: seq<Attempt>, b': Book, between: seq<Attempt>, b'': Book, after: seq<Attempt>)
    requires Kept(b, before, b', between) && Kept(b', between, b'', after)
    ensures Kept(b, before, b'', after)
  {
    hide SettledBy, KeptBut;
    var first, second := between[|before|..], after[|between|..];
    SettledByParts(first, second);
    assert after[|before|..] == first + second;
    KeptButTwice(b, b', b'', SettledBy(first), SettledBy(second));
    ParkedStays(b', b'', SettledBy(second));
    assert forall i :: |before| <= i < |between| ==> after[i] == between[i];
  }

  lemma KeptByWait(d: Disk, b: Book, d': Disk, b': Book, attempts: seq<Attempt>)
    requires Waited(d, b, d', b')
    ensures Kept(b, attempts, b', attempts)
  {
    assert attempts[|attempts|..] == [];
    var more, alive :| WaitedFor(d, b, d', b', more, alive);
    assert forall e :: multiset(more)[e] > 0 <==> e in more;
  }

  /** What goes wrong, or a drain that takes the file, settles nothing. */
  lemma KeptByMishap(b: Book, b': Book, attempts: seq<Attempt>)
    requires b' == b.(late := b'.late, clean := b'.clean, calls := b'.calls)
    requires b.calls <= b'.calls && (b'.clean ==> b.clean)
    ensures Kept(b, attempts, b', attempts)
  {
    assert attempts[|attempts|..] == [];
  }

  lemma KeptByAttempt(b: Book, attempts: seq<Attempt>, e: ParkedArtifact, outcome: Outcome)
    requires e in b.parked
    ensures var b' := if outcome.Threw? then b
                      else b.(settled := b.settled + multiset{e}, owed := b.owed - {e});
            Kept(b, attempts, b', attempts + [Attempt(e, outcome)])
  {
    var after := attempts + [Attempt(e, outcome)];
    assert after[|attempts|..] == [Attempt(e, outcome)];
    assert [Attempt(e, outcome)][..0] == [];
    assert SettledBy([Attempt(e, outcome)]) == if outcome.Threw? then multiset{} else multiset{e};
  }

  function Appended(d: Disk, more: Entries): Disk {
    if more == [] then d else d.(park := Some(Lines(d.park) + more))
  }

  function Parked(b: Book, more: Entries, alive: bool): Book {
    b.(parked := b.parked + multiset(more),
       owed := b.owed + (set e | e in more),
       late := b.late + (set e | e in more),
       clean := b.clean && alive)
  }

  ghost predicate WaitedFor(d: Disk, b: Book, d': Disk, b': Book, more: Entries, alive: bool) {
    d' == Appended(d, more) && b' == Parked(b, more, alive)
  }

  /** What a wait can change. */
  ghost predicate Waited(d: Disk, b: Book, d': Disk, b': Book) {
    exists more, alive :: WaitedFor(d, b, d', b', more, alive)
  }

  lemma WaitingIsWaiting(d: Disk, b: Book, more: Entries, alive: bool)
    ensures Waited(d, b, Appended(d, more), Parked(b, more, alive))
  {
    assert WaitedFor(d, b, Appended(d, more), Parked(b, more, alive), more, alive);
  }

  lemma WaitKeeps(d: Disk, b: Book, d': Disk, b': Book, rest: Pile)
    requires Waited(d, b, d', b')
    ensures Safe(d, b) ==> Safe(d', b')
    ensures Draining(d, b, rest) ==> Draining(d', b', rest)
    ensures Takes(b, rest) ==> Takes(b', rest)
    ensures Resting(d, b) ==> Resting(d', b')
  {
    var more, alive :| WaitedFor(d, b, d', b', more, alive);
    assert multiset(Lines(d.park) + more) == multiset(Lines(d.park)) + multiset(more);
  }

  lemma WaitKeepsRecovered(d: Disk, b: Book, d': Disk, b': Book, orphaned: Entries)
    requires Waited(d, b, d', b') && Recovered(d, b, orphaned)
    ensures Recovered(d', b', orphaned)
  {
    WaitKeeps(d, b, d', b', multiset{});
  }

  /** Putting a line back from `rest` into the park. */
  lemma AppendKeeps(d: Disk, b: Book, e: ParkedArtifact, rest: Pile)
    requires Safe(d, b) && e in b.parked
    ensures Safe(Appended(d, [e]), b)
    ensures Draining(d, b, multiset{e} + rest) ==> Draining(Appended(d, [e]), b, rest)
  {
    assert multiset(Lines(d.park) + [e]) == multiset(Lines(d.park)) + multiset{e};
  }

  lemma SettleKeeps(d: Disk, b: Book, e: ParkedArtifact, rest: Pile)
    requires Draining(d, b, multiset{e} + rest) && Takes(b, multiset{e} + rest)
    ensures var b' := b.(settled := b.settled + multiset{e}, owed := b.owed - {e});
            Draining(d, b', rest) && Takes(b', rest)
  {
  }

  /** A read of the twin has given all of it, or, by mischance, nothing. */
  function AfterRead(d: Disk, b: Book, got: Entries): Book {
    b.(calls := b.calls + [Read(Lines(d.twin), got)], clean := b.clean && got == Lines(d.twin))
  }

  lemma HiddenStays(calls: seq<FileCall>, c: FileCall)
    ensures forall e :: Hidden(calls, e) ==> Hidden(calls + [c], e)
    ensures c.Rename? ==> forall e :: Hidden(calls + [c], e) ==> Hidden(calls, e)
    ensures c.Read? && c.got != c.held ==> forall e :: e in c.held ==> Hidden(calls + [c], e)
  {
    assert c in calls + [c];
  }

  /** What a read of the twin did not give, it missed. */
  lemma NothingToRecover(d: Disk, b: Book)
    requires Resting(d, b) && b.calls != [] && b.calls[|b.calls| - 1] == Read(Lines(d.twin), [])
    ensures Recovered(d, b, [])
  {
    assert b.calls[|b.calls| - 1] in b.calls;
    assert forall e :: e in Lines(d.twin) ==> Hidden(b.calls, e);
    hide Hidden, Stuck;
  }

  lemma ReadKeeps(d: Disk, b: Book, rest: Pile, got: Entries)
    ensures Draining(d, b, rest) ==> Draining(d, AfterRead(d, b, got), rest)
    ensures Takes(b, rest) ==> Takes(AfterRead(d, b, got), rest)
    ensures Resting(d, b) ==> Resting(d, AfterRead(d, b, got))
  {
    HiddenStays(b.calls, Read(Lines(d.twin), got));
    StuckOnlyByRename(b.calls, Lines(d.twin), got);
    hide Hidden, Stuck;
  }

  /** What a read missed was all that was left to take. */
  lemma MissedKeeps(d: Disk, b: Book)
    requires Draining(d, b, multiset(Lines(d.twin))) && Takes(b, multiset(Lines(d.twin)))
    requires !b.clean && b.calls != [] && b.calls[|b.calls| - 1] == Read(Lines(d.twin), []) && Lines(d.twin) != []
    ensures Draining(d, b, multiset{}) && Takes(b, multiset{})
  {
    assert b.calls[|b.calls| - 1] in b.calls;
    assert forall e :: e in Lines(d.twin) ==> Hidden(b.calls, e);
    hide Hidden, Stuck;
  }

  /** A rename of the park has been tried. */
  function AfterRename(d: Disk, b: Book, done: bool): Book {
    b.(calls := b.calls + [Rename(d.park.Some?, done)],
       clean := b.clean && (d.park.Some? ==> done),
       late := if done then {} else b.late)
  }

  /** The park becomes the twin, and the twin's old contents are gone. */
  lemma RenameKeeps(d: Disk, b: Book, orphaned: Entries)
    requires Recovered(d, b, orphaned) && d.park.Some?
    ensures var d', b' := Disk(None, d.park), AfterRename(d, b, true);
            && Draining(d', b', multiset(Lines(d.park))) && Takes(b', multiset(Lines(d.park)))
            && (forall e :: e in b.owed ==> e in Lines(d.park) || Hidden(b'.calls, e))
  {
    HiddenStays(b.calls, Rename(true, true));
    StuckOnlyByRename(b.calls, [], []);
    hide Hidden, Stuck;
  }

  /** Without a rename, the entries recovered are still all in the park. */
  lemma NoRenameKeeps(d: Disk, b: Book, orphaned: Entries)
    requires Recovered(d, b, orphaned)
    ensures var b' := AfterRename(d, b, false);
            && Draining(d, b', multiset(orphaned)) && Takes(b', multiset(orphaned))
            && (!Stuck(b'.calls) ==> forall e :: e in b.owed ==> e in orphaned || Hidden(b'.calls, e))
  {
    HiddenStays(b.calls, Rename(d.park.Some?, false));
    StuckOnlyByRename(b.calls, [], []);
    hide Hidden, Stuck;
  }

  /** A drain cut short leaves what the next one, in this life or another, starts from. */
  lemma CutShort(d: Disk, b: Book)
    requires Safe(d, b) && !b.clean
    ensures Resting(d, b)
  {
  }

  /** Once nothing is left to replay, the twin may go, or stay. */
  lemma UnlinkKeeps(d: Disk, b: Book)
    requires Draining(d, b, multiset{})
    ensures Resting(d.(twin := None), b)
    ensures Resting(d, b.(clean := false))
  {
  }

  datatype Fate = Returned | Raised | Died

  class ArtifactPark {
    var disk: Disk
    var latch: bool                 // what ParkReplayLatch calls `owed`
    ghost var book: Book
    ghost var attempts: seq<Attempt>

    constructor ()
      ensures Resting(disk, book) && Latched(latch, book) && latch
    {
      disk, latch := Disk(None, None), true;
      book := Book(multiset{}, multiset{}, {}, {}, true, []);
      attempts := [];
    }

    /** The gateway parks what it must, and the process may be gone afterwards. */
    method Await() returns (alive: bool)
      modifies this`disk, this`book
      ensures Waited(old(disk), old(book), disk, book)
      ensures disk.twin == old(disk.twin) && book.calls == old(book.calls)
      ensures old(book.owed) <= book.owed && old(book.parked) <= book.parked
      ensures forall e :: e in Lines(old(disk.park)) ==> e in Lines(disk.park)
      ensures book.clean ==> old(book.clean) && alive
      ensures Kept(old(book), old(attempts), book, attempts)
    {
      var more: Entries := *;
      alive := *;
      disk, book := Appended(disk, more), Parked(book, more, alive);
      WaitingIsWaiting(old(disk), old(book), more, alive);
      KeptByWait(old(disk), old(book), disk, book, attempts);
    }

    /** A whole file; an absent one reads as empty, and so, by mischance, may one that is there. */
    method ReadTwin(ghost rest: Pile) returns (alive: bool, entries: Entries)
      requires Draining(disk, book, rest)
      modifies this`disk, this`book
      ensures Draining(disk, book, rest)
      ensures old(Takes(book, rest)) ==> Takes(book, rest)
      ensures disk.twin == old(disk.twin) && old(book.owed) <= book.owed
      ensures book.calls == old(book.calls) + [Read(Lines(disk.twin), entries)]
      ensures entries == Lines(disk.twin) || (entries == [] && !book.clean)
      ensures book.clean ==> old(book.clean) && alive
      ensures old(Resting(disk, book)) ==> Resting(disk, book)
      ensures Kept(old(book), old(attempts), book, attempts)
    {
      hide Kept, Waited, Draining, Takes, Resting, Hidden, Stuck;
      alive := Await();
      WaitKeeps(old(disk), old(book), disk, book, rest);
      entries := Lines(disk.twin);
      if * { entries := []; }
      ghost var b := book;
      ReadKeeps(disk, book, rest, entries);
      book := AfterRead(disk, book, entries);
      KeptByMishap(b, book, attempts);
      KeptTwice(old(book), attempts, b, attempts, book, attempts);
    }

    /** Append a line the park already owes. */
    method Repark(entry: ParkedArtifact, ghost rest: Pile) returns (fate: Fate)
      requires Safe(disk, book) && entry in book.parked
      modifies this`disk, this`book
      ensures Safe(disk, book)
      ensures old(Draining(disk, book, multiset{entry} + rest)) && fate.Returned? ==> Draining(disk, book, rest)
      ensures fate.Returned? ==> entry in Lines(disk.park)
      ensures forall e :: e in Lines(old(disk.park)) ==> e in Lines(disk.park)
      ensures disk.twin == old(disk.twin) && old(book.owed) <= book.owed && old(book.parked) <= book.parked
      ensures book.calls == old(book.calls)
      ensures book.clean ==> old(book.clean) && fate.Returned?
      ensures old(Takes(book, multiset{})) ==> Takes(book, multiset{})
      ensures Kept(old(book), old(attempts), book, attempts)
    {
      hide Kept, Waited;
      var alive := Await();
      WaitKeeps(old(disk), old(book), disk, book, multiset{entry} + rest);
      WaitKeeps(old(disk), old(book), disk, book, multiset{});
      if !alive { return Died; }
      if * {
        ghost var b := book;
        book := book.(clean := false);
        KeptByMishap(b, book, attempts);
        KeptTwice(old(book), attempts, b, attempts, book, attempts);
        return Raised;
      }
      AppendKeeps(disk, book, entry, rest);
      disk := Appended(disk, [entry]);
      fate := Returned;
    }

    method UnlinkTwin() returns (alive: bool)
      requires Draining(disk, book, multiset{})
      modifies this`disk, this`book
      ensures Resting(disk, book)
      ensures old(Takes(book, multiset{})) ==> Takes(book, multiset{})
      ensures book.clean ==> old(book.clean) && alive
      ensures book.calls == old(book.calls)
      ensures Kept(old(book), old(attempts), book, attempts)
    {
      hide Kept, Waited;
      alive := Await();
      WaitKeeps(old(disk), old(book), disk, book, multiset{});
      UnlinkKeeps(disk, book);
      if alive && disk.twin.Some? {
        if * {
          ghost var b := book;
          book := book.(clean := false);
          KeptByMishap(b, book, attempts);
          KeptTwice(old(book), attempts, b, attempts, book, attempts);
        } else {
          disk := disk.(twin := None);
        }
      }
    }

    // ---- a drain ----

    method ReparkOrphans(orphaned: Entries) returns (fate: Fate)
      requires Safe(disk, book) && !book.clean && orphaned == Lines(disk.twin)
      modifies this`disk, this`book
      ensures Safe(disk, book) && !book.clean && disk.twin == old(disk.twin)
      ensures book.calls == old(book.calls) && old(book.owed) <= book.owed
      ensures fate.Returned? ==> forall e :: e in orphaned ==> e in Lines(disk.park)
      ensures Kept(old(book), old(attempts), book, attempts)
    {
      hide Balanced, Draining, Takes, Kept;
      KeptByMishap(book, book, attempts);
      fate := Returned;
      for i := 0 to |orphaned|
        invariant Kept(old(book), attempts, book, attempts)
        invariant Safe(disk, book) && !book.clean && disk.twin == old(disk.twin) && book.calls == old(book.calls)
        invariant old(book.owed) <= book.owed && fate.Returned?
        invariant forall e :: e in orphaned[..i] ==> e in Lines(disk.park)
      {
        ghost var b := book;
        fate := Repark(orphaned[i], multiset{});
        KeptTwice(old(book), attempts, b, attempts, book, attempts);
        if !fate.Returned? { return; }
      }
      assert orphaned[..|orphaned|] == orphaned;
    }

    /** Entries a dead drain left behind go back to the park before anything can overwrite them. */
    method RecoverOrphans() returns (fate: Fate, orphaned: Entries)
      requires Resting(disk, book)
      modifies this`disk, this`book
      ensures Resting(disk, book) && old(book.owed) <= book.owed
      ensures fate.Returned? ==> Recovered(disk, book, orphaned)
      ensures book.clean ==> old(book.clean) && fate.Returned?
      ensures Kept(old(book), old(attempts), book, attempts)
    {
      hide Kept, Waited;
      var alive;
      alive, orphaned := ReadTwin(multiset(Lines(disk.twin)));
      if !alive { return Died, orphaned; }
      if orphaned == [] {
        NothingToRecover(disk, book);
        return Returned, orphaned;
      }
      ghost var d, b := disk, book;
      fate := ReparkOrphans(orphaned);
      KeptTwice(old(book), attempts, b, attempts, book, attempts);
      if !fate.Returned? { return; }
      d, b := disk, book;
      alive := Await();
      KeptTwice(old(book), attempts, b, attempts, book, attempts);
      WaitKeepsRecovered(d, b, disk, book, orphaned);
      if !alive { return Died, orphaned; }
      if * { disk := disk.(twin := None); }
      fate := Returned;
    }

    /** Rotate the park aside, then read what was rotated. */
    method TakePark() returns (fate: Fate, taken: Entries)
      requires Resting(disk, book)
      modifies this`disk, this`book
      ensures if fate.Returned? then Draining(disk, book, multiset(taken)) && Takes(book, multiset(taken))
              else Resting(disk, book)
      ensures fate.Returned? && !Stuck(book.calls) ==>
                forall e :: e in old(book.owed) ==> e in taken || Hidden(book.calls, e)
      ensures book.clean ==> old(book.clean) && fate.Returned?
      ensures Kept(old(book), old(attempts), book, attempts)
    {
      hide Safe, Balanced, Draining, Takes, Resting, Recovered, Waited, Kept;
      taken := [];
      var orphaned;
      fate, orphaned := RecoverOrphans();
      if !fate.Returned? { return; }
      ghost var b := book;
      var alive, renamed := RenamePark(orphaned);
      KeptTwice(old(book), attempts, b, attempts, book, attempts);
      if !alive { return Died, []; }
      if !renamed { return Returned, orphaned; }
      ghost var rest := multiset(Lines(disk.twin));
      b := book;
      alive, taken := ReadTwin(rest);
      KeptTwice(old(book), attempts, b, attempts, book, attempts);
      HiddenStays(b.calls, Read(Lines(disk.twin), taken));
      StuckOnlyByRename(b.calls, Lines(disk.twin), taken);
      if taken != Lines(disk.twin) { MissedKeeps(disk, book); }
      if !alive { CutShort(disk, book); }
      fate := if alive then Returned else Died;
    }

    method RenamePark(orphaned: Entries) returns (alive: bool, renamed: bool)
      requires Recovered(disk, book, orphaned)
      modifies this`disk, this`book
      ensures var rest := multiset(if renamed then Lines(disk.twin) else orphaned);
              if alive then
                && Draining(disk, book, rest) && Takes(book, rest)
                && (!Stuck(book.calls) ==> forall e :: e in old(book.owed) ==> e in rest || Hidden(book.calls, e))
              else Resting(disk, book)
      ensures book.clean ==> old(book.clean) && alive
      ensures Kept(old(book), old(attempts), book, attempts)
    {
      hide Kept, Waited, Hidden, Stuck, Draining, Takes, Recovered;
      alive := Await();
      WaitKeepsRecovered(old(disk), old(book), disk, book, orphaned);
      renamed := disk.park.Some?;
      if !alive { return; }
      ghost var b := book;
      if renamed { renamed := *; }
      if renamed {
        RenameKeeps(disk, book, orphaned);
        disk, book := Disk(None, disk.park), AfterRename(disk, book, true);
      } else {
        NoRenameKeeps(disk, book, orphaned);
        book := AfterRename(disk, book, false);
      }
      KeptByMishap(b, book, attempts);
      KeptTwice(old(book), attempts, b, attempts, book, attempts);
    }

    /** Write one entry into the bucket, decline to, or fail. */
    method Write(e: ParkedArtifact, ghost rest: Pile) returns (alive: bool, outcome: Outcome)
      requires Draining(disk, book, multiset{e} + rest) && Takes(book, multiset{e} + rest)
      modifies this`disk, this`book, this`attempts
      ensures Safe(disk, book) && (book.clean ==> old(book.clean) && alive)
      ensures book.calls == old(book.calls)
      ensures alive ==>
                && attempts == old(attempts) + [Attempt(e, outcome)]
                && var left := if outcome.Threw? then multiset{e} + rest else rest;
                   Draining(disk, book, left) && Takes(book, left)
      ensures Kept(old(book), old(attempts), book, attempts)
    {
      hide Kept, Waited;
      alive := Await();
      WaitKeeps(old(disk), old(book), disk, book, multiset{e} + rest);
      if !alive { return false, Threw; }
      outcome := *;
      KeptByAttempt(book, attempts, e, outcome);
      ghost var b := book;
      attempts := attempts + [Attempt(e, outcome)];
      if !outcome.Threw? {
        SettleKeeps(disk, book, e, rest);
        book := book.(settled := book.settled + multiset{e}, owed := book.owed - {e});
      }
      KeptTwice(old(book), old(attempts), b, old(attempts), book, attempts);
    }

    /** Every entry once, in order. */
    method Replay(held: seq<Held>)
      returns (alive: bool, result: ReplayResult, failing: Entries, ghost made: seq<Attempt>)
      requires var rest := multiset(Released(held)); Draining(disk, book, rest) && Takes(book, rest)
      modifies this`disk, this`book, this`attempts
      ensures Safe(disk, book) && (book.clean ==> old(book.clean) && alive)
      ensures book.calls == old(book.calls)
      ensures alive ==>
                && Draining(disk, book, multiset(failing)) && Takes(book, multiset(failing))
                && attempts == old(attempts) + made
                && |made| == |held| && (forall i :: 0 <= i < |held| ==> made[i].entry == held[i].entry)
                && Reports(result, made) && result.failed == |failing|
      ensures Kept(old(book), old(attempts), book, attempts)
    {
      hide Safe, Balanced, Draining, Takes, Reports, Kept, Released;
      KeptByMishap(book, book, attempts);
      failing, made := [], [];
      var replayed, dropped, rewrote := 0, 0, [];
      result := ReplayResult(0, 0, 0, []);
      assert Reports(ReplayResult(0, 0, 0, []), []) by { NothingToReport(); }
      ghost var rest := multiset(Released(held));
      assert held[0..] == held;
      for i := 0 to |held|
        invariant Draining(disk, book, rest) && Takes(book, rest)
        invariant rest == multiset(failing) + multiset(Released(held[i..]))
        invariant book.clean ==> old(book.clean)
        invariant book.calls == old(book.calls)
        invariant Kept(old(book), old(attempts), book, attempts)
        invariant attempts == old(attempts) + made
        invariant |made| == i && forall j :: 0 <= j < i ==> made[j].entry == held[j].entry
        invariant Reports(ReplayResult(replayed, |failing|, dropped, rewrote), made)
      {
        var e := held[i].entry;
        ReleasedFrom(held, i);
        ghost var left := multiset(failing) + multiset(Released(held[i + 1..]));
        assert rest == multiset{e} + left;
        var outcome;
        ghost var b, before := book, attempts;
        alive, outcome := Write(e, left);
        KeptTwice(old(book), old(attempts), b, before, book, attempts);
        if !alive { return; }
        ReportsOne(ReplayResult(replayed, |failing|, dropped, rewrote), made, Attempt(e, outcome));
        made := made + [Attempt(e, outcome)];
        match outcome {
          case Declined => dropped := dropped + 1;
          case Wrote =>
            replayed := replayed + 1;
            rewrote := rewrote + [e.session];
          case Threw => failing := failing + [e];
        }
        rest := if outcome.Threw? then rest else left;
      }
      ReleasedFrom(held, |held|);
      assert rest == multiset(failing);
      result := ReplayResult(replayed, |failing|, dropped, rewrote);
      alive := true;
    }

    /** What failed goes back to the park. */
    method ReparkAll(failing: Entries) returns (fate: Fate)
      requires Draining(disk, book, multiset(failing)) && Takes(book, multiset(failing))
      modifies this`disk, this`book
      ensures Safe(disk, book) && (book.clean ==> old(book.clean) && fate.Returned?)
      ensures book.calls == old(book.calls)
      ensures fate.Returned? ==> Draining(disk, book, multiset{})
      ensures failing == [] ==> Takes(book, multiset{})
      ensures Kept(old(book), old(attempts), book, attempts)
    {
      hide Takes, Kept;
      KeptByMishap(book, book, attempts);
      fate := Returned;
      for j := 0 to |failing|
        invariant Kept(old(book), attempts, book, attempts)
        invariant Draining(disk, book, multiset(failing[j..]))
        invariant failing == [] ==> Takes(book, multiset{})
        invariant book.clean ==> old(book.clean)
        invariant book.calls == old(book.calls)
        invariant fate.Returned?
        invariant forall e :: e in failing ==> e in book.parked
      {
        assert failing[j..] == [failing[j]] + failing[j + 1..];
        assert multiset(failing[j..]) == multiset{failing[j]} + multiset(failing[j + 1..]);
        ghost var b := book;
        fate := Repark(failing[j], multiset(failing[j + 1..]));
        KeptTwice(old(book), attempts, b, attempts, book, attempts);
        if !fate.Returned? { return; }
      }
    }

    /** One drain. Wherever it stops, nothing owed is lost and nothing is invented; where it
        returns, it attempted each entry it took exactly once, in park order where there is one, and
        reports just that. */
    method DrainOnce()
      returns (fate: Fate, result: ReplayResult, ghost taken: Entries, ghost held: seq<Held>, ghost made: seq<Attempt>)
      requires Resting(disk, book)
      modifies this`disk, this`book, this`attempts
      ensures Resting(disk, book)
      ensures book.clean ==> old(book.clean) && fate.Returned?
      ensures fate.Returned? ==>
                && Rearranges(held, taken) && (InParkOrder(held) <==> !Crossed(taken))
                && attempts == old(attempts) + made
                && |made| == |held| && (forall i :: 0 <= i < |held| ==> made[i].entry == held[i].entry)
                && Reports(result, made)
                && result.replayed + result.failed + result.dropped == |taken|
      ensures fate.Returned? && !Stuck(book.calls) ==>
                forall e :: e in old(book.owed) ==> e in taken || Hidden(book.calls, e)
      ensures fate.Returned? && result.failed == 0 ==> Takes(book, multiset{})
      ensures Kept(old(book), old(attempts), book, attempts)
    {
      hide Safe, Balanced, Draining, Takes, Kept;
      result, taken, held, made := ReplayResult(0, 0, 0, []), [], [], [];
      var entries;
      fate, entries := TakePark();
      if !fate.Returned? { return; }
      var order := SortParked(entries);
      var alive, failing;
      ghost var b := book;
      alive, result, failing, made := Replay(order);
      KeptTwice(old(book), old(attempts), b, old(attempts), book, attempts);
      if !alive {
        CutShort(disk, book);
        return Died, result, [], [], made;
      }
      b := book;
      fate := ReparkAll(failing);
      KeptTwice(old(book), old(attempts), b, attempts, book, attempts);
      if !fate.Returned? {
        CutShort(disk, book);
        return;
      }
      b := book;
      alive := UnlinkTwin();
      KeptTwice(old(book), old(attempts), b, attempts, book, attempts);
      taken, held := entries, order;
      EveryAttemptIsCounted(result, made);
      fate := if alive then Returned else Died;
    }

    /** One look at the pause: under it the latch goes up; without it, a drain that is owed runs. Such
        a drain attempts whatever was owed, and the latch stays up exactly if an attempt threw. */
    method Refresh(paused: bool) returns (fate: Fate)
      requires Resting(disk, book) && Latched(latch, book)
      modifies this
      ensures Resting(disk, book) && Latched(latch, book)
      ensures Kept(old(book), old(attempts), book, attempts)
      ensures paused || !old(latch) ==>
                fate.Returned? && latch == paused && disk == old(disk) && book == old(book) && attempts == old(attempts)
      ensures !paused && old(latch) && fate.Returned? ==>
                && (latch <==> !NoneThrew(attempts[|old(attempts)|..]))
                && (!Stuck(book.calls) ==>
                      forall e :: e in old(book.owed) ==>
                        Attempted(e, attempts[|old(attempts)|..]) || Hidden(book.calls, e))
      ensures !fate.Returned? ==> latch == old(latch)
      ensures book.clean ==> old(book.clean) && fate.Returned?
    {
      hide Kept;
      KeptByMishap(book, book, attempts);
      if paused {
        latch := true;
        return Returned;
      }
      if !latch { return Returned; }
      var result;
      ghost var taken, held, made;
      fate, result, taken, held, made := DrainOnce();
      if fate.Returned? {
        assert attempts[|old(attempts)|..] == made;
        CountThrew(made);
        AttemptedAll(taken, held, made);
        if result.failed == 0 { latch := false; }
      }
    }

    lemma AttemptedAll(taken: Entries, held: seq<Held>, made: seq<Attempt>)
      requires Rearranges(held, taken)
      requires |made| == |held| && forall i :: 0 <= i < |held| ==> made[i].entry == held[i].entry
      ensures forall e :: e in taken ==> Attempted(e, made)
    {
      forall e | e in taken
        ensures Attempted(e, made)
      {
        assert e in multiset(Released(held));
        var i :| 0 <= i < |held| && Released(held)[i] == e;
        assert made[i].entry == e;
      }
    }

    /** Any number of lives of any number of refreshes, cut short anywhere, with the gateway parking
        throughout. A new process starts with its latch up. */
    method Live(lives: nat, refreshes: nat)
      requires Resting(disk, book) && Latched(latch, book)
      modifies this
      ensures Resting(disk, book) && Latched(latch, book)
      ensures Kept(old(book), old(attempts), book, attempts)
    {
      hide Kept;
      KeptByMishap(book, book, attempts);
      for life := 0 to lives
        invariant Resting(disk, book) && Latched(latch, book)
        invariant Kept(old(book), old(attempts), book, attempts)
      {
        latch := true;
        var fate := Returned;
        for refresh := 0 to refreshes
          invariant Resting(disk, book) && Latched(latch, book)
          invariant Kept(old(book), old(attempts), book, attempts)
        {
          if fate.Died? { break; }
          ghost var d, b, before := disk, book, attempts;
          var alive := Await();
          WaitKeeps(d, b, disk, book, multiset{});
          KeptTwice(old(book), old(attempts), b, before, book, attempts);
          if !alive { break; }
          var paused: bool := *;
          b := book;
          fate := Refresh(paused);
          KeptTwice(old(book), old(attempts), b, before, book, attempts);
        }
      }
    }
  }

  /** What a run of any length leaves. Nothing owed is missing from the disk but what was
      in a file whose read missed it; and while nothing at all goes wrong every line ever parked was
      settled exactly as often as it was parked, or is waiting in the park. */
  lemma NothingLost(d: Disk, b: Book, e: ParkedArtifact)
    requires Resting(d, b)
    ensures e in b.owed ==> e in Lines(d.park) || e in Lines(d.twin) || Hidden(b.calls, e)
    ensures b.clean ==> multiset(Lines(d.park))[e] + b.settled[e] == b.parked[e]
    ensures e in Lines(d.park) || e in Lines(d.twin) ==> e in b.parked
  {
    assert b.clean ==> (multiset(Lines(d.park)) + multiset{} + b.settled)[e] == b.parked[e];
  }

  /** Over a run of any length, an entry that was owed when it began, or was parked since, is on the
      disk when it ends unless an attempt of the run's wrote it or declined it, or a read of a file that
      held it missed it. */
  lemma OwedUntilSettled(b: Book, before: seq<Attempt>, d: Disk, b': Book, after: seq<Attempt>, e: ParkedArtifact)
    requires Kept(b, before, b', after) && Resting(d, b')
    requires e in b.owed || b.parked[e] < b'.parked[e]
    requires !Settles(after[|before|..], e)
    ensures e in b'.owed && (e in Lines(d.park) || e in Lines(d.twin) || Hidden(b'.calls, e))
  {
    SettledByOne(after[|before|..], e);
  }

  /** The latch is down only where everything still owed arrived after the last drain took the file:
      under a pause, that is, which a later refresh sees and which puts the latch up again. */
  ghost predicate Latched(latch: bool, b: Book) {
    !latch ==> Takes(b, multiset{})
  }
}
