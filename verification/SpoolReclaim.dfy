/** Which spool files to drop, and what that loses (src/console/audit-spool.ts, the cap). */
module SpoolReclaim {
  import opened Wrappers

  datatype SpoolUsage = SpoolUsage(files: int, bytes: int)

  datatype SpoolCaps = SpoolCaps(maxFiles: int, maxBytes: int)

  /** A file as listed, and the stamps of the records in it. */
  datatype SpoolFile = SpoolFile(name: string, bytes: nat, writer: string, stamps: seq<int>)

  predicate OverSpoolCap(usage: SpoolUsage, caps: SpoolCaps) {
    usage.files > caps.maxFiles || usage.bytes > caps.maxBytes
  }

  datatype ReclaimPlan = ReclaimPlan(
    files: seq<SpoolFile>,
    records: nat,
    start: Option<int>,
    end: Option<int>,
    bytes: nat)

  predicate Eligible(file: SpoolFile, writer: string, keep: set<string>) {
    file.writer == writer && file.name !in keep
  }

  /** The files of one writer that may go, oldest first. */
  function EligibleOf(files: seq<SpoolFile>, writer: string, keep: set<string>): (r: seq<SpoolFile>)
    ensures forall f :: f in r <==> f in files && f.writer == writer && f.name !in keep
  {
    if files == [] then []
    else
      var last := files[|files| - 1];
      assert files == files[..|files| - 1] + [last];
      EligibleOf(files[..|files| - 1], writer, keep) + if Eligible(last, writer, keep) then [last] else []
  }

  /** `r` is what stands in `files` at these places, which are all that are eligible, in order. */
  ghost predicate PlacedAt(r: seq<SpoolFile>, places: seq<nat>, files: seq<SpoolFile>, writer: string,
                           keep: set<string>) {
    && |places| == |r|
    && (forall i :: 0 <= i < |r| ==> places[i] < |files| && files[places[i]] == r[i])
    && (forall i, j :: 0 <= i < j < |places| ==> places[i] < places[j])
    && (forall j :: 0 <= j < |files| ==> (j in places <==> Eligible(files[j], writer, keep)))
  }

  lemma PlacedOneMore(r: seq<SpoolFile>, places: seq<nat>, files: seq<SpoolFile>, writer: string, keep: set<string>)
    requires files != [] && PlacedAt(r, places, files[..|files| - 1], writer, keep)
    ensures var n, last := |files| - 1, files[|files| - 1];
            if Eligible(last, writer, keep) then PlacedAt(r + [last], places + [n], files, writer, keep)
            else PlacedAt(r, places, files, writer, keep)
  {
    hide Eligible;
    var n, init := |files| - 1, files[..|files| - 1];
    assert forall j :: 0 <= j < n ==> files[j] == init[j];
    assert forall p :: p in places ==> p < n;
    var after := if Eligible(files[n], writer, keep) then places + [n] else places;
    forall j | 0 <= j < |files|
      ensures j in after <==> Eligible(files[j], writer, keep)
    {
      if j < n { assert j in places <==> Eligible(init[j], writer, keep); }
    }
  }

  /** Every file that may go is there, each once, in the order of the listing. */
  lemma {:induction false} EligibleInOrder(files: seq<SpoolFile>, writer: string, keep: set<string>)
    returns (places: seq<nat>)
    ensures PlacedAt(EligibleOf(files, writer, keep), places, files, writer, keep)
  {
    places := [];
    if files != [] {
      var n := |files| - 1;
      places := EligibleInOrder(files[..n], writer, keep);
      PlacedOneMore(EligibleOf(files[..n], writer, keep), places, files, writer, keep);
      if Eligible(files[n], writer, keep) { places := places + [n]; }
    }
  }

  function TotalBytes(files: seq<SpoolFile>): nat {
    if files == [] then 0 else TotalBytes(files[..|files| - 1]) + files[|files| - 1].bytes
  }

  function TotalRecords(files: seq<SpoolFile>): nat {
    if files == [] then 0 else TotalRecords(files[..|files| - 1]) + |files[|files| - 1].stamps|
  }

  /** What is left once `dropped` are gone, with the room the caller is about to take. */
  function UsageWithout(files: seq<SpoolFile>, dropped: seq<SpoolFile>, reserve: SpoolUsage): SpoolUsage {
    SpoolUsage(|files| - |dropped| + reserve.files, TotalBytes(files) - TotalBytes(dropped) + reserve.bytes)
  }

  function FirstStamp(file: SpoolFile): Option<int> {
    if file.stamps == [] then None else Some(file.stamps[0])
  }

  function LastStamp(file: SpoolFile): Option<int> {
    if file.stamps == [] then None else Some(file.stamps[|file.stamps| - 1])
  }

  /** `s` is the least stamp any of the files begins with, or none has a record. */
  ghost predicate LeastFirst(s: Option<int>, files: seq<SpoolFile>) {
    if s.None? then forall f :: f in files ==> f.stamps == []
    else
      && (exists f :: f in files && FirstStamp(f) == s)
      && (forall f :: f in files && f.stamps != [] ==> s.value <= f.stamps[0])
  }

  /** `s` is the greatest stamp any of the files ends with, or none has a record. */
  ghost predicate GreatestLast(s: Option<int>, files: seq<SpoolFile>) {
    if s.None? then forall f :: f in files ==> f.stamps == []
    else
      && (exists f :: f in files && LastStamp(f) == s)
      && (forall f :: f in files && f.stamps != [] ==> f.stamps[|f.stamps| - 1] <= s.value)
  }

  /** What the plan says it loses: so many bytes and records, from the first record of a file to the
      last of one. */
  ghost predicate Announces(plan: ReclaimPlan) {
    && plan.bytes == TotalBytes(plan.files)
    && plan.records == TotalRecords(plan.files)
    && LeastFirst(plan.start, plan.files)
    && GreatestLast(plan.end, plan.files)
  }

  // ---- whether the span is the span ----

  /** `s` is the least stamp in `files`, or there is none at all. */
  ghost predicate Earliest(s: Option<int>, files: seq<SpoolFile>) {
    if s.None? then forall f :: f in files ==> f.stamps == []
    else
      && (exists f :: f in files && s.value in f.stamps)
      && (forall f, t :: f in files && t in f.stamps ==> s.value <= t)
  }

  ghost predicate Latest(s: Option<int>, files: seq<SpoolFile>) {
    if s.None? then forall f :: f in files ==> f.stamps == []
    else
      && (exists f :: f in files && s.value in f.stamps)
      && (forall f, t :: f in files && t in f.stamps ==> t <= s.value)
  }

  /** No record is older than every file's first. */
  ghost predicate FirstsLead(files: seq<SpoolFile>) {
    forall f, t :: f in files && t in f.stamps ==>
      exists g :: g in files && g.stamps != [] && g.stamps[0] <= t
  }

  /** No record is younger than every file's last. */
  ghost predicate LastsClose(files: seq<SpoolFile>) {
    forall f, t :: f in files && t in f.stamps ==>
      exists g :: g in files && g.stamps != [] && t <= g.stamps[|g.stamps| - 1]
  }

  /** Where a wall clock was stepped back under a writer, the span announced is not the span lost:
      here it begins after it ends. */
  lemma SteppedBackClock(plan: ReclaimPlan, file: SpoolFile)
    requires Announces(plan) && plan.files == [file] && file.stamps == [5, 3]
    ensures plan.start == Some(5) && plan.end == Some(3)
    ensures !Earliest(plan.start, plan.files) && !Latest(plan.end, plan.files)
  {
    assert file in plan.files && 3 in file.stamps && 5 in file.stamps;
  }

  /** The span announced is the span lost exactly if no record is older than every file's first, and
      none younger than every file's last. */
  lemma SpanExactly(plan: ReclaimPlan)
    requires Announces(plan)
    ensures Earliest(plan.start, plan.files) <==> FirstsLead(plan.files)
    ensures Latest(plan.end, plan.files) <==> LastsClose(plan.files)
  {
    StartExactly(plan.start, plan.files);
    EndExactly(plan.end, plan.files);
  }

  lemma StartExactly(s: Option<int>, files: seq<SpoolFile>)
    requires LeastFirst(s, files)
    ensures Earliest(s, files) <==> FirstsLead(files)
  {
    if s.Some? {
      var f :| f in files && FirstStamp(f) == s;
      assert s.value in f.stamps && f.stamps != [] && f.stamps[0] == s.value;
      if FirstsLead(files) {
        forall g, t | g in files && t in g.stamps
          ensures s.value <= t
        {
          var h :| h in files && h.stamps != [] && h.stamps[0] <= t;
        }
      }
    }
  }

  lemma EndExactly(s: Option<int>, files: seq<SpoolFile>)
    requires GreatestLast(s, files)
    ensures Latest(s, files) <==> LastsClose(files)
  {
    if s.Some? {
      var f :| f in files && LastStamp(f) == s;
      assert s.value in f.stamps && f.stamps != [] && f.stamps[|f.stamps| - 1] == s.value;
      if LastsClose(files) {
        forall g, t | g in files && t in g.stamps
          ensures t <= s.value
        {
          var h :| h in files && h.stamps != [] && t <= h.stamps[|h.stamps| - 1];
        }
      }
    }
  }

  /** In such a file the stamps do not go back: its writer's clock was never stepped back. */
  predicate InOrder(file: SpoolFile) {
    forall i, j :: 0 <= i < j < |file.stamps| ==> file.stamps[i] <= file.stamps[j]
  }

  /** As it is wherever no chosen file's stamps go back. */
  lemma SpanOfSteadyClocks(plan: ReclaimPlan)
    requires Announces(plan) && forall f :: f in plan.files ==> InOrder(f)
    ensures Earliest(plan.start, plan.files) && Latest(plan.end, plan.files)
  {
    forall f, t | f in plan.files && t in f.stamps
      ensures f.stamps != [] && f.stamps[0] <= t <= f.stamps[|f.stamps| - 1]
    {
      assert InOrder(f);
    }
    SpanExactly(plan);
  }

  /** The least number of the oldest files that may go, enough to be within the caps, or all. */
  ghost predicate LeastOldest(chosen: seq<SpoolFile>, files: seq<SpoolFile>, eligible: seq<SpoolFile>,
                              reserve: SpoolUsage, caps: SpoolCaps) {
    && chosen <= eligible
    && (!OverSpoolCap(UsageWithout(files, chosen, reserve), caps) || chosen == eligible)
    && (forall k :: 0 <= k < |chosen| ==> OverSpoolCap(UsageWithout(files, chosen[..k], reserve), caps))
  }

  lemma OneMoreFile(chosen: seq<SpoolFile>, file: SpoolFile)
    ensures TotalBytes(chosen + [file]) == TotalBytes(chosen) + file.bytes
    ensures TotalRecords(chosen + [file]) == TotalRecords(chosen) + |file.stamps|
  {
    assert (chosen + [file])[..|chosen|] == chosen;
  }

  function Earlier(a: Option<int>, b: Option<int>): Option<int> {
    if b.Some? && (a.None? || b.value < a.value) then b else a
  }

  function LaterOf(a: Option<int>, b: Option<int>): Option<int> {
    if b.Some? && (a.None? || b.value > a.value) then b else a
  }

  lemma SpanGrows(plan: ReclaimPlan, file: SpoolFile)
    requires LeastFirst(plan.start, plan.files) && GreatestLast(plan.end, plan.files)
    ensures LeastFirst(Earlier(plan.start, FirstStamp(file)), plan.files + [file])
    ensures GreatestLast(LaterOf(plan.end, LastStamp(file)), plan.files + [file])
  {
    var after := plan.files + [file];
    assert file in after && forall f :: f in plan.files ==> f in after;
  }

  lemma {:induction false} EligibleGrows(files: seq<SpoolFile>, i: nat, writer: string, keep: set<string>)
    requires i < |files|
    ensures EligibleOf(files[..i + 1], writer, keep)
         == EligibleOf(files[..i], writer, keep) + if Eligible(files[i], writer, keep) then [files[i]] else []
  {
    assert files[..i + 1][..i] == files[..i];
  }

  lemma {:induction false} EligibleIsPrefix(files: seq<SpoolFile>, i: nat, writer: string, keep: set<string>)
    requires i <= |files|
    ensures EligibleOf(files[..i], writer, keep) <= EligibleOf(files, writer, keep)
    decreases |files| - i
  {
    if i < |files| {
      EligibleGrows(files, i, writer, keep);
      EligibleIsPrefix(files, i + 1, writer, keep);
    } else {
      assert files[..i] == files;
    }
  }

  method SumBytes(files: seq<SpoolFile>) returns (bytes: nat)
    ensures bytes == TotalBytes(files)
  {
    bytes := 0;
    for i := 0 to |files|
      invariant bytes == TotalBytes(files[..i])
    {
      assert files[..i + 1][..i] == files[..i];
      bytes := bytes + files[i].bytes;
    }
    assert files[..|files|] == files;
  }

  /** One file more to lose. */
  method Choose(plan: ReclaimPlan, file: SpoolFile) returns (more: ReclaimPlan)
    requires Announces(plan)
    ensures more.files == plan.files + [file] && Announces(more)
  {
    SpanGrows(plan, file);
    OneMoreFile(plan.files, file);
    hide LeastFirst, GreatestLast, TotalBytes, TotalRecords;
    more := ReclaimPlan(
      plan.files + [file],
      plan.records + |file.stamps|,
      Earlier(plan.start, FirstStamp(file)),
      LaterOf(plan.end, LastStamp(file)),
      plan.bytes + file.bytes);
  }

  /** Each of these choices was still forced. */
  ghost predicate Forced(files: seq<SpoolFile>, chosen: seq<SpoolFile>, reserve: SpoolUsage, caps: SpoolCaps) {
    forall k :: 0 <= k < |chosen| ==> OverSpoolCap(UsageWithout(files, chosen[..k], reserve), caps)
  }

  lemma ForcedOnce(files: seq<SpoolFile>, chosen: seq<SpoolFile>, file: SpoolFile, reserve: SpoolUsage, caps: SpoolCaps)
    requires Forced(files, chosen, reserve, caps)
    requires OverSpoolCap(UsageWithout(files, chosen, reserve), caps)
    ensures Forced(files, chosen + [file], reserve, caps)
    ensures UsageWithout(files, chosen + [file], reserve)
         == var u := UsageWithout(files, chosen, reserve); SpoolUsage(u.files - 1, u.bytes - file.bytes)
  {
    var after := chosen + [file];
    OneMoreFile(chosen, file);
    hide OverSpoolCap;
    forall k | 0 <= k < |after|
      ensures OverSpoolCap(UsageWithout(files, after[..k], reserve), caps)
    {
      assert after[..k] == chosen[..k];
      if k == |chosen| { assert chosen[..k] == chosen; }
    }
  }

  lemma NothingChosen(files: seq<SpoolFile>, plan: ReclaimPlan, writer: string, keep: set<string>,
                      reserve: SpoolUsage, caps: SpoolCaps)
    requires plan == ReclaimPlan([], 0, None, None, 0)
    ensures Announces(plan) && Forced(files, [], reserve, caps) && EligibleOf(files[..0], writer, keep) == []
    ensures UsageWithout(files, [], reserve) == SpoolUsage(|files| + reserve.files, TotalBytes(files) + reserve.bytes)
  {
  }

  /** Choose the oldest files of one writer to drop, without dropping them yet. */
  method PlanSpoolReclaim(files: seq<SpoolFile>, writer: string, keep: set<string>,
                          caps: SpoolCaps, reserve: SpoolUsage)
    returns (plan: ReclaimPlan)
    ensures LeastOldest(plan.files, files, EligibleOf(files, writer, keep), reserve, caps)
    ensures Announces(plan)
  {
    plan := ReclaimPlan([], 0, None, None, 0);
    NothingChosen(files, plan, writer, keep, reserve, caps);
    var bytes := SumBytes(files);
    var usage := SpoolUsage(|files| + reserve.files, bytes + reserve.bytes);
    hide OverSpoolCap, UsageWithout, TotalBytes, TotalRecords, EligibleOf, Announces, Forced;
    var i := 0;
    while i < |files| && OverSpoolCap(usage, caps)
      invariant 0 <= i <= |files|
      invariant usage == UsageWithout(files, plan.files, reserve)
      invariant plan.files == EligibleOf(files[..i], writer, keep)
      invariant Forced(files, plan.files, reserve, caps)
      invariant Announces(plan)
    {
      var file := files[i];
      EligibleGrows(files, i, writer, keep);
      i := i + 1;
      if file.writer != writer || file.name in keep { continue; }
      ForcedOnce(files, plan.files, file, reserve, caps);
      plan := Choose(plan, file);
      usage := SpoolUsage(usage.files - 1, usage.bytes - file.bytes);
    }
    EligibleIsPrefix(files, i, writer, keep);
    if i == |files| { assert files[..i] == files; }
  }
}
