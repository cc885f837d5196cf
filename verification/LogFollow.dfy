/** Following a log across its rotations (src/log-tail.ts, `watchLines`). The log is the list of
    inodes the path has named, oldest first; at every wait the writer may append bytes, rotate, and
    start a new file. */
module LogFollow {
  import opened Wrappers
  import opened Bytes
  import opened Utf8
  import opened Lines
  import opened FileLogSink

  /** `live` says whether the path names the last inode, or, just after a rename, none. */
  datatype Log = Log(inodes: seq<Bytes>, live: bool)

  /** No path names it any more, and nobody writes to it. */
  predicate Retired(log: Log, i: nat) {
    i + 1 < |log.inodes| || (i + 1 == |log.inodes| && !log.live)
  }

  /** A file that has been rotated away consists of whole lines. */
  predicate WellKept(log: Log) {
    && (log.live ==> log.inodes != [])
    && (forall i :: 0 <= i < |log.inodes| && Retired(log, i) ==> WholeLines(log.inodes[i]))
  }

  /** Files only grow, retired ones not even that, and new ones come after. */
  predicate Grown(log: Log, log': Log) {
    && |log.inodes| <= |log'.inodes|
    && (forall i :: 0 <= i < |log.inodes| ==> log.inodes[i] <= log'.inodes[i])
    && (forall i :: 0 <= i < |log.inodes| && Retired(log, i) ==>
          Retired(log', i) && log'.inodes[i] == log.inodes[i])
  }

  // ---- what has been read of one file ----

  /** The text of the whole characters among the bytes read. */
  ghost function TextOf(bytes: Bytes): Text {
    WholeIsWellFormed(bytes);
    Decode(bytes[..Whole(bytes)])
  }

  /** The lines that are complete in the bytes read. */
  ghost function CompleteLines(bytes: Bytes): seq<Text> {
    NonEmpty(Init(Split(TextOf(bytes))))
  }

  /** The decoder holds the bytes of a character cut short, and `carry` the text of a line. */
  ghost predicate Carries(bytes: Bytes, held: Bytes, carry: Text) {
    && held == bytes[Whole(bytes)..]
    && carry == Last(Split(TextOf(bytes)))
  }

  lemma CarriesNothing()
    ensures Carries([], [], []) && CompleteLines([]) == []
  {
    assert Whole([]) == 0;
    assert Split([]) == [[]];
  }

  /** More bytes make the characters and lines they complete, and no others. */
  lemma TextGrows(bytes: Bytes, held: Bytes, more: Bytes)
    requires held == bytes[Whole(bytes)..]
    ensures var w := Whole(held + more);
            && WellFormed((held + more)[..w])
            && TextOf(bytes + more) == TextOf(bytes) + Decode((held + more)[..w])
            && (bytes + more)[Whole(bytes + more)..] == (held + more)[w..]
  {
    hide Whole, WellFormed, Decode;
    var w0 := Whole(bytes);
    var front := bytes[..w0];
    WholeIsWellFormed(bytes);
    WholeIsWellFormed(held + more);
    assert bytes + more == front + (held + more);
    WholeAfter(front, held + more);
    var w := Whole(held + more);
    Join(front, (held + more)[..w]);
    assert (bytes + more)[..w0 + w] == front + (held + more)[..w];
  }

  lemma MeetAtCarry(x: seq<Text>, y: seq<Text>)
    requires x != [] && y != []
    ensures Init(Meet(x, y)) == Init(x) + Init(Meet([Last(x)], y))
    ensures Last(Meet(x, y)) == Last(Meet([Last(x)], y))
  {
  }

  /** Splitting the carried text and the new together gives the parts that are new. */
  lemma LinesGrow(text: Text, more: Text)
    ensures Init(Split(text + more)) == Init(Split(text)) + Init(Split(Last(Split(text)) + more))
    ensures Last(Split(text + more)) == Last(Split(Last(Split(text)) + more))
  {
    hide Split, NoNewline, Meet;
    var carry := Last(Split(text));
    SplitIsExact(text);
    assert carry in Split(text);
    SplitOfLine(carry);
    SplitJoin(text, more);
    SplitJoin(carry, more);
    MeetAtCarry(Split(text), Split(more));
  }

  lemma ReadMore(bytes: Bytes, held: Bytes, carry: Text, more: Bytes)
    requires Carries(bytes, held, carry)
    ensures var w := Whole(held + more);
            && WellFormed((held + more)[..w])
            && var parts := Split(carry + Decode((held + more)[..w]));
            && Carries(bytes + more, (held + more)[w..], Last(parts))
            && CompleteLines(bytes + more) == CompleteLines(bytes) + NonEmpty(Init(parts))
  {
    TextGrows(bytes, held, more);
    var x := Decode((held + more)[..Whole(held + more)]);
    LinesGrow(TextOf(bytes), x);
    NonEmptyJoin(Init(Split(TextOf(bytes))), Init(Split(carry + x)));
  }

  /** Of whole lines nothing is left to carry. */
  lemma AllOfWholeLines(bytes: Bytes)
    requires WholeLines(bytes)
    ensures CompleteLines(bytes) == LinesIn(bytes)
  {
    WholeOfWellFormed(bytes);
    assert bytes[..|bytes|] == bytes;
    LastPartOfWhole(Decode(bytes));
    NonEmptyInit(Split(Decode(bytes)));
  }

  lemma {:induction false} RestIsWellFormed(a: Bytes, b: Bytes)
    requires WellFormed(a) && WellFormed(a + b)
    ensures WellFormed(b)
    decreases |a|
  {
    hide *;
    if a == [] {
      assert a + b == b;
    } else {
      FirstStep(a);
      FirstStep(a + b);
      CharLengthOfFront(a, b);
      var n := CharLength(a);
      assert (a + b)[n..] == a[n..] + b;
      RestIsWellFormed(a[n..], b);
    }
  }

  /** What follows a whole character of whole lines is whole lines. */
  lemma RestIsWholeLines(bytes: Bytes, from: nat)
    requires WholeLines(bytes) && from <= |bytes| && WellFormed(bytes[..from])
    ensures WholeLines(bytes[from..])
  {
    var a, b := bytes[..from], bytes[from..];
    assert bytes == a + b;
    RestIsWellFormed(a, b);
    Join(a, b);
    var x, y := Decode(a), Decode(b);
    if y != [] { assert (x + y)[|x + y| - 1] == y[|y| - 1]; }
  }

  // ---- following ----

  ghost function LinesAt(log: Log, i: nat, from: nat): seq<Text> {
    if i < |log.inodes| && from <= |log.inodes[i]| && WellFormed(log.inodes[i][from..])
    then LinesIn(log.inodes[i][from..]) else []
  }

  /** Following starts at byte `start` of the first file opened, and at byte 0 of every later one. */
  function Base(files: nat, start: nat): nat { if files <= 1 then start else 0 }

  /** The lines of the files opened so far, in the order they were opened. */
  ghost function Followed(log: Log, visited: seq<nat>, start: nat): seq<Text> {
    if visited == [] then []
    else
      var n := |visited| - 1;
      Followed(log, visited[..n], start) + LinesAt(log, visited[n], Base(|visited|, start))
  }

  predicate AllRetired(log: Log, visited: seq<nat>) {
    forall j :: 0 <= j < |visited| ==> Retired(log, visited[j])
  }

  /** What has been emitted of retired files stays what they hold. */
  lemma {:induction false} FollowedStays(log: Log, log': Log, visited: seq<nat>, start: nat)
    requires Grown(log, log') && AllRetired(log, visited)
    ensures Followed(log', visited, start) == Followed(log, visited, start)
    ensures AllRetired(log', visited)
    decreases |visited|
  {
    if visited != [] {
      FollowedStays(log, log', visited[..|visited| - 1], start);
      assert Retired(log, visited[|visited| - 1]);
    }
  }

  predicate Ascending(visited: seq<nat>) {
    forall i, j :: 0 <= i < j < |visited| ==> visited[i] < visited[j]
  }

  /** Where a follower stands: the file it holds open, and what it carries of it. */
  datatype Reader = Reader(handle: Option<nat>, offset: nat, carry: Text, held: Bytes)

  /** The files opened, and where the first was joined. */
  datatype Course = Course(visited: seq<nat>, start: nat)

  function OpenFiles(r: Reader, c: Course): seq<nat> {
    if r.handle.Some? && c.visited != [] then c.visited[..|c.visited| - 1] else c.visited
  }

  /** The reader is inside the file it holds open. */
  predicate Within(log: Log, r: Reader, c: Course) {
    r.handle.Some? ==>
      && c.visited != [] && r.handle.value == c.visited[|c.visited| - 1]
      && r.handle.value < |log.inodes|
      && Base(|c.visited|, c.start) <= r.offset <= |log.inodes[r.handle.value]|
  }

  function Consumed(log: Log, r: Reader, c: Course): Bytes
    requires Within(log, r, c) && r.handle.Some?
  {
    log.inodes[r.handle.value][Base(|c.visited|, c.start)..r.offset]
  }

  predicate Joined(log: Log, c: Course) {
    c.visited != [] ==> c.visited[0] < |log.inodes| && c.start <= |log.inodes[c.visited[0]]|
  }

  /** The first file was joined between two characters. */
  ghost predicate JoinedWell(log: Log, c: Course)
    requires Joined(log, c)
  {
    c.visited != [] ==> WellFormed(log.inodes[c.visited[0]][..c.start])
  }

  lemma JoinedAtStart(log: Log, c: Course)
    requires Joined(log, c) && c.start == 0
    ensures JoinedWell(log, c)
  {
    if c.visited != [] { assert log.inodes[c.visited[0]][..0] == []; }
  }

  /** What has been emitted: every line of each file opened before, and of the one held open each
      line completed so far; in that order, each once. */
  ghost predicate Told(log: Log, r: Reader, c: Course, emitted: seq<Text>)
    requires Within(log, r, c)
  {
    if r.handle.Some? then
      && Carries(Consumed(log, r, c), r.held, r.carry)
      && emitted == Followed(log, OpenFiles(r, c), c.start) + CompleteLines(Consumed(log, r, c))
    else emitted == Followed(log, c.visited, c.start)
  }

  ghost predicate Following(log: Log, r: Reader, c: Course, emitted: seq<Text>)
    ensures Following(log, r, c, emitted) ==> WellKept(log) && Within(log, r, c) && Joined(log, c)
  {
    && WellKept(log)
    && Ascending(c.visited)
    && AllRetired(log, OpenFiles(r, c))
    && Within(log, r, c)
    && Joined(log, c)
    && (JoinedWell(log, c) ==> Told(log, r, c, emitted))
  }

  lemma JoinedWellStays(log: Log, log': Log, c: Course)
    requires Grown(log, log') && Joined(log, c)
    ensures Joined(log', c) && (JoinedWell(log', c) <==> JoinedWell(log, c))
  {
    if c.visited != [] {
      var bytes, bytes' := log.inodes[c.visited[0]], log'.inodes[c.visited[0]];
      assert bytes <= bytes';
      assert bytes'[..c.start] == bytes[..c.start];
    }
  }

  lemma FollowingStays(log: Log, log': Log, r: Reader, c: Course, emitted: seq<Text>)
    requires Following(log, r, c, emitted) && Grown(log, log') && WellKept(log')
    ensures Following(log', r, c, emitted)
    ensures r.handle.Some? ==> |log.inodes[r.handle.value]| <= |log'.inodes[r.handle.value]|
  {
    hide WellFormed, Carries, CompleteLines, Followed, JoinedWell, WholeLines;
    FollowedStays(log, log', OpenFiles(r, c), c.start);
    JoinedWellStays(log, log', c);
    if r.handle.Some? {
      assert log.inodes[r.handle.value] <= log'.inodes[r.handle.value];
      assert Consumed(log', r, c) == Consumed(log, r, c);
    }
  }

  /** One read of the file held open. */
  lemma FollowingReads(log: Log, r: Reader, c: Course, emitted: seq<Text>, size: nat)
    requires Following(log, r, c, emitted) && r.handle.Some? && r.offset <= size <= |log.inodes[r.handle.value]|
    ensures var all := r.held + log.inodes[r.handle.value][r.offset..size];
            && WellFormed(all[..Whole(all)])
            && var parts := Split(r.carry + Decode(all[..Whole(all)]));
               Following(log, Reader(r.handle, size, Last(parts), all[Whole(all)..]), c,
                         emitted + NonEmpty(Init(parts)))
  {
    hide WellFormed, Decode, Split, NonEmpty, Carries, CompleteLines, Followed, JoinedWell, WholeLines, Whole;
    var buffer := log.inodes[r.handle.value][r.offset..size];
    var all := r.held + buffer;
    WholeIsWellFormed(all);
    var parts := Split(r.carry + Decode(all[..Whole(all)]));
    var r' := Reader(r.handle, size, Last(parts), all[Whole(all)..]);
    if JoinedWell(log, c) {
      ReadMore(Consumed(log, r, c), r.held, r.carry, buffer);
      assert Consumed(log, r', c) == Consumed(log, r, c) + buffer;
      var closed, told := Followed(log, OpenFiles(r, c), c.start), CompleteLines(Consumed(log, r, c));
      assert closed + told + NonEmpty(Init(parts)) == closed + (told + NonEmpty(Init(parts)));
    }
  }

  lemma ReadWhole(bytes: Bytes, base: nat)
    requires WholeLines(bytes) && base <= |bytes| && (base > 0 ==> WellFormed(bytes[..base]))
    ensures WellFormed(bytes[base..]) && CompleteLines(bytes[base..]) == LinesIn(bytes[base..])
  {
    assert base == 0 ==> bytes[..base] == [];
    RestIsWholeLines(bytes, base);
    AllOfWholeLines(bytes[base..]);
  }

  lemma RetiredIsWhole(log: Log, i: nat)
    requires WellKept(log) && i < |log.inodes| && Retired(log, i)
    ensures WholeLines(log.inodes[i])
  {
  }

  /** A file that was read to its end after it was rotated away has been read whole. */
  lemma FollowingCloses(log: Log, r: Reader, c: Course, emitted: seq<Text>)
    requires Following(log, r, c, emitted) && r.handle.Some?
    requires Retired(log, r.handle.value) && r.offset == |log.inodes[r.handle.value]|
    ensures Following(log, r.(handle := None), c, emitted)
  {
    hide WellFormed, WholeLines, WellKept, Carries, CompleteLines, LinesIn;
    var bytes, base := log.inodes[r.handle.value], Base(|c.visited|, c.start);
    if JoinedWell(log, c) {
      RetiredIsWhole(log, r.handle.value);
      ReadWhole(bytes, base);
      assert bytes[base..r.offset] == bytes[base..];
    }
  }

  /** Opening the first file, at any byte of it. */
  lemma NothingFollowed(log: Log, start: nat)
    ensures Followed(log, [], start) == []
  {
  }

  lemma FollowingJoins(log: Log, r: Reader, c: Course, emitted: seq<Text>, k: nat, at: nat)
    requires Following(log, r, c, emitted) && r.handle.None? && c.visited == []
    requires k < |log.inodes| && at <= |log.inodes[k]|
    ensures Following(log, Reader(Some(k), at, [], []), Course([k], at), emitted)
  {
    hide WellFormed, Carries, CompleteLines, WholeLines, Followed;
    CarriesNothing();
    NothingFollowed(log, c.start);
    NothingFollowed(log, at);
    var c' := Course([k], at);
    var r' := Reader(Some(k), at, [], []);
    assert OpenFiles(r', c') == [];
    assert Consumed(log, r', c') == [];
  }

  /** Opening a later one, at its first byte. */
  lemma FollowingOpens(log: Log, r: Reader, c: Course, emitted: seq<Text>, k: nat)
    requires Following(log, r, c, emitted) && r.handle.None? && c.visited != []
    requires c.visited[|c.visited| - 1] < k < |log.inodes|
    ensures Following(log, Reader(Some(k), 0, [], []), c.(visited := c.visited + [k]), emitted)
  {
    CarriesNothing();
    hide WellFormed, Carries, CompleteLines, WholeLines, Followed;
    var c' := c.(visited := c.visited + [k]);
    assert c'.visited[..|c'.visited| - 1] == c.visited;
    assert log.inodes[k][0..0] == [];
  }

  lemma LiveIsLater(log: Log, r: Reader, c: Course, emitted: seq<Text>)
    requires Following(log, r, c, emitted) && r.handle.None? && log.live
    ensures c.visited != [] ==> c.visited[|c.visited| - 1] < |log.inodes| - 1
  {
    if c.visited != [] { assert Retired(log, c.visited[|c.visited| - 1]); }
  }

  class LogFollower {
    const fromStart: bool

    var log: Log
    var reader: Reader
    var attached: bool
    var emitted: seq<Text>          // what `onLine` was called with
    ghost var course: Course

    ghost predicate Valid()
      reads this
    {
      && Following(log, reader, course, emitted)
      && (attached <==> course.visited != [])
      && (fromStart ==> course.start == 0)
    }

    constructor (log: Log, fromStart: bool)
      requires WellKept(log)
      ensures Valid() && emitted == [] && !attached && this.log == log && this.fromStart == fromStart
    {
      this.log, this.fromStart := log, fromStart;
      reader, attached, emitted := Reader(None, 0, [], []), false, [];
      course := Course([], 0);
    }

    /** The writer goes on. */
    method Await()
      requires Valid()
      modifies this`log
      ensures Valid() && Grown(old(log), log)
    {
      hide WellFormed, Decode, WholeLines;
      assert Grown(log, log);
      var log': Log :| Grown(log, log') && WellKept(log');
      FollowingStays(log, log', reader, course, emitted);
      log := log';
    }

    /** Read what the file held open has gained, and emit the lines that completes. */
    method Drain()
      requires Valid()
      modifies this`log, this`reader, this`emitted
      ensures Valid() && Grown(old(log), log) && reader.handle == old(reader).handle
      ensures old(emitted) <= emitted
      ensures reader.handle.Some? ==>
                && |old(log).inodes[reader.handle.value]| <= reader.offset
                && old(reader).offset <= reader.offset
    {
      hide Following, WholeLines, Whole, WellFormed, Decode, Split, NonEmpty;
      if reader.handle.None? { return; }
      var h := reader.handle.value;
      Await();
      var size := |log.inodes[h]|;
      if size <= reader.offset { return; }
      ghost var before := log;
      Await();
      var all := reader.held + log.inodes[h][reader.offset..size];
      FollowingReads(log, reader, course, emitted, size);
      var w := Whole(all);
      var parts := Split(reader.carry + Decode(all[..w]));
      reader := Reader(Some(h), size, Last(parts), all[w..]);
      emitted := emitted + NonEmpty(Init(parts));
    }

    /** The path names another file than the one held open: read the old one out, and let go of it. */
    method LetGo()
      requires Valid() && reader.handle.Some? && Retired(log, reader.handle.value)
      modifies this`log, this`reader, this`emitted
      ensures Valid() && Grown(old(log), log) && reader.handle == None && old(emitted) <= emitted
    {
      hide Following, WholeLines;
      Drain();
      FollowingCloses(log, reader, course, emitted);
      reader := reader.(handle := None);
      Await();
    }

    /** Open what the path names now, if it names anything and the open is not refused: the first
        file at its end, or, where asked to, at its first byte, and every later one at its first
        byte. */
    method Open() returns (ghost refused: bool)
      requires Valid() && reader.handle.None?
      modifies this`log, this`reader, this`attached, this`course
      ensures Valid() && Grown(old(log), log)
      ensures reader.handle.None? <==> refused
      ensures reader.handle.None? ==> course == old(course)
      ensures reader.handle.Some? ==> course.visited == old(course.visited) + [reader.handle.value]
      ensures reader.handle.Some? ==> !Retired(old(log), reader.handle.value)
      ensures if old(course.visited) != [] then course.start == old(course.start)
              else reader.handle.Some? ==>
                reader.handle.value < |log.inodes|
                && course.start == if fromStart then 0 else |log.inodes[reader.handle.value]|
    {
      hide WholeLines, WellFormed, Decode, Following;
      refused := true;
      Await();
      if !log.live { return; }
      if * { return; }
      LiveIsLater(log, reader, course, emitted);
      var k := |log.inodes| - 1;
      ghost var before := log;
      Await();
      assert before.inodes[k] <= log.inodes[k];
      var size := |log.inodes[k]|;
      var offset := if attached || fromStart then 0 else size;
      if attached {
        FollowingOpens(log, reader, course, emitted, k);
        course := course.(visited := course.visited + [k]);
      } else {
        FollowingJoins(log, reader, course, emitted, k, offset);
        course := Course([k], offset);
      }
      reader, attached, refused := Reader(Some(k), offset, [], []), true, false;
    }

    /** One poll; `seen` is the log when the path was looked up. Where it named a file, a file is held
        afterwards unless an open was refused, none is held that had been rotated away by then, and
        whatever the file held had gained by then has been read. */
    method Poll() returns (ghost seen: Log, ghost refused: bool)
      requires Valid()
      modifies this`log, this`reader, this`attached, this`course, this`emitted
      ensures Valid() && Grown(old(log), seen) && Grown(seen, log) && Grown(old(log), log)
      ensures Onward(old(log), old(course), log, course, fromStart) && old(emitted) <= emitted
      ensures if seen.live then reader.handle.None? <==> refused
              else reader == old(reader) && emitted == old(emitted) && course == old(course)
      ensures seen.live && reader.handle.Some? ==>
                && !Retired(seen, reader.handle.value)
                && (reader.handle.value < |seen.inodes| ==> |seen.inodes[reader.handle.value]| <= reader.offset)
    {
      hide Following, WholeLines, WellFormed, Decode, Grown, Onward;
      GrownNothing(log);
      Await();
      seen, refused := log, false;
      GrownNothing(log);
      OnwardNowhere(old(log), log, course);
      if !log.live { return; }
      var onDisk := |log.inodes| - 1;
      if reader.handle.Some? && reader.handle.value != onDisk { LetGo(); }
      if reader.handle.None? {
        ghost var before := log;
        refused := Open();
        GrownTwice(seen, before, log);
        GrownTwice(old(log), seen, log);
        if refused { OnwardNowhere(old(log), log, course); } else {
          RetiredStays(seen, before);
          OnwardByJoining(old(log), old(course), log, course, fromStart);
        }
      }
      ghost var before := log;
      Drain();
      GrownTwice(seen, before, log);
      GrownTwice(old(log), seen, log);
      OnwardLater(old(log), old(course), before, course, log, fromStart);
      if reader.handle.Some? && reader.handle.value < |seen.inodes| { GrownAt(seen, before, reader.handle.value); }
    }

    /** Follow for so many polls, then read once more. Nothing emitted is taken back. A file rotated
        away before a lookup that saw the path is not held any more; the one held has been read to
        where it stood when the last pass began; and what was emitted is every line completed by the
        bytes written since the follower joined, up to there. */
    method Watch(polls: nat) returns (ghost seen: seq<Log>, ghost refusals: seq<bool>, ghost last: Log)
      requires Valid()
      modifies this
      ensures Valid() && Onward(old(log), old(course), log, course, fromStart) && old(emitted) <= emitted
      ensures |seen| == |refusals| == polls
      ensures Lookups(old(log), seen, last) && Grown(last, log)
      ensures polls > 0 && seen[polls - 1].live && !refusals[polls - 1] ==> reader.handle.Some?
      ensures reader.handle.Some? ==>
                && (forall i :: 0 <= i < polls && seen[i].live ==> !Retired(seen[i], reader.handle.value))
                && reader.handle.value < |last.inodes| && |last.inodes[reader.handle.value]| <= reader.offset
      ensures fromStart ==> JoinedWell(log, course)
      ensures JoinedWell(log, course) && KeptUp(course.visited) ==>
                emitted == CompleteLines(WrittenSince(log, reader, course))
    {
      hide WholeLines, Whole, WellFormed, Decode, Split, NonEmpty, CompleteLines, Following, Grown, Retired, Lookups,
           NoneBehind, WrittenSince, Onward;
      seen, refusals := [], [];
      GrownNothing(log);
      NothingLookedUp(log);
      OnwardNowhere(log, log, course);
      for i := 0 to polls
        invariant Valid() && Onward(old(log), old(course), log, course, fromStart) && old(emitted) <= emitted
        invariant Grown(old(log), log)
        invariant |seen| == |refusals| == i && Lookups(old(log), seen, log)
        invariant i > 0 && seen[i - 1].live && !refusals[i - 1] ==> reader.handle.Some?
        invariant reader.handle.Some? ==> NoneBehind(seen, reader.handle.value)
      {
        ghost var before, c := log, course;
        ghost var lookup, refused := Poll();
        OnwardTwice(old(log), old(course), before, c, log, course, fromStart);
        GrownTwice(old(log), before, log);
        LookupsLater(old(log), seen, before, lookup);
        if reader.handle.Some? { LookedUp(old(log), seen, lookup, reader.handle.value); }
        seen, refusals := seen + [lookup], refusals + [refused];
        before := log;
        Await();
        GrownTwice(lookup, before, log);
        GrownTwice(old(log), before, log);
        OnwardLater(old(log), old(course), before, course, log, fromStart);
        LookupsOne(old(log), seen, log);
      }
      last := log;
      Drain();
      OnwardLater(old(log), old(course), last, course, log, fromStart);
      if fromStart { JoinedAtStart(log, course); }
      EveryLineOnce(log, reader, course, emitted);
      if reader.handle.Some? { NoneBehindEach(seen, reader.handle.value); }
    }
  }

  /** Each lookup of the path came after the one before it. */
  ghost predicate Lookups(first: Log, seen: seq<Log>, last: Log) {
    if seen == [] then Grown(first, last)
    else Lookups(first, seen[..|seen| - 1], seen[|seen| - 1]) && Grown(seen[|seen| - 1], last)
  }

  lemma NothingLookedUp(log: Log)
    ensures Lookups(log, [], log)
    ensures forall h: nat :: NoneBehind([], h)
  {
  }

  lemma LookupsLater(first: Log, seen: seq<Log>, last: Log, later: Log)
    requires Lookups(first, seen, last) && Grown(last, later)
    ensures Lookups(first, seen, later)
  {
    GrownTwice(if seen == [] then first else seen[|seen| - 1], last, later);
  }

  lemma LookupsOne(first: Log, seen: seq<Log>, last: Log)
    requires seen != [] && Lookups(first, seen[..|seen| - 1], seen[|seen| - 1]) && Grown(seen[|seen| - 1], last)
    ensures Lookups(first, seen, last)
  {
  }

  /** No lookup that saw the path saw file `h` rotated away. */
  ghost predicate NoneBehind(seen: seq<Log>, h: nat) {
    forall i :: 0 <= i < |seen| && seen[i].live ==> !Retired(seen[i], h)
  }

  lemma NoneBehindEach(seen: seq<Log>, h: nat)
    requires NoneBehind(seen, h)
    ensures forall i :: 0 <= i < |seen| && seen[i].live ==> !Retired(seen[i], h)
  {
    hide Retired;
  }

  lemma {:induction false} LookupsEarlier(first: Log, seen: seq<Log>, lookup: Log, i: nat)
    requires Lookups(first, seen, lookup) && i < |seen|
    ensures Grown(seen[i], lookup)
    decreases |seen|
  {
    hide Grown;
    var n := |seen| - 1;
    if i < n {
      LookupsEarlier(first, seen[..n], seen[n], i);
      GrownTwice(seen[i], seen[n], lookup);
    }
  }

  /** A file not rotated away at one lookup was not at any before it. */
  lemma LookedUp(first: Log, seen: seq<Log>, lookup: Log, h: nat)
    requires Lookups(first, seen, lookup)
    requires if lookup.live then !Retired(lookup, h) else NoneBehind(seen, h)
    ensures NoneBehind(seen + [lookup], h)
  {
    hide Lookups, Grown, Retired;
    if lookup.live {
      forall i | 0 <= i < |seen|
        ensures !Retired(seen[i], h)
      {
        LookupsEarlier(first, seen, lookup, i);
        RetiredStays(seen[i], lookup);
      }
    }
  }

  lemma RetiredStays(log: Log, log': Log)
    requires Grown(log, log')
    ensures forall h :: Retired(log, h) ==> Retired(log', h)
  {
  }

  /** The file was joined at its first byte, or, unless asked to, at its end at some instant between. */
  ghost predicate JoinedBetween(log: Log, log': Log, file: nat, start: nat, fromStart: bool) {
    if fromStart then start == 0
    else exists at: Log ::
           Grown(log, at) && Grown(at, log') && file < |at.inodes| && start == |at.inodes[file]|
  }

  /** Files are only added to a course, and the first is joined once. */
  ghost predicate Onward(log: Log, c: Course, log': Log, c': Course, fromStart: bool)
    ensures Onward(log, c, log', c', fromStart) ==> c.visited <= c'.visited
  {
    && c.visited <= c'.visited
    && (c.visited != [] ==> c'.start == c.start)
    && (c.visited == [] && c'.visited != [] ==> JoinedBetween(log, log', c'.visited[0], c'.start, fromStart))
  }

  lemma OnwardNowhere(log: Log, log': Log, c: Course)
    ensures Onward(log, c, log', c, true) && Onward(log, c, log', c, false)
  {
  }

  lemma OnwardByJoining(log: Log, c: Course, log': Log, c': Course, fromStart: bool)
    requires Grown(log, log') && |c'.visited| == |c.visited| + 1 && c.visited <= c'.visited
    requires if c.visited != [] then c'.start == c.start
             else && c'.visited[0] < |log'.inodes|
                  && c'.start == if fromStart then 0 else |log'.inodes[c'.visited[0]]|
    ensures Onward(log, c, log', c', fromStart)
  {
    GrownNothing(log');
    hide Grown;
  }

  lemma OnwardLater(log: Log, c: Course, log': Log, c': Course, log'': Log, fromStart: bool)
    requires Onward(log, c, log', c', fromStart) && Grown(log', log'')
    ensures Onward(log, c, log'', c', fromStart)
  {
    hide Grown;
    if c.visited == [] && c'.visited != [] && !fromStart {
      var at: Log :|
        Grown(log, at) && Grown(at, log') && c'.visited[0] < |at.inodes| && c'.start == |at.inodes[c'.visited[0]]|;
      GrownTwice(at, log', log'');
    }
  }

  lemma OnwardTwice(log: Log, c: Course, log': Log, c': Course, log'': Log, c'': Course, fromStart: bool)
    requires Onward(log, c, log', c', fromStart) && Onward(log', c', log'', c'', fromStart)
    requires Grown(log, log') && Grown(log', log'')
    ensures Onward(log, c, log'', c'', fromStart)
  {
    OnwardLater(log, c, log', c', log'', fromStart);
    hide Grown;
    if c'.visited == [] && c''.visited != [] && !fromStart {
      var at: Log :|
        Grown(log', at) && Grown(at, log'') && c''.visited[0] < |at.inodes| && c''.start == |at.inodes[c''.visited[0]]|;
      GrownTwice(log, log', at);
    }
  }

  lemma GrownNothing(log: Log)
    ensures Grown(log, log)
  {
  }

  lemma GrownTwice(a: Log, b: Log, c: Log)
    requires Grown(a, b) && Grown(b, c)
    ensures Grown(a, c)
  {
    GrownEach(a, b);
  }

  lemma GrownAt(log: Log, log': Log, i: nat)
    requires Grown(log, log') && i < |log.inodes|
    ensures i < |log'.inodes| && |log.inodes[i]| <= |log'.inodes[i]|
  {
    assert log.inodes[i] <= log'.inodes[i];
  }

  lemma GrownEach(log: Log, log': Log)
    requires Grown(log, log')
    ensures forall log'': Log :: Grown(log', log'') ==> Grown(log, log'')
  {
    forall log'': Log | Grown(log', log'')
      ensures Grown(log, log'')
    {
      forall i | 0 <= i < |log.inodes|
        ensures log.inodes[i] <= log''.inodes[i]
        ensures Retired(log, i) ==> Retired(log'', i) && log''.inodes[i] == log.inodes[i]
      {
        assert log.inodes[i] <= log'.inodes[i];
        assert log'.inodes[i] <= log''.inodes[i];
      }
    }
  }

  // ---- every line, once, in order ----

  /** No file came and went unopened. */
  predicate KeptUp(visited: seq<nat>) {
    visited != [] ==> Consecutive(visited, visited[0])
  }

  predicate Consecutive(visited: seq<nat>, first: nat) {
    forall j :: 0 <= j < |visited| ==> visited[j] == first + j
  }

  function After(bytes: Bytes, at: nat): Bytes { if at <= |bytes| then bytes[at..] else [] }

  /** All that was ever written to the files from `first` on, before file `i`. */
  ghost function WrittenBefore(log: Log, first: nat, start: nat, i: nat): Bytes
    requires i <= |log.inodes|
  {
    if i <= first then []
    else WrittenBefore(log, first, start, i - 1) + After(log.inodes[i - 1], if i - 1 == first then start else 0)
  }

  /** All that was written since the follower joined, up to where it stands: inside the file it holds
      open, or, where it holds none, at the end of the last it opened. */
  ghost function WrittenSince(log: Log, r: Reader, c: Course): Bytes
    requires Within(log, r, c)
  {
    if c.visited == [] then []
    else if r.handle.Some? then WrittenBefore(log, c.visited[0], c.start, r.handle.value) + Consumed(log, r, c)
    else
      var end := c.visited[|c.visited| - 1] + 1;
      WrittenBefore(log, c.visited[0], c.start, if end <= |log.inodes| then end else |log.inodes|)
  }

  lemma CompleteAfterWhole(a: Bytes, b: Bytes)
    requires WholeLines(a)
    ensures CompleteLines(a + b) == LinesIn(a) + CompleteLines(b)
  {
    var w := Whole(b);
    WholeAfter(a, b);
    WholeIsWellFormed(b);
    assert (a + b)[..|a| + w] == a + b[..w];
    Join(a, b[..w]);
    var x, y := Decode(a), Decode(b[..w]);
    assert TextOf(a + b) == x + y;
    LastPartOfWhole(x);
    NonEmptyInit(Split(x));
    LinesGrow(x, y);
    assert [] + y == y;
    NonEmptyJoin(Init(Split(x)), Init(Split(y)));
  }

  lemma FileIsWhole(log: Log, i: nat, from: nat)
    requires WellKept(log) && i < |log.inodes| && Retired(log, i) && from <= |log.inodes[i]|
    requires from > 0 ==> WellFormed(log.inodes[i][..from])
    ensures WholeLines(After(log.inodes[i], from))
    ensures LinesAt(log, i, from) == LinesIn(After(log.inodes[i], from))
  {
    RetiredIsWhole(log, i);
    assert from == 0 ==> log.inodes[i][..from] == [];
    RestIsWholeLines(log.inodes[i], from);
  }

  lemma {:induction false} FollowedIsWritten(log: Log, visited: seq<nat>, first: nat, start: nat)
    requires WellKept(log) && AllRetired(log, visited) && Consecutive(visited, first)
    requires first < |log.inodes| && start <= |log.inodes[first]| && WellFormed(log.inodes[first][..start])
    ensures first + |visited| <= |log.inodes|
    ensures var bytes := WrittenBefore(log, first, start, first + |visited|);
            WholeLines(bytes) && Followed(log, visited, start) == LinesIn(bytes)
    decreases |visited|
  {
    EmptyHasNoLine();
    hide WellFormed, WholeLines, WellKept, LinesIn, LinesAt;
    if visited != [] {
      var n := |visited| - 1;
      FollowedIsWritten(log, visited[..n], first, start);
      assert Retired(log, visited[n]) && visited[n] == first + n;
      var from := Base(|visited|, start);
      FileIsWhole(log, visited[n], from);
      WholeLinesJoin(WrittenBefore(log, first, start, first + n), After(log.inodes[first + n], from));
    }
  }

  lemma ClosedIsWritten(log: Log, r: Reader, c: Course)
    requires WellKept(log) && Within(log, r, c) && Joined(log, c) && JoinedWell(log, c) && r.handle.Some?
    requires AllRetired(log, OpenFiles(r, c)) && KeptUp(c.visited)
    ensures var bytes := WrittenBefore(log, c.visited[0], c.start, r.handle.value);
            WholeLines(bytes) && Followed(log, OpenFiles(r, c), c.start) == LinesIn(bytes)
  {
    hide WellFormed, WholeLines, WellKept, LinesIn, Followed, WrittenBefore, AllRetired;
    FollowedIsWritten(log, OpenFiles(r, c), c.visited[0], c.start);
  }

  /** Where no file came and went unopened, what has been emitted is every line completed by the
      bytes written since the follower joined, up to where it stands: each once, and in order. */
  lemma EveryLineOnce(log: Log, r: Reader, c: Course, emitted: seq<Text>)
    requires Following(log, r, c, emitted)
    ensures JoinedWell(log, c) && KeptUp(c.visited) ==> emitted == CompleteLines(WrittenSince(log, r, c))
  {
    hide WellFormed, WholeLines, WellKept, LinesIn, Followed, CompleteLines, Carries, WrittenBefore;
    if JoinedWell(log, c) && KeptUp(c.visited) {
      if c.visited == [] {
        CarriesNothing();
        NothingFollowed(log, c.start);
      } else if r.handle.Some? {
        ClosedIsWritten(log, r, c);
        CompleteAfterWhole(WrittenBefore(log, c.visited[0], c.start, r.handle.value), Consumed(log, r, c));
      } else {
        FollowedIsWritten(log, c.visited, c.visited[0], c.start);
        AllOfWholeLines(WrittenBefore(log, c.visited[0], c.start, c.visited[0] + |c.visited|));
      }
    }
  }
}
