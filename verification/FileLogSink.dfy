/** The daemon's log, rotated by size (src/host/file-log-sink.ts), and what reading its end back
    gives. Renames succeed. */
module FileLogSink {
  import opened Wrappers
  import opened Bytes
  import opened Utf8
  import opened Lines
  import opened LogTail

  function Max(a: nat, b: nat): nat { if a < b then b else a }

  function Min(a: nat, b: nat): nat { if a < b then a else b }

  /** One record as it is serialised: some text, and no newline in it. */
  ghost predicate IsRecord(record: Bytes) {
    record != [] && WellFormed(record) && NoNewline(Decode(record))
  }

  function Line(record: Bytes): Bytes { record + [NEWLINE] }

  /** Nothing but whole lines. */
  predicate WholeLines(bytes: Bytes)
    ensures WholeLines(bytes) ==> WellFormed(bytes)
  {
    WellFormed(bytes) && EndsLine(Decode(bytes))
  }

  ghost function LinesIn(bytes: Bytes): seq<Text>
    requires WellFormed(bytes)
  {
    LinesOf(Decode(bytes))
  }

  /** `lines` are the last `n` lines of `bytes`. */
  ghost predicate EndOf(lines: seq<Text>, bytes: Bytes, n: int) {
    WholeLines(bytes) && lines == LastN(LinesIn(bytes), n)
  }

  ghost function LineCount(bytes: Bytes): nat { if WellFormed(bytes) then |LinesIn(bytes)| else 0 }

  lemma Counted(bytes: Bytes)
    ensures WholeLines(bytes) ==> WellFormed(bytes) && LineCount(bytes) == |LinesIn(bytes)|
  {
  }

  lemma WholeLinesJoin(a: Bytes, b: Bytes)
    requires WholeLines(a) && WholeLines(b)
    ensures WholeLines(a + b) && LinesIn(a + b) == LinesIn(a) + LinesIn(b)
  {
    Join(a, b);
    LinesJoin(Decode(a), Decode(b));
    hide LinesOf, Decode;
  }

  lemma RecordIsLine(record: Bytes)
    requires IsRecord(record)
    ensures WholeLines(Line(record))
    ensures LinesIn(Line(record)) == [Decode(record)]
  {
    var t := Decode(record);
    assert WellFormed([NEWLINE]) && Decode([NEWLINE]) == [NL];
    Join(record, [NEWLINE]);
    SplitOfLine(t);
    SplitJoin(t, [NL]);
    assert Split([NL]) == [[], []];
    assert Split(t + [NL]) == [t, []] by { assert t + [] == t; }
    assert NonEmpty([t, []]) == [t] + NonEmpty([[]]);
  }

  // ---- rotation ----

  /** Every segment one further on, the oldest gone, and no live file. */
  ghost predicate Shifted(before: LogFiles, after: LogFiles, top: nat) {
    forall i: nat :: FileAt(after, i) == MovedTo(before, i, top)
  }

  /** What a rotation puts in place `i`. */
  function MovedTo(before: LogFiles, i: nat, top: nat): Option<Bytes> {
    if i > top then FileAt(before, i) else if i == 0 then None else FileAt(before, i - 1)
  }

  /** `kept` segments without a gap and perhaps a live file, each of them whole lines, and some. */
  ghost predicate Stacked(files: LogFiles, kept: nat) {
    && (forall i: nat :: i in files ==> i <= kept)
    && (forall i: nat :: 1 <= i <= kept ==> i in files)
    && (forall i: nat :: i in files ==> WholeLines(files[i]) && LinesIn(files[i]) != [])
  }

  function Contents(file: Option<Bytes>): Bytes { if file.Some? then file.value else [] }

  /** All that is stored, from the oldest segment to the live file. */
  ghost function Stored(files: LogFiles, kept: nat): Bytes {
    Contents(FileAt(files, kept)) + if kept == 0 then [] else Stored(files, kept - 1)
  }

  lemma {:induction false} StoredShifted(before: LogFiles, after: LogFiles, top: nat, kept: nat)
    requires Shifted(before, after, top) && kept < top
    ensures Stored(after, kept + 1) == Stored(before, kept)
    decreases kept
  {
    assert FileAt(after, kept + 1) == FileAt(before, kept);
    if kept == 0 {
      assert FileAt(after, 0) == None;
    } else {
      StoredShifted(before, after, top, kept - 1);
    }
  }

  lemma {:induction false} StoredElsewhere(before: LogFiles, after: LogFiles, kept: nat, more: Bytes)
    requires forall i: nat :: 1 <= i <= kept ==> FileAt(after, i) == FileAt(before, i)
    requires Contents(FileAt(after, 0)) == Contents(FileAt(before, 0)) + more
    ensures Stored(after, kept) == Stored(before, kept) + more
    decreases kept
  {
    if kept > 0 { StoredElsewhere(before, after, kept - 1, more); }
  }

  lemma EmptyHasNoLine()
    ensures WholeLines([]) && LinesIn([]) == []
  {
    assert Split([]) == [[]];
    assert NonEmpty([[]]) == [];
  }

  lemma OneFile(files: LogFiles, kept: nat, m: nat)
    requires Stacked(files, kept) && Readable(files)
    ensures WholeLines(Contents(FileAt(files, m)))
    ensures LinesIn(Contents(FileAt(files, m))) == FileLines(FileAt(files, m))
    ensures 1 <= m <= kept ==> FileLines(FileAt(files, m)) != []
    ensures m > kept ==> FileLines(FileAt(files, m)) == []
  {
    EmptyHasNoLine();
    hide LinesOf, Decode, WellFormed, EndsLine;
  }

  lemma OldestFirst(files: LogFiles, kept: nat)
    ensures Stored(files, kept)
         == Contents(FileAt(files, kept)) + if kept == 0 then [] else Stored(files, kept - 1)
  {
  }

  lemma StoredLinesFirst(files: LogFiles, m: nat)
    requires Readable(files)
    ensures m == 0 ==> StoredLines(files, m) == FileLines(FileAt(files, m))
    ensures m > 0 ==> StoredLines(files, m) == FileLines(FileAt(files, m)) + StoredLines(files, m - 1)
  {
  }

  /** What is stored, line by line, is what the reader calls the stored lines. */
  lemma {:induction false} StoredLinesAreStored(files: LogFiles, kept: nat, m: nat)
    requires Stacked(files, kept) && m <= kept && Readable(files)
    ensures WholeLines(Stored(files, m))
    ensures LinesIn(Stored(files, m)) == StoredLines(files, m)
    decreases m
  {
    hide *;
    OneFile(files, kept, m);
    OldestFirst(files, m);
    StoredLinesFirst(files, m);
    var file := Contents(FileAt(files, m));
    if m == 0 {
      assert file + [] == file;
    } else {
      StoredLinesAreStored(files, kept, m - 1);
      WholeLinesJoin(file, Stored(files, m - 1));
    }
  }

  /** Every segment holds a line, so reading reaches as far as it is told to, and no further than
      there are segments. */
  lemma {:induction false} ReachIsKept(files: LogFiles, kept: nat, i: nat, keep: nat)
    requires Stacked(files, kept) && Readable(files) && 1 <= i <= keep + 1 && i <= kept + 1
    ensures Reach(files, i, keep) == if keep < kept then keep else kept
    decreases keep + 1 - i
  {
    OneFile(files, kept, i);
    hide Stacked, Readable, FileLines, FileAt;
    if i <= keep && i <= kept { ReachIsKept(files, kept, i + 1, keep); }
  }

  class FileLogSink {
    const maxBytes: int
    const keep: nat

    var files: LogFiles
    ghost var kept: nat             // how many segments there are
    ghost var written: Bytes        // all that was ever written
    ghost var dropped: Bytes        // the part of it that rotation has let go of

    /** The number of segments a rotation makes room for. `keep` may be 0, where the environment
        asked for less than one; the rename of the live file happens all the same. */
    function Top(): nat { Max(keep, 1) }

    ghost predicate Valid()
      reads this
    {
      && kept <= Top()
      && Stacked(files, kept)
      && WholeLines(dropped)
      && written == dropped + Stored(files, kept)
    }

    constructor (maxBytes: int, keep: nat)
      ensures Valid() && files == map[] && written == [] && this.maxBytes == maxBytes && this.keep == keep
    {
      this.maxBytes, this.keep := maxBytes, keep;
      files, kept, written, dropped := map[], 0, [], [];
      new;
      EmptyHasNoLine();
    }

    /** The segments make room, from the oldest to the newest; the first place is free. */
    method MakeRoom()
      modifies this`files
      ensures forall j: nat :: j > keep || j == 0 ==> FileAt(files, j) == FileAt(old(files), j)
      ensures forall j: nat :: 1 < j <= keep ==> FileAt(files, j) == MovedTo(old(files), j, keep)
      ensures keep >= 1 ==> FileAt(files, 1) == None
    {
      if keep >= 1 && keep in files { files := files - {keep}; }
      var i := keep - 1;
      while i >= 1
        invariant if keep >= 1 then 0 <= i <= keep - 1 else i == -1
        invariant forall j: nat :: j > keep || j <= i || j == 0 ==> FileAt(files, j) == FileAt(old(files), j)
        invariant forall j: nat :: i + 1 < j <= keep ==> FileAt(files, j) == MovedTo(old(files), j, keep)
        invariant keep >= 1 ==> FileAt(files, i + 1) == None
      {
        if i in files { files := files[i + 1 := files[i]] - {i}; }
        i := i - 1;
      }
    }

    /** The live file becomes the newest segment. */
    method Shift()
      requires 0 in files
      modifies this`files
      ensures Shifted(old(files), files, Top())
    {
      MakeRoom();
      assert FileAt(files, 0).Some?;
      files := files[1 := files[0]] - {0};
    }

    /** Rotate a live file that is full: the oldest segment, if there is no room for it, is all that
        is lost. */
    method RotateIfNeeded()
      requires Valid()
      modifies this`files, this`kept, this`dropped
      ensures Valid()
      ensures var full := 0 in old(files) && |old(files)[0]| >= maxBytes;
              if full then
                && Shifted(old(files), files, Top())
                && kept == (if old(kept) < Top() then old(kept) + 1 else old(kept))
                && dropped == (if old(kept) < Top() then old(dropped)
                               else old(dropped) + Contents(FileAt(old(files), old(kept))))
              else files == old(files) && kept == old(kept) && dropped == old(dropped)
    {
      if 0 !in files || |files[0]| < maxBytes { return; }
      hide Stacked, WholeLines, Stored, Shifted, FileAt, Contents, MovedTo;
      ghost var before := files;
      Shift();
      kept, dropped := RotationDrops(before, files, kept, dropped, Top());
    }

    method Append(record: Bytes)
      requires Valid() && IsRecord(record)
      modifies this`files, this`written
      ensures Valid()
      ensures written == old(written) + Line(record)
      ensures files == old(files)[0 := Contents(FileAt(old(files), 0)) + Line(record)]
    {
      hide Stacked, WholeLines, Stored;
      AppendKeepsStack(files, kept, record);
      ghost var before := files;
      files := files[0 := Contents(FileAt(files, 0)) + Line(record)];
      StoredElsewhere(before, files, kept, Line(record));
      written := written + Line(record);
      assert dropped + (Stored(before, kept) + Line(record)) == dropped + Stored(before, kept) + Line(record);
    }

    /** One record, at the end of the log. */
    method Write(record: Bytes)
      requires Valid() && IsRecord(record)
      modifies this`files, this`kept, this`written, this`dropped
      ensures Valid()
      ensures written == old(written) + Line(record)
      ensures var full := 0 in old(files) && |old(files)[0]| >= maxBytes;
              && (forall i: nat :: i > 0 ==>
                    FileAt(files, i) == if full then MovedTo(old(files), i, Top()) else FileAt(old(files), i))
              && FileAt(files, 0) == Some((if full then [] else Contents(FileAt(old(files), 0))) + Line(record))
              && dropped == if !full || old(kept) < Top() then old(dropped)
                            else old(dropped) + Contents(FileAt(old(files), old(kept)))
    {
      hide Valid, Line;
      RotateIfNeeded();
      AfterRotation(old(files), files, Top());
      Append(record);
    }

    /** Reading the log back: the last lines of all that is stored in as many segments as the reader
        was told of; the last lines ever written, where rotation has let go of none of them. */
    method Tail(n: int, readKeep: nat, chunkBytes: nat) returns (lines: seq<Text>)
      requires Valid() && chunkBytes >= 1
      ensures EndOf(lines, Stored(files, Min(kept, readKeep)), n)
      ensures kept <= readKeep && (dropped == [] || n <= LineCount(Stored(files, kept))) ==> EndOf(lines, written, n)
    {
      hide Stored, LinesIn, LastN, FileLines, StoredLines, Reach, WholeLines, LineCount;
      Counted(Stored(files, kept));
      StackedIsReadable(files, kept);
      ReachIsKept(files, kept, 1, readKeep);
      StoredLinesAreStored(files, kept, Min(kept, readKeep));
      StoredLinesAreStored(files, kept, kept);
      WholeLinesJoin(dropped, Stored(files, kept));
      LastOfMore(LinesIn(dropped), LinesIn(Stored(files, kept)), n);
      assert [] + Stored(files, kept) == Stored(files, kept);
      lines := ReadLastLines(files, n, readKeep, chunkBytes);
    }
  }

  lemma StackedIsReadable(files: LogFiles, kept: nat)
    requires Stacked(files, kept)
    ensures Readable(files)
  {
  }

  lemma EverySegmentAdds(files: LogFiles, kept: nat, m: nat)
    requires Stacked(files, kept) && Readable(files) && m < kept
    ensures |StoredLines(files, m)| < |StoredLines(files, kept)|
  {
    hide *;
    OneFile(files, kept, kept);
    StoredLinesFirst(files, kept);
    var older := StoredFurther(files, m, kept - 1);
  }

  /** Reading misses something exactly where the reader knows of fewer segments than there are: as
      it does where both were told to keep none, since a rotation still leaves one. */
  lemma ReadsAllStored(files: LogFiles, kept: nat, readKeep: nat)
    requires Stacked(files, kept) && Readable(files)
    ensures StoredLines(files, Reach(files, 1, readKeep)) == StoredLines(files, kept) <==> kept <= readKeep
  {
    hide *;
    ReachIsKept(files, kept, 1, readKeep);
    if readKeep < kept { EverySegmentAdds(files, kept, readKeep); }
  }

  lemma TwoLines(first: Bytes, second: Bytes)
    requires IsRecord(first) && IsRecord(second)
    ensures WholeLines(Line(first) + Line(second))
    ensures LinesIn(Line(first) + Line(second)) == [Decode(first), Decode(second)]
  {
    RecordIsLine(first);
    RecordIsLine(second);
    WholeLinesJoin(Line(first), Line(second));
  }

  /** Where a stack has just these files, it has no other segment, and stores just them. */
  lemma StackOf(files: LogFiles, kept: nat, older: Bytes, live: Bytes)
    requires Stacked(files, kept) && kept <= 1
    requires FileAt(files, 0) == Some(live) && Contents(FileAt(files, 1)) == older
    ensures kept == if FileAt(files, 1).Some? then 1 else 0
    ensures Stored(files, 0) == live && Stored(files, kept) == older + live
  {
    assert live + [] == live;
    if kept == 0 {
      assert older == [];
    } else {
      assert Stored(files, 1) == older + Stored(files, 0);
    }
  }

  lemma LastOfOne(live: Bytes, t: Text, lines: seq<Text>)
    requires WholeLines(live) && LinesIn(live) == [t] && EndOf(lines, live, 2)
    ensures lines == [t]
  {
  }

  lemma LastOfTwo(both: Bytes, t: Text, u: Text)
    requires WholeLines(both) && LinesIn(both) == [t, u]
    ensures EndOf([t, u], both, 2)
  {
  }

  /** A sink told to keep no segment, whose live file is full after one record: two records written are
      both stored, and a reader told of no segment reads back the second alone. */
  method ToldOfNone(first: Bytes, second: Bytes, chunkBytes: nat)
    returns (lines: seq<Text>, ghost stored: Bytes, ghost written: Bytes)
    requires IsRecord(first) && IsRecord(second) && chunkBytes >= 1
    ensures stored == written == Line(first) + Line(second)
    ensures EndOf([Decode(first), Decode(second)], stored, 2)
    ensures lines == [Decode(second)]
  {
    assert [] + Line(first) == Line(first) && [] + Line(second) == Line(second);
    assert |Line(first)| >= 1;
    TwoLines(first, second);
    RecordIsLine(second);
    hide Stacked, Stored, WholeLines, LinesIn, LastN, Decode, IsRecord, Line, EndOf;
    var sink := new FileLogSink(1, 0);
    sink.Write(first);
    StackOf(sink.files, sink.kept, [], Line(first));
    sink.Write(second);
    StackOf(sink.files, sink.kept, Line(first), Line(second));
    stored, written := Stored(sink.files, sink.kept), sink.written;
    lines := sink.Tail(2, 0, chunkBytes);
    LastOfOne(Line(second), Decode(second), lines);
    LastOfTwo(stored, Decode(first), Decode(second));
  }

  lemma LiveGrows(live: Bytes, record: Bytes)
    requires WholeLines(live) && IsRecord(record)
    ensures WholeLines(live + Line(record)) && LinesIn(live + Line(record)) != []
  {
    RecordIsLine(record);
    hide *;
    WholeLinesJoin(live, Line(record));
  }

  lemma LiveIsWhole(files: LogFiles, kept: nat)
    requires Stacked(files, kept)
    ensures WholeLines(Contents(FileAt(files, 0)))
  {
    EmptyHasNoLine();
    hide WholeLines, LinesIn;
  }

  lemma AppendKeepsStack(before: LogFiles, kept: nat, record: Bytes)
    requires Stacked(before, kept) && IsRecord(record)
    ensures Stacked(before[0 := Contents(FileAt(before, 0)) + Line(record)], kept)
  {
    hide WholeLines, LinesIn, IsRecord, Line, Contents, FileAt;
    LiveIsWhole(before, kept);
    LiveGrows(Contents(FileAt(before, 0)), record);
  }

  lemma AfterRotation(before: LogFiles, after: LogFiles, top: nat)
    ensures Shifted(before, after, top) ==>
              FileAt(after, 0) == None && forall i: nat :: FileAt(after, i) == MovedTo(before, i, top)
  {
    assert Shifted(before, after, top) ==> FileAt(after, 0) == MovedTo(before, 0, top);
  }

  lemma Regroup(a: Bytes, b: Bytes, c: Bytes)
    ensures a + b + c == a + (b + c)
  {
  }

  /** Where there is no room, the oldest segment is what is not stored any more. */
  lemma OldestDrops(before: LogFiles, after: LogFiles, dropped: Bytes, top: nat)
    requires Shifted(before, after, top) && top >= 1
    ensures dropped + Contents(FileAt(before, top)) + Stored(after, top) == dropped + Stored(before, top)
  {
    hide *;
    StoredShifted(before, after, top, top - 1);
    OldestFirst(before, top);
    Regroup(dropped, Contents(FileAt(before, top)), Stored(before, top - 1));
  }

  lemma RotationDrops(before: LogFiles, after: LogFiles, kept: nat, dropped: Bytes, top: nat)
    returns (kept': nat, dropped': Bytes)
    requires Stacked(before, kept) && 0 in before && Shifted(before, after, top) && kept <= top && top >= 1
    requires WholeLines(dropped)
    ensures kept' == if kept < top then kept + 1 else kept
    ensures dropped' == if kept < top then dropped else dropped + Contents(FileAt(before, kept))
    ensures Stacked(after, kept') && WholeLines(dropped')
    ensures dropped' + Stored(after, kept') == dropped + Stored(before, kept)
  {
    ShiftKeepsStack(before, after, kept, top);
    if kept == top { WholeLinesJoin(dropped, before[kept]); }
    hide Stacked, WholeLines, Shifted, Stored;
    if kept < top {
      StoredShifted(before, after, top, kept);
      kept', dropped' := kept + 1, dropped;
    } else {
      OldestDrops(before, after, dropped, top);
      kept', dropped' := kept, dropped + Contents(FileAt(before, kept));
    }
  }

  /** What a rotation does to a gapless stack. */
  lemma ShiftKeepsStack(before: LogFiles, after: LogFiles, kept: nat, top: nat)
    requires Stacked(before, kept) && 0 in before && Shifted(before, after, top) && kept <= top && top >= 1
    ensures Stacked(after, if kept < top then kept + 1 else kept)
  {
    forall i: nat
      ensures i in after <==> FileAt(after, i).Some?
      ensures FileAt(after, i) == MovedTo(before, i, top)
    {
    }
  }
}
