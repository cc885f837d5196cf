/** Reading the end of a log backwards (src/log-tail.ts): chunk by chunk, carrying the bytes of a
    character and the text of a line that a chunk cuts, and on into the rotated segments. */
module LogTail {
  import opened Wrappers
  import opened Bytes
  import opened Utf8
  import opened Lines

  /** The lines of one file; an absent file has none. */
  ghost function FileLines(file: Option<Bytes>): seq<Text>
    requires file.Some? ==> WellFormed(file.value)
  {
    if file.Some? then LinesOf(Decode(file.value)) else []
  }

  function Reversed<T>(s: seq<T>): (r: seq<T>)
    ensures |r| == |s|
    ensures forall i :: 0 <= i < |s| ==> r[i] == s[|s| - 1 - i]
  {
    seq(|s|, i requires 0 <= i < |s| => s[|s| - 1 - i])
  }

  /** `slice(-n)`. */
  function SliceLast<T>(s: seq<T>, n: int): (r: seq<T>) {
    if n > 0 then LastN(s, n) else if -n <= |s| then s[-n..] else []
  }

  // ---- gathering lines from the last to the first ----

  /** `collected` is the end of `all`, newest first: the whole of it, until one line more than asked
      for has been found. */
  predicate Gathered(collected: seq<Text>, all: seq<Text>, n: int)
    ensures Gathered(collected, all, n) ==> |collected| <= |all|
  {
    && |collected| <= |all|
    && Reversed(collected) == all[|all| - |collected|..]
    && |collected| <= n + 1
    && (|collected| <= n ==> |collected| == |all|)
  }

  lemma GatheredNothing(n: nat)
    ensures Gathered([], NonEmpty([]), n)
  {
  }

  lemma GatherOne(collected: seq<Text>, line: Text, all: seq<Text>, n: int)
    requires Gathered(collected, all, n) && |collected| <= n
    ensures Gathered(collected + [line], [line] + all, n)
  {
    assert Reversed(collected) == all;
    assert Reversed(collected + [line]) == [line] + Reversed(collected);
  }

  lemma GatheredEnough(collected: seq<Text>, more: seq<Text>, all: seq<Text>, n: int)
    requires Gathered(collected, all, n) && |collected| > n
    ensures Gathered(collected, more + all, n)
  {
  }

  lemma GatheredAnswers(collected: seq<Text>, all: seq<Text>, n: int)
    requires Gathered(collected, all, n) && n > 0
    ensures SliceLast(Reversed(collected), n) == LastN(all, n)
  {
    if |collected| > n {
      assert Reversed(collected)[1..] == all[|all| - n..];
    } else {
      assert Reversed(collected) == all;
    }
  }

  /** The inner loop: the parts of one chunk, last to first. */
  method Gather(collected: seq<Text>, parts: seq<Text>, n: int, ghost done: seq<Text>) returns (more: seq<Text>)
    requires Gathered(collected, NonEmpty(done), n) && |collected| <= n
    ensures Gathered(more, NonEmpty(parts + done), n)
  {
    hide Gathered, NonEmpty;
    more := collected;
    var i := |parts|;
    assert parts[i..] + done == done;
    while i > 0
      invariant 0 <= i <= |parts|
      invariant Gathered(more, NonEmpty(parts[i..] + done), n) && |more| <= n
    {
      i := i - 1;
      ghost var rest := parts[i + 1..] + done;
      assert parts[i..] + done == [parts[i]] + rest;
      NonEmptyStep(parts[i], rest);
      if |parts[i]| > 0 {
        GatherOne(more, parts[i], NonEmpty(rest), n);
        more := more + [parts[i]];
      }
      if |more| > n {
        assert parts + done == parts[..i] + (parts[i..] + done);
        NonEmptyJoin(parts[..i], parts[i..] + done);
        GatheredEnough(more, NonEmpty(parts[..i]), NonEmpty(parts[i..] + done), n);
        return;
      }
    }
    assert parts[0..] == parts;
  }

  // ---- walking back through the bytes ----

  /** Everything from `position` on has been read: what follows the carried bytes is whole
      characters, and, up to the carried head of a line, whole lines. */
  ghost predicate Walked(bytes: Bytes, position: nat, carryBytes: Bytes, carry: Text, done: seq<Text>) {
    var at := position + |carryBytes|;
    && at <= |bytes|
    && carryBytes == bytes[position..at]
    && (at < |bytes| ==> !Continues(bytes[at]))
    && WellFormed(bytes[at..])
    && NoNewline(carry)
    && if position > 0 then Split(Decode(bytes[at..])) == [carry] + done
       else carryBytes == [] && carry == [] && NonEmpty(done) == LinesOf(Decode(bytes[at..]))
  }

  lemma WalkedFirst(bytes: Bytes)
    requires WellFormed(bytes)
    ensures Walked(bytes, |bytes|, [], [], [])
  {
    assert bytes[|bytes|..] == [];
  }

  lemma FirstStarts(bytes: Bytes)
    requires WellFormed(bytes) && bytes != []
    ensures !Continues(bytes[0])
  {
  }

  /** The bytes of a chunk, with the carried ones after it, less the tail of a character that begins
      further back, are whole characters. */
  lemma ChunkIsWhole(bytes: Bytes, from: nat, to: nat)
    requires WellFormed(bytes) && from <= to <= |bytes|
    requires from < |bytes| ==> !Continues(bytes[from])
    requires to < |bytes| ==> !Continues(bytes[to])
    ensures WellFormed(bytes[from..to]) && WellFormed(bytes[from..]) && WellFormed(bytes[to..])
    ensures Decode(bytes[from..]) == Decode(bytes[from..to]) + Decode(bytes[to..])
  {
    hide *;
    Cut(bytes, from);
    Cut(bytes, to);
    Cut(bytes[from..], to - from);
    assert bytes[from..][..to - from] == bytes[from..to];
    assert bytes[from..][to - from..] == bytes[to..];
  }

  lemma MeetMore(x: seq<Text>, carry: Text, done: seq<Text>)
    requires x != []
    ensures Meet(x, [carry] + done) == Meet(x, [carry]) + done
  {
  }

  /** Splitting a chunk with the carried line after it gives the parts of the text from the chunk on,
      as far as the carried line. */
  lemma SplitChunk(text: Text, carry: Text, rest: Text, done: seq<Text>)
    requires Split(rest) == [carry] + done && NoNewline(carry)
    ensures Split(text + rest) == Split(text + carry) + done
    ensures NoNewline(Split(text + carry)[0])
  {
    SplitOfLine(carry);
    SplitJoin(text, rest);
    SplitJoin(text, carry);
    SplitIsExact(text + carry);
    hide Split, NoNewline;
    MeetMore(Split(text), carry, done);
    assert Split(text + carry)[0] in Split(text + carry);
  }

  lemma WalkedOn(bytes: Bytes, position: nat, carryBytes: Bytes, carry: Text, done: seq<Text>, from: nat, lead: nat)
    requires WellFormed(bytes) && Walked(bytes, position, carryBytes, carry, done)
    requires from < position && lead <= position - from + |carryBytes|
    requires var raw := bytes[from..position] + carryBytes;
             if from > 0 then lead < |raw| ==> !Continues(raw[lead]) else lead == 0
    ensures var raw := bytes[from..position] + carryBytes;
            && WellFormed(raw[lead..])
            && var parts := Split(Decode(raw[lead..]) + carry);
               if from > 0 then Walked(bytes, from, raw[..lead], parts[0], parts[1..] + done)
               else Walked(bytes, 0, [], [], parts + done)
  {
    hide Split, Decode, WellFormed, NonEmpty, Continues;
    var at := position + |carryBytes|;
    var raw := bytes[from..position] + carryBytes;
    assert raw == bytes[from..at];
    if from == 0 { FirstStarts(bytes); }
    ChunkIsWhole(bytes, from + lead, at);
    assert raw[lead..] == bytes[from + lead..at];
    assert raw[..lead] == bytes[from..from + lead];
    SplitChunk(Decode(raw[lead..]), carry, Decode(bytes[at..]), done);
    var parts := Split(Decode(raw[lead..]) + carry);
    assert parts + done == [parts[0]] + (parts[1..] + done);
  }

  /** The lines not yet walked come before the ones that are; at the front there are none. */
  lemma WalkedLines(bytes: Bytes, position: nat, carryBytes: Bytes, carry: Text, done: seq<Text>)
    returns (more: seq<Text>)
    requires WellFormed(bytes) && Walked(bytes, position, carryBytes, carry, done)
    ensures LinesOf(Decode(bytes)) == more + NonEmpty(done)
    ensures position == 0 ==> more == [] && carry == []
  {
    var at := position + |carryBytes|;
    Cut(bytes, at);
    hide Split, Decode, WellFormed, NonEmpty, Continues;
    if position == 0 {
      assert bytes[0..] == bytes;
      more := [];
    } else {
      var front := Decode(bytes[..at]);
      SplitChunk(front, carry, Decode(bytes[at..]), done);
      more := NonEmpty(Split(front + carry));
      NonEmptyJoin(Split(front + carry), done);
    }
  }

  /** How many of the first bytes continue a character. */
  method LeadingTail(raw: Bytes) returns (lead: nat)
    ensures lead <= |raw|
    ensures forall i :: 0 <= i < lead ==> Continues(raw[i])
    ensures lead < |raw| ==> !Continues(raw[lead])
  {
    lead := 0;
    while lead < |raw| && Continues(raw[lead])
      invariant lead <= |raw|
      invariant forall i :: 0 <= i < lead ==> Continues(raw[i])
    {
      lead := lead + 1;
    }
  }

  /** The last `n` lines of one file, seeking backwards, whatever the size of a chunk. */
  method ReadLastLinesOfFile(file: Option<Bytes>, n: int, chunkBytes: nat) returns (lines: seq<Text>)
    requires chunkBytes >= 1
    requires file.Some? ==> WellFormed(file.value)
    ensures lines == LastN(FileLines(file), n)
  {
    hide Walked, Split, Decode, WellFormed, NonEmpty, Continues, Gathered, Reversed, SliceLast, LastN;
    if n <= 0 { return []; }
    if file.None? { return []; }
    var bytes := file.value;
    var position: nat := |bytes|;
    var carry: Text, carryBytes: Bytes := [], [];
    var collected: seq<Text> := [];
    ghost var done: seq<Text> := [];
    WalkedFirst(bytes);
    GatheredNothing(n);
    while position > 0 && |collected| <= n
      invariant Walked(bytes, position, carryBytes, carry, done)
      invariant Gathered(collected, NonEmpty(done), n)
    {
      var length := if chunkBytes < position then chunkBytes else position;
      var from := position - length;
      var raw := bytes[from..position] + carryBytes;
      var lead := 0;
      if from > 0 { lead := LeadingTail(raw); }
      WalkedOn(bytes, position, carryBytes, carry, done, from, lead);
      carryBytes := if from > 0 then raw[..lead] else [];
      var parts := Split(Decode(raw[lead..]) + carry);
      if from > 0 {
        carry, parts := parts[0], parts[1..];
      } else {
        carry := [];
      }
      collected := Gather(collected, parts, n, done);
      done := parts + done;
      position := from;
    }
    ghost var more := WalkedLines(bytes, position, carryBytes, carry, done);
    if position == 0 && |carry| > 0 && |collected| <= n { collected := collected + [carry]; }
    GatheredAnswers(collected, NonEmpty(done), n);
    LastOfMore(more, NonEmpty(done), n);
    assert [] + NonEmpty(done) == NonEmpty(done);
    lines := SliceLast(Reversed(collected), n);
  }

  // ---- across the rotated segments ----

  /** The log and its segments: the live file is 0, and segment 1 the one rotated last. */
  type LogFiles = map<nat, Bytes>

  function FileAt(files: LogFiles, i: nat): Option<Bytes> {
    if i in files then Some(files[i]) else None
  }

  ghost predicate Readable(files: LogFiles) {
    forall i :: i in files ==> WellFormed(files[i])
  }

  /** The lines of segments `m` down to 1 and of the live file, oldest first. */
  ghost function StoredLines(files: LogFiles, m: nat): seq<Text>
    requires Readable(files)
  {
    if m == 0 then FileLines(FileAt(files, 0)) else FileLines(FileAt(files, m)) + StoredLines(files, m - 1)
  }

  /** How far back reading goes from segment `i` on: a segment without a line ends it. */
  ghost function Reach(files: LogFiles, i: nat, keep: nat): (m: nat)
    requires Readable(files) && 1 <= i <= keep + 1
    ensures i - 1 <= m <= keep
    decreases keep + 1 - i
  {
    if i > keep || FileLines(FileAt(files, i)) == [] then i - 1 else Reach(files, i + 1, keep)
  }

  lemma {:induction false} StoredFurther(files: LogFiles, m: nat, further: nat) returns (older: seq<Text>)
    requires Readable(files) && m <= further
    ensures StoredLines(files, further) == older + StoredLines(files, m)
    decreases further
  {
    hide FileLines;
    if m == further {
      older := [];
    } else {
      var nearer := StoredFurther(files, m, further - 1);
      older := FileLines(FileAt(files, further)) + nearer;
    }
  }

  lemma NearestFirst(files: LogFiles)
    requires Readable(files)
    ensures StoredLines(files, 0) == FileLines(FileAt(files, 0))
  {
  }

  /** One segment more, if it holds a line. */
  lemma OneFurther(files: LogFiles, i: nat, keep: nat)
    requires Readable(files) && 1 <= i <= keep
    ensures FileLines(FileAt(files, i)) == [] ==> Reach(files, i, keep) == i - 1
    ensures FileLines(FileAt(files, i)) != [] ==> Reach(files, i, keep) == Reach(files, i + 1, keep)
    ensures StoredLines(files, i) == FileLines(FileAt(files, i)) + StoredLines(files, i - 1)
  {
  }

  lemma LastOfMore<T>(older: seq<T>, s: seq<T>, n: int)
    ensures n >= |s| ==> LastN(s, n) == s
    ensures n <= |s| ==> LastN(older + s, n) == LastN(s, n)
    ensures n > |s| ==> LastN(older + s, n) == LastN(older, n - |s|) + s
  {
  }

  lemma SliceOfAsked<T>(s: seq<T>, n: int)
    requires |s| <= if n < 0 then 0 else n
    ensures SliceLast(s, n) == s
  {
  }

  /** Nothing further back can change the answer. */
  lemma Answered(files: LogFiles, i: nat, keep: nat, n: int, collected: seq<Text>)
    requires Readable(files) && 1 <= i <= keep + 1
    requires collected == LastN(StoredLines(files, i - 1), n)
    requires |collected| >= n || Reach(files, i, keep) == i - 1
    ensures SliceLast(collected, n) == LastN(StoredLines(files, Reach(files, i, keep)), n)
  {
    hide FileLines, WellFormed, StoredLines, Reach, LastN, SliceLast;
    var further := StoredFurther(files, i - 1, Reach(files, i, keep));
    LastOfMore(further, StoredLines(files, i - 1), n);
    SliceOfAsked(collected, n);
  }

  /** The last `n` lines of the log, as far back as it is readable. */
  method ReadLastLines(files: LogFiles, n: int, keep: nat, chunkBytes: nat) returns (collected: seq<Text>)
    requires chunkBytes >= 1 && Readable(files)
    ensures collected == LastN(StoredLines(files, Reach(files, 1, keep)), n)
  {
    hide FileLines, WellFormed, StoredLines, Reach, LastN, SliceLast;
    NearestFirst(files);
    collected := ReadLastLinesOfFile(FileAt(files, 0), n, chunkBytes);
    var i: nat := 1;
    while i <= keep
      invariant 1 <= i <= keep + 1
      invariant collected == LastN(StoredLines(files, i - 1), n)
      invariant Reach(files, 1, keep) == Reach(files, i, keep)
    {
      if |collected| >= n {
        Answered(files, i, keep, n, collected);
        break;
      }
      var older := ReadLastLinesOfFile(FileAt(files, i), n - |collected|, chunkBytes);
      OneFurther(files, i, keep);
      if |older| == 0 {
        Answered(files, i, keep, n, collected);
        break;
      }
      LastOfMore(FileLines(FileAt(files, i)), StoredLines(files, i - 1), n);
      collected := older + collected;
      i := i + 1;
    }
    if i > keep { Answered(files, i, keep, n, collected); }
    collected := SliceLast(collected, n);
  }
}
