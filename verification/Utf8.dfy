/** UTF-8 as section 4 of RFC 3629 defines it, and what may be cut where. */
module Utf8 {
  import opened Bytes

  /** A Unicode scalar value. */
  type Scalar = x: int | 0 <= x < 0x11_0000

  type Text = seq<Scalar>

  const NEWLINE: byte := 0x0A

  /** The two top bits mark a byte that is not the first of its character. */
  predicate Continues(b: byte) { b / 0x40 == 2 }

  predicate Within(b: byte, lo: byte, hi: byte) { lo <= b <= hi }

  /** The length of the character `bs` starts with, or 0 where it starts with none. */
  function CharLength(bs: Bytes): (n: nat)
    ensures n <= 4 && n <= |bs|
    ensures forall i :: 0 < i < n ==> Continues(bs[i])
    ensures n > 0 ==> !Continues(bs[0])
  {
    if |bs| >= 1 && bs[0] <= 0x7F then 1
    else if |bs| >= 2 && Within(bs[0], 0xC2, 0xDF) && Continues(bs[1]) then 2
    else if |bs| >= 3 && Continues(bs[1]) && Continues(bs[2])
            && (|| (bs[0] == 0xE0 && Within(bs[1], 0xA0, 0xBF))
                || Within(bs[0], 0xE1, 0xEC)
                || (bs[0] == 0xED && Within(bs[1], 0x80, 0x9F))
                || Within(bs[0], 0xEE, 0xEF)) then 3
    else if |bs| >= 4 && Continues(bs[1]) && Continues(bs[2]) && Continues(bs[3])
            && (|| (bs[0] == 0xF0 && Within(bs[1], 0x90, 0xBF))
                || Within(bs[0], 0xF1, 0xF3)
                || (bs[0] == 0xF4 && Within(bs[1], 0x80, 0x8F))) then 4
    else 0
  }

  /** What a continuation byte adds to the bits before it. */
  function Extend(c: int, b: byte): int { c * 0x40 + (b as int - 0x80) }

  /** The scalar value of the character `bs` starts with. */
  function FirstChar(bs: Bytes): Scalar
    requires CharLength(bs) > 0
  {
    var b0 := bs[0] as int;
    match CharLength(bs)
    case 1 => b0
    case 2 => Extend(b0 - 0xC0, bs[1])
    case 3 => Extend(Extend(b0 - 0xE0, bs[1]), bs[2])
    case _ => Extend(Extend(Extend(b0 - 0xF0, bs[1]), bs[2]), bs[3])
  }

  predicate WellFormed(bs: Bytes)
    decreases |bs|
  {
    bs == [] || (CharLength(bs) > 0 && WellFormed(bs[CharLength(bs)..]))
  }

  function Decode(bs: Bytes): (t: Text)
    requires WellFormed(bs)
    ensures t == [] <==> bs == []
    decreases |bs|
  {
    if bs == [] then [] else [FirstChar(bs)] + Decode(bs[CharLength(bs)..])
  }

  // ---- decoding loses nothing ----

  /** The last six bits, as a continuation byte. */
  function Trail(c: nat): byte { (0x80 + c % 0x40) as byte }

  /** Section 3: how a scalar value is written. */
  function EncodeChar(c: Scalar): Bytes {
    var d := c / 0x40;
    var e := d / 0x40;
    if c < 0x80 then [c as byte]
    else if c < 0x800 then [(0xC0 + d) as byte, Trail(c)]
    else if c < 0x1_0000 then [(0xE0 + e) as byte, Trail(d), Trail(c)]
    else [(0xF0 + e / 0x40) as byte, Trail(e), Trail(d), Trail(c)]
  }

  function Encode(t: Text): Bytes {
    if t == [] then [] else EncodeChar(t[0]) + Encode(t[1..])
  }

  lemma ExtendUndone(c: nat, b: byte)
    requires Continues(b)
    ensures Extend(c, b) >= 0 && Extend(c, b) / 0x40 == c && Trail(Extend(c, b)) == b
  {
  }

  lemma EncodeFirstChar(bs: Bytes)
    requires CharLength(bs) > 0
    ensures EncodeChar(FirstChar(bs)) == bs[..CharLength(bs)]
  {
    var b0 := bs[0] as int;
    match CharLength(bs)
    case 1 =>
    case 2 => ExtendUndone(b0 - 0xC0, bs[1]);
    case 3 =>
      ExtendUndone(b0 - 0xE0, bs[1]);
      ExtendUndone(Extend(b0 - 0xE0, bs[1]), bs[2]);
    case _ =>
      ExtendUndone(b0 - 0xF0, bs[1]);
      ExtendUndone(Extend(b0 - 0xF0, bs[1]), bs[2]);
      ExtendUndone(Extend(Extend(b0 - 0xF0, bs[1]), bs[2]), bs[3]);
  }

  /** What a well-formed text is decoded to determines it, byte for byte. */
  lemma {:induction false} EncodeDecode(bs: Bytes)
    requires WellFormed(bs)
    ensures Encode(Decode(bs)) == bs
    decreases |bs|
  {
    if bs != [] {
      EncodeFirstChar(bs);
      EncodeDecode(bs[CharLength(bs)..]);
    }
  }

  // ---- cutting ----

  lemma CharLengthOfPrefix(bs: Bytes, i: nat)
    requires CharLength(bs) <= i <= |bs| && CharLength(bs) > 0
    ensures CharLength(bs[..i]) == CharLength(bs)
    ensures FirstChar(bs[..i]) == FirstChar(bs)
  {
  }

  lemma CharLengthOfFront(a: Bytes, b: Bytes)
    requires CharLength(a) > 0
    ensures CharLength(a + b) == CharLength(a)
    ensures FirstChar(a + b) == FirstChar(a)
  {
  }

  lemma NothingIsWellFormed()
    ensures WellFormed([]) && Decode([]) == []
  {
  }

  /** One step of the two definitions, in both directions. */
  lemma FirstStep(bs: Bytes)
    requires bs != []
    ensures WellFormed(bs) <==> CharLength(bs) > 0 && WellFormed(bs[CharLength(bs)..])
    ensures WellFormed(bs) ==> Decode(bs) == [FirstChar(bs)] + Decode(bs[CharLength(bs)..])
  {
  }

  lemma {:induction false} Join(a: Bytes, b: Bytes)
    requires WellFormed(a) && WellFormed(b)
    ensures WellFormed(a + b) && Decode(a + b) == Decode(a) + Decode(b)
    decreases |a|
  {
    hide *;
    if a == [] {
      assert a + b == b;
    } else {
      FirstStep(a);
      var n := CharLength(a);
      var rest := a[n..];
      CharLengthOfFront(a, b);
      assert (a + b)[n..] == rest + b;
      Join(rest, b);
      FirstStep(a + b);
      assert Decode(a + b) == [FirstChar(a)] + (Decode(rest) + Decode(b));
    }
  }

  lemma {:induction false} CutWellFormed(bs: Bytes, i: nat)
    requires WellFormed(bs) && i <= |bs| && (i < |bs| ==> !Continues(bs[i]))
    ensures WellFormed(bs[..i]) && WellFormed(bs[i..])
    decreases |bs|
  {
    hide *;
    if i == 0 {
      assert bs[0..] == bs && bs[..0] == [];
      assert WellFormed([]) by { NothingIsWellFormed(); }
    } else {
      FirstStep(bs);
      var n := CharLength(bs);
      assert n <= i;
      CharLengthOfPrefix(bs, i);
      CutWellFormed(bs[n..], i - n);
      assert bs[..i][n..] == bs[n..][..i - n];
      assert bs[i..] == bs[n..][i - n..];
      FirstStep(bs[..i]);
    }
  }

  /** A well-formed text may be cut wherever no character is; its two halves decode to the two
      halves of what it decodes to. */
  lemma Cut(bs: Bytes, i: nat)
    requires WellFormed(bs) && i <= |bs| && (i < |bs| ==> !Continues(bs[i]))
    ensures WellFormed(bs[..i]) && WellFormed(bs[i..])
    ensures Decode(bs) == Decode(bs[..i]) + Decode(bs[i..])
  {
    hide *;
    CutWellFormed(bs, i);
    assert bs == bs[..i] + bs[i..];
    Join(bs[..i], bs[i..]);
  }

  /** How much of `bs` is whole characters. */
  function Whole(bs: Bytes): (n: nat)
    ensures n <= |bs|
    decreases |bs|
  {
    var n := CharLength(bs);
    if n == 0 then 0 else n + Whole(bs[n..])
  }

  lemma {:induction false} WholeIsWellFormed(bs: Bytes)
    ensures WellFormed(bs[..Whole(bs)])
    decreases |bs|
  {
    var n := CharLength(bs);
    var m := Whole(bs);
    if n > 0 {
      WholeIsWellFormed(bs[n..]);
      CharLengthOfPrefix(bs, m);
      assert bs[..m][n..] == bs[n..][..m - n];
      hide CharLength;
      FirstStep(bs[..m]);
    }
  }

  lemma {:induction false} WholeOfWellFormed(bs: Bytes)
    requires WellFormed(bs)
    ensures Whole(bs) == |bs|
    decreases |bs|
  {
    if bs != [] { WholeOfWellFormed(bs[CharLength(bs)..]); }
  }

  /** Whole characters in front only move the cut by their length. */
  lemma {:induction false} WholeAfter(a: Bytes, b: Bytes)
    requires WellFormed(a)
    ensures Whole(a + b) == |a| + Whole(b)
    decreases |a|
  {
    if a == [] {
      assert a + b == b;
    } else {
      var n := CharLength(a);
      CharLengthOfFront(a, b);
      hide CharLength;
      assert (a + b)[n..] == a[n..] + b;
      WholeAfter(a[n..], b);
    }
  }
}
