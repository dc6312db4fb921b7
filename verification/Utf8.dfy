/** UTF-8 (RFC 3629), decoded at once and decoded chunk by chunk.

    `Decode` is what `Buffer.toString("utf8")` computes, `StringDecoder` the
    incremental decoder of Node.js that holds back a trailing partial character. */
module Utf8 {
  import opened Wrappers

  type byte = b: int | 0 <= b < 256
  type Bytes = seq<byte>

  /** A text as its sequence of code points. */
  type Text = seq<int>

  const REPLACEMENT := 0xFFFD

  // -------------------------------------- the syntax, section 4 of RFC 3629

  predicate IsTail(b: byte) {
    0x80 <= b <= 0xBF
  }

  /** The length of the sequences that start with `lead`; 0 when none does. */
  function Needed(lead: byte): nat {
    if lead <= 0x7F then 1
    else if 0xC2 <= lead <= 0xDF then 2
    else if 0xE0 <= lead <= 0xEF then 3
    else if 0xF0 <= lead <= 0xF4 then 4
    else 0
  }

  predicate IsSecond(lead: byte, b: byte) {
    && IsTail(b)
    && (lead == 0xE0 ==> 0xA0 <= b)
    && (lead == 0xED ==> b <= 0x9F)
    && (lead == 0xF0 ==> 0x90 <= b)
    && (lead == 0xF4 ==> b <= 0x8F)
  }

  /** The start of some character, possibly all of it. */
  predicate IsPartial(bs: Bytes) {
    && bs != [] && |bs| <= Needed(bs[0])
    && (|bs| >= 2 ==> IsSecond(bs[0], bs[1]))
    && forall i | 2 <= i < |bs| :: IsTail(bs[i])
  }

  predicate IsChar(bs: Bytes) {
    IsPartial(bs) && |bs| == Needed(bs[0])
  }

  /** How many bytes a decoder takes at a time: the longest start of a
      character, and never less than one byte. */
  function Taken(bs: Bytes): (k: nat)
    requires bs != []
    ensures 1 <= k <= |bs| && k <= 4
  {
    if |bs| < 2 || Needed(bs[0]) < 2 || !IsSecond(bs[0], bs[1]) then 1
    else if |bs| < 3 || Needed(bs[0]) < 3 || !IsTail(bs[2]) then 2
    else if |bs| < 4 || Needed(bs[0]) < 4 || !IsTail(bs[3]) then 3
    else 4
  }

  predicate WellFormed(bs: Bytes) {
    bs == [] || (IsChar(bs[..Taken(bs)]) && WellFormed(bs[Taken(bs)..]))
  }

  /** A well-formed stream that may have been cut short inside a character. */
  predicate CutShort(bs: Bytes) {
    bs == [] || IsPartial(bs) || (IsChar(bs[..Taken(bs)]) && CutShort(bs[Taken(bs)..]))
  }

  // ------------------------------------------------------------------ decode

  function CodePoint(c: Bytes): int
    requires IsChar(c)
  {
    var lead: int := c[0];
    if |c| == 1 then lead
    else if |c| == 2 then (lead - 0xC0) * 0x40 + TailBits(c[1])
    else if |c| == 3 then (lead - 0xE0) * 0x1000 + TailBits(c[1]) * 0x40 + TailBits(c[2])
    else (lead - 0xF0) * 0x40000 + TailBits(c[1]) * 0x1000 + TailBits(c[2]) * 0x40 + TailBits(c[3])
  }

  function TailBits(b: byte): int {
    b as int - 0x80
  }

  /** One replacement character for each maximal ill-formed part. */
  function Decode(bs: Bytes): Text {
    if bs == [] then []
    else
      var k := Taken(bs);
      [if IsChar(bs[..k]) then CodePoint(bs[..k]) else REPLACEMENT] + Decode(bs[k..])
  }

  /** Unicode scalar values. */
  predicate IsScalar(c: int) {
    0 <= c <= 0xD7FF || 0xE000 <= c <= 0x10FFFF
  }

  function EncodeOne(c: int): Bytes
    requires IsScalar(c)
  {
    if c < 0x80 then [c]
    else if c < 0x800 then [0xC0 + c / 0x40, 0x80 + c % 0x40]
    else if c < 0x10000 then [0xE0 + c / 0x1000, 0x80 + c / 0x40 % 0x40, 0x80 + c % 0x40]
    else [0xF0 + c / 0x40000, 0x80 + c / 0x1000 % 0x40, 0x80 + c / 0x40 % 0x40, 0x80 + c % 0x40]
  }

  function Encode(text: Text): Bytes
    requires forall c | c in text :: IsScalar(c)
  {
    if text == [] then [] else EncodeOne(text[0]) + Encode(text[1..])
  }

  lemma EncodeOneIsChar(c: int)
    requires IsScalar(c)
    ensures IsChar(EncodeOne(c)) && CodePoint(EncodeOne(c)) == c
  {
    if 0x800 <= c < 0x10000 {
      EncodeThree(c);
    } else if 0x10000 <= c {
      EncodeFour(c);
    }
  }

  lemma EncodeThree(c: int)
    requires IsScalar(c) && 0x800 <= c < 0x10000
    ensures IsChar(EncodeOne(c)) && CodePoint(EncodeOne(c)) == c
  {
    var a, b, d := c / 0x1000, c / 0x40 % 0x40, c % 0x40;
    assert c == a * 0x1000 + b * 0x40 + d;
    assert EncodeOne(c) == [0xE0 + a, 0x80 + b, 0x80 + d];
  }

  lemma FourDigits(c: int)
    requires 0x10000 <= c <= 0x10FFFF
    ensures c == c / 0x40000 * 0x40000 + c / 0x1000 % 0x40 * 0x1000 + c / 0x40 % 0x40 * 0x40 + c % 0x40
    ensures c / 0x40000 == 0 ==> c / 0x1000 % 0x40 >= 0x10
    ensures c / 0x40000 <= 4 && (c / 0x40000 == 4 ==> c / 0x1000 % 0x40 <= 0x0F)
  {
    var x, y := c / 0x40, c / 0x1000;
    assert y == x / 0x40 && c / 0x40000 == y / 0x40;
  }

  lemma FourBytes(a: int, b: int, d: int, e: int)
    requires 0 <= a <= 4 && 0 <= b < 0x40 && 0 <= d < 0x40 && 0 <= e < 0x40
    requires (a == 0 ==> b >= 0x10) && (a == 4 ==> b <= 0x0F)
    ensures var c := [0xF0 + a, 0x80 + b, 0x80 + d, 0x80 + e];
            IsChar(c) && CodePoint(c) == a * 0x40000 + b * 0x1000 + d * 0x40 + e
  {}

  lemma EncodeFour(c: int)
    requires IsScalar(c) && 0x10000 <= c
    ensures IsChar(EncodeOne(c)) && CodePoint(EncodeOne(c)) == c
  {
    FourDigits(c);
    FourBytes(c / 0x40000, c / 0x1000 % 0x40, c / 0x40 % 0x40, c % 0x40);
  }

  lemma TakesWholeChar(c: Bytes, rest: Bytes)
    requires IsChar(c)
    ensures Taken(c + rest) == |c| && (c + rest)[..|c|] == c && (c + rest)[|c|..] == rest
  {
    assert (c + rest)[..|c|] == c;
  }

  /** The examples of section 7 of RFC 3629: "A<NOT IDENTICAL TO><ALPHA>." and a
      character outside the basic plane. */
  lemma EncodedExamples()
    ensures EncodeOne(0x41) == [0x41] && EncodeOne(0x391) == [0xCE, 0x91]
    ensures EncodeOne(0x2262) == [0xE2, 0x89, 0xA2] && EncodeOne(0x233B4) == [0xF0, 0xA3, 0x8E, 0xB4]
  {}

  /** Every text comes back, and its bytes are well formed. */
  lemma {:induction false} DecodeEncode(text: Text)
    requires forall c | c in text :: IsScalar(c)
    ensures WellFormed(Encode(text)) && Decode(Encode(text)) == text
  {
    if text != [] {
      var c := EncodeOne(text[0]);
      EncodeOneIsChar(text[0]);
      TakesWholeChar(c, Encode(text[1..]));
      DecodeEncode(text[1..]);
    }
  }

  lemma PartialIsNotMore(c: Bytes, rest: Bytes)
    requires IsChar(c) && IsPartial(c + rest)
    ensures rest == []
  {
    assert (c + rest)[0] == c[0];
  }

  lemma CharAtHead(c: Bytes, rest: Bytes)
    requires IsChar(c)
    ensures Decode(c + rest) == [CodePoint(c)] + Decode(rest)
    ensures WellFormed(c + rest) <==> WellFormed(rest)
  {
    TakesWholeChar(c, rest);
  }

  lemma CutShortAtHead(c: Bytes, rest: Bytes)
    requires IsChar(c)
    ensures CutShort(c + rest) <==> CutShort(rest)
  {
    TakesWholeChar(c, rest);
    if IsPartial(c + rest) {
      PartialIsNotMore(c, rest);
    }
  }

  lemma FirstChar(q: Bytes) returns (c: Bytes, rest: Bytes)
    requires WellFormed(q) && q != []
    ensures q == c + rest && IsChar(c) && WellFormed(rest) && Decode(q) == [CodePoint(c)] + Decode(rest)
  {
    c, rest := q[..Taken(q)], q[Taken(q)..];
  }

  /** A well-formed start can be decoded on its own. */
  lemma {:induction false} DecodeAppend(q: Bytes, r: Bytes)
    requires WellFormed(q)
    ensures Decode(q + r) == Decode(q) + Decode(r)
    decreases |q|
  {
    if q == [] {
      assert q + r == r;
    } else {
      var c, rest := FirstChar(q);
      DecodeAppend(rest, r);
      CharAtHead(c, rest + r);
      Concatenation(c, rest, r);
      Concatenation([CodePoint(c)], Decode(rest), Decode(r));
    }
  }

  lemma {:induction false} WellFormedAppend(q: Bytes, r: Bytes)
    requires WellFormed(q)
    ensures WellFormed(q + r) <==> WellFormed(r)
    decreases |q|
  {
    if q == [] {
      assert q + r == r;
    } else {
      var c, rest := FirstChar(q);
      WellFormedAppend(rest, r);
      CharAtHead(c, rest + r);
      Concatenation(c, rest, r);
    }
  }

  lemma {:induction false} CutShortAppend(q: Bytes, r: Bytes)
    requires WellFormed(q)
    ensures CutShort(q + r) <==> CutShort(r)
    decreases |q|
  {
    if q == [] {
      assert q + r == r;
    } else {
      var c, rest := FirstChar(q);
      CutShortAppend(rest, r);
      CutShortAtHead(c, rest + r);
      Concatenation(c, rest, r);
    }
  }

  /** Cutting a well-formed stream anywhere leaves one that is cut short. */
  lemma {:induction false} PrefixIsCutShort(p: Bytes, rest: Bytes)
    requires CutShort(p + rest)
    ensures CutShort(p)
    decreases |p|
  {
    var s := p + rest;
    if p == [] {
    } else if IsPartial(s) {
      StartIsPartial(s, |p|);
      assert s[..|p|] == p;
    } else {
      var c := s[..Taken(s)];
      assert s == c + s[|c|..];
      CutShortAtHead(c, s[|c|..]);
      if |p| < |c| {
        StartIsPartial(c, |p|);
        assert c[..|p|] == p;
      } else {
        assert p == c + p[|c|..] && s[|c|..] == p[|c|..] + rest;
        PrefixIsCutShort(p[|c|..], rest);
        CutShortAtHead(c, p[|c|..]);
      }
    }
  }

  lemma StartIsPartial(s: Bytes, n: nat)
    requires IsPartial(s) && 0 < n <= |s|
    ensures IsPartial(s[..n])
  {}

  lemma WellFormedIsCutShort(s: Bytes)
    requires WellFormed(s)
    ensures CutShort(s)
  {
    CutShortAppend(s, []);
    assert s + [] == s;
  }

  // ------------------------------------------------------- the stream decoder

  /** How many of the last bytes the decoder holds back: it looks for the lead
      byte of the last character, at most four bytes from the end, and judges
      by the lead byte alone how long the character will be. */
  function HeldBack(bs: Bytes, seen: nat): (k: nat)
    requires seen < |bs|
    ensures k <= |bs|
    decreases |bs| - seen
  {
    var b := bs[|bs| - 1 - seen];
    var count := seen + 1;
    if IsTail(b) then
      if count >= 4 || count == |bs| then 0 else HeldBack(bs, count)
    else if count >= MaskedLength(b) then 0
    else count
  }

  /** The length that the high bits of a lead byte announce. */
  function MaskedLength(b: byte): nat {
    if 0xC0 <= b <= 0xDF then 2
    else if 0xE0 <= b <= 0xEF then 3
    else if 0xF0 <= b <= 0xF7 then 4
    else 0
  }

  /** The continuation bytes at the start of `bs`, `most` of them at most. */
  function Continued(bs: Bytes, most: nat): (k: nat)
    ensures k <= |bs| && k <= most
  {
    if bs == [] || most == 0 || !IsTail(bs[0]) then 0 else 1 + Continued(bs[1..], most - 1)
  }

  /** What the decoder remembers between chunks: the start of a character, and
      how many bytes it lacks. */
  datatype Held = Held(pending: Bytes, missing: nat)

  const NOTHING := Held([], 0)

  function TextOf(bs: Bytes, held: Held): Text
    requires |held.pending| <= |bs|
  {
    Decode(bs[..|bs| - |held.pending|])
  }

  /** A chunk with nothing pending before it: what will be held back. */
  function Hold(bs: Bytes): (held: Held)
    ensures |held.pending| <= |bs|
  {
    if bs == [] then NOTHING
    else
      var k := HeldBack(bs, 0);
      if k == 0 || MaskedLength(bs[|bs| - k]) < k then NOTHING
      else Held(bs[|bs| - k..], MaskedLength(bs[|bs| - k]) - k)
  }

  /** `StringDecoder.write` */
  function Write(held: Held, chunk: Bytes): (Text, Held) {
    if held.missing == 0 then (TextOf(chunk, Hold(chunk)), Hold(chunk))
    else
      var t := Continued(chunk, held.missing);
      var pending, rest := held.pending + chunk[..t], chunk[t..];
      if t < held.missing && rest == [] then ([], Held(pending, held.missing - t))
      else (Decode(pending) + TextOf(rest, Hold(rest)), Hold(rest))
  }

  /** `StringDecoder.end` */
  function Flush(held: Held): Text {
    Decode(held.pending)
  }

  /** All the text delivered for a sequence of chunks, and what is held back. */
  function WriteAll(chunks: seq<Bytes>): (Text, Held) {
    if chunks == [] then ([], NOTHING)
    else
      var last := |chunks| - 1;
      var (text, held) := WriteAll(chunks[..last]);
      var (more, next) := Write(held, chunks[last]);
      (text + more, next)
  }

  function Concat(chunks: seq<Bytes>): Bytes {
    if chunks == [] then [] else Concat(chunks[..|chunks| - 1]) + chunks[|chunks| - 1]
  }

  /** What is held back after `stream`, of which `consumed` has been decoded. */
  ghost predicate Holds(stream: Bytes, consumed: Bytes, held: Held) {
    && stream == consumed + held.pending && WellFormed(consumed)
    && (if held.pending == [] then held.missing == 0
        else IsPartial(held.pending) && held.missing == Needed(held.pending[0]) - |held.pending| > 0)
  }

  /** After `stream`, the texts delivered add up to `text` and `held` is held back. */
  ghost predicate Delivers(stream: Bytes, text: Text, held: Held) {
    exists consumed :: Holds(stream, consumed, held) && Decode(consumed) == text
  }

  // ------------------------------------------------------------- correctness

  lemma {:induction false} ContinuedAll(bs: Bytes, most: nat)
    requires forall i | 0 <= i < |bs| && i < most :: IsTail(bs[i])
    ensures Continued(bs, most) == if |bs| < most then |bs| else most
  {
    if bs != [] && most != 0 {
      ContinuedAll(bs[1..], most - 1);
    }
  }

  /** In a well-formed stream, a pending character is continued by what follows. */
  lemma PartialGrows(p: Bytes, chunk: Bytes)
    requires IsPartial(p) && |p| < Needed(p[0]) && CutShort(p + chunk)
    ensures var t := Continued(chunk, Needed(p[0]) - |p|);
            && (t < Needed(p[0]) - |p| ==> t == |chunk|)
            && IsPartial(p + chunk[..t])
  {
    var s, missing := p + chunk, Needed(p[0]) - |p|;
    var whole := if IsPartial(s) then s else s[..Taken(s)];
    assert IsPartial(whole) && whole[0] == p[0] && (|whole| == |s| || |whole| == Needed(p[0]));
    forall i | 0 <= i < |chunk| && i < missing
      ensures IsTail(chunk[i])
    {
      assert chunk[i] == s[|p| + i] == whole[|p| + i];
    }
    ContinuedAll(chunk, missing);
    var t := Continued(chunk, missing);
    assert forall i | 0 <= i < |p| + t :: (p + chunk[..t])[i] == whole[i];
  }

  /** A stream that is cut short is well formed up to its last, partial character. */
  lemma {:induction false} SplitTail(bs: Bytes) returns (q: Bytes, p: Bytes)
    requires CutShort(bs)
    ensures bs == q + p && WellFormed(q)
    ensures p != [] ==> IsPartial(p) && |p| < Needed(p[0])
    decreases |bs|
  {
    if bs == [] {
      q, p := [], [];
    } else if IsPartial(bs) && |bs| < Needed(bs[0]) {
      q, p := [], bs;
    } else {
      var c, rest := bs[..Taken(bs)], bs[Taken(bs)..];
      assert bs == c + rest;
      assert IsChar(c);
      CutShortAtHead(c, rest);
      var q', p' := SplitTail(rest);
      CharAtHead(c, q');
      Concatenation(c, q', p');
      q, p := c + q', p';
    }
  }

  lemma {:induction false} LastChar(q: Bytes) returns (front: Bytes, c: Bytes)
    requires WellFormed(q) && q != []
    ensures q == front + c && IsChar(c)
    decreases |q|
  {
    var first, rest := FirstChar(q);
    if rest == [] {
      front, c := [], first;
    } else {
      var front', c' := LastChar(rest);
      Concatenation(first, front', c');
      front, c := first + front', c';
    }
  }

  /** Scanning back from the end finds the lead byte of the last character. */
  lemma {:induction false} ScanBack(front: Bytes, p: Bytes, seen: nat)
    requires IsPartial(p) && seen < |p|
    ensures HeldBack(front + p, seen) == if |p| == Needed(p[0]) then 0 else |p|
    decreases |p| - seen
  {
    assert (front + p)[|front + p| - 1 - seen] == p[|p| - 1 - seen];
    if seen + 1 < |p| {
      ScanBack(front, p, seen + 1);
    }
  }

  /** Everything but a partial character at the end is decoded. */
  lemma HoldSplits(bs: Bytes)
    requires CutShort(bs)
    ensures Holds(bs, bs[..|bs| - |Hold(bs).pending|], Hold(bs))
  {
    var q, p := SplitTail(bs);
    if p != [] {
      ScanBack(q, p, 0);
      assert bs[|bs| - |p|] == p[0] && bs[|bs| - |p|..] == p;
      assert bs[..|bs| - |p|] == q;
    } else if bs != [] {
      assert bs == q;
      var front, c := LastChar(bs);
      ScanBack(front, c, 0);
    }
  }

  /** One chunk. */
  lemma WriteKeeps(stream: Bytes, text: Text, held: Held, chunk: Bytes)
    requires Delivers(stream, text, held) && CutShort(stream + chunk)
    ensures Delivers(stream + chunk, text + Write(held, chunk).0, Write(held, chunk).1)
  {
    var consumed :| Holds(stream, consumed, held) && Decode(consumed) == text;
    Concatenation(consumed, held.pending, chunk);
    CutShortAppend(consumed, held.pending + chunk);
    if held.missing == 0 {
      assert held.pending + chunk == chunk;
      ExtendBy(consumed, chunk);
    } else {
      ContinueChar(consumed, held, chunk);
    }
  }

  lemma ContinueChar(consumed: Bytes, held: Held, chunk: Bytes)
    requires WellFormed(consumed) && held.missing > 0 && IsPartial(held.pending)
    requires held.missing == Needed(held.pending[0]) - |held.pending| && CutShort(held.pending + chunk)
    ensures Delivers(consumed + (held.pending + chunk), Decode(consumed) + Write(held, chunk).0, Write(held, chunk).1)
  {
    PartialGrows(held.pending, chunk);
    if Continued(chunk, held.missing) < held.missing {
      StayPartial(consumed, held, chunk);
    } else {
      EndPartial(consumed, held, chunk);
    }
  }

  lemma StayPartial(consumed: Bytes, held: Held, chunk: Bytes)
    requires WellFormed(consumed) && IsPartial(held.pending + chunk)
    requires Continued(chunk, held.missing) == |chunk| < held.missing
    requires held.pending != [] && held.missing == Needed(held.pending[0]) - |held.pending|
    ensures Delivers(consumed + (held.pending + chunk), Decode(consumed) + Write(held, chunk).0, Write(held, chunk).1)
  {
    var stream, next := consumed + (held.pending + chunk), Held(held.pending + chunk, held.missing - |chunk|);
    assert chunk[..|chunk|] == chunk;
    assert Write(held, chunk) == ([], next);
    assert Holds(stream, consumed, next);
    assert Decode(consumed) + [] == Decode(consumed);
  }

  lemma EndPartial(consumed: Bytes, held: Held, chunk: Bytes)
    requires WellFormed(consumed) && 0 < held.missing <= |chunk| && Continued(chunk, held.missing) == held.missing
    requires IsChar(held.pending + chunk[..held.missing]) && CutShort(held.pending + chunk)
    ensures Delivers(consumed + (held.pending + chunk), Decode(consumed) + Write(held, chunk).0, Write(held, chunk).1)
  {
    var c, rest := held.pending + chunk[..held.missing], chunk[held.missing..];
    assert held.pending + chunk == c + rest;
    assert Write(held, chunk) == (Decode(c) + TextOf(rest, Hold(rest)), Hold(rest));
    CompleteChar(consumed, c, rest);
  }

  lemma CompleteChar(consumed: Bytes, c: Bytes, rest: Bytes)
    requires WellFormed(consumed) && IsChar(c) && CutShort(c + rest)
    ensures Delivers(consumed + (c + rest), Decode(consumed) + (Decode(c) + TextOf(rest, Hold(rest))), Hold(rest))
  {
    CutShortAtHead(c, rest);
    OneChar(c);
    DecodeAppend(consumed, c);
    WellFormedAppend(consumed, c);
    ExtendBy(consumed + c, rest);
    Concatenation(consumed, c, rest);
    Concatenation(Decode(consumed), Decode(c), TextOf(rest, Hold(rest)));
  }

  lemma OneChar(c: Bytes)
    requires IsChar(c)
    ensures WellFormed(c)
  {
    CharAtHead(c, []);
    assert c + [] == c;
  }

  lemma ExtendBy(consumed: Bytes, rest: Bytes)
    requires WellFormed(consumed) && CutShort(rest)
    ensures Delivers(consumed + rest, Decode(consumed) + TextOf(rest, Hold(rest)), Hold(rest))
  {
    var front := rest[..|rest| - |Hold(rest).pending|];
    HoldSplits(rest);
    Concatenation(consumed, front, Hold(rest).pending);
    WellFormedAppend(consumed, front);
    DecodeAppend(consumed, front);
    assert Holds(consumed + rest, consumed + front, Hold(rest));
  }

  lemma {:induction false} WriteAllKeeps(chunks: seq<Bytes>)
    requires CutShort(Concat(chunks))
    ensures Delivers(Concat(chunks), WriteAll(chunks).0, WriteAll(chunks).1)
  {
    if chunks == [] {
      assert Holds([], [], NOTHING);
    } else {
      var last := |chunks| - 1;
      var (text, held) := WriteAll(chunks[..last]);
      PrefixIsCutShort(Concat(chunks[..last]), chunks[last]);
      WriteAllKeeps(chunks[..last]);
      WriteKeeps(Concat(chunks[..last]), text, held, chunks[last]);
    }
  }

  /** However a stream is cut into chunks, the texts delivered chunk by chunk and
      the rest flushed at the end are the text decoded at once. The stream is
      well formed, or a well-formed one that stopped inside a character. */
  lemma ChunksDecodeAsWhole(chunks: seq<Bytes>)
    requires CutShort(Concat(chunks))
    ensures var (text, held) := WriteAll(chunks); text + Flush(held) == Decode(Concat(chunks))
  {
    WriteAllKeeps(chunks);
    var (text, held) := WriteAll(chunks);
    var consumed :| Holds(Concat(chunks), consumed, held) && Decode(consumed) == text;
    DecodeAppend(consumed, held.pending);
  }

  lemma PartialIsNotWhole(p: Bytes)
    requires IsPartial(p) && |p| < Needed(p[0])
    ensures !WellFormed(p) && Decode(p) == [0xFFFD]
  {
    assert Taken(p) == |p| && p[..|p|] == p && p[|p|..] == [];
    assert Decode([]) == [];
  }

  /** A byte that starts no character is replaced, one by one. */
  lemma StrayByte(bs: Bytes)
    requires bs != [] && (0x80 <= bs[0] < 0xC2 || 0xF5 <= bs[0])
    ensures Decode(bs) == [0xFFFD] + Decode(bs[1..])
  {}

  /** Something is left to flush exactly when the stream stops inside a character. */
  lemma FlushesNothingIff(chunks: seq<Bytes>)
    requires CutShort(Concat(chunks))
    ensures Flush(WriteAll(chunks).1) == [] <==> WellFormed(Concat(chunks))
  {
    WriteAllKeeps(chunks);
    var (text, held) := WriteAll(chunks);
    var consumed :| Holds(Concat(chunks), consumed, held) && Decode(consumed) == text;
    WellFormedAppend(consumed, held.pending);
    if held.pending != [] {
      PartialIsNotWhole(held.pending);
    }
  }

  /** The text of a stream, whatever the chunks it arrives in. */
  lemma ChunksOfText(text: Text, chunks: seq<Bytes>)
    requires forall c | c in text :: IsScalar(c)
    requires Concat(chunks) == Encode(text)
    ensures var (delivered, held) := WriteAll(chunks); delivered + Flush(held) == text
  {
    DecodeEncode(text);
    WellFormedIsCutShort(Encode(text));
    ChunksDecodeAsWhole(chunks);
  }
}
