/** Uniform indices from random bytes: little-endian 32-bit words, with rejection sampling. */
module Sampling {
  import opened Wrappers

  const BYTES_PER_DRAW := 4
  const WORDS := 0x1_0000_0000
  const U32_MAX := WORDS - 1

  type Byte = b: nat | b < 256
  type Word = w: nat | w < WORDS
  type Range = r: nat | 0 < r <= U32_MAX witness 1

  datatype GenError =
    | InvalidLength
    | NoClassesEnabled
    | LengthTooShort(length: nat, classes: nat)
    | AlphabetEmpty
    | Csprng

  function LittleEndian(b: seq<Byte>): Word
    requires |b| == BYTES_PER_DRAW
  {
    var b0: int, b1: int, b2: int, b3: int := b[0], b[1], b[2], b[3];
    b0 + 0x100 * (b1 + 0x100 * (b2 + 0x100 * b3))
  }

  function BytesOf(w: Word): (b: seq<Byte>)
    ensures |b| == BYTES_PER_DRAW
  {
    var w1: int := w / 0x100;
    var w2 := w1 / 0x100;
    var w3 := w2 / 0x100;
    [w % 0x100, w1 % 0x100, w2 % 0x100, w3]
  }

  /** Four uniform bytes are a uniform word: the reading is a bijection. */
  lemma WordsAreBytes(w: Word, b: seq<Byte>)
    requires |b| == BYTES_PER_DRAW
    ensures LittleEndian(BytesOf(w)) == w
    ensures BytesOf(LittleEndian(b)) == b
  {
    var v: int := LittleEndian(b);
    var b2: int, b3: int := b[2], b[3];
    assert v / 0x100 / 0x100 == b2 + 0x100 * b3;
  }

  /* ---------------------------- Rejection sampling ---------------------------- */

  function Threshold(range: Range): nat {
    U32_MAX - U32_MAX % range
  }

  function Accepted(range: Range, index: nat): set<nat> {
    Below(Threshold(range), range, index)
  }

  function Below(bound: nat, range: Range, index: nat): set<nat> {
    set v: nat | v < bound && v % range == index
  }

  /** No bias: each index is the remainder of exactly as many accepted words as any other, and
      at least one word and at most `range` of them are rejected. */
  lemma ExactlyUniform(range: Range, index: nat)
    requires index < range
    ensures |Accepted(range, index)| == Threshold(range) / range > 0
    ensures Threshold(range) % range == 0
    ensures 1 <= WORDS - Threshold(range) <= range
  {
    var blocks := U32_MAX / range;
    assert Threshold(range) == blocks * range;
    MultipleOf(blocks, range);
    BlocksBelow(blocks, range, index);
    assert U32_MAX == blocks * range + U32_MAX % range && U32_MAX % range < range;
  }

  lemma MultipleOf(blocks: nat, range: Range)
    ensures blocks * range % range == 0 && blocks * range / range == blocks
  {
    Remainder(blocks, range, 0);
  }

  lemma Remainder(blocks: nat, range: int, index: nat)
    requires index < range
    ensures (blocks * range + index) % range == index && (blocks * range + index) / range == blocks
  {
    var v := blocks * range + index;
    var quotient, rest := v / range, v % range;
    assert v == quotient * range + rest;
    if quotient != blocks {
      assert (quotient - blocks) * range == quotient * range - blocks * range;
      AtLeastOne(quotient - blocks, range);
    }
  }

  lemma AtLeastOne(d: int, range: int)
    requires d != 0 && range > 0
    ensures d * range <= -range || range <= d * range
  {
    if d > 0 {
      assert (d - 1) * range >= 0;
    } else {
      assert (-1 - d) * range >= 0;
    }
  }

  lemma {:induction false} BlocksBelow(blocks: nat, range: Range, index: nat)
    requires index < range
    ensures |Below(blocks * range, range, index)| == blocks
  {
    if blocks == 0 {
      assert Below(0, range, index) == {};
    } else {
      BlocksBelow(blocks - 1, range, index);
      assert blocks * range == (blocks - 1) * range + range;
      OneBlock(blocks - 1, range, index);
    }
  }

  lemma OneBlock(block: nat, range: Range, index: nat)
    requires index < range
    ensures var low := block * range;
            && Below(low + range, range, index) == Below(low, range, index) + {low + index}
            && low + index !in Below(low, range, index)
  {
    var low := block * range;
    Remainder(block, range, index);
    forall v: nat | low <= v < low + range
      ensures v % range == v - low
    {
      Remainder(block, range, v - low);
    }
  }

  /** The threshold is the largest usable one exactly when `range` does not divide 2^32; when
      it does, one whole block of good words is rejected too. */
  lemma ThresholdIsLargest(range: Range)
    ensures WORDS % range != 0 <==> WORDS < Threshold(range) + range
    ensures WORDS % range == 0 ==> WORDS == Threshold(range) + range
  {
    var blocks := U32_MAX / range;
    var rest := U32_MAX % range;
    assert WORDS == blocks * range + rest + 1;
    if rest + 1 == range {
      MultipleOf(blocks + 1, range);
      assert WORDS == (blocks + 1) * range;
    } else {
      Remainder(blocks, range, rest + 1);
    }
  }

  // The first word below the threshold at or after `pos`, and where reading stops.
  function FirstBelow(bytes: seq<Byte>, pos: nat, threshold: nat): (r: Option<(nat, nat)>)
    ensures r.Some? ==> r.value.0 < threshold
    decreases |bytes| - pos
  {
    if pos + BYTES_PER_DRAW > |bytes| then None
    else
      var v := LittleEndian(bytes[pos..pos + BYTES_PER_DRAW]);
      var next := pos + BYTES_PER_DRAW;
      if v < threshold then Some((v, next)) else FirstBelow(bytes, next, threshold)
  }

  function Draw(bytes: seq<Byte>, pos: nat, range: Range): (r: Option<(nat, nat)>)
    ensures r.Some? ==> r.value.0 < range
  {
    var first := FirstBelow(bytes, pos, Threshold(range));
    if first.None? then None else Some((first.value.0 % range, first.value.1))
  }

  // The whole words of the bytes; fewer than four bytes are left over.
  function WordsOf(bytes: seq<Byte>): (r: seq<Word>)
    ensures BYTES_PER_DRAW * |r| <= |bytes| < BYTES_PER_DRAW * |r| + BYTES_PER_DRAW
  {
    if |bytes| < BYTES_PER_DRAW then []
    else [LittleEndian(bytes[..BYTES_PER_DRAW])] + WordsOf(bytes[BYTES_PER_DRAW..])
  }

  lemma WordsAt(bytes: seq<Byte>, pos: nat)
    requires pos + BYTES_PER_DRAW <= |bytes|
    ensures WordsOf(bytes[pos..]) ==
              [LittleEndian(bytes[pos..pos + BYTES_PER_DRAW])] + WordsOf(bytes[pos + BYTES_PER_DRAW..])
  {
    assert bytes[pos..][..BYTES_PER_DRAW] == bytes[pos..pos + BYTES_PER_DRAW];
    assert bytes[pos..][BYTES_PER_DRAW..] == bytes[pos + BYTES_PER_DRAW..];
  }

  function FirstAccepted(words: seq<Word>, range: Range): Option<nat> {
    if words == [] then None
    else if words[0] < Threshold(range) then Some(words[0] % range)
    else FirstAccepted(words[1..], range)
  }

  function Other(index: nat, i: nat, j: nat): nat {
    if index == i then j else if index == j then i else index
  }

  // The word whose remainder is the other of `i` and `j`, in the same block.
  function Exchanged(w: Word, range: Range, i: nat, j: nat): (x: Word)
    requires i < range && j < range
    ensures x < Threshold(range) <==> w < Threshold(range)
    ensures w < Threshold(range) ==> x % range == Other(w % range, i, j) && x - x % range == w - w % range
    ensures Threshold(range) <= w ==> x == w
  {
    if w < Threshold(range) then
      SameBlock(w, U32_MAX, range, Other(w % range, i, j));
      w - w % range + Other(w % range, i, j)
    else w
  }

  lemma SameBlock(w: nat, max: nat, range: int, index: nat)
    requires index < range && w < max - max % range
    ensures var x := w - w % range + index;
            0 <= x < max - max % range && x % range == index && x - x % range == w - w % range
  {
    Division(w, range);
    Division(max, range);
    InBlock(w / range, max / range, range, w % range, index);
  }

  lemma Division(v: nat, range: int)
    requires range > 0
    ensures v == v / range * range + v % range && 0 <= v % range < range
  {
  }

  lemma InBlock(block: nat, blocks: nat, range: int, rest: nat, index: nat)
    requires rest < range && index < range
    requires block * range + rest < blocks * range
    ensures 0 <= block * range && block * range + index < blocks * range
    ensures (block * range + index) % range == index
  {
    WholeBlock(block, blocks, range);
    Remainder(block, range, index);
  }

  lemma WholeBlock(block: int, blocks: int, range: int)
    requires block * range < blocks * range && range > 0
    ensures block * range + range <= blocks * range
  {
    assert (blocks - block) * range == blocks * range - block * range;
    if blocks != block {
      AtLeastOne(blocks - block, range);
    }
  }

  function ExchangedAll(words: seq<Word>, range: Range, i: nat, j: nat): seq<Word>
    requires i < range && j < range
  {
    seq(|words|, k requires 0 <= k < |words| => Exchanged(words[k], range, i, j))
  }

  /** A draw of any length is exactly uniform: exchanging `i` and `j` word by word is an
      involution on the streams of each length that turns the draws of `i` into the draws of
      `j`, so there are as many of the one as of the other. */
  lemma {:induction false} StreamsAreUniform(words: seq<Word>, range: Range, i: nat, j: nat)
    requires i < range && j < range
    ensures ExchangedAll(ExchangedAll(words, range, i, j), range, i, j) == words
    ensures FirstAccepted(words, range) == None <==> FirstAccepted(ExchangedAll(words, range, i, j), range) == None
    ensures FirstAccepted(words, range) == Some(i) <==> FirstAccepted(ExchangedAll(words, range, i, j), range) == Some(j)
  {
    var other := ExchangedAll(words, range, i, j);
    forall k | 0 <= k < |words|
      ensures Exchanged(other[k], range, i, j) == words[k]
    {
    }
    if words != [] && Threshold(range) <= words[0] {
      StreamsAreUniform(words[1..], range, i, j);
      assert other[1..] == ExchangedAll(words[1..], range, i, j);
    }
  }

  /* ---------------------------- Many draws ---------------------------- */

  // One draw for each range in turn from `pos` on, and where reading stops.
  function DrawFrom(bytes: seq<Byte>, pos: nat, ranges: seq<Range>): (r: Option<(seq<nat>, nat)>)
    ensures r.Some? ==> Drawn(r.value.0, ranges)
    decreases |ranges|
  {
    if ranges == [] then Some(([], pos))
    else
      var first := Draw(bytes, pos, ranges[0]);
      if first.None? then None
      else
        var rest := DrawFrom(bytes, first.value.1, ranges[1..]);
        if rest.None? then None else Some(([first.value.0] + rest.value.0, rest.value.1))
  }

  function DrawAll(bytes: seq<Byte>, ranges: seq<Range>): (r: Option<(seq<nat>, nat)>)
    ensures r.Some? ==> Drawn(r.value.0, ranges)
  {
    DrawFrom(bytes, 0, ranges)
  }

  // Indices that draws for these ranges may give.
  predicate Drawn(indices: seq<nat>, ranges: seq<Range>) {
    |indices| == |ranges| && forall k :: 0 <= k < |ranges| ==> indices[k] < ranges[k]
  }

  // One more draw at the end.
  function Followed(before: Option<(seq<nat>, nat)>, bytes: seq<Byte>, range: Range): Option<(seq<nat>, nat)> {
    if before.None? then None
    else
      var last := Draw(bytes, before.value.1, range);
      if last.None? then None else Some((before.value.0 + [last.value.0], last.value.1))
  }

  lemma {:induction false} DrawFromStep(bytes: seq<Byte>, pos: nat, ranges: seq<Range>, range: Range)
    ensures DrawFrom(bytes, pos, ranges + [range]) == Followed(DrawFrom(bytes, pos, ranges), bytes, range)
    decreases |ranges|
  {
    if ranges == [] {
      var all: seq<Range> := [range];
      assert all[1..] == [] && ranges + [range] == all;
      var last, none: seq<nat> := Draw(bytes, pos, range), [];
      assert DrawFrom(bytes, pos, ranges) == Some((none, pos));
      assert last.Some? ==> [last.value.0] + none == none + [last.value.0];
    } else {
      assert (ranges + [range])[1..] == ranges[1..] + [range];
      var first := Draw(bytes, pos, ranges[0]);
      if first.Some? {
        DrawFromStep(bytes, first.value.1, ranges[1..], range);
        var rest := DrawFrom(bytes, first.value.1, ranges[1..]);
        assert forall last: nat :: rest.Some? ==>
          [first.value.0] + (rest.value.0 + [last]) == [first.value.0] + rest.value.0 + [last];
      }
    }
  }

  lemma DrawAllStep(bytes: seq<Byte>, ranges: seq<Range>, range: Range)
    ensures DrawAll(bytes, ranges + [range]) == Followed(DrawAll(bytes, ranges), bytes, range)
  {
    DrawFromStep(bytes, 0, ranges, range);
  }

  lemma {:induction false} DrawAllFails(bytes: seq<Byte>, ranges: seq<Range>, more: seq<Range>)
    requires DrawAll(bytes, ranges).None?
    ensures DrawAll(bytes, ranges + more).None?
    decreases |more|
  {
    if more == [] {
      assert ranges + more == ranges;
    } else {
      DrawAllStep(bytes, ranges, more[0]);
      DrawAllFails(bytes, ranges + [more[0]], more[1..]);
      assert ranges + more == ranges + [more[0]] + more[1..];
    }
  }

  /* ---------------------------- What the draws cost ---------------------------- */

  // The words from `pos` on that are rejected before one is accepted, or before they run out.
  function Skipped(bytes: seq<Byte>, pos: nat, threshold: nat): nat
    decreases |bytes| - pos
  {
    if pos + BYTES_PER_DRAW > |bytes| || LittleEndian(bytes[pos..pos + BYTES_PER_DRAW]) < threshold then 0
    else 1 + Skipped(bytes, pos + BYTES_PER_DRAW, threshold)
  }

  // The words rejected in all these draws.
  function RejectionsFrom(bytes: seq<Byte>, pos: nat, ranges: seq<Range>): nat
    decreases |ranges|
  {
    if ranges == [] then 0
    else
      var first := Draw(bytes, pos, ranges[0]);
      Skipped(bytes, pos, Threshold(ranges[0]))
      + if first.None? then 0 else RejectionsFrom(bytes, first.value.1, ranges[1..])
  }

  function Rejections(bytes: seq<Byte>, ranges: seq<Range>): nat {
    RejectionsFrom(bytes, 0, ranges)
  }

  lemma {:induction false} DrawCost(bytes: seq<Byte>, pos: nat, threshold: nat)
    requires pos <= |bytes|
    ensures var end := pos + BYTES_PER_DRAW * (Skipped(bytes, pos, threshold) + 1);
            && (FirstBelow(bytes, pos, threshold).Some? <==> end <= |bytes|)
            && (FirstBelow(bytes, pos, threshold).Some? ==> FirstBelow(bytes, pos, threshold).value.1 == end)
    decreases |bytes| - pos
  {
    if pos + BYTES_PER_DRAW <= |bytes| && threshold <= LittleEndian(bytes[pos..pos + BYTES_PER_DRAW]) {
      DrawCost(bytes, pos + BYTES_PER_DRAW, threshold);
    }
  }

  lemma {:induction false} DrawsCost(bytes: seq<Byte>, pos: nat, ranges: seq<Range>)
    requires pos <= |bytes|
    ensures var end := pos + BYTES_PER_DRAW * (|ranges| + RejectionsFrom(bytes, pos, ranges));
            && (DrawFrom(bytes, pos, ranges).Some? <==> end <= |bytes|)
            && (DrawFrom(bytes, pos, ranges).Some? ==> DrawFrom(bytes, pos, ranges).value.1 == end)
    decreases |ranges|
  {
    if ranges != [] {
      DrawCost(bytes, pos, Threshold(ranges[0]));
      var first := Draw(bytes, pos, ranges[0]);
      if first.Some? {
        DrawsCost(bytes, first.value.1, ranges[1..]);
      }
    }
  }

  /** The draws succeed exactly when there is a word for each of them and for each rejection in the
      bytes, and they read just that much. */
  lemma DrawsSucceedExactly(bytes: seq<Byte>, ranges: seq<Range>)
    ensures var cost := BYTES_PER_DRAW * (|ranges| + Rejections(bytes, ranges));
            && (DrawAll(bytes, ranges).Some? <==> cost <= |bytes|)
            && (DrawAll(bytes, ranges).Some? ==> DrawAll(bytes, ranges).value.1 == cost)
  {
    DrawsCost(bytes, 0, ranges);
  }

  /* ---------------------------- All draws are equally likely ---------------------------- */

  // The same draws, made of words.
  function DrawWords(words: seq<Word>, ranges: seq<Range>): (r: Option<seq<nat>>)
    ensures r.Some? ==> Drawn(r.value, ranges)
  {
    if ranges == [] then Some([])
    else if words == [] then None
    else if words[0] < Threshold(ranges[0]) then
      var rest := DrawWords(words[1..], ranges[1..]);
      if rest.None? then None else Some([words[0] % ranges[0]] + rest.value)
    else DrawWords(words[1..], ranges)
  }

  lemma {:induction false} DrawsAreOfWords(bytes: seq<Byte>, pos: nat, ranges: seq<Range>)
    requires pos <= |bytes|
    ensures var words := DrawWords(WordsOf(bytes[pos..]), ranges);
            && (DrawFrom(bytes, pos, ranges).Some? <==> words.Some?)
            && (words.Some? ==> DrawFrom(bytes, pos, ranges).value.0 == words.value)
    decreases |bytes| - pos
  {
    if ranges != [] && pos + BYTES_PER_DRAW <= |bytes| {
      WordsAt(bytes, pos);
      var next := pos + BYTES_PER_DRAW;
      if LittleEndian(bytes[pos..next]) < Threshold(ranges[0]) {
        DrawsAreOfWords(bytes, next, ranges[1..]);
      } else {
        DrawsAreOfWords(bytes, next, ranges);
      }
    }
  }

  // Each word exchanged for the draw it is used in; words after the last draw stay.
  function ExchangedDraws(words: seq<Word>, ranges: seq<Range>, a: seq<nat>, b: seq<nat>): (r: seq<Word>)
    requires Drawn(a, ranges) && Drawn(b, ranges)
    ensures |r| == |words|
    decreases |words|
  {
    if words == [] || ranges == [] then words
    else
      var x := Exchanged(words[0], ranges[0], a[0], b[0]);
      [x] + (if words[0] < Threshold(ranges[0]) then ExchangedDraws(words[1..], ranges[1..], a[1..], b[1..])
             else ExchangedDraws(words[1..], ranges, a, b))
  }

  lemma ExchangedTwice(w: Word, range: Range, i: nat, j: nat)
    requires i < range && j < range
    ensures Exchanged(Exchanged(w, range, i, j), range, i, j) == w
  {
  }

  lemma {:induction false} ExchangeIsInvolution(words: seq<Word>, ranges: seq<Range>, a: seq<nat>, b: seq<nat>)
    requires Drawn(a, ranges) && Drawn(b, ranges)
    ensures ExchangedDraws(ExchangedDraws(words, ranges, a, b), ranges, a, b) == words
    decreases |words|
  {
    if words != [] && ranges != [] {
      ExchangedTwice(words[0], ranges[0], a[0], b[0]);
      var other, rest := ExchangedDraws(words, ranges, a, b), words[1..];
      if words[0] < Threshold(ranges[0]) {
        ExchangeIsInvolution(rest, ranges[1..], a[1..], b[1..]);
        assert other[1..] == ExchangedDraws(rest, ranges[1..], a[1..], b[1..]);
      } else {
        ExchangeIsInvolution(rest, ranges, a, b);
        assert other[1..] == ExchangedDraws(rest, ranges, a, b);
      }
    }
  }

  lemma {:induction false} ExchangeTurnsDraws(words: seq<Word>, ranges: seq<Range>, a: seq<nat>, b: seq<nat>)
    requires Drawn(a, ranges) && Drawn(b, ranges)
    ensures var other := ExchangedDraws(words, ranges, a, b);
            && (DrawWords(words, ranges) == None <==> DrawWords(other, ranges) == None)
            && (DrawWords(words, ranges) == Some(a) <==> DrawWords(other, ranges) == Some(b))
    decreases |words|
  {
    if words != [] && ranges != [] {
      var other, rest := ExchangedDraws(words, ranges, a, b), words[1..];
      if words[0] < Threshold(ranges[0]) {
        ExchangeTurnsDraws(rest, ranges[1..], a[1..], b[1..]);
        assert other[1..] == ExchangedDraws(rest, ranges[1..], a[1..], b[1..]);
        FirstAndRest(a, words[0] % ranges[0], DrawWords(rest, ranges[1..]));
        FirstAndRest(b, other[0] % ranges[0], DrawWords(other[1..], ranges[1..]));
      } else {
        ExchangeTurnsDraws(rest, ranges, a, b);
        assert other[1..] == ExchangedDraws(rest, ranges, a, b);
      }
    }
  }

  lemma FirstAndRest(a: seq<nat>, first: nat, rest: Option<seq<nat>>)
    requires a != []
    ensures rest.Some? ==> (a == [first] + rest.value <==> a[0] == first && rest == Some(a[1..]))
  {
    assert a == [a[0]] + a[1..];
  }

  function Spelled(words: seq<Word>): (r: seq<Byte>)
    ensures |r| == BYTES_PER_DRAW * |words|
  {
    if words == [] then [] else BytesOf(words[0]) + Spelled(words[1..])
  }

  lemma {:induction false} WordsOfSpelled(words: seq<Word>, tail: seq<Byte>)
    requires |tail| < BYTES_PER_DRAW
    ensures WordsOf(Spelled(words) + tail) == words
  {
    if words != [] {
      var all, rest := Spelled(words) + tail, Spelled(words[1..]);
      WordsAreBytes(words[0], BytesOf(words[0]));
      assert all[..BYTES_PER_DRAW] == BytesOf(words[0]) && all[BYTES_PER_DRAW..] == rest + tail;
      WordsOfSpelled(words[1..], tail);
    }
  }

  lemma {:induction false} SpelledWords(bytes: seq<Byte>)
    ensures Spelled(WordsOf(bytes)) + Tail(bytes) == bytes
  {
    if BYTES_PER_DRAW <= |bytes| {
      var first, rest := bytes[..BYTES_PER_DRAW], bytes[BYTES_PER_DRAW..];
      WordsAreBytes(0, first);
      SpelledWords(rest);
      assert WordsOf(bytes)[1..] == WordsOf(rest) && Tail(rest) == Tail(bytes);
      assert bytes == first + rest;
    }
  }

  // The bytes that make no whole word.
  function Tail(bytes: seq<Byte>): (r: seq<Byte>)
    ensures |r| < BYTES_PER_DRAW
  {
    bytes[BYTES_PER_DRAW * |WordsOf(bytes)|..]
  }

  function ExchangedBytes(bytes: seq<Byte>, ranges: seq<Range>, a: seq<nat>, b: seq<nat>): (r: seq<Byte>)
    requires Drawn(a, ranges) && Drawn(b, ranges)
    ensures |r| == |bytes|
  {
    Spelled(ExchangedDraws(WordsOf(bytes), ranges, a, b)) + Tail(bytes)
  }

  // The bytes give these indices.
  predicate Give(bytes: seq<Byte>, ranges: seq<Range>, indices: seq<nat>) {
    DrawAll(bytes, ranges).Some? && DrawAll(bytes, ranges).value.0 == indices
  }

  /** All draws together are uniform: for any list of ranges and any two vectors of indices, an
      involution on the byte strings of each length turns those that give the one vector into
      those that give the other, and no string that suffices into one that runs out. */
  lemma DrawsAreUniform(bytes: seq<Byte>, ranges: seq<Range>, a: seq<nat>, b: seq<nat>)
    requires Drawn(a, ranges) && Drawn(b, ranges)
    ensures var other := ExchangedBytes(bytes, ranges, a, b);
            && ExchangedBytes(other, ranges, a, b) == bytes
            && (DrawAll(bytes, ranges).None? <==> DrawAll(other, ranges).None?)
            && (Give(bytes, ranges, a) <==> Give(other, ranges, b))
  {
    var words, other := WordsOf(bytes), ExchangedBytes(bytes, ranges, a, b);
    var exchanged := ExchangedDraws(words, ranges, a, b);
    WordsOfSpelled(exchanged, Tail(bytes));
    ExchangeIsInvolution(words, ranges, a, b);
    ExchangeTurnsDraws(words, ranges, a, b);
    SpelledWords(bytes);
    assert Tail(other) == Tail(bytes);
    DrawsAreOfWords(bytes, 0, ranges);
    DrawsAreOfWords(other, 0, ranges);
    assert bytes[0..] == bytes && other[0..] == other;
  }

  class ByteCursor {
    const bytes: seq<Byte>
    var pos: nat
    // The ranges drawn for and the indices they gave.
    ghost var ranges: seq<Range>
    ghost var indices: seq<nat>

    ghost predicate Valid()
      reads this
    {
      pos <= |bytes|
    }

    // No draw has failed yet.
    ghost predicate Fresh()
      reads this
    {
      Valid() && DrawAll(bytes, ranges) == Some((indices, pos))
    }

    constructor (bytes: seq<Byte>)
      ensures Fresh() && this.bytes == bytes && pos == 0 && ranges == [] && indices == []
    {
      this.bytes, pos := bytes, 0;
      ranges, indices := [], [];
    }

    method NextU32() returns (r: Result<Word, GenError>)
      requires pos <= |bytes|
      modifies this`pos
      ensures r.Ok? <==> old(pos) + BYTES_PER_DRAW <= |bytes|
      ensures r.Ok? ==> pos == old(pos) + BYTES_PER_DRAW && r.value == LittleEndian(bytes[old(pos)..pos])
      ensures r.Err? ==> r.error == Csprng && pos == old(pos)
    {
      if pos + BYTES_PER_DRAW > |bytes| {
        return Err(Csprng);
      }
      var chunk := bytes[pos..pos + BYTES_PER_DRAW];
      pos := pos + BYTES_PER_DRAW;
      return Ok(LittleEndian(chunk));
    }

    // The rejection loop. Err: every word left was rejected, and fewer than four bytes are left.
    method NextBelow(threshold: nat) returns (r: Result<nat, GenError>)
      requires Valid()
      modifies this`pos
      ensures Valid()
      ensures r.Ok? <==> FirstBelow(bytes, old(pos), threshold).Some?
      ensures r.Ok? ==> FirstBelow(bytes, old(pos), threshold) == Some((r.value, pos))
      ensures r.Err? ==> r.error == Csprng && pos + BYTES_PER_DRAW > |bytes|
    {
      while true
        invariant Valid()
        invariant FirstBelow(bytes, pos, threshold) == FirstBelow(bytes, old(pos), threshold)
        decreases |bytes| - pos
      {
        var next := NextU32();
        if next.Err? {
          return Err(next.error);
        }
        var v := next.value;
        if v < threshold {
          return Ok(v);
        }
      }
    }

    /** The first accepted word decides. Ok: the draws so far and this one have read a word for each
        of them and for each rejection. Err: there is no word left for the rest. */
    method UniformIndex(range: Range) returns (r: Result<nat, GenError>)
      requires Fresh()
      modifies this
      ensures r.Ok? ==> Fresh() && r.value < range
      ensures r.Ok? ==> ranges == old(ranges) + [range] && indices == old(indices) + [r.value]
      ensures r.Ok? ==> pos == BYTES_PER_DRAW * (|ranges| + Rejections(bytes, ranges))
      ensures r.Err? ==> Valid() && r.error == Csprng && pos + BYTES_PER_DRAW > |bytes|
      ensures r.Err? ==> indices == old(indices) && DrawAll(bytes, old(ranges) + [range]).None?
      ensures r.Err? ==>
                var all := old(ranges) + [range];
                |bytes| < BYTES_PER_DRAW * (|all| + Rejections(bytes, all))
    {
      DrawsSucceedExactly(bytes, ranges + [range]);
      DrawAllStep(bytes, ranges, range);
      var v := NextBelow(Threshold(range));
      if v.Err? {
        return Err(v.error);
      }
      var index := v.value % range;
      ranges, indices := ranges + [range], indices + [index];
      return Ok(index);
    }
  }
}
