/** The stdout and stderr buffer: the beginning and the end of a stream are kept, whole chunks at a time. */
module StreamBuffer {
  type Chunk = seq<bv8>

  const STREAM_CAP_BYTES := 2 * 1024 * 1024
  const STREAM_HALF_BYTES := STREAM_CAP_BYTES / 2

  /** The bytes of some chunks, in order. */
  function Flat(chunks: seq<Chunk>): seq<bv8> {
    if chunks == [] then [] else Flat(chunks[..|chunks| - 1]) + chunks[|chunks| - 1]
  }

  lemma {:induction false} FlatConcat(a: seq<Chunk>, b: seq<Chunk>)
    ensures Flat(a + b) == Flat(a) + Flat(b)
  {
    hide Flat;
    if b == [] {
      FlatNothing();
      assert a + b == a;
    } else {
      var front, last := b[..|b| - 1], b[|b| - 1];
      FlatConcat(a, front);
      FlatSnoc(a + front, last);
      FlatSnoc(front, last);
      assert a + b == a + front + [last] && b == front + [last];
      assert Flat(a) + (Flat(front) + last) == Flat(a) + Flat(front) + last;
    }
  }

  lemma FlatNothing()
    ensures Flat([]) == []
  {
  }

  lemma FlatSnoc(front: seq<Chunk>, last: Chunk)
    ensures Flat(front + [last]) == Flat(front) + last
  {
    assert (front + [last])[..|front|] == front;
  }

  lemma FlatOne(c: Chunk)
    ensures Flat([c]) == c
  {
    assert [c][..0] == [];
    assert Flat([c][..0]) == [];
  }

  /** The shortest beginning of a stream that fills half the cap, or all of it so far. */
  ghost predicate IsHead(head: seq<Chunk>) {
    forall i :: 0 <= i < |head| ==> |Flat(head[..i])| < STREAM_HALF_BYTES
  }

  /** The longest end, of what follows the head, that fits the other half; but never less than one chunk. */
  ghost predicate IsTail(middle: seq<Chunk>, tail: seq<Chunk>) {
    && (|Flat(tail)| <= STREAM_HALF_BYTES || |tail| == 1)
    && (middle != [] ==> tail != [] && |middle[|middle| - 1]| + |Flat(tail)| > STREAM_HALF_BYTES)
  }

  /** How a stream of chunks is divided: kept head, dropped middle, kept tail. */
  ghost predicate Divides(chunks: seq<Chunk>, head: seq<Chunk>, middle: seq<Chunk>, tail: seq<Chunk>) {
    && chunks == head + middle + tail
    && IsHead(head) && IsTail(middle, tail)
    && (middle + tail != [] ==> |Flat(head)| >= STREAM_HALF_BYTES)
  }

  class StreamRingBuffer {
    var head: seq<Chunk>
    var tail: seq<Chunk>
    var headBytes: nat
    var tailBytes: nat
    var elided: nat
    /** All chunks pushed so far, and those no longer held. */
    ghost var pushed: seq<Chunk>
    ghost var dropped: seq<Chunk>

    ghost predicate Valid()
      reads this
    {
      && headBytes == |Flat(head)| && tailBytes == |Flat(tail)| && elided == |Flat(dropped)|
      && Divides(pushed, head, dropped, tail)
    }

    constructor ()
      ensures Valid() && pushed == []
    {
      head, tail, headBytes, tailBytes, elided := [], [], 0, 0, 0;
      pushed, dropped := [], [];
    }

    method Push(chunk: Chunk)
      requires Valid()
      modifies this
      ensures Valid() && pushed == old(pushed) + [chunk]
    {
      hide Flat;
      pushed := pushed + [chunk];
      if headBytes < STREAM_HALF_BYTES {
        assert dropped == [] && tail == [];
        HeadGrows(head, chunk);
        hide IsHead;
        head := head + [chunk];
        headBytes := headBytes + |chunk|;
        assert pushed == head + dropped + tail;
        return;
      }
      hide IsHead;
      FlatConcat(tail, [chunk]);
      FlatOne(chunk);
      tail := tail + [chunk];
      tailBytes := tailBytes + |chunk|;
      assert pushed == head + (dropped + tail);
      Shed();
      assert pushed == head + dropped + tail;
    }

    /** Drops chunks from the front of the tail until it fits. */
    method Shed()
      requires tailBytes == |Flat(tail)| && elided == |Flat(dropped)| && tail != []
      requires dropped != [] ==> |dropped[|dropped| - 1]| + |Flat(tail)| > STREAM_HALF_BYTES
      modifies this`tail, this`tailBytes, this`elided, this`dropped
      ensures dropped + tail == old(dropped) + old(tail) && tail != []
      ensures tailBytes == |Flat(tail)| && elided == |Flat(dropped)| && IsTail(dropped, tail)
    {
      hide Flat;
      while tailBytes > STREAM_HALF_BYTES && |tail| > 1
        invariant dropped + tail == old(dropped) + old(tail) && tail != []
        invariant tailBytes == |Flat(tail)| && elided == |Flat(dropped)|
        invariant dropped != [] ==> |dropped[|dropped| - 1]| + |Flat(tail)| > STREAM_HALF_BYTES
        decreases |tail|
      {
        var first := tail[0];
        DropFirst(dropped, tail);
        tail := tail[1..];
        dropped := dropped + [first];
        tailBytes := tailBytes - |first|;
        elided := elided + |first|;
      }
    }

    function Truncated(): bool
      reads this
    {
      elided > 0
    }
  }

  lemma HeadGrows(head: seq<Chunk>, chunk: Chunk)
    requires |Flat(head)| < STREAM_HALF_BYTES && IsHead(head)
    ensures |Flat(head + [chunk])| == |Flat(head)| + |chunk| && IsHead(head + [chunk])
  {
    FlatSnoc(head, chunk);
    hide Flat;
    forall i | 0 <= i < |head + [chunk]|
      ensures |Flat((head + [chunk])[..i])| < STREAM_HALF_BYTES
    {
      assert (head + [chunk])[..i] == head[..i];
      assert head[..|head|] == head;
    }
  }

  lemma DropFirst(dropped: seq<Chunk>, tail: seq<Chunk>)
    requires tail != []
    ensures dropped + tail == dropped + [tail[0]] + tail[1..]
    ensures |Flat(tail)| == |tail[0]| + |Flat(tail[1..])|
    ensures |Flat(dropped + [tail[0]])| == |Flat(dropped)| + |tail[0]|
  {
    assert tail == [tail[0]] + tail[1..];
    FlatConcat([tail[0]], tail[1..]);
    FlatOne(tail[0]);
    FlatConcat(dropped, [tail[0]]);
  }

  /** Head, elided bytes and tail are the stream, in order; so the two kept parts are the whole stream exactly when no
    * byte was elided.
    */
  lemma PartsAreTheStream(chunks: seq<Chunk>, head: seq<Chunk>, middle: seq<Chunk>, tail: seq<Chunk>)
    requires Divides(chunks, head, middle, tail)
    ensures Flat(chunks) == Flat(head) + Flat(middle) + Flat(tail)
    ensures Flat(middle) == [] <==> Flat(chunks) == Flat(head) + Flat(tail)
  {
    FlatConcat(head + middle, tail);
    FlatConcat(head, middle);
    hide Flat, IsHead, IsTail;
    assert |Flat(chunks)| == |Flat(head)| + |Flat(middle)| + |Flat(tail)|;
    if Flat(middle) == [] {
      assert Flat(head) + Flat(middle) == Flat(head);
    }
  }

  lemma DroppedIsMuch(middle: seq<Chunk>, tail: seq<Chunk>)
    requires IsTail(middle, tail) && middle != []
    ensures |Flat(middle)| + |Flat(tail)| > STREAM_HALF_BYTES
  {
    var front, last := middle[..|middle| - 1], middle[|middle| - 1];
    assert middle == front + [last];
    FlatSnoc(front, last);
  }

  /** A stream within the cap is kept whole. */
  lemma SmallStreamsAreWhole(chunks: seq<Chunk>, head: seq<Chunk>, middle: seq<Chunk>, tail: seq<Chunk>)
    requires Divides(chunks, head, middle, tail) && |Flat(chunks)| <= STREAM_CAP_BYTES
    ensures middle == []
  {
    hide Flat, IsHead, IsTail;
    PartsAreTheStream(chunks, head, middle, tail);
    if middle != [] { DroppedIsMuch(middle, tail); }
  }

  lemma ShortOfHalf(head: seq<Chunk>, k: nat)
    requires IsHead(head) && k < |head|
    ensures |Flat(head[..k])| < STREAM_HALF_BYTES
  {
  }

  lemma HeadNotLonger(chunks: seq<Chunk>, h: seq<Chunk>, m: seq<Chunk>, t: seq<Chunk>,
                      h': seq<Chunk>, m': seq<Chunk>, t': seq<Chunk>)
    requires Divides(chunks, h, m, t) && Divides(chunks, h', m', t')
    ensures |h| <= |h'|
  {
    hide Flat, IsTail, IsHead;
    if |h'| < |h| {
      assert chunks == h + (m + t) && chunks == h' + (m' + t');
      assert h[..|h'|] == chunks[..|h'|] == h';
      ShortOfHalf(h, |h'|);
    }
  }

  lemma TailNotLonger(m: seq<Chunk>, t: seq<Chunk>, m': seq<Chunk>, t': seq<Chunk>)
    requires m + t == m' + t' && IsTail(m, t) && IsTail(m', t')
    ensures |t| >= |t'|
  {
    hide Flat;
    if |t| < |t'| {
      var rest, last := m + t, m[|m| - 1];
      assert rest[|m'|..] == t' && rest[|m|..] == t;
      var k := |m| - 1 - |m'|;
      assert t' == t'[..k] + ([last] + t);
      FlatConcat(t'[..k], [last] + t);
      FlatConcat([last], t);
      FlatOne(last);
    }
  }

  /** The chunks alone decide what is kept: the division is unique. */
  lemma DivisionIsUnique(chunks: seq<Chunk>, h: seq<Chunk>, m: seq<Chunk>, t: seq<Chunk>,
                         h': seq<Chunk>, m': seq<Chunk>, t': seq<Chunk>)
    requires Divides(chunks, h, m, t) && Divides(chunks, h', m', t')
    ensures h == h' && m == m' && t == t'
  {
    HeadNotLonger(chunks, h, m, t, h', m', t');
    HeadNotLonger(chunks, h', m', t', h, m, t);
    hide Flat, IsHead, IsTail;
    assert h == chunks[..|h|] && h' == chunks[..|h'|];
    SameRest(h, m, t, m', t');
    TailNotLonger(m, t, m', t');
    TailNotLonger(m', t', m, t);
    hide Divides;
    assert |m| == |m'|;
    assert m == (m + t)[..|m|] && m' == (m' + t')[..|m|];
    assert t == (m + t)[|m|..] && t' == (m' + t')[|m|..];
  }

  lemma SameRest(h: seq<Chunk>, m: seq<Chunk>, t: seq<Chunk>, m': seq<Chunk>, t': seq<Chunk>)
    requires h + m + t == h + m' + t'
    ensures m + t == m' + t'
  {
    assert m + t == (h + m + t)[|h|..];
    assert m' + t' == (h + m' + t')[|h|..];
  }

  lemma PartMeaning(chunks: seq<Chunk>, i: nat)
    requires i < |chunks|
    ensures |Flat(chunks[i..])| == |chunks[i]| + |Flat(chunks[i + 1..])|
  {
    assert chunks[i..] == [chunks[i]] + chunks[i + 1..];
    FlatConcat([chunks[i]], chunks[i + 1..]);
    FlatOne(chunks[i]);
  }

  lemma {:induction false} LaterIsLess(chunks: seq<Chunk>, i: nat, j: nat)
    requires i <= j <= |chunks|
    ensures |Flat(chunks[j..])| <= |Flat(chunks[i..])|
    decreases j - i
  {
    if i < j {
      PartMeaning(chunks, i);
      LaterIsLess(chunks, i + 1, j);
    }
  }

  lemma {:induction false} EarlierIsLess(chunks: seq<Chunk>, i: nat, j: nat)
    requires i <= j <= |chunks|
    ensures |Flat(chunks[..i])| <= |Flat(chunks[..j])|
  {
    if i < j {
      EarlierIsLess(chunks, i, j - 1);
      assert chunks[..j] == chunks[..j - 1] + [chunks[j - 1]];
      FlatSnoc(chunks[..j - 1], chunks[j - 1]);
    }
  }

  /** What is kept, chunk by chunk, by the bytes around it: in the head those before which less than a mebibyte came,
    * and in the tail, of the others, the last one and those from which on no more than a mebibyte came.
    */
  lemma EveryChunkIsPlaced(chunks: seq<Chunk>, head: seq<Chunk>, middle: seq<Chunk>, tail: seq<Chunk>, i: nat)
    requires Divides(chunks, head, middle, tail) && i < |chunks|
    ensures i < |head| <==> |Flat(chunks[..i])| < 1_048_576
    ensures i >= |head| + |middle| <==>
      |Flat(chunks[..i])| >= 1_048_576 && (i == |chunks| - 1 || |Flat(chunks[i..])| <= 1_048_576)
  {
    hide Flat;
    HeadPlaced(chunks, head, middle, tail, i);
    var from := |head| + |middle|;
    assert chunks[from..] == tail;
    if i >= from {
      LaterIsLess(chunks, from, i);
    } else if i >= |head| {
      assert middle != [];
      var last := from - 1;
      assert chunks[last] == middle[|middle| - 1];
      PartMeaning(chunks, last);
      LaterIsLess(chunks, i, last);
    }
  }

  lemma HeadPlaced(chunks: seq<Chunk>, head: seq<Chunk>, middle: seq<Chunk>, tail: seq<Chunk>, i: nat)
    requires Divides(chunks, head, middle, tail) && i < |chunks|
    ensures i < |head| <==> |Flat(chunks[..i])| < 1_048_576
  {
    hide Flat, IsTail;
    assert chunks[..|head|] == head;
    if i < |head| {
      assert head[..i] == chunks[..i];
    } else {
      EarlierIsLess(chunks, |head|, i);
      assert middle + tail != [];
    }
  }
}
