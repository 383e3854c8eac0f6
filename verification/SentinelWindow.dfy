/** interactive/ser2net-proxy/console-proxy.py, lines 79-108: the search for the console-ready
    sentinel in a sliding window over the console stream, against a search of the whole stream. */
module SentinelWindow {
  import opened Text

  type Bytes = string

  const WINDOW: nat := 4096

  /** data[-4096:] */
  function Last(data: Bytes): (t: Bytes)
    ensures |t| <= WINDOW && |t| <= |data| && t == data[|data| - |t|..]
  {
    if |data| <= WINDOW then data else data[|data| - WINDOW..]
  }

  /** The reader's `tail` and `writable` after a list of reads. */
  datatype Gate = Gate(tail: Bytes, writable: bool)

  function Start(sentinel: Bytes): Gate {
    Gate([], sentinel == [])
  }

  function Feed(sentinel: Bytes, g: Gate, data: Bytes): Gate {
    if g.writable then g else
      var tail := Last(g.tail + data);
      Gate(tail, Contains(tail, sentinel))
  }

  function After(sentinel: Bytes, chunks: seq<Bytes>): Gate {
    if chunks == [] then Start(sentinel)
    else Feed(sentinel, After(sentinel, chunks[..|chunks|-1]), chunks[|chunks|-1])
  }

  lemma AppendRead(sentinel: Bytes, chunks: seq<Bytes>, data: Bytes)
    ensures Flatten(chunks + [data]) == Flatten(chunks) + data
    ensures After(sentinel, chunks + [data]) == Feed(sentinel, After(sentinel, chunks), data)
  {
    assert (chunks + [data])[..|chunks|] == chunks;
  }

  // ---- sequences ------------------------------------------------------------------

  lemma LastOfLast(x: Bytes, y: Bytes)
    ensures Last(Last(x) + y) == Last(x + y)
  {
    if |x| > WINDOW {
      var cut := |x| - WINDOW;
      DropInside(x, y, cut);
      assert Last(x) + y == (x + y)[cut..];
      LastOfSuffix(x + y, cut);
    }
  }

  lemma DropInside(x: Bytes, y: Bytes, n: nat)
    requires n <= |x|
    ensures x[n..] + y == (x + y)[n..]
  {}

  lemma LastOfSuffix(x: Bytes, n: nat)
    requires n <= |x| && |x| - n >= WINDOW
    ensures Last(x[n..]) == Last(x)
  {}

  /** An occurrence in a part is an occurrence in the whole. */
  lemma ContainsInside(before: Bytes, x: Bytes, after: Bytes, part: Bytes)
    requires Contains(x, part)
    ensures Contains(before + x + after, part)
  {
    var i :| 0 <= i <= |x| && OccursAt(x, part, i);
    OccursShift(before, x, after, part, i);
    assert OccursAt(before + x + after, part, |before| + i);
  }

  lemma OccursShift(before: Bytes, x: Bytes, after: Bytes, part: Bytes, i: int)
    requires OccursAt(x, part, i)
    ensures OccursAt(before + x + after, part, |before| + i)
  {
    assert (before + x + after)[|before| + i..|before| + i + |part|] == x[i..i + |part|];
  }

  lemma ContainsPrefix(x: Bytes, y: Bytes, part: Bytes)
    requires Contains(x, part)
    ensures Contains(x + y, part)
  {
    ContainsInside([], x, y, part);
    assert [] + x + y == x + y;
  }

  lemma ContainsLast(x: Bytes, part: Bytes)
    requires Contains(Last(x), part)
    ensures Contains(x, part)
  {
    var cut := |x| - |Last(x)|;
    ContainsInside(x[..cut], Last(x), [], part);
    assert x[..cut] + Last(x) + [] == x;
  }

  // ---- the window against the whole stream -------------------------------------------

  /** While the console is locked, `tail` is the last 4096 bytes read so far, and an unlocked
      console has shown the sentinel. */
  lemma {:induction false} TailIsLast(sentinel: Bytes, chunks: seq<Bytes>)
    ensures var g := After(sentinel, chunks);
            && (!g.writable ==> g.tail == Last(Flatten(chunks)))
            && (g.writable ==> Contains(Flatten(chunks), sentinel))
  {
    if chunks == [] {
      assert sentinel == [] ==> OccursAt(Flatten(chunks), sentinel, 0);
    } else {
      var front, data := chunks[..|chunks|-1], chunks[|chunks|-1];
      TailIsLast(sentinel, front);
      if After(sentinel, front).writable {
        ContainsPrefix(Flatten(front), data, sentinel);
      } else {
        LastOfLast(Flatten(front), data);
        if After(sentinel, chunks).writable {
          ContainsLast(Flatten(chunks), sentinel);
        }
      }
    }
  }

  ghost predicate ChunksUpTo(chunks: seq<Bytes>, bound: int) {
    forall i :: 0 <= i < |chunks| ==> |chunks[i]| <= bound
  }

  lemma OccursEarlier(x: Bytes, y: Bytes, part: Bytes, i: int)
    requires OccursAt(x + y, part, i)
    ensures i + |part| <= |x| ==> OccursAt(x, part, i)
  {
    if i + |part| <= |x| {
      assert x[i..i + |part|] == (x + y)[i..i + |part|];
    }
  }

  /** The first read that completes an occurrence, if it is short enough, leaves the
      occurrence inside the window. */
  lemma CompletedInWindow(x: Bytes, data: Bytes, sentinel: Bytes)
    requires Contains(x + data, sentinel) && !Contains(x, sentinel)
    requires |data| <= WINDOW - |sentinel| + 1
    ensures Contains(Last(x + data), sentinel)
  {
    var whole := x + data;
    var i :| 0 <= i <= |whole| && OccursAt(whole, sentinel, i);
    OccursEarlier(x, data, sentinel, i);
    var cut := |whole| - |Last(whole)|;
    assert i >= cut;
    assert Last(whole)[i - cut..i - cut + |sentinel|] == whole[i..i + |sentinel|];
    assert OccursAt(Last(whole), sentinel, i - cut);
  }

  /** With short reads the windowed search is the search of the whole stream. */
  lemma {:induction false} ShortReadsExact(sentinel: Bytes, chunks: seq<Bytes>)
    requires ChunksUpTo(chunks, WINDOW - |sentinel| + 1)
    ensures After(sentinel, chunks).writable <==> Contains(Flatten(chunks), sentinel)
  {
    TailIsLast(sentinel, chunks);
    if chunks == [] {
      if Contains(Flatten(chunks), sentinel) {
        assert OccursAt([], sentinel, 0);
      }
    } else {
      var front, data := chunks[..|chunks|-1], chunks[|chunks|-1];
      ShortReadsExact(sentinel, front);
      TailIsLast(sentinel, front);
      LastOfLast(Flatten(front), data);
      if Contains(Flatten(chunks), sentinel) && !After(sentinel, front).writable {
        CompletedInWindow(Flatten(front), data, sentinel);
      }
    }
  }

  // ---- the bound is tight ------------------------------------------------------------

  function Repeat(c: char, n: nat): (s: Bytes)
    ensures |s| == n && forall i :: 0 <= i < n ==> s[i] == c
  {
    seq(n, _ => c)
  }

  function Singles(x: Bytes): (chunks: seq<Bytes>)
    ensures |chunks| == |x| && forall i :: 0 <= i < |x| ==> chunks[i] == [x[i]]
  {
    seq(|x|, i requires 0 <= i < |x| => [x[i]])
  }

  lemma {:induction false} SinglesFlat(x: Bytes)
    ensures Flatten(Singles(x)) == x
  {
    if x != [] {
      var n := |x| - 1;
      SinglesFlat(x[..n]);
      assert Singles(x)[..n] == Singles(x[..n]);
    }
  }

  /** A byte that differs from both ends of the sentinel. */
  function Filler(sentinel: Bytes): (c: char)
    requires sentinel != []
    ensures c != sentinel[0] && c != sentinel[|sentinel|-1]
  {
    if 'a' != sentinel[0] && 'a' != sentinel[|sentinel|-1] then 'a'
    else if 'b' != sentinel[0] && 'b' != sentinel[|sentinel|-1] then 'b'
    else 'c'
  }

  /** The sentinel, preceded by `m` and followed by `k` filler bytes, occurs only at `m`. */
  lemma OnlyAt(sentinel: Bytes, m: nat, k: nat, i: int)
    requires sentinel != []
    requires OccursAt(Repeat(Filler(sentinel), m) + sentinel + Repeat(Filler(sentinel), k), sentinel, i)
    ensures i == m
  {
    var f := Filler(sentinel);
    var x := Repeat(f, m) + sentinel + Repeat(f, k);
    assert x[i] == x[i..i + |sentinel|][0] == sentinel[0];
    var last := i + |sentinel| - 1;
    assert x[last] == x[i..i + |sentinel|][|sentinel|-1] == sentinel[|sentinel|-1];
  }

  /** Filler, then the sentinel without its last byte: 4096 bytes in all. */
  ghost function Approach(sentinel: Bytes): (x: Bytes)
    requires 0 < |sentinel| <= WINDOW
    ensures |x| == WINDOW
  {
    Repeat(Filler(sentinel), WINDOW - |sentinel| + 1) + sentinel[..|sentinel|-1]
  }

  /** The last byte of the sentinel, and enough filler to push its first byte out of the window. */
  ghost function Overrun(sentinel: Bytes): (x: Bytes)
    requires 0 < |sentinel| <= WINDOW
    ensures |x| == WINDOW - |sentinel| + 2
  {
    [sentinel[|sentinel|-1]] + Repeat(Filler(sentinel), WINDOW - |sentinel| + 1)
  }

  /** The stream shows the sentinel once, just before the window of the last 4096 bytes. */
  lemma StraddlingOccurrence(sentinel: Bytes, i: int)
    requires 0 < |sentinel| <= WINDOW
    ensures OccursAt(Approach(sentinel) + Overrun(sentinel), sentinel, i) <==> i == WINDOW - |sentinel| + 1
  {
    var m := WINDOW - |sentinel| + 1;
    var filler := Repeat(Filler(sentinel), m);
    assert Approach(sentinel) + Overrun(sentinel) == filler + sentinel + filler;
    if OccursAt(filler + sentinel + filler, sentinel, i) {
      OnlyAt(sentinel, m, m, i);
    }
  }

  lemma StraddlingUnseen(sentinel: Bytes)
    requires 0 < |sentinel| <= WINDOW
    ensures !Contains(Approach(sentinel), sentinel)
    ensures !Contains(Last(Approach(sentinel) + Overrun(sentinel)), sentinel)
  {
    var x, y := Approach(sentinel), Overrun(sentinel);
    var tail := Last(x + y);
    var cut := |x + y| - |tail|;
    assert [] + x + y == x + y;
    assert (x + y)[..cut] + tail + [] == x + y;
    forall i | OccursAt(x, sentinel, i) ensures false {
      OccursShift([], x, y, sentinel, i);
      StraddlingOccurrence(sentinel, i);
    }
    forall i | OccursAt(tail, sentinel, i) ensures false {
      OccursShift((x + y)[..cut], tail, [], sentinel, i);
      StraddlingOccurrence(sentinel, cut + i);
    }
  }

  /** Bytes read one at a time, then one more read, none of them showing the sentinel. */
  lemma StaysLocked(sentinel: Bytes, x: Bytes, data: Bytes)
    requires !Contains(x, sentinel) && !Contains(Last(x + data), sentinel)
    ensures Flatten(Singles(x) + [data]) == x + data
    ensures !After(sentinel, Singles(x) + [data]).writable
  {
    SinglesFlat(x);
    AppendRead(sentinel, Singles(x), data);
    TailIsLast(sentinel, Singles(x));
    LastOfLast(x, data);
  }

  ghost function Straddling(sentinel: Bytes): seq<Bytes>
    requires 0 < |sentinel| <= WINDOW
  {
    Singles(Approach(sentinel)) + [Overrun(sentinel)]
  }

  lemma StraddlingReads(sentinel: Bytes)
    requires 0 < |sentinel| <= WINDOW
    ensures ChunksUpTo(Straddling(sentinel), WINDOW - |sentinel| + 2)
  {
    var singles := Singles(Approach(sentinel));
    forall i | 0 <= i < |Straddling(sentinel)|
      ensures 0 < |Straddling(sentinel)[i]| <= WINDOW - |sentinel| + 2
    {
      assert i < |singles| ==> Straddling(sentinel)[i] == singles[i];
    }
  }

  /** Reading the last byte of the sentinel together with 4096 - |sentinel| + 1 more: the stream
      shows the sentinel and the console stays locked. */
  lemma StraddlingMissed(sentinel: Bytes)
    requires 0 < |sentinel| <= WINDOW
    ensures ChunksUpTo(Straddling(sentinel), WINDOW - |sentinel| + 2)
    ensures Contains(Flatten(Straddling(sentinel)), sentinel)
    ensures !After(sentinel, Straddling(sentinel)).writable
  {
    StraddlingReads(sentinel);
    StraddlingOccurrence(sentinel, WINDOW - |sentinel| + 1);
    StraddlingUnseen(sentinel);
    StaysLocked(sentinel, Approach(sentinel), Overrun(sentinel));
  }

  /** A sentinel longer than the window is never seen, whatever the reads. */
  lemma {:induction false} LongSentinelMissed(sentinel: Bytes, chunks: seq<Bytes>)
    requires |sentinel| > WINDOW
    ensures !After(sentinel, chunks).writable
  {
    if chunks != [] {
      LongSentinelMissed(sentinel, chunks[..|chunks|-1]);
    }
  }

  ghost predicate ExactFor(sentinel: Bytes, chunks: seq<Bytes>) {
    After(sentinel, chunks).writable <==> Contains(Flatten(chunks), sentinel)
  }

  /** The exact bound: for reads of at most `bound` bytes the windowed search agrees with the
      search of the whole stream on every stream if and only if bound <= 4096 - |sentinel| + 1. */
  lemma WindowExactIff(sentinel: Bytes, bound: nat)
    requires sentinel != [] && bound > 0
    ensures (forall chunks :: ChunksUpTo(chunks, bound) ==> ExactFor(sentinel, chunks))
            <==> bound <= WINDOW - |sentinel| + 1
  {
    if bound <= WINDOW - |sentinel| + 1 {
      forall chunks | ChunksUpTo(chunks, bound) ensures ExactFor(sentinel, chunks) {
        ShortReadsExact(sentinel, chunks);
      }
    } else if |sentinel| <= WINDOW {
      StraddlingMissed(sentinel);
      assert ChunksUpTo(Straddling(sentinel), bound) && !ExactFor(sentinel, Straddling(sentinel));
    } else {
      var chunks := Singles(sentinel);
      SinglesFlat(sentinel);
      LongSentinelMissed(sentinel, chunks);
      assert OccursAt(sentinel, sentinel, 0);
      assert ChunksUpTo(chunks, bound) && !ExactFor(sentinel, chunks);
    }
  }

  const DEFAULT_SENTINEL: Bytes := "LAVA_MCP_CONSOLE_WRITABLE"

  /** The default sentinel has 25 bytes, so reads of up to 4096 bytes can miss it and reads of
      up to 4072 bytes cannot. */
  lemma DefaultSentinelBound()
    ensures exists chunks :: ChunksUpTo(chunks, 4096) && !ExactFor(DEFAULT_SENTINEL, chunks)
    ensures forall chunks :: ChunksUpTo(chunks, 4072) ==> ExactFor(DEFAULT_SENTINEL, chunks)
  {
    assert |DEFAULT_SENTINEL| == 25;
    WindowExactIff(DEFAULT_SENTINEL, 4096);
    WindowExactIff(DEFAULT_SENTINEL, 4072);
  }
}
