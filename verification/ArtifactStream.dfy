/** lava_mcp/artifacts.py, lines 331-361: the streaming loop, and how far below the disk floor it
    can go when this upload is the only consumer of the volume. */
module ArtifactStream {
  import opened Text
  import opened ArtifactModel

  /** The volume: what was free before the upload, and the floor that must stay free. */
  datatype Volume = Volume(free: int, floor: nat)

  /** _headroom_bytes, with `written` bytes of this upload on disk. */
  function Headroom(v: Volume, written: nat): nat {
    if v.free - written > v.floor then v.free - written - v.floor else 0
  }

  /** The upload so far, or why it was rejected after accepting that much. */
  datatype Progress = Open(upload: Upload) | Rejected(upload: Upload, reason: Refusal)

  function Receive(p: Progress, chunk: Bytes, maxBytes: nat, v: Volume): Progress {
    if p.Rejected? || chunk == [] then p
    else match Consider(p.upload, chunk, maxBytes, Headroom(v, |p.upload.data|))
         case Take(u) => Open(u)
         case Reject(reason) => Rejected(p.upload, reason)
  }

  function Streamed(chunks: seq<Bytes>, maxBytes: nat, v: Volume): Progress {
    if chunks == [] then Open(Upload([], 0))
    else Receive(Streamed(chunks[..|chunks|-1], maxBytes, v), chunks[|chunks|-1], maxBytes, v)
  }

  lemma StreamedNext(chunks: seq<Bytes>, i: nat, maxBytes: nat, v: Volume)
    requires i < |chunks|
    ensures Streamed(chunks[..i+1], maxBytes, v) == Receive(Streamed(chunks[..i], maxBytes, v), chunks[i], maxBytes, v)
  {
    assert chunks[..i+1][..i] == chunks[..i];
  }

  lemma {:induction false} RejectedStays(chunks: seq<Bytes>, i: nat, maxBytes: nat, v: Volume)
    requires i <= |chunks| && Streamed(chunks[..i], maxBytes, v).Rejected?
    ensures Streamed(chunks, maxBytes, v) == Streamed(chunks[..i], maxBytes, v)
    decreases |chunks| - i
  {
    if i == |chunks| {
      TakeAll(chunks);
    } else {
      StreamedNext(chunks, i, maxBytes, v);
      RejectedStays(chunks, i + 1, maxBytes, v);
    }
  }

  /** write_stream's loop over the chunks. */
  method WriteChunks(chunks: seq<Bytes>, maxBytes: nat, v: Volume) returns (result: Progress)
    ensures result == Streamed(chunks, maxBytes, v)
  {
    var file: Bytes := [];
    var written: nat, checkpoint: nat := 0, 0;
    for i := 0 to |chunks|
      invariant written == |file|
      invariant Streamed(chunks[..i], maxBytes, v) == Open(Upload(file, checkpoint))
    {
      var chunk := chunks[i];
      StreamedNext(chunks, i, maxBytes, v);
      if chunk != [] {
        written := written + |chunk|;
        if written > maxBytes {
          RejectedStays(chunks, i + 1, maxBytes, v);
          return Rejected(Upload(file, checkpoint), ExceedsCap);
        }
        if written - checkpoint >= RECHECK {
          if Headroom(v, |file|) == 0 {
            RejectedStays(chunks, i + 1, maxBytes, v);
            return Rejected(Upload(file, checkpoint), InsufficientDisk);
          }
          checkpoint := written;
        }
        file := file + chunk;
      }
    }
    TakeAll(chunks);
    result := Open(Upload(file, checkpoint));
  }

  /** An upload that is not rejected has written every byte of every chunk, within the cap. */
  lemma {:induction false} AcceptedWhole(chunks: seq<Bytes>, maxBytes: nat, v: Volume)
    requires Streamed(chunks, maxBytes, v).Open?
    ensures Streamed(chunks, maxBytes, v).upload.data == Flatten(chunks) && |Flatten(chunks)| <= maxBytes
  {
    if chunks != [] {
      AcceptedWhole(chunks[..|chunks|-1], maxBytes, v);
    }
  }

  // ---- an upload that keeps to what it announced ---------------------------------------------

  /** While the announced length is kept to, and it fits, no chunk is rejected. */
  lemma {:induction false} AnnouncedFits(chunks: seq<Bytes>, size: nat, maxBytes: nat, v: Volume)
    requires |Flatten(chunks)| <= size <= maxBytes && size <= Headroom(v, 0)
    ensures Streamed(chunks, maxBytes, v).Open? && Streamed(chunks, maxBytes, v).upload.data == Flatten(chunks)
  {
    if chunks != [] {
      AnnouncedFits(chunks[..|chunks|-1], size, maxBytes, v);
    }
  }

  /** What admission is for: an upload that is admitted with its announced length, and keeps to it, is
      never rejected, and leaves at least the floor free (or what was free, when that was less). */
  lemma AdmittedKeepsFloor(chunks: seq<Bytes>, size: int, maxBytes: nat, v: Volume)
    requires CheckAdmission(size, maxBytes, Headroom(v, 0)) == None && |Flatten(chunks)| <= size
    ensures Streamed(chunks, maxBytes, v).Open? && Streamed(chunks, maxBytes, v).upload.data == Flatten(chunks)
    ensures v.free - |Flatten(chunks)| >= Min(v.free, v.floor)
    ensures 0 < size ==> v.free - size >= v.floor
  {
    AnnouncedFits(chunks, size, maxBytes, v);
  }

  // ---- how far below the floor ---------------------------------------------------------------

  ghost predicate AtMost(chunks: seq<Bytes>, largest: nat) {
    forall i :: 0 <= i < |chunks| ==> |chunks[i]| <= largest
  }

  /** How many bytes can be written before the floor is reached. */
  function Room(v: Volume): nat {
    Headroom(v, 0)
  }

  /** The furthest that a chunk of at most `largest` bytes can take an upload that still has room. */
  function Reach(v: Volume, largest: nat): nat
    requires Room(v) > 0
  {
    Room(v) - 1 + largest
  }

  /** The most that `n` bytes can be at a check: two checks are less than 64 MiB + `largest` apart. */
  function Furthest(n: nat, largest: nat): nat {
    n / RECHECK * (RECHECK - 1 + largest)
  }

  /** What the loop keeps: less than 64 MiB since the last check; and the last check, if there was one,
      saw room before a chunk of at most `largest` bytes, at a place that checks can reach. */
  ghost predicate Kept(p: Progress, v: Volume, largest: nat) {
    var u := p.upload;
    && u.checkpoint <= |u.data| && |u.data| - u.checkpoint < RECHECK
    && u.checkpoint <= Furthest(u.checkpoint, largest)
    && (u.checkpoint > 0 ==> Room(v) > 0 && u.checkpoint <= Reach(v, largest))
  }

  lemma FurthestGrows(m: nat, n: nat, largest: nat)
    requires m <= n
    ensures Furthest(m, largest) <= Furthest(n, largest)
  {
    assert m / RECHECK <= n / RECHECK;
    Times(m / RECHECK, n / RECHECK, RECHECK - 1 + largest);
  }

  lemma Times(a: nat, b: nat, c: nat)
    requires a <= b
    ensures a * c <= b * c
  {
    assert (b - a) * c >= 0;
  }

  /** One more check. */
  lemma FurthestNext(m: nat, n: nat, largest: nat)
    requires m <= Furthest(m, largest) && RECHECK <= n - m <= RECHECK - 1 + largest
    ensures n <= Furthest(n, largest)
  {
    var c := RECHECK - 1 + largest;
    assert m / RECHECK + 1 <= n / RECHECK;
    Times(m / RECHECK + 1, n / RECHECK, c);
    assert (m / RECHECK + 1) * c == m / RECHECK * c + c;
  }

  lemma ReceiveKeeps(p: Progress, chunk: Bytes, maxBytes: nat, v: Volume, largest: nat)
    requires Kept(p, v, largest) && |chunk| <= largest
    ensures Kept(Receive(p, chunk, maxBytes, v), v, largest)
  {
    var u, written := p.upload, |p.upload.data| + |chunk|;
    if written - u.checkpoint >= RECHECK {
      FurthestNext(u.checkpoint, written, largest);
    }
  }

  lemma {:induction false} StreamKeeps(chunks: seq<Bytes>, maxBytes: nat, v: Volume, largest: nat)
    requires AtMost(chunks, largest)
    ensures Kept(Streamed(chunks, maxBytes, v), v, largest)
  {
    if chunks != [] {
      StreamKeeps(chunks[..|chunks|-1], maxBytes, v, largest);
      ReceiveKeeps(Streamed(chunks[..|chunks|-1], maxBytes, v), chunks[|chunks|-1], maxBytes, v, largest);
    }
  }

  /** The most that chunks of at most `largest` bytes can write: up to the furthest check that passes,
      and 64 MiB - 1 bytes after it. */
  function Worst(v: Volume, largest: nat): nat {
    (if Room(v) == 0 then 0 else Min(Reach(v, largest), Furthest(Reach(v, largest), largest))) + (RECHECK - 1)
  }

  /** The overshoot bound, after any prefix of any chunks of at most `largest` bytes: at most Worst bytes
      are written, so free space is at least min(free before, floor + 1) - (64 MiB - 1) - largest. */
  lemma FloorOvershoot(chunks: seq<Bytes>, k: nat, maxBytes: nat, v: Volume, largest: nat)
    requires k <= |chunks| && AtMost(chunks, largest)
    ensures |Streamed(chunks[..k], maxBytes, v).upload.data| <= Worst(v, largest)
    ensures v.free - |Streamed(chunks[..k], maxBytes, v).upload.data| >= Min(v.free, v.floor + 1) - 67108863 - largest
  {
    StreamKeeps(chunks[..k], maxBytes, v, largest);
    var u := Streamed(chunks[..k], maxBytes, v).upload;
    if u.checkpoint > 0 {
      FurthestGrows(u.checkpoint, Reach(v, largest), largest);
    }
  }

  function Min(a: int, b: int): (m: int)
    ensures m <= a && m <= b && (m == a || m == b)
  {
    if a <= b then a else b
  }

  function Ones(n: nat): (chunks: seq<Bytes>)
    ensures |chunks| == n && forall i :: 0 <= i < n ==> chunks[i] == "x"
  {
    seq(n, _ => "x")
  }

  function Filled(n: nat): (data: Bytes)
    ensures |data| == n
  {
    seq(n, _ => 'x')
  }

  /** The upload is open with so many bytes, and was last checked there. */
  ghost predicate At(chunks: seq<Bytes>, maxBytes: nat, v: Volume, written: nat, checkpoint: nat) {
    var p := Streamed(chunks, maxBytes, v);
    p.Open? && |p.upload.data| == written && p.upload.checkpoint == checkpoint
  }

  lemma StreamedThen(chunks: seq<Bytes>, chunk: Bytes, maxBytes: nat, v: Volume)
    ensures Streamed(chunks + [chunk], maxBytes, v) == Receive(Streamed(chunks, maxBytes, v), chunk, maxBytes, v)
  {
    assert (chunks + [chunk])[..|chunks|] == chunks;
  }

  /** One chunk, with or without a check. */
  lemma Then(chunks: seq<Bytes>, chunk: Bytes, maxBytes: nat, v: Volume, written: nat, checkpoint: nat)
    requires At(chunks, maxBytes, v, written, checkpoint) && chunk != [] && written + |chunk| <= maxBytes
    ensures written + |chunk| - checkpoint < RECHECK ==>
              At(chunks + [chunk], maxBytes, v, written + |chunk|, checkpoint)
    ensures written + |chunk| - checkpoint >= RECHECK && written < Room(v) ==>
              At(chunks + [chunk], maxBytes, v, written + |chunk|, written + |chunk|)
  {
    StreamedThen(chunks, chunk, maxBytes, v);
  }

  lemma NextRemainder(n: nat)
    ensures (n + 1) % RECHECK == if n % RECHECK == RECHECK - 1 then 0 else n % RECHECK + 1
  {
    assert n == n / RECHECK * RECHECK + n % RECHECK;
  }

  lemma MultipleGap(a: nat, b: nat)
    requires a % RECHECK == 0 && b % RECHECK == 0 && b < a && a - b <= RECHECK
    ensures a - b == RECHECK
  {
    assert a == a / RECHECK * RECHECK && b == b / RECHECK * RECHECK;
  }

  /** Byte by byte, every check is passed while there is room, and comes at the multiples of 64 MiB. */
  lemma {:induction false} ByteByByte(n: nat, maxBytes: nat, v: Volume)
    requires n <= Room(v) && n <= maxBytes
    ensures At(Ones(n), maxBytes, v, n, n - n % RECHECK)
  {
    if n > 0 {
      ByteByByte(n - 1, maxBytes, v);
      assert Ones(n) == Ones(n - 1) + ["x"];
      Then(Ones(n - 1), "x", maxBytes, v, n - 1, n - 1 - (n - 1) % RECHECK);
      NextRemainder(n - 1);
    }
  }

  /** Byte by byte, without a check. */
  lemma {:induction false} Unchecked(chunks: seq<Bytes>, n: nat, maxBytes: nat, v: Volume, written: nat, checkpoint: nat)
    requires At(chunks, maxBytes, v, written, checkpoint) && written + n <= maxBytes
    requires written + n - checkpoint < RECHECK
    ensures At(chunks + Ones(n), maxBytes, v, written + n, checkpoint)
  {
    if n == 0 {
      assert chunks + Ones(0) == chunks;
    } else {
      Unchecked(chunks, n - 1, maxBytes, v, written, checkpoint);
      assert chunks + Ones(n) == chunks + Ones(n - 1) + ["x"];
      Then(chunks + Ones(n - 1), "x", maxBytes, v, written + n - 1, checkpoint);
    }
  }

  /** The next check after the one at `m` can be anywhere from 64 MiB to 64 MiB - 1 + `largest` further,
      as long as the chunk that forces it begins while there is room. */
  lemma NextCheck(chunks: seq<Bytes>, maxBytes: nat, v: Volume, m: nat, n: nat, largest: nat) returns (more: seq<Bytes>)
    requires At(chunks, maxBytes, v, m, m) && AtMost(chunks, largest) && 0 < largest < RECHECK
    requires RECHECK <= n - m <= RECHECK - 1 + largest && n <= maxBytes && Room(v) > 0 && n <= Reach(v, largest)
    ensures At(more, maxBytes, v, n, n) && AtMost(more, largest)
  {
    var k, chunk := n - m - largest, Filled(largest);
    Unchecked(chunks, k, maxBytes, v, m, m);
    Then(chunks + Ones(k), chunk, maxBytes, v, m + k, m);
    more := chunks + Ones(k) + [chunk];
  }

  /** With small chunks, `n` checks can end at any place they can reach. */
  lemma {:induction false} Checks(n: nat, m: nat, maxBytes: nat, v: Volume, largest: nat) returns (chunks: seq<Bytes>)
    requires 0 < largest < RECHECK && n * RECHECK <= m <= n * (RECHECK - 1 + largest)
    requires m <= maxBytes && (n > 0 ==> Room(v) > 0 && m <= Reach(v, largest))
    ensures At(chunks, maxBytes, v, m, m) && AtMost(chunks, largest)
  {
    if n == 0 {
      chunks := [];
    } else {
      var c := RECHECK - 1 + largest;
      var step := Min(c, m - (n - 1) * RECHECK);
      assert n * c == (n - 1) * c + c;
      TimesLess(n - 1, RECHECK, c);
      chunks := Checks(n - 1, m - step, maxBytes, v, largest);
      chunks := NextCheck(chunks, maxBytes, v, m - step, m, largest);
    }
  }

  lemma TimesLess(n: nat, a: nat, b: nat)
    requires a <= b
    ensures n * a <= n * b
  {
    assert n * (b - a) >= 0;
  }

  /** The furthest check that passes can be reached. */
  lemma FurthestCheck(maxBytes: nat, v: Volume, largest: nat) returns (chunks: seq<Bytes>, m: nat)
    requires largest > 0 && maxBytes >= Worst(v, largest) && Room(v) > 0
    ensures m == Min(Reach(v, largest), Furthest(Reach(v, largest), largest))
    ensures At(chunks, maxBytes, v, m, m) && AtMost(chunks, largest)
  {
    var reach, n := Reach(v, largest), Room(v) - 1;
    m := Min(reach, Furthest(reach, largest));
    if largest < RECHECK {
      TimesLess(reach / RECHECK, RECHECK, RECHECK - 1 + largest);
      chunks := Checks(reach / RECHECK, m, maxBytes, v, largest);
    } else {
      Times(1, reach / RECHECK, RECHECK - 1 + largest);
      BigChunks(reach, largest);
      ByteByByte(n, maxBytes, v);
      Then(Ones(n), Filled(largest), maxBytes, v, n, n - n % RECHECK);
      chunks := Ones(n) + [Filled(largest)];
    }
  }

  lemma BigChunks(reach: nat, largest: nat)
    requires largest >= RECHECK && reach >= largest
    ensures reach <= Furthest(reach, largest)
  {
    var n := reach / RECHECK;
    TimesLess(n, 2 * RECHECK - 1, RECHECK - 1 + largest);
    assert n * (2 * RECHECK - 1) == n * RECHECK + n * (RECHECK - 1);
    Times(1, n, RECHECK - 1);
  }

  /** The bound is exact, for every volume, every size of chunk and every cap that allows it. */
  lemma FloorOvershootExact(maxBytes: nat, v: Volume, largest: nat)
    requires largest > 0 && maxBytes >= Worst(v, largest)
    ensures exists chunks :: AtMost(chunks, largest) && |Streamed(chunks, maxBytes, v).upload.data| == Worst(v, largest)
  {
    var chunks, m := [], 0;
    if Room(v) > 0 {
      chunks, m := FurthestCheck(maxBytes, v, largest);
    }
    Unchecked(chunks, RECHECK - 1, maxBytes, v, m, m);
    assert AtMost(chunks + Ones(RECHECK - 1), largest);
  }

  /** For every floor and every size of chunk some volume reaches floor + 1 - (64 MiB - 1) - largest. */
  lemma FloorOvershootTight(floor: nat, largest: nat)
    requires largest > 0
    ensures exists chunks, v: Volume, maxBytes: nat ::
      && v.floor == floor && v.free > floor && AtMost(chunks, largest)
      && v.free - |Streamed(chunks, maxBytes, v).upload.data| == floor + 1 - (RECHECK - 1) - largest
  {
    var v := Volume(floor + 1 + (if largest < RECHECK then RECHECK - largest else 0), floor);
    if largest < RECHECK {
      assert Reach(v, largest) / RECHECK == 1;
    } else {
      BigChunks(Reach(v, largest), largest);
    }
    FloorOvershootExact(Worst(v, largest), v, largest);
  }

  // ---- when the floor holds ------------------------------------------------------------------

  /** No upload in chunks of at most `largest` bytes takes free space below the floor, or below what was
      free when that was less. */
  ghost predicate FloorHolds(v: Volume, largest: nat, maxBytes: nat) {
    forall chunks :: AtMost(chunks, largest) ==>
      v.free - |Streamed(chunks, maxBytes, v).upload.data| >= Min(v.free, v.floor)
  }

  lemma {:induction false} WithinCap(chunks: seq<Bytes>, maxBytes: nat, v: Volume)
    ensures |Streamed(chunks, maxBytes, v).upload.data| <= maxBytes
  {
    if chunks != [] {
      WithinCap(chunks[..|chunks|-1], maxBytes, v);
    }
  }

  lemma {:induction false} NothingWritten(chunks: seq<Bytes>, maxBytes: nat, v: Volume)
    requires AtMost(chunks, 0)
    ensures Streamed(chunks, maxBytes, v) == Open(Upload([], 0))
  {
    if chunks != [] {
      NothingWritten(chunks[..|chunks|-1], maxBytes, v);
    }
  }

  /** Single bytes are checked exactly at the multiples of 64 MiB; if the room ends one byte before one
      of them, the check stops the upload there. */
  lemma {:induction false} BytesStop(chunks: seq<Bytes>, maxBytes: nat, v: Volume)
    requires AtMost(chunks, 1) && (Room(v) + 1) % RECHECK == 0
    ensures Stopped(Streamed(chunks, maxBytes, v).upload, v)
  {
    if chunks != [] {
      BytesStop(chunks[..|chunks|-1], maxBytes, v);
      ByteStops(Streamed(chunks[..|chunks|-1], maxBytes, v), chunks[|chunks|-1], maxBytes, v);
    }
  }

  ghost predicate Stopped(u: Upload, v: Volume) {
    |u.data| <= Room(v) && u.checkpoint % RECHECK == 0 && u.checkpoint <= |u.data| && |u.data| - u.checkpoint < RECHECK
  }

  lemma ByteStops(p: Progress, chunk: Bytes, maxBytes: nat, v: Volume)
    requires Stopped(p.upload, v) && |chunk| <= 1 && (Room(v) + 1) % RECHECK == 0
    ensures Stopped(Receive(p, chunk, maxBytes, v).upload, v)
  {
    var u := p.upload;
    if |u.data| == Room(v) {
      MultipleGap(Room(v) + 1, u.checkpoint);
    }
  }

  /** One byte more than the room can be written. */
  lemma CanCross(maxBytes: nat, v: Volume, largest: nat) returns (chunks: seq<Bytes>)
    requires largest > 0 && maxBytes > Room(v) && (largest == 1 ==> (Room(v) + 1) % RECHECK != 0)
    ensures AtMost(chunks, largest) && |Streamed(chunks, maxBytes, v).upload.data| == Room(v) + 1
  {
    var n := Room(v);
    if (n + 1) % RECHECK != 0 {
      ByteByByte(n, maxBytes, v);
      Then(Ones(n), "x", maxBytes, v, n, n - n % RECHECK);
      chunks := Ones(n) + ["x"];
    } else {
      ByteByByte(n - 1, maxBytes, v);
      Then(Ones(n - 1), "xx", maxBytes, v, n - 1, n - 1 - (n - 1) % RECHECK);
      chunks := Ones(n - 1) + ["xx"];
    }
  }

  /** Exactly when the floor holds: the periodic check by itself protects it only from uploads in single
      bytes whose room ends one byte before a check; otherwise the cap has to. */
  lemma FloorHoldsIff(v: Volume, largest: nat, maxBytes: nat)
    ensures FloorHolds(v, largest, maxBytes) <==>
            largest == 0 || maxBytes <= Room(v) || (largest == 1 && (Room(v) + 1) % RECHECK == 0)
  {
    if largest == 0 || maxBytes <= Room(v) || (largest == 1 && (Room(v) + 1) % RECHECK == 0) {
      forall chunks | AtMost(chunks, largest)
        ensures v.free - |Streamed(chunks, maxBytes, v).upload.data| >= Min(v.free, v.floor)
      {
        if largest == 0 {
          NothingWritten(chunks, maxBytes, v);
        } else if maxBytes <= Room(v) {
          WithinCap(chunks, maxBytes, v);
        } else {
          BytesStop(chunks, maxBytes, v);
        }
      }
    } else {
      var chunks := CanCross(maxBytes, v, largest);
      assert AtMost(chunks, largest);
    }
  }
}
