/**
 Reading a request header ahead of the RTSP library (pkg/rtspsrv/proxy_listener.go) and giving the
 bytes back to it (pkg/rtspsrv/buffered_conn.go).

 A char stands for a byte. The client's stream is `early + late`: `early` is what arrives before the
 read deadline, `late` what comes after the deadline has been cleared. How the network cuts the
 stream is a function from stream positions to chunk sizes, so every schedule is covered.
 */
module Peek {

  import opened Option

  const LIMIT := 8192
  const READ_BUFFER := 4096

  // ---------- Which bytes are peeked ----------

  predicate EndsHeader(s: string, k: nat)
    requires k <= |s|
  {
    k >= 4 && s[k - 4] == '\r' && s[k - 3] == '\n' && s[k - 2] == '\r' && s[k - 1] == '\n'
  }

  lemma HeaderEndsWithEmptyLine(s: string, k: nat)
    requires k <= |s|
    ensures EndsHeader(s, k) <==> k >= 4 && s[k - 4..k] == "\r\n\r\n"
  {
    if k >= 4 {
      assert s[k - 4..k] == [s[k - 4], s[k - 3], s[k - 2], s[k - 1]];
    }
  }

  ghost predicate NoNewline(s: string, a: nat, b: nat)
    requires b <= |s|
  {
    forall i :: a <= i < b ==> s[i] != '\n'
  }

  /** The position just after the first newline at or after k. */
  function LineEnd(s: string, k: nat): (e: Option<nat>)
    requires k <= |s|
    ensures e.None? ==> NoNewline(s, k, |s|)
    ensures e.Some? ==> k < e.value <= |s| && s[e.value - 1] == '\n' && NoNewline(s, k, e.value - 1)
    decreases |s| - k
  {
    if k == |s| then None
    else if s[k] == '\n' then Some(k + 1)
    else LineEnd(s, k + 1)
  }

  /** Where the peek loop stops when it has consumed s[..k] so far. */
  function PeekFrom(s: string, k: nat): (stop: nat)
    requires k <= |s|
    ensures k <= stop <= |s|
    decreases |s| - k
  {
    if k >= LIMIT then k
    else
      match LineEnd(s, k)
      case None => k
      case Some(e) => if EndsHeader(s, e) then e else PeekFrom(s, e)
  }

  ghost predicate AtLineStart(s: string, m: nat)
    requires m <= |s|
  {
    m == 0 || s[m - 1] == '\n'
  }

  /** The stretch s[m..k] is one whole line. */
  ghost predicate IsLine(s: string, m: nat, k: nat)
    requires k <= |s|
  {
    m < k && AtLineStart(s, m) && s[k - 1] == '\n' && NoNewline(s, m, k - 1)
  }

  /** What position the peek stops at, without saying how it is found. */
  ghost predicate IsPeek(s: string, k: nat) {
    && k <= |s|
    // No header end before k.
    && (forall e: nat :: e < k ==> !EndsHeader(s, e))
    // The last line was started below the limit.
    && (k > 0 ==> exists m: nat :: m < 8192 && IsLine(s, m, k))
    // It had a reason to stop.
    && (EndsHeader(s, k) || k >= 8192 || NoNewline(s, k, |s|))
  }

  lemma {:induction false} PeekFromIsPeek(s: string, k: nat)
    requires k <= |s| && AtLineStart(s, k)
    requires forall e: nat :: e <= k ==> !EndsHeader(s, e)
    requires k > 0 ==> exists m: nat :: m < LIMIT && IsLine(s, m, k)
    ensures IsPeek(s, PeekFrom(s, k))
    decreases |s| - k
  {
    if k < LIMIT && LineEnd(s, k).Some? {
      var e := LineEnd(s, k).value;
      assert IsLine(s, k, e);
      if !EndsHeader(s, e) {
        PeekFromIsPeek(s, e);
      }
    }
  }

  /** The peek loop finds the first CRLFCRLF exactly, or a stated reason why there is none. */
  lemma PeekFindsFirstHeaderEnd(s: string)
    ensures IsPeek(s, PeekFrom(s, 0))
  {
    PeekFromIsPeek(s, 0);
  }

  lemma PeekIsUnique(s: string, j: nat, k: nat)
    requires IsPeek(s, j) && IsPeek(s, k)
    ensures j == k
  {
  }

  // ---------- How far the connection is read for it ----------

  type Chunks = nat -> nat

  /** Bytes returned by the read at position p: at least one, at most the room and what is there. */
  function ChunkAt(available: nat, chunk: Chunks, p: nat, room: nat): (n: nat)
    requires p < available && room > 0
    ensures 1 <= n <= room && p + n <= available
  {
    var most := if room < available - p then room else available - p;
    if chunk(p) < 1 then 1 else if chunk(p) > most then most else chunk(p)
  }

  /**
   The reader's buffer holds the unread bytes from position g to p. When it is full of them, they are taken out as
   a piece of the line, and it starts afresh at p.
   */
  function BufferStart(g: nat, p: nat): (g': nat)
    requires g <= p <= g + READ_BUFFER
    ensures g' <= p < g' + READ_BUFFER
  {
    if p - g == READ_BUFFER then p else g
  }

  /** The position reached from p when reads go on until they cover target; each gets the room left in the buffer. */
  function PullLine(available: nat, chunk: Chunks, g: nat, p: nat, target: nat): (q: nat)
    requires g <= p <= g + READ_BUFFER && p <= available && g <= target <= available
    ensures p <= q <= available && target <= q <= target + READ_BUFFER
    decreases available - p
  {
    if p >= target then p
    else
      var g' := BufferStart(g, p);
      PullLine(available, chunk, g', p + ChunkAt(available, chunk, p, g' + READ_BUFFER - p), target)
  }

  /** How many bytes have left the connection when the peek is over, from a line start k with p bytes taken. */
  function PullFrom(s: string, chunk: Chunks, k: nat, p: nat): (q: nat)
    requires k <= p <= k + READ_BUFFER && p <= |s|
    ensures PeekFrom(s, k) <= q <= |s|
    decreases |s| - k
  {
    if k >= LIMIT then p
    else
      match LineEnd(s, k)
      case None => |s|
      case Some(e) =>
        var q := PullLine(|s|, chunk, k, p, e);
        if EndsHeader(s, e) then q else PullFrom(s, chunk, e, q)
  }

  function Pulled(early: string, chunk: Chunks): (q: nat)
    ensures PeekFrom(early, 0) <= q <= |early|
  {
    PullFrom(early, chunk, 0, 0)
  }

  /** The loop would go on from here if there were another line. */
  predicate WantsMore(s: string, k: nat)
    requires k <= |s|
  {
    k < LIMIT && !EndsHeader(s, k)
  }

  /** What the next reader of the connection, local server or owner node, gets to see. */
  function Delivered(early: string, late: string, chunk: Chunks): string {
    early[..PeekFrom(early, 0)] + (early + late)[Pulled(early, chunk)..]
  }

  lemma CutOut(early: string, late: string, k: nat, q: nat)
    requires k <= q <= |early|
    ensures early + late == early[..k] + early[k..q] + (early[q..] + late)
    ensures (early + late)[q..] == early[q..] + late
    ensures early[..k] + (early + late)[q..] == early + late <==> k == q
  {
    assert |early[..k] + (early + late)[q..]| == |early + late| - (q - k);
  }

  /** The stream loses exactly the gap between the peeked bytes and what the reader had pulled. */
  lemma DeliveredMissesTheGap(early: string, late: string, chunk: Chunks)
    ensures
      var k, q := PeekFrom(early, 0), Pulled(early, chunk);
      && early + late == early[..k] + early[k..q] + (early[q..] + late)
      && Delivered(early, late, chunk) == early[..k] + (early[q..] + late)
      && (Delivered(early, late, chunk) == early + late <==> early[k..q] == "")
  {
    CutOut(early, late, PeekFrom(early, 0), Pulled(early, chunk));
  }

  // Which streams survive every schedule.

  /** The peek stopped at the limit, and its last line filled the reader's buffer some whole number of times. */
  ghost predicate FillsBuffers(s: string, k: nat)
    requires k <= |s|
  {
    k >= 8192 && exists m: nat :: m < 8192 && IsLine(s, m, k) && (k - m) % 4096 == 0
  }

  lemma {:induction false} FullBuffersEndAtTarget(available: nat, chunk: Chunks, g: nat, p: nat, target: nat)
    requires g <= p <= g + READ_BUFFER && p <= target <= available && (target - g) % READ_BUFFER == 0
    ensures PullLine(available, chunk, g, p, target) == target
    decreases available - p
  {
    if p < target {
      var g' := BufferStart(g, p);
      FullBuffersEndAtTarget(available, chunk, g', p + ChunkAt(available, chunk, p, g' + READ_BUFFER - p), target);
    }
  }

  /** The last line of the peek is the one that starts at k, or lies behind the line that does. */
  lemma LineAtOrBefore(s: string, k: nat, m: nat, stop: nat)
    requires k <= m && m < LIMIT <= stop <= |s| && IsLine(s, m, stop) && AtLineStart(s, k)
    ensures LineEnd(s, k).Some?
    ensures
      var e := LineEnd(s, k).value;
      if k == m then e == stop else e <= m
  {
    assert s[stop - 1] == '\n';
  }

  lemma {:induction false} FullBuffersReadNothingAhead(s: string, chunk: Chunks, k: nat, p: nat, m: nat, stop: nat)
    requires k <= p <= k + READ_BUFFER && p <= |s|
    requires k <= m && m < LIMIT <= stop <= |s| && IsLine(s, m, stop) && AtLineStart(s, k)
    requires (stop - m) % READ_BUFFER == 0 && PeekFrom(s, k) == stop
    ensures PullFrom(s, chunk, k, p) == stop
    decreases |s| - k
  {
    LineAtOrBefore(s, k, m, stop);
    var e := LineEnd(s, k).value;
    if k == m {
      assert stop - m >= READ_BUFFER;
      FullBuffersEndAtTarget(|s|, chunk, k, p, stop);
    } else {
      assert e < stop;
      FullBuffersReadNothingAhead(s, chunk, e, PullLine(|s|, chunk, k, p, e), m, stop);
    }
  }

  /** The schedule that cuts the stream byte by byte but takes one byte more at the end of s[..k]. */
  function OneTooMany(k: nat): Chunks {
    (i: nat) => if i + 1 == k then 2 else 1
  }

  lemma {:induction false} OneByOneStopsAtTarget(available: nat, k: nat, g: nat, p: nat, target: nat)
    requires g <= p <= g + READ_BUFFER && p <= target < k <= available
    ensures PullLine(available, OneTooMany(k), g, p, target) == target
    decreases target - p
  {
    if p < target {
      OneByOneStopsAtTarget(available, k, BufferStart(g, p), p + 1, target);
    }
  }

  lemma {:induction false} OneTooManyPullsPast(available: nat, k: nat, g: nat, p: nat)
    requires g <= p <= g + READ_BUFFER && p < k < available && (k - g) % READ_BUFFER != 0
    ensures PullLine(available, OneTooMany(k), g, p, k) == k + 1
    decreases k - p
  {
    var g' := BufferStart(g, p);
    assert (k - g') % READ_BUFFER != 0;
    if p + 1 < k {
      OneTooManyPullsPast(available, k, g', p + 1);
    } else {
      assert ChunkAt(available, OneTooMany(k), p, g' + READ_BUFFER - p) == 2;
    }
  }

  /** Where the last line does not fill its buffers, one more byte fits in. */
  lemma {:induction false} OneTooManyReadsAhead(s: string, k: nat, stop: nat)
    requires k < stop < |s| && AtLineStart(s, k) && PeekFrom(s, k) == stop && !WantsMore(s, stop)
    requires forall m: nat :: k <= m < stop && IsLine(s, m, stop) ==> (stop - m) % READ_BUFFER != 0
    ensures PullFrom(s, OneTooMany(stop), k, k) == stop + 1
    decreases |s| - k
  {
    var e := LineEnd(s, k).value;
    if e == stop {
      assert IsLine(s, k, stop);
      OneTooManyPullsPast(|s|, stop, k, k);
    } else {
      OneByOneStopsAtTarget(|s|, stop, k, k, e);
      OneTooManyReadsAhead(s, e, stop);
    }
  }

  lemma {:induction false} UnfinishedPeekPullsAll(s: string, chunk: Chunks, k: nat, p: nat)
    requires k <= p <= k + READ_BUFFER && p <= |s| && WantsMore(s, PeekFrom(s, k)) && !EndsHeader(s, k)
    ensures PullFrom(s, chunk, k, p) == |s|
    decreases |s| - k
  {
    if k < LIMIT && LineEnd(s, k).Some? {
      var e := LineEnd(s, k).value;
      UnfinishedPeekPullsAll(s, chunk, e, PullLine(|s|, chunk, k, p, e));
    }
  }

  /** A header ends with an empty line, which fills no buffer. */
  lemma HeaderEndFillsNoBuffer(s: string, m: nat, k: nat)
    requires k <= |s| && EndsHeader(s, k) && IsLine(s, m, k)
    ensures (k - m) % READ_BUFFER != 0
  {
    assert s[k - 3] == '\n';
  }

  lemma LinesStartOnce(s: string, m: nat, m': nat, k: nat)
    requires k <= |s| && IsLine(s, m, k) && IsLine(s, m', k)
    ensures m == m'
  {
  }

  lemma LastLineFillsNoBuffer(s: string, m: nat, k: nat)
    requires IsPeek(s, k) && !WantsMore(s, k) && !FillsBuffers(s, k) && IsLine(s, m, k)
    ensures (k - m) % READ_BUFFER != 0
  {
    if EndsHeader(s, k) {
      HeaderEndFillsNoBuffer(s, m, k);
    } else {
      var m': nat :| m' < LIMIT && IsLine(s, m', k);
      LinesStartOnce(s, m, m', k);
    }
  }

  lemma OneTooManyIsTooMany(s: string)
    requires PeekFrom(s, 0) < |s| && !FillsBuffers(s, PeekFrom(s, 0))
    ensures Pulled(s, OneTooMany(PeekFrom(s, 0))) > PeekFrom(s, 0)
  {
    var k := PeekFrom(s, 0);
    PeekFindsFirstHeaderEnd(s);
    if WantsMore(s, k) {
      UnfinishedPeekPullsAll(s, OneTooMany(k), 0, 0);
    } else {
      forall m: nat | m < k && IsLine(s, m, k)
        ensures (k - m) % READ_BUFFER != 0
      {
        LastLineFillsNoBuffer(s, m, k);
      }
      OneTooManyReadsAhead(s, 0, k);
    }
  }

  lemma SomeScheduleLoses(early: string, late: string)
    requires PeekFrom(early, 0) < |early| && !FillsBuffers(early, PeekFrom(early, 0))
    ensures Delivered(early, late, OneTooMany(PeekFrom(early, 0))) != early + late
  {
    OneTooManyIsTooMany(early);
    DeliveredMissesTheGap(early, late, OneTooMany(PeekFrom(early, 0)));
  }

  /**
   Under every schedule of reads nothing is lost, exactly when the peek takes all that came before the deadline, or
   stops at the limit with a last line that fills the reader's buffer a whole number of times.
   */
  lemma LosslessIff(early: string, late: string)
    ensures (forall chunk: Chunks :: Delivered(early, late, chunk) == early + late)
            <==> IsPeek(early, |early|) || exists k: nat :: k < |early| && IsPeek(early, k) && FillsBuffers(early, k)
  {
    PeekFindsFirstHeaderEnd(early);
    var stop := PeekFrom(early, 0);
    forall k: nat | IsPeek(early, k)
      ensures k == stop
    {
      PeekIsUnique(early, k, stop);
    }
    if stop < |early| && !FillsBuffers(early, stop) {
      SomeScheduleLoses(early, late);
    } else {
      forall chunk: Chunks
        ensures Delivered(early, late, chunk) == early + late
      {
        NothingReadAhead(early, chunk);
        DeliveredMissesTheGap(early, late, chunk);
      }
    }
  }

  lemma NothingReadAhead(early: string, chunk: Chunks)
    requires PeekFrom(early, 0) == |early| || FillsBuffers(early, PeekFrom(early, 0))
    ensures Pulled(early, chunk) == PeekFrom(early, 0)
  {
    var stop := PeekFrom(early, 0);
    if FillsBuffers(early, stop) {
      var m: nat :| m < LIMIT && IsLine(early, m, stop) && (stop - m) % READ_BUFFER == 0;
      FullBuffersReadNothingAhead(early, chunk, 0, 0, m, stop);
    }
  }

  /** A client that sends one header and waits: the stream arrives whole. */
  lemma OneHeaderAtATimeIsLossless(early: string, late: string, chunk: Chunks)
    requires 4 <= |early| <= 8192 && EndsHeader(early, |early|)
    requires forall e: nat :: e < |early| ==> !EndsHeader(early, e)
    ensures Delivered(early, late, chunk) == early + late
  {
    PeekFindsFirstHeaderEnd(early);
    assert early[|early| - 1] == '\n';
    NothingReadAhead(early, chunk);
    DeliveredMissesTheGap(early, late, chunk);
  }

  /** A first line still incomplete at the deadline never reaches the server. */
  lemma IncompleteFirstLineIsLost(early: string, late: string, chunk: Chunks)
    requires NoNewline(early, 0, |early|)
    ensures Delivered(early, late, chunk) == late
  {
    PeekFindsFirstHeaderEnd(early);
    assert (early + late)[|early|..] == late;
  }

  // ---------- The objects ----------

  /** The client's connection as the process sees it. */
  class Conn {
    const early: string
    const late: string
    const chunk: Chunks
    var taken: nat

    ghost predicate Valid()
      reads this
    {
      taken <= |early| + |late|
    }

    ghost function Rest(): string
      reads this
      requires Valid()
    {
      (early + late)[taken..]
    }

    constructor (early: string, late: string, chunk: Chunks)
      ensures Valid() && taken == 0
      ensures this.early == early && this.late == late && this.chunk == chunk
    {
      this.early, this.late, this.chunk, taken := early, late, chunk, 0;
    }

    /** A read of up to `room` bytes while the deadline is set; fails when nothing more comes in time. */
    method ReadBeforeDeadline(room: nat) returns (data: string, ok: bool)
      requires Valid() && taken <= |early| && room > 0
      modifies this
      ensures Valid() && ok == (old(taken) < |early|)
      ensures ok ==> taken == old(taken) + ChunkAt(|early|, chunk, old(taken), room)
                     && data == early[old(taken)..taken]
      ensures !ok ==> taken == old(taken) && data == ""
    {
      if taken == |early| {
        return "", false;
      }
      var n := ChunkAt(|early|, chunk, taken, room);
      data, ok := early[taken..taken + n], true;
      taken := taken + n;
    }

    /** A read into p without deadline; fails at the end of the stream. */
    method Read(p: array<char>) returns (n: nat, ok: bool)
      requires Valid()
      modifies this, p
      ensures Valid() && n <= p.Length && n <= |old(Rest())|
      ensures p[..n] == old(Rest())[..n] && p[n..] == old(p[n..])
      ensures Rest() == old(Rest())[n..]
      ensures ok <==> p.Length == 0 || old(Rest()) != ""
      ensures n > 0 <==> p.Length > 0 && old(Rest()) != ""
    {
      var all := early + late;
      if taken == |all| || p.Length == 0 {
        return 0, p.Length == 0;
      }
      n, ok := ChunkAt(|all|, chunk, taken, p.Length), true;
      forall i | 0 <= i < n { p[i] := all[taken + i]; }
      assert p[..n] == all[taken..][..n];
      taken := taken + n;
    }
  }

  /**
   bufio.Reader over the connection, with its buffer of READ_BUFFER bytes: bytes read ahead and not handed out yet.
   Room that was handed out is used again before the next read.
   */
  class Reader {
    const conn: Conn
    var ahead: string
    ghost var pos: nat   // how much of the stream has been handed out

    ghost predicate Valid()
      reads this, conn
    {
      && pos <= conn.taken <= |conn.early| && conn.taken <= pos + READ_BUFFER
      && ahead == conn.early[pos..conn.taken]
    }

    constructor (conn: Conn)
      requires conn.taken == 0
      ensures this.conn == conn && Valid() && pos == 0
    {
      this.conn, ahead, pos := conn, "", 0;
    }

    /** One more read from the connection into the room that is left. */
    method Fill() returns (ok: bool)
      requires Valid() && |ahead| < READ_BUFFER
      modifies this, conn
      ensures Valid() && pos == old(pos)
      ensures ok == (old(conn.taken) < |conn.early|)
      ensures ok ==> conn.taken == old(conn.taken) + ChunkAt(|conn.early|, conn.chunk, old(conn.taken),
                                                             READ_BUFFER - |old(ahead)|)
      ensures !ok ==> conn.taken == old(conn.taken) && ahead == old(ahead)
    {
      var data;
      data, ok := conn.ReadBeforeDeadline(READ_BUFFER - |ahead|);
      if ok {
        ahead := ahead + data;
      }
    }

    /** One more read towards a line end that is not in the buffer yet. */
    method FillOnTheWay() returns (ok: bool)
      requires Valid() && LineEnd(ahead, 0).None? && |ahead| < READ_BUFFER
      modifies this, conn
      ensures Valid() && pos == old(pos) && conn.taken >= old(conn.taken)
      ensures if ok then conn.taken > old(conn.taken) else conn.taken == |conn.early|
      ensures OnTheWay(conn.early, conn.chunk, pos, old(conn.taken), conn.taken)
    {
      NewlineIsAhead(conn.early, pos, conn.taken);
      ok := Fill();
    }

    /** Read until the buffer holds a line end or is full, or nothing more comes. */
    method FillToLineEnd() returns (more: bool)
      requires Valid()
      modifies this, conn
      ensures Valid() && pos == old(pos)
      ensures LineEnd(ahead, 0).None? ==> if more then |ahead| == READ_BUFFER else conn.taken == |conn.early|
      ensures OnTheWay(conn.early, conn.chunk, pos, old(conn.taken), conn.taken)
    {
      more := true;
      while more && LineEnd(ahead, 0).None? && |ahead| < READ_BUFFER
        invariant Valid() && pos == old(pos)
        invariant !more ==> conn.taken == |conn.early|
        invariant OnTheWay(conn.early, conn.chunk, pos, old(conn.taken), conn.taken)
        decreases more, |conn.early| - conn.taken
      {
        more := FillOnTheWay();
      }
    }

    method HandOut(n: nat) returns (out: string)
      requires Valid() && n <= |ahead|
      modifies this
      ensures Valid() && pos == old(pos) + n && out == conn.early[old(pos)..pos]
    {
      out, ahead, pos := ahead[..n], ahead[n..], pos + n;
    }

    /** The next line; or a full buffer of it; or, when nothing more comes, what there is of it, and failure. */
    method ReadSlice() returns (slice: string, full: bool, ok: bool)
      requires Valid()
      modifies this, conn
      ensures Valid() && old(pos) <= pos && slice == conn.early[old(pos)..pos]
      ensures full ==> pos > old(pos)
      ensures Sliced(conn.early, conn.chunk, old(pos), old(conn.taken), pos, conn.taken, full, ok)
    {
      var more := FillToLineEnd();
      SliceIsDue(conn.early, conn.chunk, pos, conn.taken);
      match LineEnd(ahead, 0)
      case Some(n) =>
        slice := HandOut(n);
        full, ok := false, true;
      case None =>
        slice := HandOut(|ahead|);
        full, ok := more, more;
    }

    /** The next line with its newline, pieced together; without one in time, the rest and failure. */
    method ReadLine() returns (line: string, ok: bool)
      requires Valid()
      modifies this, conn
      ensures Valid() && old(pos) <= pos && line == conn.early[old(pos)..pos]
      ensures Sliced(conn.early, conn.chunk, old(pos), old(conn.taken), pos, conn.taken, false, ok)
    {
      ghost var start, p := pos, conn.taken;
      var full;
      line, full, ok := ReadSlice();
      while full
        invariant Valid() && start <= pos && line == conn.early[start..pos]
        invariant Sliced(conn.early, conn.chunk, start, p, pos, conn.taken, full, ok)
        decreases full, |conn.early| - pos
      {
        var slice;
        slice, full, ok := ReadSlice();
        line := line + slice;
      }
    }
  }

  /**
   Reading on from position pos of the stream, with p bytes taken from the connection, has come to pos' and p': past
   the line end, or nowhere near it with a buffer full of the line, or to the end of what came in time.
   */
  ghost predicate Sliced(s: string, chunk: Chunks, pos: nat, p: nat, pos': nat, p': nat, full: bool, ok: bool)
    requires pos <= p <= pos + READ_BUFFER && p <= |s| && pos' <= p' <= pos' + READ_BUFFER && p' <= |s|
  {
    if full then
      && LineEnd(s, pos') == LineEnd(s, pos)
      && (LineEnd(s, pos).Some? ==>
            var e := LineEnd(s, pos).value;
            pos <= pos' && PullLine(|s|, chunk, pos', p', e) == PullLine(|s|, chunk, pos, p, e))
    else if ok then LineEnd(s, pos) == Some(pos') && p' == PullLine(|s|, chunk, pos, p, pos')
    else LineEnd(s, pos).None? && pos' == p' == |s|
  }

  /** Having taken p' bytes instead of p for the line at pos, the reader ends up taking as many for the whole line. */
  ghost predicate OnTheWay(s: string, chunk: Chunks, pos: nat, p: nat, p': nat)
    requires pos <= p <= pos + READ_BUFFER && p <= |s| && pos <= p' <= pos + READ_BUFFER && p' <= |s|
  {
    match LineEnd(s, pos)
    case Some(e) => PullLine(|s|, chunk, pos, p', e) == PullLine(|s|, chunk, pos, p, e)
    case None => true
  }

  /** What the bytes in the buffer, from pos to p, say about the line. */
  lemma SliceIsDue(s: string, chunk: Chunks, pos: nat, p: nat)
    requires pos <= p <= pos + READ_BUFFER && p <= |s|
    ensures match LineEnd(s[pos..p], 0)
            case Some(n) => LineEnd(s, pos) == Some(pos + n) && PullLine(|s|, chunk, pos, p, pos + n) == p
            case None => LineEnd(s, p) == LineEnd(s, pos)
    ensures LineEnd(s[pos..p], 0).None? && LineEnd(s, pos).Some? && p == pos + READ_BUFFER ==>
              var e := LineEnd(s, pos).value;
              PullLine(|s|, chunk, pos, p, e) == PullLine(|s|, chunk, p, p, e)
  {
    NewlineIsAhead(s, pos, p);
    if LineEnd(s[pos..p], 0).None? {
      LineEndGoesOn(s, pos, p);
    }
  }

  /** Without a newline up to k, the line end seen from k is the one seen from before. */
  lemma {:induction false} LineEndGoesOn(s: string, j: nat, k: nat)
    requires j <= k <= |s|
    requires LineEnd(s, j).None? || LineEnd(s, j).value > k
    ensures LineEnd(s, k) == LineEnd(s, j)
    decreases k - j
  {
    if j < k {
      LineEndGoesOn(s, j + 1, k);
    }
  }

  /** The first line end of the whole stream is the first one in the part read ahead, if that has one. */
  lemma NewlineIsAhead(s: string, start: nat, taken: nat)
    requires start <= taken <= |s|
    ensures match LineEnd(s[start..taken], 0)
            case Some(n) => LineEnd(s, start) == Some(start + n)
            case None => LineEnd(s, start).None? || LineEnd(s, start).value > taken
  {
    var ahead := s[start..taken];
    assert forall i :: 0 <= i < |ahead| ==> ahead[i] == s[start + i];
    match LineEnd(ahead, 0)
    case Some(n) =>
      assert s[start + n - 1] == '\n';
      assert forall i :: start <= i < start + n - 1 ==> s[i] == ahead[i - start];
    case None =>
      assert forall i :: start <= i < taken ==> s[i] == ahead[i - start];
  }

  lemma PrefixGrows(s: string, k: nat, e: nat)
    requires k <= e <= |s|
    ensures s[..k] + s[k..e] == s[..e]
    ensures EndsHeader(s[..e], e) == EndsHeader(s, e)
  {
  }

  /** The peek loop of Accept. What it returns depends on the bytes only, not on how they were cut. */
  method PeekHeader(conn: Conn) returns (buf: string)
    requires conn.Valid() && conn.taken == 0
    modifies conn
    ensures conn.Valid() && conn.taken == Pulled(conn.early, conn.chunk)
    ensures buf == conn.early[..PeekFrom(conn.early, 0)]
  {
    var reader := new Reader(conn);
    buf := "";
    ghost var k: nat := 0;
    while |buf| < LIMIT
      invariant reader.conn == conn && reader.Valid() && fresh(reader)
      invariant reader.pos == k && buf == conn.early[..k]
      invariant PeekFrom(conn.early, k) == PeekFrom(conn.early, 0)
      invariant !EndsHeader(conn.early, k)
      invariant PullFrom(conn.early, conn.chunk, k, conn.taken) == Pulled(conn.early, conn.chunk)
      decreases |conn.early| - k
    {
      var line, ok := reader.ReadLine();
      if !ok {
        break;
      }
      PrefixGrows(conn.early, k, reader.pos);
      buf, k := buf + line, reader.pos;
      if EndsHeader(buf, |buf|) {
        break;
      }
    }
  }

  lemma ConcatIsAssociative(a: string, b: string, c: string)
    ensures (a + b) + c == a + (b + c)
  {
  }

  /** bufferedConn: the connection with the peeked bytes in front. */
  class BufferedConn {
    const conn: Conn
    var buf: string

    ghost predicate Valid()
      reads this, conn
    {
      conn.Valid()
    }

    ghost function Rest(): string
      reads this, conn
      requires Valid()
    {
      buf + conn.Rest()
    }

    constructor (conn: Conn, buf: string)
      requires conn.Valid()
      ensures Valid() && this.conn == conn && this.buf == buf
    {
      this.conn, this.buf := conn, buf;
    }

    method Read(p: array<char>) returns (n: nat, ok: bool)
      requires Valid()
      modifies this, conn, p
      ensures Valid() && n <= p.Length && n <= |old(Rest())|
      ensures p[..n] == old(Rest())[..n] && p[n..] == old(p[n..])
      ensures Rest() == old(Rest())[n..]
      ensures old(|buf|) > 0 ==> n == if p.Length < old(|buf|) then p.Length else old(|buf|)
      ensures ok <==> p.Length == 0 || old(Rest()) != ""
      ensures n > 0 <==> p.Length > 0 && old(Rest()) != ""
    {
      if |buf| > 0 {
        n, ok := if p.Length < |buf| then p.Length else |buf|, true;
        forall i | 0 <= i < n { p[i] := buf[i]; }
        assert p[..n] == buf[..n] == (buf + conn.Rest())[..n];
        buf := buf[n..];
        return;
      }
      assert buf + conn.Rest() == conn.Rest();
      n, ok := conn.Read(p);
      assert buf + conn.Rest() == conn.Rest();
    }

    method ReadUpTo(size: nat) returns (got: string)
      requires Valid()
      modifies this, conn
      ensures Valid()
      ensures got + Rest() == old(Rest()) && |got| <= size
      ensures size > 0 && old(Rest()) != "" ==> got != ""
    {
      var p := new char[size];
      var n, _ := Read(p);
      got := p[..n];
    }

    /** Any number of reads of any sizes hand out the stream from the front, in order, without a hole. */
    method ReadAll(sizes: seq<nat>) returns (out: string)
      requires Valid()
      modifies this, conn
      ensures Valid()
      ensures out + Rest() == old(Rest())
    {
      out := "";
      for i := 0 to |sizes|
        invariant Valid()
        invariant out + Rest() == old(Rest())
      {
        var got := ReadUpTo(sizes[i]);
        ConcatIsAssociative(out, got, Rest());
        out := out + got;
      }
    }
  }

  /** Accept up to the handover: the local server reads exactly Delivered. */
  method Handover(conn: Conn) returns (b: BufferedConn)
    requires conn.Valid() && conn.taken == 0
    modifies conn
    ensures fresh(b) && b.conn == conn && b.Valid()
    ensures b.Rest() == Delivered(conn.early, conn.late, conn.chunk)
  {
    var buf := PeekHeader(conn);
    b := new BufferedConn(conn, buf);
  }

}
