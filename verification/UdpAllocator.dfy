/**
 The UDP port pair allocator of pkg/udpalloc/allocator.go.

 Whether the operating system lets a port be bound is a predicate handed to every call; a call binds
 each port at most once, so this covers every outcome. Sockets carry a serial number, so that two
 sockets bound to one port at different times differ.
 */
module UdpAllocator {

  import opened Option

  datatype Socket = Socket(port: int, serial: nat)

  type Bindable = int -> bool

  /** `open` is the set of sockets the allocator has bound and not closed. */
  datatype State = State(start: int, end: int, reserved: map<int, Socket>, open: set<Socket>, nextSerial: nat)

  // ---------- One call ----------

  /** The pair at p has just been bound. */
  function WithPair(s: State, p: int): State {
    var rtp, rtcp := Socket(p, s.nextSerial), Socket(p + 1, s.nextSerial + 1);
    s.(reserved := s.reserved[p := rtp][p + 1 := rtcp],
    open := s.open + {rtp, rtcp},
    nextSerial := s.nextSerial + 2)
  }

  /** The scan of ReservePair from p on: the new state and the base port found. */
  function Scan(s: State, bind: Bindable, p: int): (State, Option<int>)
    decreases s.end - p
  {
    if p > s.end then (s, None)
    else if p in s.reserved || !bind(p) then Scan(s, bind, p + 2)
    else if !bind(p + 1) then Scan(s.(nextSerial := s.nextSerial + 1), bind, p + 2)
    else (WithPair(s, p), Some(p))
  }

  function Reserve(s: State, bind: Bindable): (State, Option<int>) {
    Scan(s, bind, s.start)
  }

  /** The socket at a port is closed and forgotten, if there is one. */
  function FreePort(s: State, port: int): State {
    if port in s.reserved then s.(reserved := s.reserved - {port}, open := s.open - {s.reserved[port]}) else s
  }

  function Free(s: State, p: int): State {
    FreePort(FreePort(s, p), p + 1)
  }

  predicate Available(s: State, bind: Bindable, p: int) {
    s.start <= p <= s.end && p % 2 == 0 && p !in s.reserved && bind(p) && bind(p + 1)
  }

  /** The scan from p on stops at the least available base, if there is one. */
  lemma {:induction false} ScanFindsLeast(s: State, bind: Bindable, p: int)
    requires s.start <= p && p % 2 == 0
    ensures
      match Scan(s, bind, p).1
      case None => forall q :: p <= q ==> !Available(s, bind, q)
      case Some(q) => p <= q && Available(s, bind, q) && forall r :: p <= r < q ==> !Available(s, bind, r)
    decreases s.end - p
  {
    if p <= s.end {
      var s1 := s.(nextSerial := s.nextSerial + 1);
      assert forall q :: Available(s1, bind, q) == Available(s, bind, q);
      assert forall q :: p < q < p + 2 ==> !Available(s, bind, q);
      if p in s.reserved || !bind(p) {
        ScanFindsLeast(s, bind, p + 2);
      } else if !bind(p + 1) {
        ScanFindsLeast(s1, bind, p + 2);
      }
    }
  }

  /** Bases that are passed over leave nothing behind but used-up serials. */
  lemma {:induction false} ScanLeavesNothing(s: State, bind: Bindable, p: int) returns (used: nat)
    ensures
      var (s', found) := Scan(s, bind, p);
      && used >= s.nextSerial
      && s' == if found.Some? then WithPair(s.(nextSerial := used), found.value) else s.(nextSerial := used)
    decreases s.end - p
  {
    used := s.nextSerial;
    if p <= s.end {
      if p in s.reserved || !bind(p) {
        used := ScanLeavesNothing(s, bind, p + 2);
      } else if !bind(p + 1) {
        used := ScanLeavesNothing(s.(nextSerial := s.nextSerial + 1), bind, p + 2);
      }
    }
  }

  /** First fit: the least even base that is free and can be bound, and failure only when there is none. */
  lemma ReserveIsFirstFit(s: State, bind: Bindable)
    requires s.start % 2 == 0
    ensures Reserve(s, bind).1.None? <==> forall q :: !Available(s, bind, q)
    ensures Reserve(s, bind).1.Some? ==>
              var q := Reserve(s, bind).1.value;
              Available(s, bind, q) && forall r :: r < q ==> !Available(s, bind, r)
  {
    ScanFindsLeast(s, bind, s.start);
  }

  // ---------- Whole runs ----------

  /** Release handles are numbered in the order they are given out; issued[h] is the base port of handle h. */
  datatype Run = Run(alloc: State, issued: seq<int>, released: set<nat>)

  datatype Op = TakePair(bind: Bindable) | Release(h: nat)

  function Fresh(start: int, end: int): Run {
    Run(State(start, end, map[], {}, 0), [], {})
  }

  function Step(r: Run, op: Op): Run {
    match op
    case TakePair(bind) =>
      var (s, found) := Reserve(r.alloc, bind);
      r.(alloc := s, issued := if found.Some? then r.issued + [found.value] else r.issued)
    case Release(h) =>
      if h < |r.issued| then r.(alloc := Free(r.alloc, r.issued[h]), released := r.released + {h}) else r
  }

  function Exec(r: Run, ops: seq<Op>): Run
    decreases |ops|
  {
    if ops == [] then r else Exec(Step(r, ops[0]), ops[1..])
  }

  predicate Live(r: Run, h: int) {
    0 <= h < |r.issued| && h !in r.released
  }

  function LiveBases(r: Run): set<int> {
    set h | 0 <= h < |r.issued| && h !in r.released :: r.issued[h]
  }

  function Base(port: int): int {
    port - port % 2
  }

  /** The map holds exactly the pairs of the live handles, no two of which share a pair. */
  ghost predicate MapIsLivePairs(r: Run) {
    && (forall k :: k in r.alloc.reserved <==> Base(k) in LiveBases(r))
    && (forall h :: h in r.released ==> h < |r.issued|)
    && (forall h, h' :: Live(r, h) && Live(r, h') && r.issued[h] == r.issued[h'] ==> h == h')
    && (forall h :: 0 <= h < |r.issued| ==>
          r.issued[h] % 2 == 0 && r.alloc.start <= r.issued[h] <= r.alloc.end)
  }

  /** The open sockets are exactly those in the map, each at its own port. */
  ghost predicate NoLeak(s: State) {
    && (forall k :: k in s.reserved ==> s.reserved[k].port == k && s.reserved[k].serial < s.nextSerial)
    && (forall k :: k in s.reserved ==> s.reserved[k] in s.open)
    && (forall c :: c in s.open ==> c.port in s.reserved && s.reserved[c.port] == c)
  }

  ghost predicate Inv(r: Run) {
    r.alloc.start % 2 == 0 && MapIsLivePairs(r) && NoLeak(r.alloc)
  }

  /** A successful call stores the pair in two empty places, and neither port has an open socket yet. */
  lemma ReserveOverwritesNothing(r: Run, bind: Bindable)
    requires Inv(r) && Reserve(r.alloc, bind).1.Some?
    ensures
      var p := Reserve(r.alloc, bind).1.value;
      && p !in r.alloc.reserved && p + 1 !in r.alloc.reserved && p !in LiveBases(r)
      && forall c :: c in r.alloc.open ==> c.port != p && c.port != p + 1
  {
    ReserveIsFirstFit(r.alloc, bind);
    var p := Reserve(r.alloc, bind).1.value;
    assert Base(p) == p == Base(p + 1);
  }

  lemma WithPairKeepsNoLeak(s: State, p: int)
    requires NoLeak(s) && p !in s.reserved && p + 1 !in s.reserved
    ensures NoLeak(WithPair(s, p))
    ensures WithPair(s, p).reserved.Keys == s.reserved.Keys + {p, p + 1}
  {
    var s' := WithPair(s, p);
    assert forall k :: k in s.reserved ==> k != p && k != p + 1 && s'.reserved[k] == s.reserved[k];
  }

  /** Handing out a fresh even base adds its pair to the books. */
  lemma IssueKeepsBooks(r: Run, s: State, p: int)
    requires MapIsLivePairs(r) && p % 2 == 0 && s.start <= p <= s.end && p !in LiveBases(r)
    requires s.start == r.alloc.start && s.end == r.alloc.end
    requires s.reserved.Keys == r.alloc.reserved.Keys + {p, p + 1}
    ensures MapIsLivePairs(r.(alloc := s, issued := r.issued + [p]))
  {
    var r', n := r.(alloc := s, issued := r.issued + [p]), |r.issued|;
    assert forall h :: 0 <= h < n ==> r'.issued[h] == r.issued[h];
    assert forall h :: Live(r', h) <==> Live(r, h) || h == n;
    assert forall h :: Live(r, h) ==> r.issued[h] in LiveBases(r);
    assert LiveBases(r') == LiveBases(r) + {p} by {
      assert Live(r', n) && r'.issued[n] == p;
    }
    assert forall k :: Base(k) == p <==> k == p || k == p + 1;
  }

  lemma ReserveKeepsInv(r: Run, bind: Bindable)
    requires Inv(r)
    ensures Inv(Step(r, TakePair(bind)))
  {
    ScanFindsLeast(r.alloc, bind, r.alloc.start);
    var used := ScanLeavesNothing(r.alloc, bind, r.alloc.start);
    var (s, found) := Reserve(r.alloc, bind);
    if found.Some? {
      ReserveOverwritesNothing(r, bind);
      var before := r.alloc.(nextSerial := used);
      WithPairKeepsNoLeak(before, found.value);
      IssueKeepsBooks(r, s, found.value);
    } else {
      assert LiveBases(r.(alloc := s)) == LiveBases(r);
    }
  }

  lemma FreeRemovesPair(s: State, p: int)
    requires NoLeak(s)
    ensures NoLeak(Free(s, p))
    ensures Free(s, p).reserved == s.reserved - {p, p + 1}
    ensures Free(s, p).start == s.start && Free(s, p).end == s.end
  {
  }

  /**
   Calling release handle h keeps the books exactly when h was not called before, or when its pair has
   not been given to somebody else in the meantime.
   */
  lemma ReleaseKeepsInvIff(r: Run, h: nat)
    requires Inv(r) && h < |r.issued|
    ensures Inv(Step(r, Release(h))) <==> h !in r.released || r.issued[h] !in LiveBases(r)
  {
    var p := r.issued[h];
    var r' := Step(r, Release(h));
    FreeRemovesPair(r.alloc, p);
    assert forall k :: Base(k) == p <==> k == p || k == p + 1;
    assert forall g :: Live(r', g) <==> Live(r, g) && g != h;
    if h !in r.released {
      assert LiveBases(r') == LiveBases(r) - {p} by {
        assert forall g :: Live(r, g) && r.issued[g] == p ==> g == h;
        assert Live(r, h);
      }
    } else {
      assert LiveBases(r') == LiveBases(r);
      if p in LiveBases(r) {
        assert Base(p) == p && p !in r'.alloc.reserved;
      }
    }
  }

  /** With every handle called at most once, the map is the disjoint union of the live pairs after any run. */
  lemma {:induction false} EveryRunKeepsInv(r: Run, ops: seq<Op>)
    requires Inv(r)
    requires forall i :: 0 <= i < |ops| && ops[i].Release? ==> ops[i].h !in r.released
    requires forall i, j :: 0 <= i < j < |ops| && ops[i].Release? && ops[j].Release? ==> ops[i].h != ops[j].h
    ensures Inv(Exec(r, ops))
    decreases |ops|
  {
    if ops != [] {
      if ops[0].TakePair? {
        ReserveKeepsInv(r, ops[0].bind);
      } else if ops[0].h < |r.issued| {
        ReleaseKeepsInvIff(r, ops[0].h);
      }
      EveryRunKeepsInv(Step(r, ops[0]), ops[1..]);
    }
  }

  /** A new allocator's books are in order, and so they stay, whoever takes and releases, each handle once. */
  lemma EveryRunFromTheStart(start: int, end: int, ops: seq<Op>)
    requires forall i, j :: 0 <= i < j < |ops| && ops[i].Release? && ops[j].Release? ==> ops[i].h != ops[j].h
    ensures Inv(Exec(Fresh(RoundUp(start), end), ops))
  {
    var start0 := Fresh(RoundUp(start), end);
    assert LiveBases(start0) == {};
    EveryRunKeepsInv(start0, ops);
  }

  const ALL_BIND: Bindable := _ => true

  lemma OnlyPairIsTaken(r: Run, p: int)
    requires r.alloc.start == r.alloc.end == p && p % 2 == 0 && p !in r.alloc.reserved
    ensures
      var r' := Step(r, TakePair(ALL_BIND));
      && r'.issued == r.issued + [p] && r'.released == r.released
      && r'.alloc.start == r'.alloc.end == p && p in r'.alloc.reserved
  {
    ReserveIsFirstFit(r.alloc, ALL_BIND);
    var used := ScanLeavesNothing(r.alloc, ALL_BIND, p);
    assert Available(r.alloc, ALL_BIND, p);
  }

  /** Why "at most once": a handle called twice frees the pair of its new holder. */
  lemma SecondCallFreesSomeoneElse()
    ensures
      var r := Exec(Fresh(5000, 5000), [TakePair(ALL_BIND), Release(0), TakePair(ALL_BIND), Release(0)]);
      Live(r, 1) && r.issued[1] == 5000 && 5000 !in r.alloc.reserved
  {
    var take := TakePair(ALL_BIND);
    var ops := [take, Release(0), take, Release(0)];
    var r1 := Step(Fresh(5000, 5000), take);
    OnlyPairIsTaken(Fresh(5000, 5000), 5000);
    var r2 := Step(r1, Release(0));
    OnlyPairIsTaken(r2, 5000);
    var r3 := Step(r2, take);
    assert Exec(r3, ops[3..]) == Step(r3, Release(0));
    assert Exec(r2, ops[2..]) == Exec(r3, ops[3..]) by { assert ops[2..][1..] == ops[3..]; }
    assert Exec(r1, ops[1..]) == Exec(r2, ops[2..]) by { assert ops[1..][1..] == ops[2..]; }
  }

  // ---------- Capacity ----------

  /** NewAllocator makes the first port even. */
  function RoundUp(start: int): (first: int)
    ensures start <= first <= start + 1 && first % 2 == 0
  {
    if start % 2 != 0 then start + 1 else start
  }

  function Capacity(start: int, end: int): nat {
    if start > end then 0 else (end - start) / 2 + 1
  }

  function Reserves(n: nat): seq<Op> {
    seq(n, _ => TakePair(ALL_BIND))
  }

  /** The run that has handed out the first k pairs and taken none back. */
  ghost predicate HandedOut(r: Run, start: int, end: int, k: nat) {
    && r.alloc.start == start && r.alloc.end == end && r.released == {}
    && k <= Capacity(start, end)
    && r.issued == seq(k, i => start + 2 * i)
    && (forall p :: p in r.alloc.reserved <==> start <= p < start + 2 * k)
  }

  lemma NextReserve(r: Run, start: int, end: int, k: nat)
    requires start % 2 == 0 && HandedOut(r, start, end, k)
    ensures HandedOut(Step(r, TakePair(ALL_BIND)), start, end, if k < Capacity(start, end) then k + 1 else k)
  {
    var p := start + 2 * k;
    var (s, found) := Reserve(r.alloc, ALL_BIND);
    ScanFindsLeast(r.alloc, ALL_BIND, start);
    var used := ScanLeavesNothing(r.alloc, ALL_BIND, start);
    if k < Capacity(start, end) {
      assert Available(r.alloc, ALL_BIND, p);
      assert found == Some(p);
    } else {
      assert forall q :: !Available(r.alloc, ALL_BIND, q);
    }
  }

  lemma {:induction false} ReservesFrom(r: Run, start: int, end: int, k: nat, n: nat)
    requires start % 2 == 0 && HandedOut(r, start, end, k)
    ensures HandedOut(Exec(r, Reserves(n)), start, end,
                      if k + n < Capacity(start, end) then k + n else Capacity(start, end))
    decreases n
  {
    if n > 0 {
      NextReserve(r, start, end, k);
      assert Reserves(n)[1..] == Reserves(n - 1);
      ReservesFrom(Step(r, TakePair(ALL_BIND)), start, end, if k < Capacity(start, end) then k + 1 else k, n - 1);
    }
  }

  /** When every bind succeeds, n calls hand out the first min(n, capacity) pairs in order, and no more. */
  lemma CapacityIsExact(start: int, end: int, n: nat)
    ensures
      var even := RoundUp(start);
      Exec(Fresh(even, end), Reserves(n)).issued
      == seq(if n < Capacity(even, end) then n else Capacity(even, end), i => even + 2 * i)
  {
    ReservesFrom(Fresh(RoundUp(start), end), RoundUp(start), end, 0, n);
  }

  // ---------- The object ----------

  class Allocator {
    const start: int
    const end: int
    var reserved: map<int, Socket>
    ghost var open: set<Socket>
    var nextSerial: nat

    ghost function Abs(): State
      reads this
    {
      State(start, end, reserved, open, nextSerial)
    }

    constructor Ranged(start: int, end: int)
      ensures Abs() == State(start, end, map[], {}, 0)
    {
      this.start, this.end := start, end;
      reserved, open, nextSerial := map[], {}, 0;
    }

    static method NewAllocator(start: int, end: int) returns (r: Result<Allocator, string>)
      ensures if start <= 0 || end <= 0 || start > end then r.Err?
              else r.Ok? && fresh(r.value) && r.value.Abs() == Fresh(RoundUp(start), end).alloc
    {
      if start <= 0 || end <= 0 || start > end {
        return Err("invalid port range");
      }
      var first := start;
      if first % 2 != 0 {
        first := first + 1;
      }
      var a := new Allocator.Ranged(first, end);
      return Ok(a);
    }

    /** net.ListenPacket: a new socket when the system allows it. */
    method Listen(port: int, bind: Bindable) returns (c: Option<Socket>)
      modifies this
      ensures reserved == old(reserved)
      ensures bind(port) ==> c == Some(Socket(port, old(nextSerial)))
                             && open == old(open) + {c.value} && nextSerial == old(nextSerial) + 1
      ensures !bind(port) ==> c == None && open == old(open) && nextSerial == old(nextSerial)
    {
      if !bind(port) {
        return None;
      }
      c := Some(Socket(port, nextSerial));
      open, nextSerial := open + {c.value}, nextSerial + 1;
    }

    method Close(c: Socket)
      modifies this`open
      ensures open == old(open) - {c}
    {
      open := open - {c};
    }

    /** The serial that the next socket gets has not been used. */
    ghost predicate SerialsUsed()
      reads this
    {
      forall c :: c in open ==> c.serial < nextSerial
    }

    /** Bind RTP and RTCP and store both; when RTCP cannot be bound, RTP is closed again. */
    method BindPair(p: int, bind: Bindable) returns (bound: bool)
      requires SerialsUsed() && p !in reserved
      modifies this
      ensures SerialsUsed() && bound == (bind(p) && bind(p + 1))
      ensures Abs() == if !bind(p) then old(Abs())
                       else if !bind(p + 1) then old(Abs()).(nextSerial := old(nextSerial) + 1)
                       else WithPair(old(Abs()), p)
    {
      ghost var before := open;
      var rtp := Listen(p, bind);
      if rtp.None? {
        return false;
      }
      var rtcp := Listen(p + 1, bind);
      if rtcp.None? {
        Close(rtp.value);
        assert open == before;
        return false;
      }
      reserved := reserved[p := rtp.value];
      reserved := reserved[p + 1 := rtcp.value];
      assert open == before + {rtp.value, rtcp.value};
      return true;
    }

    method ReservePair(bind: Bindable) returns (r: Result<int, string>)
      requires SerialsUsed()
      modifies this
      ensures SerialsUsed()
      ensures Abs() == Reserve(old(Abs()), bind).0
      ensures match Reserve(old(Abs()), bind).1 case Some(p) => r == Ok(p) case None => r.Err?
    {
      var p := start;
      while p <= end
        invariant SerialsUsed()
        invariant Reserve(old(Abs()), bind) == Scan(Abs(), bind, p)
        decreases end - p
      {
        if p !in reserved {
          var bound := BindPair(p, bind);
          if bound {
            return Ok(p);
          }
        }
        p := p + 2;
      }
      return Err("no available ports");
    }

    /** In any run so far: the one open socket of the port, exactly if the port belongs to a pair still held. */
    method GetConn(port: int) returns (c: Option<Socket>)
      ensures forall r :: Inv(r) && r.alloc == Abs() ==> (c.Some? <==> Base(port) in LiveBases(r))
      ensures NoLeak(Abs()) ==> forall s :: (s in open && s.port == port) <==> c == Some(s)
    {
      c := if port in reserved then Some(reserved[port]) else None;
    }

    /** The closure that ReservePair returns beside base port p. */
    method ReleasePair(p: int)
      modifies this`reserved, this`open
      ensures Abs() == Free(old(Abs()), p)
    {
      if p in reserved {
        Close(reserved[p]);
        reserved := reserved - {p};
      }
      if p + 1 in reserved {
        Close(reserved[p + 1]);
        reserved := reserved - {p + 1};
      }
    }
  }

}
