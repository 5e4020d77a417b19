/**
 The bounded drop-oldest queue that carries packets twice in pkg/topic/topic.go: from PublishPacket to
 the dispatcher, and from the dispatcher to each subscriber.

 Sending is three separate non-blocking steps: try; if full, take one out; try again. A receiver may
 act between any two of them. Each step here is one `select` of the source.
 */
module DropOldest {

  import opened Subsequence

  datatype Sender<T> = Idle | Evicting(pkt: T) | Retrying(pkt: T)

  /**
   One queue with its single sender. The last four fields record the run: what was offered and what was
   received, in order, how many packets were thrown out for newer ones and how many were refused.
   */
  datatype Queue<T> = Queue(cap: nat, buf: seq<T>, sender: Sender<T>,
                            offered: seq<T>, taken: seq<T>, evicted: nat, rejected: nat)

  datatype Micro<T> = Try(pkt: T) | Evict | Retry | Take

  function Empty<T>(cap: nat): Queue<T> {
    Queue(cap, [], Idle, [], [], 0, 0)
  }

  /** One step; a step that is not possible in this state changes nothing. */
  function Do<T>(q: Queue<T>, m: Micro<T>): Queue<T> {
    match m
    case Try(x) =>
      if !q.sender.Idle? then q
      else if |q.buf| < q.cap then q.(buf := q.buf + [x], offered := q.offered + [x])
      else q.(sender := Evicting(x), offered := q.offered + [x])
    case Evict =>
      if !q.sender.Evicting? then q
      else if q.buf == [] then q.(sender := Retrying(q.sender.pkt))
      else q.(sender := Retrying(q.sender.pkt), buf := q.buf[1..], evicted := q.evicted + 1)
    case Retry =>
      if !q.sender.Retrying? then q
      else if |q.buf| < q.cap then q.(sender := Idle, buf := q.buf + [q.sender.pkt])
      else q.(sender := Idle, rejected := q.rejected + 1)
    case Take =>
      if q.buf == [] then q
      else q.(buf := q.buf[1..], taken := q.taken + [q.buf[0]])
  }

  function Exec<T>(q: Queue<T>, ms: seq<Micro<T>>): Queue<T>
    decreases |ms|
  {
    if ms == [] then q else Exec(Do(q, ms[0]), ms[1..])
  }

  /** The packet that an unfinished offer still holds. */
  function InHand<T>(q: Queue<T>): seq<T> {
    if q.sender.Idle? then [] else [q.sender.pkt]
  }

  ghost predicate Inv<T>(q: Queue<T>) {
    && |q.buf| <= q.cap
    // What was received and what is still to come is a selection of what was offered.
    && Sub(q.taken + q.buf + InHand(q), q.offered)
    // Every packet is accounted for.
    && |q.offered| == |q.taken| + |q.buf| + q.evicted + q.rejected + |InHand(q)|
    // With room for one packet at all, the second try always finds room.
    && (q.cap > 0 ==> q.rejected == 0 && (q.sender.Retrying? ==> |q.buf| < q.cap))
    && (q.cap == 0 ==> q.evicted == 0 && q.taken == [])
  }

  lemma EmptyInv<T>(cap: nat)
    ensures Inv(Empty<T>(cap))
  {
    assert Picks<T>([], [], []);
    assert Empty<T>(cap).taken + Empty<T>(cap).buf + InHand(Empty<T>(cap)) == [];
  }

  lemma TryKeepsInv<T>(q: Queue<T>, x: T)
    requires Inv(q)
    ensures Inv(Do(q, Try(x)))
  {
    if q.sender.Idle? {
      assert q.taken + q.buf + [] == q.taken + q.buf;
      SubGrowsBoth(q.taken + q.buf, q.offered, x);
      assert q.taken + (q.buf + [x]) + [] == q.taken + q.buf + [x];
    }
  }

  lemma EvictKeepsInv<T>(q: Queue<T>)
    requires Inv(q)
    ensures Inv(Do(q, Evict))
  {
    if q.sender.Evicting? && q.buf != [] {
      assert q.taken + q.buf + InHand(q) == q.taken + [q.buf[0]] + (q.buf[1..] + InHand(q));
      SubDrops(q.taken, q.buf[0], q.buf[1..] + InHand(q), q.offered);
      assert q.taken + q.buf[1..] + InHand(q) == q.taken + (q.buf[1..] + InHand(q));
    }
  }

  lemma RetryKeepsInv<T>(q: Queue<T>)
    requires Inv(q)
    ensures Inv(Do(q, Retry))
  {
    if q.sender.Retrying? {
      var x := q.sender.pkt;
      assert q.taken + (q.buf + [x]) + [] == q.taken + q.buf + [x];
      SubOfPrefix(q.taken + q.buf, [x], q.offered);
      assert q.taken + q.buf + [] == q.taken + q.buf;
    }
  }

  lemma TakeKeepsInv<T>(q: Queue<T>)
    requires Inv(q)
    ensures Inv(Do(q, Take))
  {
    if q.buf != [] {
      assert q.taken + [q.buf[0]] + q.buf[1..] == q.taken + q.buf;
    }
  }

  lemma StepKeepsInv<T>(q: Queue<T>, m: Micro<T>)
    requires Inv(q)
    ensures Inv(Do(q, m))
  {
    match m
    case Try(x) => TryKeepsInv(q, x);
    case Evict => EvictKeepsInv(q);
    case Retry => RetryKeepsInv(q);
    case Take => TakeKeepsInv(q);
  }

  /** However sends and receives interleave: nothing out of order, twice, or unaccounted for, and no refusal. */
  lemma {:induction false} EveryInterleavingKeepsInv<T>(q: Queue<T>, ms: seq<Micro<T>>)
    requires Inv(q)
    ensures Inv(Exec(q, ms)) && Exec(q, ms).cap == q.cap
    decreases |ms|
  {
    if ms != [] {
      StepKeepsInv(q, ms[0]);
      EveryInterleavingKeepsInv(Do(q, ms[0]), ms[1..]);
    }
  }

  /** A finished offer was accepted, in every interleaving, exactly when the queue has any capacity. */
  lemma RefusedIffNoCapacity<T>(cap: nat, ms: seq<Micro<T>>)
    ensures
      var q := Exec(Empty(cap), ms);
      q.rejected == if cap > 0 then 0 else |q.offered| - |InHand(q)|
  {
    EmptyInv<T>(cap);
    EveryInterleavingKeepsInv(Empty<T>(cap), ms);
  }

  /** Until the next offer starts, at most one packet is thrown out, and only if the first try failed. */
  lemma {:induction false} OfferEvictsAtMostOne<T>(q: Queue<T>, ms: seq<Micro<T>>)
    requires forall m :: m in ms ==> !m.Try?
    ensures q.evicted <= Exec(q, ms).evicted <= q.evicted + if q.sender.Evicting? then 1 else 0
    decreases |ms|
  {
    if ms != [] {
      OfferEvictsAtMostOne(Do(q, ms[0]), ms[1..]);
    }
  }

  /** Why one sender: with two on one queue, the second try of the first can fail. */
  lemma TwoSendersCanRefuse()
    ensures
      var q := Exec(Empty<int>(1), [Try(0), Try(1), Evict]);   // the first sender has made room for packet 1
      var other := q.(buf := q.buf + [2]);                     // the second sender's first try takes it
      q.sender == Retrying(1) && |q.buf| < q.cap && Do(other, Retry).rejected == 1
  {
    var q0 := Do(Empty<int>(1), Try(0));
    var q1 := Do(q0, Try(1));
    var q2 := Do(q1, Evict);
    var ms := [Try(0), Try(1), Evict];
    assert Exec(q2, ms[3..]) == q2;
    assert ms[2..][1..] == ms[3..] && ms[1..][1..] == ms[2..];
  }

  // ---------- Offers that nobody interrupts ----------

  function LastN<T>(s: seq<T>, n: nat): seq<T> {
    if |s| <= n then s else s[|s| - n..]
  }

  /** The queue after a whole offer, and whether the packet got in. */
  function Offer<T>(buf: seq<T>, cap: nat, x: T): seq<T> {
    LastN(buf + [x], cap)
  }

  /** The three steps in a row are one offer, which keeps the newest packets that fit. */
  lemma ThreeStepsAreAnOffer<T>(q: Queue<T>, x: T)
    requires q.sender.Idle? && |q.buf| <= q.cap
    ensures
      var q' := Do(Do(Do(q, Try(x)), Evict), Retry);
      && q'.buf == Offer(q.buf, q.cap, x) && q'.sender.Idle? && q'.taken == q.taken && q'.cap == q.cap
      && q'.offered == q.offered + [x]
      && q'.rejected == q.rejected + (if q.cap == 0 then 1 else 0)
      && q'.evicted == q.evicted + (if |q.buf| == q.cap > 0 then 1 else 0)
  {
    if |q.buf| == q.cap > 0 {
      assert q.buf[1..] + [x] == (q.buf + [x])[1..];
    }
  }

  function OfferAll<T>(buf: seq<T>, cap: nat, xs: seq<T>): seq<T> {
    if xs == [] then buf else Offer(OfferAll(buf, cap, xs[..|xs| - 1]), cap, xs[|xs| - 1])
  }

  /** n offers without a receive leave exactly the last packets that fit, oldest first. */
  lemma {:induction false} OffersKeepTheNewest<T>(buf: seq<T>, cap: nat, xs: seq<T>)
    requires |buf| <= cap
    ensures OfferAll(buf, cap, xs) == LastN(buf + xs, cap)
  {
    if xs == [] {
      assert buf + xs == buf;
    } else {
      var init, x := xs[..|xs| - 1], xs[|xs| - 1];
      OffersKeepTheNewest(buf, cap, init);
      assert buf + xs == (buf + init) + [x];
      LastOfLast(buf + init, cap, x);
    }
  }

  lemma LastOfLast<T>(s: seq<T>, n: nat, x: T)
    ensures LastN(LastN(s, n) + [x], n) == LastN(s + [x], n)
  {
  }

  /** Whole offers and receives in any order. */
  datatype Act<T> = Whole(pkt: T) | Receive

  function Perform<T>(q: Queue<T>, a: Act<T>): Queue<T> {
    match a
    case Whole(x) => Do(Do(Do(q, Try(x)), Evict), Retry)
    case Receive => Do(q, Take)
  }

  function PerformAll<T>(q: Queue<T>, acts: seq<Act<T>>): Queue<T>
    decreases |acts|
  {
    if acts == [] then q else PerformAll(Perform(q, acts[0]), acts[1..])
  }

  /** The single steps of whole offers and receives. */
  function Steps<T>(acts: seq<Act<T>>): seq<Micro<T>>
    decreases |acts|
  {
    if acts == [] then []
    else if acts[0].Whole? then [Try(acts[0].pkt), Evict, Retry] + Steps(acts[1..])
    else [Take] + Steps(acts[1..])
  }

  lemma {:induction false} ExecOfBoth<T>(q: Queue<T>, ms: seq<Micro<T>>, ms': seq<Micro<T>>)
    ensures Exec(q, ms + ms') == Exec(Exec(q, ms), ms')
    decreases |ms|
  {
    if ms == [] {
      assert ms + ms' == ms';
    } else {
      assert (ms + ms')[1..] == ms[1..] + ms';
      ExecOfBoth(Do(q, ms[0]), ms[1..], ms');
    }
  }

  /** Whole offers and receives are runs of the queue, and each offer counts. */
  lemma {:induction false} PerformingIsARun<T>(q: Queue<T>, acts: seq<Act<T>>)
    ensures PerformAll(q, acts) == Exec(q, Steps(acts))
    decreases |acts|
  {
    if acts != [] {
      PerformingIsARun(Perform(q, acts[0]), acts[1..]);
      if acts[0].Whole? {
        var x := acts[0].pkt;
        ExecOfBoth(q, [Try(x), Evict, Retry], Steps(acts[1..]));
        assert Exec(q, [Try(x), Evict, Retry]) == Perform(q, acts[0]) by {
          var ms: seq<Micro<T>> := [Try(x), Evict, Retry];
          assert ms[1..] == [Evict, Retry] && ms[1..][1..] == [Retry] && ms[1..][1..][1..] == [];
          assert Exec(Do(q, Try(x)), ms[1..]) == Exec(Do(Do(q, Try(x)), Evict), [Retry]);
        }
      } else {
        ExecOfBoth(q, [Take], Steps(acts[1..]));
        var ms: seq<Micro<T>> := [Take];
        assert ms[1..] == [];
      }
    }
  }

  /** The queue holds the newest packets offered, with none missing between them. */
  ghost predicate HoldsNewest<T>(q: Queue<T>) {
    && q.sender.Idle?
    && 0 < q.cap && |q.buf| <= q.cap && |q.buf| <= |q.offered|
    && q.buf == q.offered[|q.offered| - |q.buf|..]
  }

  lemma {:induction false} WholeOffersHoldNewest<T>(q: Queue<T>, acts: seq<Act<T>>)
    requires HoldsNewest(q)
    ensures HoldsNewest(PerformAll(q, acts))
    decreases |acts|
  {
    if acts != [] {
      if acts[0].Whole? {
        ThreeStepsAreAnOffer(q, acts[0].pkt);
        if q.buf != [] {
          assert (q.buf + [acts[0].pkt])[1..] == q.buf[1..] + [acts[0].pkt];
        }
      }
      WholeOffersHoldNewest(Perform(q, acts[0]), acts[1..]);
    }
  }

  /** A packet is thrown out only when `cap` newer ones have been offered: all that the queue then holds. */
  lemma EvictedIsOutnumbered<T>(q: Queue<T>, x: T)
    requires HoldsNewest(q) && Perform(q, Whole(x)).evicted > q.evicted
    ensures
      var q' := Perform(q, Whole(x));
      var at := |q'.offered| - 1 - q.cap;
      at >= 0 && q'.offered[at] == q.buf[0] && q'.buf == q'.offered[at + 1..] && |q'.buf| == q.cap
  {
    ThreeStepsAreAnOffer(q, x);
  }

}
