/**
 One topic's packet path as a transition system (pkg/topic/topic.go: PublishPacket, dispatcher, Close and
 the subscriber map), with every channel operation and every lock acquisition a step of its own.

 One goroutine publishes, one dispatches; subscribers join, leave and dequeue whenever they like.
 The dispatcher holds the topic's read lock while it fans a packet out, so joining, leaving and closing
 wait for it; between receiving a packet and taking the lock it does not hold it.
 */
module Pipeline {

  import opened Option
  import opened Subsequence
  import opened DropOldest

  type Id = string

  datatype Dispatcher<T> =
    | Resting
    | Holding(pkt: T)                                        // received, lock not yet taken
    | Fanning(pkt: T, todo: set<Id>, busy: Option<Id>)       // under the lock

  /** A subscriber's queue, and how many packets had been dispatched when it joined. */
  datatype Member<T> = Member(queue: Queue<T>, joined: nat)

  /** `checked` is the packet of a publisher that has seen the topic open and not yet tried to send. */
  datatype Pipe<T> = Pipe(inbound: Queue<T>, checked: Option<T>, closed: bool, panicked: bool,
                          fan: Dispatcher<T>, subs: map<Id, Member<T>>, dispatched: seq<T>)

  datatype Event<T> =
    | Check(pkt: T) | TryIn | EvictIn | RetryIn              // PublishPacket
    | ReceiveIn | Lock | TrySub(id: Id) | EvictSub | RetrySub | Unlock   // dispatcher
    | Join(id: Id, cap: nat) | Leave(id: Id) | Dequeue(id: Id) | Close

  function NewPipe<T>(cap: nat): Pipe<T> {
    Pipe(Empty(cap), None, false, false, Resting, map[], [])
  }

  function OnSub<T>(p: Pipe<T>, id: Id, m: Micro<T>): Pipe<T>
    requires id in p.subs
  {
    p.(subs := p.subs[id := p.subs[id].(queue := Do(p.subs[id].queue, m))])
  }

  /** Sending on a closed channel ends the process. */
  function SendIn<T>(p: Pipe<T>, m: Micro<T>): Pipe<T> {
    if p.closed then p.(panicked := true) else p.(inbound := Do(p.inbound, m), checked := None)
  }

  /** One step; a step that is not possible in this state changes nothing. */
  function Step<T>(p: Pipe<T>, e: Event<T>): Pipe<T> {
    if p.panicked then p else
    match e
    case Check(x) =>
      if p.checked.None? && p.inbound.sender.Idle? && !p.closed then p.(checked := Some(x)) else p
    case TryIn =>
      if p.checked.Some? then SendIn(p, Try(p.checked.value)) else p
    case EvictIn =>
      p.(inbound := Do(p.inbound, Evict))
    case RetryIn =>
      if p.inbound.sender.Retrying? then SendIn(p, Retry) else p
    case ReceiveIn =>
      if p.fan.Resting? && p.inbound.buf != [] then
        p.(fan := Holding(p.inbound.buf[0]), inbound := Do(p.inbound, Take))
      else p
    case Lock =>
      if p.fan.Holding? then
        p.(fan := Fanning(p.fan.pkt, p.subs.Keys, None), dispatched := p.dispatched + [p.fan.pkt])
      else p
    case TrySub(id) =>
      if p.fan.Fanning? && p.fan.busy.None? && id in p.fan.todo && id in p.subs then
        var q := OnSub(p, id, Try(p.fan.pkt));
        q.(fan := p.fan.(todo := p.fan.todo - {id}, busy := if q.subs[id].queue.sender.Idle? then None else Some(id)))
      else p
    case EvictSub =>
      if p.fan.Fanning? && p.fan.busy.Some? && p.fan.busy.value in p.subs then
        OnSub(p, p.fan.busy.value, Evict)
      else p
    case RetrySub =>
      if p.fan.Fanning? && p.fan.busy.Some? && p.fan.busy.value in p.subs
         && p.subs[p.fan.busy.value].queue.sender.Retrying? then
        OnSub(p, p.fan.busy.value, Retry).(fan := p.fan.(busy := None))
      else p
    case Unlock =>
      if p.fan.Fanning? && p.fan.busy.None? && p.fan.todo == {} then p.(fan := Resting) else p
    case Join(id, cap) =>
      if p.fan.Fanning? then p else p.(subs := p.subs[id := Member(Empty(cap), |p.dispatched|)])
    case Leave(id) =>
      if p.fan.Fanning? then p else p.(subs := p.subs - {id})
    case Dequeue(id) =>
      if id in p.subs then OnSub(p, id, Take) else p
    case Close =>
      if p.fan.Fanning? || p.closed then p else p.(closed := true, subs := map[])
  }

  function Run<T>(p: Pipe<T>, es: seq<Event<T>>): Pipe<T>
    decreases |es|
  {
    if es == [] then p else Run(Step(p, es[0]), es[1..])
  }

  // ---------- What every step keeps ----------

  /** The part of the dispatcher's current packet that it still owes to a member. */
  function HeldBack<T>(fan: Dispatcher<T>, id: Id): seq<T> {
    if fan.Fanning? && id in fan.todo then [fan.pkt] else []
  }

  ghost predicate InboundInv<T>(p: Pipe<T>) {
    && DropOldest.Inv(p.inbound)
    && (p.checked.Some? ==> p.inbound.sender.Idle?)
    && p.inbound.taken == p.dispatched + (if p.fan.Holding? then [p.fan.pkt] else [])
  }

  /** The member's queue has been offered exactly what was dispatched since it joined and is not held back. */
  ghost predicate MemberInv<T>(m: Member<T>, id: Id, fan: Dispatcher<T>, dispatched: seq<T>) {
    && DropOldest.Inv(m.queue)
    && m.joined <= |dispatched|
    && m.queue.offered + HeldBack(fan, id) == dispatched[m.joined..]
    && (!m.queue.sender.Idle? ==> fan.Fanning? && fan.busy == Some(id))
  }

  ghost predicate MembersInv<T>(p: Pipe<T>) {
    forall id :: id in p.subs ==> MemberInv(p.subs[id], id, p.fan, p.dispatched)
  }

  ghost predicate FanInv<T>(p: Pipe<T>) {
    p.fan.Fanning? ==>
      && p.fan.todo <= p.subs.Keys
      && (p.fan.busy.Some? ==> p.fan.busy.value in p.subs && p.fan.busy.value !in p.fan.todo)
  }

  ghost predicate Inv<T>(p: Pipe<T>) {
    InboundInv(p) && MembersInv(p) && FanInv(p)
  }

  lemma NewPipeInv<T>(cap: nat)
    ensures Inv(NewPipe<T>(cap))
  {
    EmptyInv<T>(cap);
  }

  lemma StepKeepsInbound<T>(p: Pipe<T>, e: Event<T>)
    requires InboundInv(p)
    ensures InboundInv(Step(p, e))
  {
    if e.TryIn? && p.checked.Some? {
      StepKeepsInv(p.inbound, Try(p.checked.value));
    } else if e.EvictIn? {
      StepKeepsInv(p.inbound, Evict);
    } else if e.RetryIn? {
      StepKeepsInv(p.inbound, Retry);
    } else if e.ReceiveIn? {
      StepKeepsInv(p.inbound, Take);
    }
  }

  lemma StepKeepsFan<T>(p: Pipe<T>, e: Event<T>)
    requires FanInv(p)
    ensures FanInv(Step(p, e))
  {
  }

  /** The member's queue takes the packet held back for it, or goes on with the one in its sender's hand. */
  lemma QueueStepKeepsMember<T>(m: Member<T>, id: Id, fan: Dispatcher<T>, fan': Dispatcher<T>, dispatched: seq<T>,
                                step: Micro<T>)
    requires MemberInv(m, id, fan, dispatched)
    requires step.Try? ==> fan.Fanning? && HeldBack(fan, id) == [step.pkt] && m.queue.sender.Idle?
    requires step.Try? ==> HeldBack(fan', id) == []
    requires !step.Try? ==> HeldBack(fan', id) == HeldBack(fan, id)
    requires Do(m.queue, step).sender.Idle? || (fan'.Fanning? && fan'.busy == Some(id))
    ensures MemberInv(m.(queue := Do(m.queue, step)), id, fan', dispatched)
  {
    StepKeepsInv(m.queue, step);
  }

  /** A member that the step does not touch. */
  lemma OtherMembersKept<T>(m: Member<T>, id: Id, fan: Dispatcher<T>, fan': Dispatcher<T>, dispatched: seq<T>)
    requires MemberInv(m, id, fan, dispatched)
    requires HeldBack(fan', id) == HeldBack(fan, id)
    requires m.queue.sender.Idle? || (fan'.Fanning? && fan'.busy == Some(id))
    ensures MemberInv(m, id, fan', dispatched)
  {
  }

  lemma LockKeepsMember<T>(m: Member<T>, id: Id, fan: Dispatcher<T>, ids: set<Id>, dispatched: seq<T>)
    requires MemberInv(m, id, fan, dispatched) && fan.Holding? && id in ids
    ensures MemberInv(m, id, Fanning(fan.pkt, ids, None), dispatched + [fan.pkt])
  {
    assert (dispatched + [fan.pkt])[m.joined..] == dispatched[m.joined..] + [fan.pkt];
    assert m.queue.offered + [] == m.queue.offered;
  }

  ghost predicate MemberOf<T>(p: Pipe<T>, id: Id)
    requires id in p.subs
  {
    MemberInv(p.subs[id], id, p.fan, p.dispatched)
  }

  lemma TrySubKeepsMember<T>(p: Pipe<T>, who: Id, id: Id)
    requires MembersInv(p) && FanInv(p) && id in Step(p, TrySub(who)).subs
    ensures MemberOf(Step(p, TrySub(who)), id)
  {
    var p' := Step(p, TrySub(who));
    assert MemberOf(p, id);
    if p' != p {
      if who == id {
        QueueStepKeepsMember(p.subs[id], id, p.fan, p'.fan, p.dispatched, Try(p.fan.pkt));
      } else {
        OtherMembersKept(p.subs[id], id, p.fan, p'.fan, p.dispatched);
      }
    }
  }

  lemma BusyStepKeepsMember<T>(p: Pipe<T>, e: Event<T>, id: Id)
    requires MembersInv(p) && FanInv(p) && (e.EvictSub? || e.RetrySub?) && id in Step(p, e).subs
    ensures MemberOf(Step(p, e), id)
  {
    var p' := Step(p, e);
    assert MemberOf(p, id);
    if p' != p {
      if p.fan.busy == Some(id) {
        QueueStepKeepsMember(p.subs[id], id, p.fan, p'.fan, p.dispatched, if e.EvictSub? then Evict else Retry);
      } else {
        OtherMembersKept(p.subs[id], id, p.fan, p'.fan, p.dispatched);
      }
    }
  }

  lemma DequeueKeepsMember<T>(p: Pipe<T>, who: Id, id: Id)
    requires MembersInv(p) && id in Step(p, Dequeue(who)).subs
    ensures MemberOf(Step(p, Dequeue(who)), id)
  {
    assert MemberOf(p, id);
    if who == id && !p.panicked {
      QueueStepKeepsMember(p.subs[id], id, p.fan, p.fan, p.dispatched, Take);
    }
  }

  lemma JoinKeepsMember<T>(p: Pipe<T>, who: Id, cap: nat, id: Id)
    requires MembersInv(p) && id in Step(p, Join(who, cap)).subs
    ensures MemberOf(Step(p, Join(who, cap)), id)
  {
    if id in p.subs {
      assert MemberOf(p, id);
    }
    EmptyInv<T>(cap);
    assert p.dispatched[|p.dispatched|..] == [];
  }

  lemma StepKeepsMember<T>(p: Pipe<T>, e: Event<T>, id: Id)
    requires MembersInv(p) && FanInv(p) && id in Step(p, e).subs
    ensures MemberOf(Step(p, e), id)
  {
    if e.TrySub? {
      TrySubKeepsMember(p, e.id, id);
    } else if e.EvictSub? || e.RetrySub? {
      BusyStepKeepsMember(p, e, id);
    } else if e.Dequeue? {
      DequeueKeepsMember(p, e.id, id);
    } else if e.Join? {
      JoinKeepsMember(p, e.id, e.cap, id);
    } else {
      var p' := Step(p, e);
      assert MemberOf(p, id) && p'.subs[id] == p.subs[id];
      if e.Lock? && p' != p {
        LockKeepsMember(p.subs[id], id, p.fan, p.subs.Keys, p.dispatched);
      } else {
        OtherMembersKept(p.subs[id], id, p.fan, p'.fan, p.dispatched);
      }
    }
  }

  lemma StepKeepsPipe<T>(p: Pipe<T>, e: Event<T>)
    requires Inv(p)
    ensures Inv(Step(p, e))
  {
    StepKeepsInbound(p, e);
    StepKeepsFan(p, e);
    forall id | id in Step(p, e).subs
      ensures MemberOf(Step(p, e), id)
    {
      StepKeepsMember(p, e, id);
    }
  }

  lemma {:induction false} EveryRunKeepsPipe<T>(p: Pipe<T>, es: seq<Event<T>>)
    requires Inv(p)
    ensures Inv(Run(p, es))
    decreases |es|
  {
    if es != [] {
      StepKeepsPipe(p, es[0]);
      EveryRunKeepsPipe(Step(p, es[0]), es[1..]);
    }
  }

  // ---------- What is published ----------

  /** The publisher's packet that has passed the closed check and is still to be sent, told from the events. */
  function Pending<T>(p: Pipe<T>, pending: Option<T>, e: Event<T>): Option<T> {
    if p.panicked || p.closed then pending
    else
      match e
      case Check(x) => if pending.None? && p.inbound.sender.Idle? then Some(x) else pending
      case TryIn => None
      case _ => pending
  }

  function SentNow<T>(p: Pipe<T>, pending: Option<T>, e: Event<T>): seq<T> {
    if p.panicked || p.closed || !e.TryIn? || pending.None? then [] else [pending.value]
  }

  /** The packets that the publisher checked and then sent, in order. */
  function PublishedBy<T>(p: Pipe<T>, pending: Option<T>, es: seq<Event<T>>): seq<T>
    decreases |es|
  {
    if es == [] then []
    else SentNow(p, pending, es[0]) + PublishedBy(Step(p, es[0]), Pending(p, pending, es[0]), es[1..])
  }

  lemma StepOffersWhatIsSent<T>(p: Pipe<T>, e: Event<T>)
    requires p.checked.Some? ==> p.inbound.sender.Idle?
    ensures
      var p' := Step(p, e);
      && p'.inbound.offered == p.inbound.offered + SentNow(p, p.checked, e)
      && (!p'.panicked ==> p'.checked == Pending(p, p.checked, e))
      && (p'.checked.Some? ==> p'.inbound.sender.Idle?)
  {
  }

  lemma PanickedPublishesNothing<T>(p: Pipe<T>, pending: Option<T>, e: Event<T>)
    requires p.panicked
    ensures Step(p, e) == p && SentNow(p, pending, e) == []
  {
  }

  /** What the inbound channel was offered is what was published, packet by packet. */
  lemma {:induction false} OfferedIsPublished<T>(p: Pipe<T>, pending: Option<T>, es: seq<Event<T>>)
    requires p.checked.Some? ==> p.inbound.sender.Idle?
    requires !p.panicked ==> pending == p.checked
    ensures Run(p, es).inbound.offered == p.inbound.offered + PublishedBy(p, pending, es)
    decreases |es|
  {
    if es != [] {
      if p.panicked {
        PanickedPublishesNothing(p, pending, es[0]);
      } else {
        StepOffersWhatIsSent(p, es[0]);
      }
      OfferedIsPublished(Step(p, es[0]), Pending(p, pending, es[0]), es[1..]);
    }
  }

  /** The packets published in a run from the start. */
  function Published<T>(cap: nat, es: seq<Event<T>>): seq<T> {
    PublishedBy(NewPipe(cap), None, es)
  }

  lemma RunOfCons<T>(p: Pipe<T>, e: Event<T>, es: seq<Event<T>>)
    ensures Run(p, [e] + es) == Run(Step(p, e), es)
  {
    assert ([e] + es)[1..] == es;
  }

  lemma RunOfTwo<T>(p: Pipe<T>, a: Event<T>, b: Event<T>)
    ensures Run(p, [a, b]) == Step(Step(p, a), b)
  {
    RunOfCons(p, a, [b]);
    RunOfCons(Step(p, a), b, []);
    assert [a] + [b] == [a, b] && [b] + [] == [b];
  }

  lemma {:induction false} RunOfBoth<T>(p: Pipe<T>, es: seq<Event<T>>, es': seq<Event<T>>)
    ensures Run(p, es + es') == Run(Run(p, es), es')
    decreases |es|
  {
    if es == [] {
      assert es + es' == es';
    } else {
      assert es + es' == [es[0]] + (es[1..] + es') && es == [es[0]] + es[1..];
      RunOfCons(p, es[0], es[1..] + es');
      RunOfCons(p, es[0], es[1..]);
      RunOfBoth(Step(p, es[0]), es[1..], es');
    }
  }

  /** One whole call of PublishPacket. */
  function Publishing<T>(x: T): seq<Event<T>> {
    [Check(x), TryIn] + [EvictIn, RetryIn]
  }

  lemma PublishOffers<T>(p: Pipe<T>, x: T)
    requires !p.panicked && !p.closed && p.checked.None? && p.inbound.sender.Idle?
    ensures Run(p, Publishing(x)) == p.(inbound := Do(Do(Do(p.inbound, Try(x)), Evict), Retry))
  {
    RunOfBoth(p, [Check(x), TryIn], [EvictIn, RetryIn]);
    RunOfTwo(p, Check(x), TryIn);
    RunOfTwo(Step(Step(p, Check(x)), TryIn), EvictIn, RetryIn);
  }

  /**
   In every state of every run in which the topic is open and no publish is under way, publishing a packet puts it into
   the inbound channel behind the newest ones that still fit, and does nothing else.
   */
  lemma PublishedPacketIsQueued<T>(cap: nat, es: seq<Event<T>>, x: T)
    requires
      var p := Run(NewPipe<T>(cap), es);
      !p.panicked && !p.closed && p.checked.None? && p.inbound.sender.Idle?
    ensures
      var p, p' := Run(NewPipe<T>(cap), es), Run(NewPipe<T>(cap), es + Publishing(x));
      && p'.inbound.buf == LastN(p.inbound.buf + [x], p.inbound.cap)
      && p'.inbound.offered == p.inbound.offered + [x] && p'.inbound.sender.Idle? && p'.checked.None?
      && p' == p.(inbound := p'.inbound)
  {
    NewPipeInv<T>(cap);
    EveryRunKeepsPipe(NewPipe<T>(cap), es);
    RunOfBoth(NewPipe<T>(cap), es, Publishing(x));
    PublishOffers(Run(NewPipe<T>(cap), es), x);
    ThreeStepsAreAnOffer(Run(NewPipe<T>(cap), es).inbound, x);
  }

  /** A dispatcher at rest takes the oldest packet, and it counts as dispatched from when the lock is taken. */
  lemma OldestPacketIsDispatched<T>(p: Pipe<T>)
    requires !p.panicked && p.fan.Resting? && p.inbound.buf != []
    ensures
      var p', x := Run(p, [ReceiveIn, Lock]), p.inbound.buf[0];
      && p'.dispatched == p.dispatched + [x] && p'.fan == Fanning(x, p.subs.Keys, None)
      && p'.inbound.buf == p.inbound.buf[1..] && p'.subs == p.subs
      && p'.closed == p.closed && !p'.panicked
  {
    RunOfTwo(p, ReceiveIn, Lock);
  }

  /** A subscriber that dequeues n times gets the n oldest packets of its queue, in order. */
  lemma {:induction false} DequeuesHandOutInOrder<T>(p: Pipe<T>, id: Id, n: nat)
    requires !p.panicked && id in p.subs && n <= |p.subs[id].queue.buf|
    ensures
      var p' := Run(p, seq(n, _ => Dequeue(id)));
      && id in p'.subs && p'.subs[id].queue.buf == p.subs[id].queue.buf[n..]
      && p'.subs[id].queue.taken == p.subs[id].queue.taken + p.subs[id].queue.buf[..n]
    decreases n
  {
    if n > 0 {
      var q := p.subs[id].queue;
      assert seq(n, _ => Event<T>.Dequeue(id)) == [Dequeue(id)] + seq(n - 1, _ => Dequeue(id));
      RunOfCons(p, Dequeue(id), seq(n - 1, _ => Dequeue(id)));
      DequeuesHandOutInOrder(Step(p, Dequeue(id)), id, n - 1);
      assert q.buf[..n] == [q.buf[0]] + q.buf[1..][..n - 1];
      assert q.taken + [q.buf[0]] + q.buf[1..][..n - 1] == q.taken + ([q.buf[0]] + q.buf[1..][..n - 1]);
    }
  }

  // ---------- What a subscriber sees ----------

  /** What was dispatched since a subscriber joined. */
  function Since<T>(p: Pipe<T>, id: Id): seq<T>
    requires id in p.subs && p.subs[id].joined <= |p.dispatched|
  {
    p.dispatched[p.subs[id].joined..]
  }

  lemma MemberSeesASelection<T>(m: Member<T>, id: Id, fan: Dispatcher<T>, dispatched: seq<T>)
    requires MemberInv(m, id, fan, dispatched)
    ensures Sub(m.queue.taken + m.queue.buf, dispatched[m.joined..])
  {
    var q := m.queue;
    SubOfPrefix(q.taken + q.buf, InHand(q), q.offered);
    if HeldBack(fan, id) == [] {
      assert q.offered + [] == q.offered;
    } else {
      SubGrowsRight(q.taken + q.buf, q.offered, fan.pkt);
    }
  }

  lemma DispatchedIsASelection<T>(p: Pipe<T>)
    requires InboundInv(p)
    ensures Sub(p.dispatched, p.inbound.offered)
  {
    var q := p.inbound;
    assert q.taken + q.buf + InHand(q) == q.taken + (q.buf + InHand(q));
    SubOfPrefix(q.taken, q.buf + InHand(q), q.offered);
    SubOfPrefix(p.dispatched, if p.fan.Holding? then [p.fan.pkt] else [], q.offered);
  }

  /**
   After any interleaving, what a subscriber has dequeued followed by its queue is a selection, in order and
   without repetition, of the packets dispatched since it joined; those are a selection of the packets published,
   and so what the subscriber sees is one too.
   */
  lemma SubscriberSeesASelection<T>(cap: nat, es: seq<Event<T>>, id: Id)
    requires id in Run(NewPipe<T>(cap), es).subs
    ensures
      var p := Run(NewPipe<T>(cap), es);
      && p.subs[id].joined <= |p.dispatched|
      && Sub(p.subs[id].queue.taken + p.subs[id].queue.buf, Since(p, id))
      && Sub(p.dispatched, Published(cap, es))
      && Sub(p.subs[id].queue.taken + p.subs[id].queue.buf, Published(cap, es))
  {
    NewPipeInv<T>(cap);
    EveryRunKeepsPipe(NewPipe<T>(cap), es);
    var p := Run(NewPipe<T>(cap), es);
    var seen := p.subs[id].queue.taken + p.subs[id].queue.buf;
    OfferedIsPublished(NewPipe<T>(cap), None, es);
    assert p.inbound.offered == Published(cap, es);
    MemberSeesASelection(p.subs[id], id, p.fan, p.dispatched);
    DispatchedIsASelection(p);
    SuffixIsSub(p.dispatched, p.subs[id].joined);
    SubTrans(seen, Since(p, id), p.dispatched);
    SubTrans(seen, p.dispatched, p.inbound.offered);
  }

  /** Packets of the current fan-out that have not reached the member, or are on their way into its queue. */
  function InFlight<T>(p: Pipe<T>, id: Id): nat
    requires id in p.subs
  {
    |HeldBack(p.fan, id)| + |InHand(p.subs[id].queue)|
  }

  /** No packet vanishes, on either stage, and with room for one packet none is ever refused. */
  lemma PacketsAreConserved<T>(cap: nat, es: seq<Event<T>>, id: Id)
    ensures
      var p := Run(NewPipe<T>(cap), es);
      && |Published(cap, es)| - p.inbound.rejected - |InHand(p.inbound)|
         == |p.dispatched| + (if p.fan.Holding? then 1 else 0) + |p.inbound.buf| + p.inbound.evicted
      && (p.inbound.cap > 0 ==> p.inbound.rejected == 0)
      && (id in p.subs ==>
            var q := p.subs[id].queue;
            && p.subs[id].joined <= |p.dispatched|
            && |Since(p, id)| == |q.taken| + |q.buf| + q.evicted + q.rejected + InFlight(p, id)
            && |q.buf| <= q.cap
            && (q.cap > 0 ==> q.rejected == 0))
  {
    NewPipeInv<T>(cap);
    OfferedIsPublished(NewPipe<T>(cap), None, es);
    EveryRunKeepsPipe(NewPipe<T>(cap), es);
    var p := Run(NewPipe<T>(cap), es);
    if id in p.subs {
      assert MemberInv(p.subs[id], id, p.fan, p.dispatched);
    }
  }

  // ---------- Closing while a packet is being published ----------

  /** A publisher that is past its closed check and has not finished. */
  predicate MidPublish<T>(p: Pipe<T>) {
    p.checked.Some? || !p.inbound.sender.Idle?
  }

  ghost predicate CalmAfterClose<T>(p: Pipe<T>) {
    !p.panicked && (p.closed ==> !MidPublish(p))
  }

  /** A send hits a closed channel only if the topic closed between a publisher's check and its send. */
  lemma {:induction false} NoPanicUnlessClosedMidPublish<T>(p: Pipe<T>, es: seq<Event<T>>)
    requires CalmAfterClose(p)
    requires forall k :: 0 <= k < |es| && es[k].Close? ==> !MidPublish(Run(p, es[..k]))
    ensures CalmAfterClose(Run(p, es))
    decreases |es|
  {
    if es != [] {
      var p', rest := Step(p, es[0]), es[1..];
      assert es[..0] == [] && (es[0].Close? ==> !MidPublish(Run(p, es[..0])));
      forall k | 0 <= k < |rest| && rest[k].Close?
        ensures !MidPublish(Run(p', rest[..k]))
      {
        assert es[k + 1] == rest[k] && es[..k + 1][0] == es[0] && es[..k + 1][1..] == rest[..k];
      }
      NoPanicUnlessClosedMidPublish(p', rest);
    }
  }

  /** The event makes the publisher send, or try to. */
  predicate Sends<T>(p: Pipe<T>, e: Event<T>) {
    (e.TryIn? && p.checked.Some?) || (e.RetryIn? && p.inbound.sender.Retrying?)
  }

  predicate SendsLater<T>(p: Pipe<T>, es: seq<Event<T>>)
    decreases |es|
  {
    es != [] && (Sends(p, es[0]) || SendsLater(Step(p, es[0]), es[1..]))
  }

  /** The topic closes under a publisher that is between its check and its last send, and that publisher goes on. */
  predicate ClosesMidPublishAndSends<T>(p: Pipe<T>, es: seq<Event<T>>)
    decreases |es|
  {
    es != []
    && if es[0].Close? && MidPublish(p) && Step(p, Close).closed then SendsLater(Step(p, Close), es[1..])
       else ClosesMidPublishAndSends(Step(p, es[0]), es[1..])
  }

  lemma {:induction false} PanicIsForever<T>(p: Pipe<T>, es: seq<Event<T>>)
    requires p.panicked
    ensures Run(p, es).panicked
    decreases |es|
  {
    if es != [] {
      PanicIsForever(Step(p, es[0]), es[1..]);
    }
  }

  lemma {:induction false} ClosedPanicsIffSends<T>(p: Pipe<T>, es: seq<Event<T>>)
    requires p.closed && !p.panicked
    ensures Run(p, es).panicked <==> SendsLater(p, es)
    decreases |es|
  {
    if es != [] {
      if Sends(p, es[0]) {
        PanicIsForever(Step(p, es[0]), es[1..]);
      } else {
        ClosedPanicsIffSends(Step(p, es[0]), es[1..]);
      }
    }
  }

  /** A run ends the process exactly if the topic closes between a publisher's check and its send, and it sends. */
  lemma {:induction false} PanicsIffClosedMidPublish<T>(p: Pipe<T>, es: seq<Event<T>>)
    requires CalmAfterClose(p)
    ensures Run(p, es).panicked <==> ClosesMidPublishAndSends(p, es)
    decreases |es|
  {
    if es != [] {
      if es[0].Close? && MidPublish(p) && Step(p, Close).closed {
        ClosedPanicsIffSends(Step(p, Close), es[1..]);
      } else {
        PanicsIffClosedMidPublish(Step(p, es[0]), es[1..]);
      }
    }
  }

  /** After a close between a publisher's check and its last send, the publisher's next send ends the process. */
  lemma ClosedMidPublishPanics<T>(p: Pipe<T>)
    requires !p.panicked && p.closed && MidPublish(p) && (p.checked.Some? ==> p.inbound.sender.Idle?)
    ensures Run(p, [TryIn, EvictIn, RetryIn]).panicked
  {
    var es: seq<Event<T>> := [TryIn, EvictIn, RetryIn];
    assert es[1..] == [EvictIn, RetryIn] && es[1..][1..] == [RetryIn] && es[1..][1..][1..] == [];
    var p1 := Step(p, TryIn);
    var p2 := Step(p1, EvictIn);
    var p3 := Step(p2, RetryIn);
    assert Run(p2, [RetryIn]) == Run(p3, []);
    assert Run(p1, [EvictIn, RetryIn]) == Run(p2, [RetryIn]);
  }

  /** Such a close can happen: nothing holds the topic open between the check and the send. */
  lemma CloseMidPublishIsReachable<T>(cap: nat, x: T)
    ensures
      var p := Run(NewPipe<T>(cap), [Check(x), Close]);
      !p.panicked && p.closed && MidPublish(p)
  {
    var es: seq<Event<T>> := [Check(x), Close];
    var p1 := Step(NewPipe<T>(cap), Check(x));
    assert es[1..] == [Close] && es[1..][1..] == [];
    assert Run(p1, [Close]) == Run(Step(p1, Close), []);
  }

}
