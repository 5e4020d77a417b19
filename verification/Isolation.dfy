/**
 Subscribers of one topic do not disturb each other (the fan-out loop of pkg/topic/topic.go). What is in a
 subscriber's queue follows from its capacity, the packets dispatched since it joined and the moments of its own
 dequeues; and the dispatcher always gets through a fan-out by itself, however full the queues are.
 */
module Isolation {

  import opened Option
  import opened DropOldest
  import opened Pipeline

  // ---------- Replaying one queue ----------

  /** Where the sender of a queue stands in the offer of the latest packet. */
  datatype Stage = BeforeEvict | BeforeRetry | Settled

  /** A moment in the life of a queue: how many packets it was offered so far, and the stage of the last offer. */
  datatype Moment = Moment(offers: nat, stage: Stage)

  function StageOf<T>(q: Queue<T>): Stage {
    match q.sender
    case Evicting(_) => BeforeEvict
    case Retrying(_) => BeforeRetry
    case Idle => Settled
  }

  function Now<T>(q: Queue<T>): Moment {
    Moment(|q.offered|, StageOf(q))
  }

  function Rank(stage: Stage): nat {
    match stage
    case BeforeEvict => 0
    case BeforeRetry => 1
    case Settled => 2
  }

  predicate NotAfter(a: Moment, b: Moment) {
    a.offers < b.offers || (a.offers == b.offers && Rank(a.stage) <= Rank(b.stage))
  }

  function TakeN<T>(q: Queue<T>, n: nat): Queue<T> {
    if n == 0 then q else Do(TakeN(q, n - 1), Take)
  }

  /**
   The queue of the given capacity that is offered xs, one packet after the other, and read at the moments in
   `pulls`, when the offer of the last packet has come to the given stage.
   */
  function Replay<T>(cap: nat, xs: seq<T>, pulls: multiset<Moment>, stage: Stage): Queue<T>
    requires xs == [] ==> stage == Settled
    decreases |xs|, Rank(stage)
  {
    var here := pulls[Moment(|xs|, stage)];
    match stage
    case BeforeEvict =>
      TakeN(Do(Replay(cap, xs[..|xs| - 1], pulls, Settled), Try(xs[|xs| - 1])), here)
    case BeforeRetry =>
      TakeN(Do(Replay(cap, xs, pulls, BeforeEvict), Evict), here)
    case Settled =>
      if xs == [] then TakeN(Empty(cap), here)
      else TakeN(Do(Replay(cap, xs, pulls, BeforeRetry), Retry), here)
  }

  /** The queue is what its own offers and reads make of it. */
  ghost predicate IsReplay<T>(q: Queue<T>, pulls: multiset<Moment>) {
    && (forall at :: at in pulls ==> NotAfter(at, Now(q)))
    && (q.offered == [] ==> q.sender.Idle?)
    && q == Replay(q.cap, q.offered, pulls, StageOf(q))
  }

  /** Later reads do not change the past. */
  lemma {:induction false} ReplayIgnoresTheFuture<T>(cap: nat, xs: seq<T>, pulls: multiset<Moment>,
                                                     pulls': multiset<Moment>, stage: Stage)
    requires xs == [] ==> stage == Settled
    requires forall at :: NotAfter(at, Moment(|xs|, stage)) ==> pulls[at] == pulls'[at]
    ensures Replay(cap, xs, pulls, stage) == Replay(cap, xs, pulls', stage)
    decreases |xs|, Rank(stage)
  {
    assert NotAfter(Moment(|xs|, stage), Moment(|xs|, stage));
    match stage
    case BeforeEvict => ReplayIgnoresTheFuture(cap, xs[..|xs| - 1], pulls, pulls', Settled);
    case BeforeRetry => ReplayIgnoresTheFuture(cap, xs, pulls, pulls', BeforeEvict);
    case Settled =>
      if xs != [] {
        ReplayIgnoresTheFuture(cap, xs, pulls, pulls', BeforeRetry);
      }
  }

  lemma TakeReplays<T>(q: Queue<T>, pulls: multiset<Moment>)
    requires IsReplay(q, pulls)
    ensures IsReplay(Do(q, Take), pulls + multiset{Now(q)})
  {
    var xs, now := q.offered, Now(q);
    var pulls' := pulls + multiset{now};
    assert forall at :: at != now ==> pulls'[at] == pulls[at];
    match StageOf(q)
    case BeforeEvict => ReplayIgnoresTheFuture(q.cap, xs[..|xs| - 1], pulls, pulls', Settled);
    case BeforeRetry => ReplayIgnoresTheFuture(q.cap, xs, pulls, pulls', BeforeEvict);
    case Settled =>
      if xs != [] {
        ReplayIgnoresTheFuture(q.cap, xs, pulls, pulls', BeforeRetry);
      }
  }

  lemma TryReplays<T>(q: Queue<T>, x: T, pulls: multiset<Moment>)
    requires IsReplay(q, pulls)
    ensures IsReplay(Do(q, Try(x)), pulls)
  {
    if q.sender.Idle? {
      var q', xs := Do(q, Try(x)), q.offered + [x];
      assert xs[..|xs| - 1] == q.offered;
      assert forall stage :: Moment(|xs|, stage) !in pulls;
      assert Replay(q.cap, xs, pulls, BeforeEvict) == q';
      if q'.sender.Idle? {
        assert Replay(q.cap, xs, pulls, BeforeRetry) == q';
      }
    }
  }

  lemma SendStepReplays<T>(q: Queue<T>, m: Micro<T>, pulls: multiset<Moment>)
    requires IsReplay(q, pulls) && (m.Evict? || m.Retry?)
    ensures IsReplay(Do(q, m), pulls)
  {
    if (m.Evict? && q.sender.Evicting?) || (m.Retry? && q.sender.Retrying?) {
      assert !NotAfter(Now(Do(q, m)), Now(q));
      assert pulls[Now(Do(q, m))] == 0;
    }
  }

  lemma StepReplays<T>(q: Queue<T>, m: Micro<T>, pulls: multiset<Moment>)
    requires IsReplay(q, pulls)
    ensures IsReplay(Do(q, m), if m.Take? then pulls + multiset{Now(q)} else pulls)
  {
    match m
    case Try(x) => TryReplays(q, x, pulls);
    case Take => TakeReplays(q, pulls);
    case _ => SendStepReplays(q, m, pulls);
  }

  lemma NewQueueIsReplay<T>(cap: nat)
    ensures IsReplay(Empty<T>(cap), multiset{})
  {
  }

  // ---------- What a subscriber itself does ----------

  /** Its latest join, with what capacity and after how many dispatched packets, and when it dequeued since. */
  datatype Own = Own(cap: nat, joined: nat, pulls: multiset<Moment>)

  /** The subscriber's account of one step: only its own joining, leaving and dequeueing and the closing count. */
  function Account<T>(p: Pipe<T>, own: Option<Own>, e: Event<T>, id: Id): Option<Own> {
    if p.panicked then own else
    match e
    case Join(who, cap) => if who == id && !p.fan.Fanning? then Some(Own(cap, |p.dispatched|, multiset{})) else own
    case Leave(who) => if who == id && !p.fan.Fanning? then None else own
    case Close => if p.fan.Fanning? || p.closed then own else None
    case Dequeue(who) =>
      if who == id && own.Some? && id in p.subs then
        Some(own.value.(pulls := own.value.pulls + multiset{Now(p.subs[id].queue)}))
      else own
    case _ => own
  }

  function AccountOf<T>(p: Pipe<T>, own: Option<Own>, es: seq<Event<T>>, id: Id): Option<Own>
    decreases |es|
  {
    if es == [] then own else AccountOf(Step(p, es[0]), Account(p, own, es[0], id), es[1..], id)
  }

  ghost predicate AccountInv<T>(p: Pipe<T>, own: Option<Own>, id: Id) {
    && (own.Some? <==> id in p.subs)
    && (own.Some? ==>
          var m := p.subs[id];
          m.queue.cap == own.value.cap && m.joined == own.value.joined && IsReplay(m.queue, own.value.pulls))
  }

  /** The steps of the dispatcher, which the subscriber does not account for. */
  lemma FanOutKeepsAccount<T>(p: Pipe<T>, own: Option<Own>, e: Event<T>, id: Id)
    requires AccountInv(p, own, id) && (e.TrySub? || e.EvictSub? || e.RetrySub?)
    ensures AccountInv(Step(p, e), own, id)
  {
    hide IsReplay;
    if id in p.subs && p.fan.Fanning? {
      StepReplays(p.subs[id].queue, if e.TrySub? then Try(p.fan.pkt) else if e.EvictSub? then Evict else Retry,
                  own.value.pulls);
    }
  }

  lemma StepKeepsAccount<T>(p: Pipe<T>, own: Option<Own>, e: Event<T>, id: Id)
    requires AccountInv(p, own, id)
    ensures AccountInv(Step(p, e), Account(p, own, e, id), id)
  {
    hide IsReplay;
    if e.TrySub? || e.EvictSub? || e.RetrySub? {
      FanOutKeepsAccount(p, own, e, id);
    } else if e.Dequeue? && id in p.subs {
      StepReplays(p.subs[id].queue, Take, own.value.pulls);
    } else if e.Join? {
      NewQueueIsReplay<T>(e.cap);
    }
  }

  lemma {:induction false} EveryRunKeepsAccount<T>(p: Pipe<T>, own: Option<Own>, es: seq<Event<T>>, id: Id)
    requires AccountInv(p, own, id)
    ensures AccountInv(Run(p, es), AccountOf(p, own, es, id), id)
    decreases |es|
  {
    if es != [] {
      StepKeepsAccount(p, own, es[0], id);
      EveryRunKeepsAccount(Step(p, es[0]), Account(p, own, es[0], id), es[1..], id);
    }
  }

  /** The dispatcher owes the subscriber nothing of the packets dispatched so far. */
  predicate UpToDate<T>(p: Pipe<T>, id: Id) {
    p.fan.Fanning? ==> id !in p.fan.todo && p.fan.busy != Some(id)
  }

  /**
   In every run a subscriber is there exactly if its own joining and leaving and the closing say so, and then its
   queue, with everything it ever handed out, is a function of its capacity, of the packets dispatched since it
   joined and of the moments at which it dequeued.
   */
  lemma QueueIsReplayOfOwnEvents<T>(cap: nat, es: seq<Event<T>>, id: Id)
    ensures
      var p := Run(NewPipe<T>(cap), es);
      var own := AccountOf(NewPipe<T>(cap), None, es, id);
      && (id in p.subs <==> own.Some?)
      && (own.Some? ==>
            && p.subs[id].joined == own.value.joined <= |p.dispatched|
            && (UpToDate(p, id) ==>
                  p.subs[id].queue == Replay(own.value.cap, Since(p, id), own.value.pulls, Settled)))
  {
    NewPipeInv<T>(cap);
    EveryRunKeepsPipe(NewPipe<T>(cap), es);
    EveryRunKeepsAccount(NewPipe<T>(cap), None, es, id);
    var p := Run(NewPipe<T>(cap), es);
    if id in p.subs {
      assert MemberInv(p.subs[id], id, p.fan, p.dispatched);
      if UpToDate(p, id) {
        var q := p.subs[id].queue;
        assert q.offered + HeldBack(p.fan, id) == q.offered;
      }
    }
  }

  /**
   Two runs, with any other subscribers doing anything, in any order of fanning out, of any inbound capacity: if
   one subscriber joined with the same capacity, the same packets were dispatched since, and it dequeued at the same
   moments, then it has the same packets in its queue and was handed the same packets.
   */
  lemma FanOutIsolation<T>(cap: nat, es: seq<Event<T>>, cap': nat, es': seq<Event<T>>, id: Id)
    requires id in Run(NewPipe<T>(cap), es).subs && id in Run(NewPipe<T>(cap'), es').subs
    requires UpToDate(Run(NewPipe<T>(cap), es), id) && UpToDate(Run(NewPipe<T>(cap'), es'), id)
    requires
      var own := AccountOf(NewPipe<T>(cap), None, es, id);
      var own' := AccountOf(NewPipe<T>(cap'), None, es', id);
      own.Some? && own'.Some? && own.value.cap == own'.value.cap && own.value.pulls == own'.value.pulls
    requires
      var p, p' := Run(NewPipe<T>(cap), es), Run(NewPipe<T>(cap'), es');
      && p.subs[id].joined <= |p.dispatched| && p'.subs[id].joined <= |p'.dispatched|
      && Since(p, id) == Since(p', id)
    ensures
      var q, q' := Run(NewPipe<T>(cap), es).subs[id].queue, Run(NewPipe<T>(cap'), es').subs[id].queue;
      q.buf == q'.buf && q.taken == q'.taken
  {
    QueueIsReplayOfOwnEvents(cap, es, id);
    QueueIsReplayOfOwnEvents(cap', es', id);
  }

  // ---------- The dispatcher waits for nobody ----------

  /** A step that the dispatcher takes between locking and unlocking. */
  predicate FanStep<T>(e: Event<T>) {
    e.TrySub? || e.EvictSub? || e.RetrySub? || e.Unlock?
  }

  /** How many more steps the fan-out can take at most. */
  function Work<T>(p: Pipe<T>): nat {
    if !p.fan.Fanning? then 0
    else
      1 + 3 * |p.fan.todo|
      + if p.fan.busy.None? || p.fan.busy.value !in p.subs then 0
        else match StageOf(p.subs[p.fan.busy.value].queue)
          case BeforeEvict => 2
          case BeforeRetry => 1
          case Settled => 0
  }

  /** While a packet is fanned out, whoever has the lock in hand is in the middle of an offer. */
  ghost predicate BusyInv<T>(p: Pipe<T>) {
    p.fan.Fanning? && p.fan.busy.Some? ==>
      p.fan.busy.value in p.subs && !p.subs[p.fan.busy.value].queue.sender.Idle?
  }

  lemma StepKeepsBusy<T>(p: Pipe<T>, e: Event<T>)
    requires FanInv(p) && BusyInv(p)
    ensures BusyInv(Step(p, e))
  {
  }

  lemma {:induction false} EveryRunKeepsBusy<T>(p: Pipe<T>, es: seq<Event<T>>)
    requires FanInv(p) && BusyInv(p)
    ensures FanInv(Run(p, es)) && BusyInv(Run(p, es))
    decreases |es|
  {
    if es != [] {
      StepKeepsFan(p, es[0]);
      StepKeepsBusy(p, es[0]);
      EveryRunKeepsBusy(Step(p, es[0]), es[1..]);
    }
  }

  lemma TrySubMakesProgress<T>(p: Pipe<T>, id: Id)
    requires FanInv(p) && Step(p, TrySub(id)) != p
    ensures Work(Step(p, TrySub(id))) < Work(p)
  {
    assert p.fan.todo == (p.fan.todo - {id}) + {id};
  }

  lemma EvictSubMakesProgress<T>(p: Pipe<T>)
    requires FanInv(p) && BusyInv(p)
    ensures Step(p, EvictSub) == p || Work(Step(p, EvictSub)) < Work(p)
  {
    if p.fan.Fanning? && p.fan.busy.Some? && p.subs[p.fan.busy.value].queue.sender.Retrying? {
      assert Step(p, EvictSub).subs == p.subs;
    }
  }

  /** Every step of the fan-out that does anything brings it nearer to its end. */
  lemma FanStepMakesProgress<T>(p: Pipe<T>, e: Event<T>)
    requires FanInv(p) && BusyInv(p) && FanStep(e) && Step(p, e) != p
    ensures Work(Step(p, e)) < Work(p)
  {
    if e.TrySub? {
      TrySubMakesProgress(p, e.id);
    } else if e.EvictSub? {
      EvictSubMakesProgress(p);
    }
  }

  /** A fan-out is never stuck, whatever state the queues are in. */
  lemma FanOutIsNeverStuck<T>(p: Pipe<T>) returns (e: Event<T>)
    requires FanInv(p) && BusyInv(p) && p.fan.Fanning? && !p.panicked
    ensures FanStep(e) && Step(p, e) != p
  {
    if p.fan.busy.Some? {
      e := if p.subs[p.fan.busy.value].queue.sender.Evicting? then EvictSub else RetrySub;
      assert Step(p, e).subs[p.fan.busy.value] != p.subs[p.fan.busy.value];
    } else if p.fan.todo != {} {
      var id :| id in p.fan.todo;
      e := TrySub(id);
    } else {
      e := Unlock;
    }
  }

  /** What the rest of the fan-out makes of a subscriber's queue. */
  function Finished<T>(p: Pipe<T>, id: Id): Queue<T>
    requires id in p.subs
  {
    var q := p.subs[id].queue;
    if !p.fan.Fanning? then q
    else if id in p.fan.todo then Do(Do(Do(q, Try(p.fan.pkt)), Evict), Retry)
    else if p.fan.busy == Some(id) then Do(Do(q, Evict), Retry)
    else q
  }

  lemma FanStepKeepsFinish<T>(p: Pipe<T>, e: Event<T>, id: Id)
    requires FanInv(p) && BusyInv(p) && FanStep(e) && id in p.subs
    requires p.fan.Fanning? && id in p.fan.todo ==> p.subs[id].queue.sender.Idle?
    ensures id in Step(p, e).subs && Finished(Step(p, e), id) == Finished(p, id)
  {
  }

  /** In whatever order the map is walked, a fan-out leaves each queue in the same state. */
  lemma {:induction false} FanOutIgnoresOrder<T>(p: Pipe<T>, es: seq<Event<T>>, id: Id)
    requires FanInv(p) && BusyInv(p) && MembersInv(p) && (forall e :: e in es ==> FanStep(e)) && id in p.subs
    ensures id in Run(p, es).subs && Finished(Run(p, es), id) == Finished(p, id)
    decreases |es|
  {
    if es != [] {
      var e := es[0];
      assert MemberInv(p.subs[id], id, p.fan, p.dispatched);
      FanStepKeepsFinish(p, e, id);
      StepKeepsFan(p, e);
      StepKeepsBusy(p, e);
      FanStepKeepsTheRest(p, e);
      FanStepKeepsMembers(p, e);
      FanOutIgnoresOrder(Step(p, e), es[1..], id);
    }
  }

  lemma FanStepKeepsMembers<T>(p: Pipe<T>, e: Event<T>)
    requires FanInv(p) && MembersInv(p)
    ensures MembersInv(Step(p, e))
  {
    forall id | id in Step(p, e).subs
      ensures MemberOf(Step(p, e), id)
    {
      StepKeepsMember(p, e, id);
    }
  }

  lemma FanStepKeepsTheRest<T>(p: Pipe<T>, e: Event<T>)
    requires FanStep(e)
    ensures
      var p' := Step(p, e);
      && p'.panicked == p.panicked && p'.subs.Keys == p.subs.Keys && p'.dispatched == p.dispatched
      && p'.inbound == p.inbound && (p.fan.Holding? || !p'.fan.Holding?)
  {
  }

  lemma {:induction false} FanOutRunsToItsEnd<T>(p: Pipe<T>) returns (es: seq<Event<T>>)
    requires FanInv(p) && BusyInv(p) && !p.fan.Holding? && !p.panicked
    ensures (forall e :: e in es ==> FanStep(e)) && |es| <= Work(p)
    ensures
      var p' := Run(p, es);
      p'.fan.Resting? && p'.subs.Keys == p.subs.Keys && p'.dispatched == p.dispatched
      && p'.inbound == p.inbound
    decreases Work(p)
  {
    es := [];
    if p.fan.Fanning? {
      var e := FanOutIsNeverStuck(p);
      FanStepMakesProgress(p, e);
      FanStepKeepsTheRest(p, e);
      StepKeepsFan(p, e);
      StepKeepsBusy(p, e);
      var rest := FanOutRunsToItsEnd(Step(p, e));
      es := [e] + rest;
      assert es[1..] == rest;
    }
  }

  /**
   In every run that is in the middle of a fan-out, the dispatcher alone comes to its end in a bounded number of
   steps, whatever state the queues are in, and has then offered every packet to every subscriber.
   */
  lemma FanOutFinishes<T>(cap: nat, es: seq<Event<T>>) returns (rest: seq<Event<T>>)
    requires !Run(NewPipe<T>(cap), es).fan.Holding? && !Run(NewPipe<T>(cap), es).panicked
    ensures forall e :: e in rest ==> FanStep(e)
    ensures |rest| <= Work(Run(NewPipe<T>(cap), es))
    ensures
      var p := Run(NewPipe<T>(cap), es);
      var p' := Run(p, rest);
      && p'.fan.Resting? && p'.subs.Keys == p.subs.Keys && p'.dispatched == p.dispatched
      && (forall id :: id in p.subs ==>
            && p'.subs[id].queue == Finished(p, id) && UpToDate(p', id)
            && p'.subs[id].joined <= |p'.dispatched|
            && p'.subs[id].queue.offered == p'.dispatched[p'.subs[id].joined..])
  {
    NewPipeInv<T>(cap);
    EveryRunKeepsPipe(NewPipe<T>(cap), es);
    EveryRunKeepsBusy(NewPipe<T>(cap), es);
    rest := FanOutRunsToItsEnd(Run(NewPipe<T>(cap), es));
    EveryRunKeepsPipe(Run(NewPipe<T>(cap), es), rest);
    AllAreFinished(Run(NewPipe<T>(cap), es), rest);
  }

  lemma AllAreFinished<T>(p: Pipe<T>, rest: seq<Event<T>>)
    requires Pipeline.Inv(p) && BusyInv(p) && (forall e :: e in rest ==> FanStep(e))
    requires Run(p, rest).fan.Resting? && Run(p, rest).subs.Keys == p.subs.Keys && MembersInv(Run(p, rest))
    ensures forall id :: id in p.subs ==> Run(p, rest).subs[id].queue == Finished(p, id)
  {
    forall id | id in p.subs
      ensures Run(p, rest).subs[id].queue == Finished(p, id)
    {
      FanOutIgnoresOrder(p, rest, id);
    }
  }

  /** From the moment the lock is taken to the end of the fan-out, each subscriber's queue takes one whole offer. */
  lemma FanOutIsAnOfferToEach<T>(p: Pipe<T>) returns (rest: seq<Event<T>>)
    requires Pipeline.Inv(p) && BusyInv(p) && !p.panicked && p.fan.Fanning? && p.fan.todo == p.subs.Keys
    requires p.fan.busy.None?
    ensures
      var p' := Run(p, rest);
      && p'.fan.Resting? && p'.subs.Keys == p.subs.Keys && p'.dispatched == p.dispatched && p'.inbound == p.inbound
      && (forall id :: id in p.subs ==>
            var q, q' := p.subs[id].queue, p'.subs[id].queue;
            q'.buf == LastN(q.buf + [p.fan.pkt], q.cap) && q'.taken == q.taken && q'.cap == q.cap)
  {
    rest := FanOutRunsToItsEnd(p);
    EveryRunKeepsPipe(p, rest);
    AllAreFinished(p, rest);
    forall id | id in p.subs
      ensures
        var q, q' := p.subs[id].queue, Finished(p, id);
        q'.buf == LastN(q.buf + [p.fan.pkt], q.cap) && q'.taken == q.taken && q'.cap == q.cap
    {
      FinishedIsAnOffer(p, id);
    }
  }

  lemma FinishedIsAnOffer<T>(p: Pipe<T>, id: Id)
    requires MembersInv(p) && p.fan.Fanning? && id in p.fan.todo && id in p.subs && p.fan.busy != Some(id)
    ensures
      var q, q' := p.subs[id].queue, Finished(p, id);
      q'.buf == LastN(q.buf + [p.fan.pkt], q.cap) && q'.taken == q.taken && q'.cap == q.cap
  {
    assert MemberInv(p.subs[id], id, p.fan, p.dispatched);
    ThreeStepsAreAnOffer(p.subs[id].queue, p.fan.pkt);
  }

  /** What publisher and dispatcher do with one packet, without anybody in between. */
  function Relaying<T>(x: T, rest: seq<Event<T>>): seq<Event<T>> {
    Publishing(x) + [ReceiveIn, Lock] + rest
  }

  /**
   A packet gets through: in every run in which the topic is open and idle and its inbound channel can hold a packet,
   publishing one and letting the dispatcher work puts it last into every subscriber's queue that can hold one.
   */
  lemma PacketGetsThrough<T>(cap: nat, es: seq<Event<T>>, x: T) returns (rest: seq<Event<T>>)
    requires
      var p := Run(NewPipe<T>(cap), es);
      && !p.panicked && !p.closed && p.checked.None? && p.inbound.sender.Idle? && p.inbound.buf == []
      && p.inbound.cap > 0 && p.fan.Resting?
    ensures
      var p, p' := Run(NewPipe<T>(cap), es), Run(Run(NewPipe<T>(cap), es), Relaying(x, rest));
      && p'.fan.Resting? && p'.dispatched == p.dispatched + [x] && p'.subs.Keys == p.subs.Keys
      && (forall id :: id in p.subs ==>
            var q, q' := p.subs[id].queue, p'.subs[id].queue;
            q'.buf == LastN(q.buf + [x], q.cap) && q'.taken == q.taken)
  {
    var p := Run(NewPipe<T>(cap), es);
    NewPipeInv<T>(cap);
    EveryRunKeepsPipe(NewPipe<T>(cap), es);
    EveryRunKeepsBusy(NewPipe<T>(cap), es);
    var p1 := Run(p, Publishing(x));
    PublishOffers(p, x);
    ThreeStepsAreAnOffer(p.inbound, x);
    var p2 := Run(p1, [ReceiveIn, Lock]);
    OldestPacketIsDispatched(p1);
    EveryRunKeepsPipe(p, Publishing(x));
    EveryRunKeepsPipe(p1, [ReceiveIn, Lock]);
    rest := FanOutIsAnOfferToEach(p2);
    RunOfBoth(p, Publishing(x), [ReceiveIn, Lock]);
    RunOfBoth(p, Publishing(x) + [ReceiveIn, Lock], rest);
  }

}
