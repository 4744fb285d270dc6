/**
 The pump between callers and one worker process (`pump_task`, `fail_all`,
 `call_with_timeout`, `next_call_id`), over every interleaving of callers,
 timeouts and worker behaviour.

 The worker may send any frames at all: any ids, duplicates, late replies, or
 none.  An event that does not fit the state changes nothing.
 */
module Pump {
  /** What a caller has in hand. */
  datatype Status =
    | Sending                // has an id, its request is not in the channel yet
    | Waiting
    | Got(value: int)        // answered by a frame
    | Failed                 // failure sent, sender dropped, or channel closed
    | GaveUp                 // timed out or cancelled

  /** `sends` counts the answers sent on this caller's one-shot channel. */
  datatype Caller = Caller(id: nat, status: Status, sends: nat)

  datatype Phase = Running | Closing | Exited

  datatype State = State(nextId: nat, callers: map<nat, Caller>, queue: seq<(nat, nat)>, pending: map<nat, nat>,
                         phase: Phase)

  datatype Event =
    | Call(who: nat)                       // `next_call_id`, one-shot made
    | OtherCall                            // a call on another session takes an id
    | Enqueue(who: nat)                    // `tx.send` completes
    | GiveUp(who: nat)                     // timeout, or the caller's future is dropped
    | Receive(written: bool)               // the pump takes a request; the write may fail
    | Frame(id: nat, value: int)           // the worker sends a response frame
    | WorkerGone                           // end of file, or a bad frame
    | ChannelClosed                        // every sender of requests is gone
    | Exit                                 // the pump returns; channel and pending map are dropped

  function Init(): State { State(1, map[], [], map[], Running) }

  function SetStatus(s: State, who: nat, st: Status): State
    requires who in s.callers
  {
    s.(callers := s.callers[who := s.callers[who].(status := st)])
  }

  /** `back.send(v)`: the sender is spent; a receiver that gave up sees nothing. */
  function Answer(k: Caller, st: Status): Caller {
    Caller(k.id, if k.status == Waiting then st else k.status, k.sends + 1)
  }

  /** A sender dropped unsent. */
  function Dropped(k: Caller): Caller { k.(status := if k.status == Waiting then Failed else k.status) }

  /** `fail_all`: drains the map, answering each caller in it with a failure. */
  function FailAll(callers: map<nat, Caller>, pending: map<nat, nat>): map<nat, Caller> {
    map w <- callers :: if w in pending.Values then Answer(callers[w], Failed) else callers[w]
  }

  predicate InQueue(queue: seq<(nat, nat)>, w: nat) { exists i :: 0 <= i < |queue| && queue[i].1 == w }

  /** Everything the pump still holds is dropped. */
  function DropAll(callers: map<nat, Caller>, pending: map<nat, nat>, queue: seq<(nat, nat)>): map<nat, Caller> {
    map w <- callers :: if w in pending.Values || InQueue(queue, w) then Dropped(callers[w]) else callers[w]
  }

  function Step(s: State, e: Event): State {
    match e
    case Call(who) =>
      if who in s.callers then s
      else s.(nextId := s.nextId + 1, callers := s.callers[who := Caller(s.nextId, Sending, 0)])
    case OtherCall => s.(nextId := s.nextId + 1)
    case Enqueue(who) =>
      if who !in s.callers || s.callers[who].status != Sending then s
      else if s.phase == Exited then SetStatus(s, who, Failed)
      else SetStatus(s, who, Waiting).(queue := s.queue + [(s.callers[who].id, who)])
    case GiveUp(who) =>
      if who !in s.callers || (s.callers[who].status != Waiting && s.callers[who].status != Sending) then s
      else SetStatus(s, who, GaveUp)
    case Receive(written) =>
      if s.phase != Running || s.queue == [] then s
      else
        var (id, who) := s.queue[0];
        var s' := s.(queue := s.queue[1..], pending := s.pending[id := who]);
        if written then s' else s'.(callers := FailAll(s'.callers, s'.pending), pending := map[], phase := Closing)
    case Frame(id, v) =>
      if s.phase != Running || id !in s.pending || s.pending[id] !in s.callers then s
      else
        var who := s.pending[id];
        s.(pending := s.pending - {id}, callers := s.callers[who := Answer(s.callers[who], Got(v))])
    case WorkerGone =>
      if s.phase != Running then s
      else s.(callers := FailAll(s.callers, s.pending), pending := map[], phase := Closing)
    case ChannelClosed =>
      if s.phase != Running || s.queue != [] then s else s.(phase := Closing)
    case Exit =>
      if s.phase != Closing then s
      else s.(callers := DropAll(s.callers, s.pending, s.queue), pending := map[], queue := [], phase := Exited)
  }

  function Run(events: seq<Event>): State {
    if events == [] then Init() else Step(Run(events[..|events| - 1]), events[|events| - 1])
  }

  // ------------------------------------------------------------------ the invariant

  predicate Settled(st: Status) { st.Got? || st.Failed? || st.GaveUp? }

  predicate IdsUnique(s: State) {
    && (forall w <- s.callers :: s.callers[w].id < s.nextId)
    && (forall v, w :: v in s.callers && w in s.callers && v != w ==> s.callers[v].id != s.callers[w].id)
  }

  /** A request in the channel belongs to a caller not answered yet. */
  predicate QueueOk(s: State) {
    && (forall i :: 0 <= i < |s.queue| ==> Owes(s, s.queue[i].0, s.queue[i].1))
    && (forall i, j :: 0 <= i < j < |s.queue| ==> s.queue[i].1 != s.queue[j].1)
  }

  predicate Owes(s: State, id: nat, w: nat) {
    w in s.callers && s.callers[w].id == id && s.callers[w].sends == 0
    && (s.callers[w].status.Waiting? || s.callers[w].status.GaveUp?)
  }

  predicate PendingOk(s: State) {
    forall id <- s.pending :: Owes(s, id, s.pending[id]) && !InQueue(s.queue, s.pending[id])
  }

  /** A waiting caller's request is in the channel or in the map. */
  predicate WaitersHeld(s: State) {
    forall w <- s.callers :: s.callers[w].status == Waiting ==> InQueue(s.queue, w) || Held(s, w)
  }

  predicate Held(s: State, w: nat)
    requires w in s.callers
  {
    s.callers[w].id in s.pending && s.pending[s.callers[w].id] == w
  }

  predicate SentOnce(s: State) {
    forall w <- s.callers :: s.callers[w].sends <= 1 && (s.callers[w].status.Sending? ==> s.callers[w].sends == 0)
  }

  predicate ExitedEmpty(s: State) { s.phase == Exited ==> s.queue == [] && s.pending == map[] }

  predicate Inv(s: State) {
    IdsUnique(s) && QueueOk(s) && PendingOk(s) && WaitersHeld(s) && SentOnce(s) && ExitedEmpty(s)
  }

  lemma InitInv()
    ensures Inv(Init())
  {
  }

  lemma InQueueAppend(q: seq<(nat, nat)>, x: (nat, nat), w: nat)
    ensures InQueue(q + [x], w) <==> InQueue(q, w) || w == x.1
  {
    if InQueue(q, w) {
      var i :| 0 <= i < |q| && q[i].1 == w;
      assert (q + [x])[i].1 == w;
    }
    assert (q + [x])[|q|] == x;
  }

  lemma EnqueueInv(s: State, who: nat)
    requires Inv(s)
    ensures Inv(Step(s, Enqueue(who)))
  {
    var s' := Step(s, Enqueue(who));
    if s' != s && s.phase != Exited {
      assert !InQueue(s.queue, who);
      forall w: nat ensures InQueue(s'.queue, w) <==> InQueue(s.queue, w) || w == who {
        InQueueAppend(s.queue, (s.callers[who].id, who), w);
      }
    }
  }

  /** The pump takes the first request. */
  function Taken(s: State): State
    requires s.queue != []
  {
    s.(queue := s.queue[1..], pending := s.pending[s.queue[0].0 := s.queue[0].1])
  }

  lemma TakenInv(s: State)
    requires Inv(s) && s.phase == Running && s.queue != []
    ensures Inv(Taken(s))
  {
  }

  function AllFailed(s: State): State {
    s.(callers := FailAll(s.callers, s.pending), pending := map[], phase := Closing)
  }

  lemma FailAllInv(s: State)
    requires Inv(s) && s.phase == Running
    ensures Inv(AllFailed(s))
  {
    var s' := AllFailed(s);
    forall w | w in s.callers
      ensures w in s.pending.Values ==> s.callers[w].sends == 0 && !s.callers[w].status.Sending? && !InQueue(s.queue, w)
    {
      if w in s.pending.Values {
        var id :| id in s.pending && s.pending[id] == w;
        assert Owes(s, id, w);
      }
    }
    forall w | w in s'.callers && s'.callers[w].status == Waiting ensures InQueue(s'.queue, w) {
      assert w !in s.pending.Values;
      assert !Held(s, w);
    }
    forall i | 0 <= i < |s'.queue| ensures Owes(s', s'.queue[i].0, s'.queue[i].1) {
      assert Owes(s, s.queue[i].0, s.queue[i].1);
      assert InQueue(s.queue, s.queue[i].1);
    }
  }

  lemma FrameInv(s: State, id: nat, v: int)
    requires Inv(s)
    ensures Inv(Step(s, Frame(id, v)))
  {
    var s' := Step(s, Frame(id, v));
    if s' != s {
      var who := s.pending[id];
      assert Owes(s, id, who);
      forall i | i in s'.pending ensures Owes(s', i, s'.pending[i]) {
        assert Owes(s, i, s.pending[i]);
      }
      forall i | 0 <= i < |s'.queue| ensures Owes(s', s'.queue[i].0, s'.queue[i].1) {
        assert Owes(s, s.queue[i].0, s.queue[i].1);
        assert InQueue(s.queue, s.queue[i].1);
      }
    }
  }

  lemma ExitInv(s: State)
    requires Inv(s)
    ensures Inv(Step(s, Exit))
  {
    var s' := Step(s, Exit);
    if s' != s {
      forall w | w in s'.callers ensures s'.callers[w].status != Waiting {
        if s.callers[w].status == Waiting {
          assert InQueue(s.queue, w) || Held(s, w);
        }
      }
    }
  }

  lemma CallInv(s: State, who: nat)
    requires Inv(s)
    ensures Inv(Step(s, Call(who)))
  {
  }

  lemma GiveUpInv(s: State, who: nat)
    requires Inv(s)
    ensures Inv(Step(s, GiveUp(who)))
  {
  }

  lemma OutsideInv(s: State, e: Event)
    requires Inv(s) && (e.OtherCall? || e.ChannelClosed?)
    ensures Inv(Step(s, e))
  {
  }

  lemma StepInv(s: State, e: Event)
    requires Inv(s)
    ensures Inv(Step(s, e))
  {
    hide Inv;
    match e
    case Enqueue(who) => EnqueueInv(s, who);
    case Receive(written) =>
      if s.phase == Running && s.queue != [] {
        TakenInv(s);
        FailAllInv(Taken(s));
      }
    case Frame(id, v) => FrameInv(s, id, v);
    case WorkerGone => if s.phase == Running { FailAllInv(s); }
    case Exit => ExitInv(s);
    case Call(who) => CallInv(s, who);
    case GiveUp(who) => GiveUpInv(s, who);
    case _ => OutsideInv(s, e);
  }

  lemma {:induction false} RunInv(events: seq<Event>)
    ensures Inv(Run(events))
  {
    hide Inv; hide Step;
    if events == [] {
      InitInv();
    } else {
      RunInv(events[..|events| - 1]);
      StepInv(Run(events[..|events| - 1]), events[|events| - 1]);
    }
  }

  // ------------------------------------------------------------------ what holds of every run

  /** The one-shot of each caller is sent to at most once. */
  lemma AnsweredAtMostOnce(events: seq<Event>, w: nat)
    requires w in Run(events).callers
    ensures Run(events).callers[w].sends <= 1
  {
    RunInv(events);
  }

  /** What a caller has in hand never changes again, whatever the worker sends later. */
  lemma SettledStep(s: State, e: Event, w: nat)
    requires w in s.callers
    ensures var s' := Step(s, e);
      && w in s'.callers && s'.callers[w].id == s.callers[w].id
      && (Settled(s.callers[w].status) ==> s'.callers[w].status == s.callers[w].status)
  {
  }

  lemma {:induction false} SettledForGood(before: seq<Event>, more: seq<Event>, w: nat)
    requires w in Run(before).callers
    ensures w in Run(before + more).callers && Run(before + more).callers[w].id == Run(before).callers[w].id
    ensures Settled(Run(before).callers[w].status) ==>
      Run(before + more).callers[w].status == Run(before).callers[w].status
  {
    hide Step;
    if more == [] {
      assert before + more == before;
    } else {
      SettledForGood(before, more[..|more| - 1], w);
      assert (before + more)[..|before + more| - 1] == before + more[..|more| - 1];
      SettledStep(Run(before + more[..|more| - 1]), more[|more| - 1], w);
    }
  }

  /** The caller's own frame is what answers it: nobody else's status becomes `Got`. */
  lemma GotStep(s: State, e: Event, w: nat)
    requires Inv(s) && w in Step(s, e).callers && Step(s, e).callers[w].status.Got?
    ensures w in s.callers
    ensures s.callers[w].status == Step(s, e).callers[w].status
            || (s.callers[w].status == Waiting && Held(s, w)
              && e == Frame(s.callers[w].id, Step(s, e).callers[w].status.value))
  {
  }

  /** An answer came from a frame carrying the caller's own id, sent after the request was taken. */
  lemma {:induction false} GotFromOwnFrame(events: seq<Event>, w: nat) returns (i: nat)
    requires w in Run(events).callers && Run(events).callers[w].status.Got?
    ensures i < |events| && w in Run(events[..i]).callers && Held(Run(events[..i]), w)
    ensures Run(events[..i]).callers[w].status == Waiting
    ensures events[i] == Frame(Run(events).callers[w].id, Run(events).callers[w].status.value)
  {
    var init, last := events[..|events| - 1], events[|events| - 1];
    RunInv(init);
    hide Inv;
    GotStep(Run(init), last, w);
    SettledStep(Run(init), last, w);
    hide Step;
    if Run(init).callers[w].status == Run(events).callers[w].status {
      i := GotFromOwnFrame(init, w);
      assert events[..i] == init[..i];
    } else {
      i := |init|;
    }
  }

  /** And conversely: the frame with a waiting caller's id answers that caller, and nobody else's status changes. */
  lemma FrameAnswersOwner(events: seq<Event>, id: nat, v: int)
    requires var s := Run(events); s.phase == Running && id in s.pending
    ensures var s, s' := Run(events), Step(Run(events), Frame(id, v));
      && s.pending[id] in s.callers && id !in s'.pending
      && s'.callers[s.pending[id]].status == (if s.callers[s.pending[id]].status == Waiting then Got(v) else GaveUp)
      && forall w <- s.callers :: w != s.pending[id] ==> s'.callers[w] == s.callers[w]
  {
    RunInv(events);
    var s := Run(events);
    assert Owes(s, id, s.pending[id]);
  }

  /**
   In any run a response frame, whatever its id, changes what a caller has in hand exactly if the pump runs and the
   caller waits under that id with its request held, and then to the frame's value.
   */
  lemma FrameReachesOnlyItsWaiter(events: seq<Event>, id: nat, v: int, w: nat)
    requires w in Run(events).callers
    ensures var s, s' := Run(events), Run(events + [Frame(id, v)]);
      && w in s'.callers
      && (s'.callers[w].status != s.callers[w].status <==>
            s.phase == Running && s.callers[w].status == Waiting && s.callers[w].id == id && Held(s, w))
      && (s'.callers[w].status != s.callers[w].status ==> s'.callers[w].status == Got(v))
  {
    RunInv(events);
    var s := Run(events);
    assert (events + [Frame(id, v)])[..|events|] == events;
    assert Run(events + [Frame(id, v)]) == Step(s, Frame(id, v));
    hide Run;
    if id in s.pending { assert Owes(s, id, s.pending[id]); }
  }

  /** So a late reply, to a caller that gave up or was answered, reaches nobody at all. */
  lemma LateReplyReachesNobody(events: seq<Event>, late: nat, v: int, w: nat)
    requires late in Run(events).callers && Settled(Run(events).callers[late].status) && w in Run(events).callers
    ensures var id := Run(events).callers[late].id;
      w in Run(events + [Frame(id, v)]).callers
      && Run(events + [Frame(id, v)]).callers[w].status == Run(events).callers[w].status
  {
    RunInv(events);
    FrameReachesOnlyItsWaiter(events, Run(events).callers[late].id, v, w);
    hide Run;
  }

  /** Nobody is left waiting once the pump has exited, and a later request fails at once. */
  lemma NobodyWaitsAfterExit(events: seq<Event>, w: nat)
    requires Run(events).phase == Exited && w in Run(events).callers
    ensures Run(events).callers[w].status != Waiting
    ensures Run(events).callers[w].status == Sending ==> Step(Run(events), Enqueue(w)).callers[w].status == Failed
  {
    RunInv(events);
    var s := Run(events);
    hide Run;
    assert s.callers[w].status == Waiting ==> InQueue(s.queue, w) || Held(s, w);
  }

  // ------------------------------------------------------------------ what each event does

  lemma RunNext(events: seq<Event>, e: Event)
    ensures Run(events + [e]) == Step(Run(events), e)
  {
    assert (events + [e])[..|events|] == events;
    hide Step;
  }

  /** The worker is found dead: its output ends or is no frame, or a request cannot be written to it. */
  predicate Dies(s: State, e: Event) {
    s.phase == Running && (e == WorkerGone || (e == Receive(false) && s.queue != []))
  }

  /** The caller's request is with the worker, or is the one being written. */
  predicate WithWorker(s: State, e: Event, w: nat)
    requires w in s.callers
  {
    Held(s, w) || (e.Receive? && s.queue != [] && s.queue[0].1 == w)
  }

  /**
   Whatever has happened before and whatever happens next, what a caller has in hand afterwards: it waits once its
   request is in the channel, and then gives up, is answered by the frame with its id, or fails when the worker dies
   with its request or when the pump returns.
   */
  lemma CallerMoves(events: seq<Event>, e: Event, w: nat)
    requires w in Run(events).callers
    ensures var s, s' := Run(events), Run(events + [e]); var k := s.callers[w].status;
      w in s'.callers && s'.callers[w].status ==
        if k == Sending && e == Enqueue(w) then (if s.phase == Exited then Failed else Waiting)
        else if (k == Sending || k == Waiting) && e == GiveUp(w) then GaveUp
        else if k == Waiting && s.phase == Running && e.Frame? && e.id == s.callers[w].id && Held(s, w)
        then Got(e.value)
        else if k == Waiting && Dies(s, e) && WithWorker(s, e, w) then Failed
        else if k == Waiting && s.phase == Closing && e == Exit then Failed
        else k
  {
    RunNext(events, e);
    RunInv(events);
    var s := Run(events);
    hide Run;
    if Dies(s, e) {
      DeathMoves(s, e, w);
    } else if e.Frame? {
      FrameMoves(s, e, w);
    } else if e == Exit {
      ExitMoves(s, w);
    } else {
      OtherMoves(s, e, w);
    }
  }

  lemma HeldIsPending(s: State, w: nat)
    requires Inv(s) && w in s.callers
    ensures w in s.pending.Values <==> Held(s, w)
  {
    if w in s.pending.Values {
      var id :| id in s.pending && s.pending[id] == w;
      assert Owes(s, id, w);
    }
  }

  lemma DeathMoves(s: State, e: Event, w: nat)
    requires Inv(s) && w in s.callers && Dies(s, e)
    ensures var s' := Step(s, e); var k := s.callers[w].status;
      w in s'.callers && s'.callers[w].status == if k == Waiting && WithWorker(s, e, w) then Failed else k
  {
    HeldIsPending(s, w);
    if e.Receive? {
      TakenInv(s);
      HeldIsPending(Taken(s), w);
      TakenHolds(s, w);
    }
    hide Inv;
  }

  lemma TakenHolds(s: State, w: nat)
    requires Inv(s) && w in s.callers && s.queue != []
    ensures Held(Taken(s), w) <==> Held(s, w) || s.queue[0].1 == w
  {
    assert Owes(s, s.queue[0].0, s.queue[0].1);
  }

  lemma FrameMoves(s: State, e: Event, w: nat)
    requires Inv(s) && w in s.callers && e.Frame?
    ensures var s' := Step(s, e); var k := s.callers[w].status;
      w in s'.callers && s'.callers[w].status ==
        if k == Waiting && s.phase == Running && e.id == s.callers[w].id && Held(s, w) then Got(e.value) else k
  {
    if e.id in s.pending { assert Owes(s, e.id, s.pending[e.id]); }
  }

  lemma ExitMoves(s: State, w: nat)
    requires Inv(s) && w in s.callers
    ensures var s' := Step(s, Exit); var k := s.callers[w].status;
      w in s'.callers && s'.callers[w].status == if k == Waiting && s.phase == Closing then Failed else k
  {
    if s.callers[w].status == Waiting { assert InQueue(s.queue, w) || Held(s, w); }
  }

  lemma OtherMoves(s: State, e: Event, w: nat)
    requires w in s.callers && !Dies(s, e) && !e.Frame? && e != Exit
    ensures var s' := Step(s, e); var k := s.callers[w].status;
      w in s'.callers && s'.callers[w].status ==
        if k == Sending && e == Enqueue(w) then (if s.phase == Exited then Failed else Waiting)
        else if (k == Sending || k == Waiting) && e == GiveUp(w) then GaveUp
        else k
  {
  }

  /** A new call takes an id above all ids so far and has yet to send its request; nobody else is touched. */
  lemma CallStarts(events: seq<Event>, w: nat)
    requires w !in Run(events).callers
    ensures var s, s' := Run(events), Run(events + [Call(w)]);
      && s'.callers.Keys == s.callers.Keys + {w} && s'.callers[w].status == Sending
      && forall v <- s.callers :: s'.callers[v] == s.callers[v] && s.callers[v].id < s'.callers[w].id
  {
    RunNext(events, Call(w));
    RunInv(events);
    hide Run;
  }

  /**
   Whatever has happened before: the pump runs until the worker dies or the channel is closed, then returns for good.
   */
  lemma PhaseMoves(events: seq<Event>, e: Event)
    ensures var s, s' := Run(events), Run(events + [e]);
      && (s.phase == Running ==>
            s'.phase == if Dies(s, e) || (e == ChannelClosed && s.queue == []) then Closing else Running)
      && (s.phase == Closing ==> s'.phase == if e == Exit then Exited else Closing)
      && (s.phase == Exited ==> s'.phase == Exited)
  {
    RunNext(events, e);
    hide Run;
  }

  /**
   Once the worker is found dead nobody's request is held any more, and the request being written is out of the channel.
   */
  lemma DeathEmptiesMap(events: seq<Event>, e: Event)
    requires Dies(Run(events), e)
    ensures var s, s' := Run(events), Run(events + [e]);
      s'.pending == map[] && s'.queue == if e.Receive? then s.queue[1..] else s.queue
  {
    RunNext(events, e);
  }

  /** Whatever has happened before, the death of the worker and the pump's return leave nobody waiting. */
  lemma DeathAnswersAll(events: seq<Event>, w: nat)
    ensures var s := Run(events + [WorkerGone, Exit]);
      s.phase == Exited && s.queue == [] && s.pending == map[] && (w in s.callers ==> s.callers[w].status != Waiting)
  {
    var gone := events + [WorkerGone];
    assert events + [WorkerGone, Exit] == gone + [Exit];
    PhaseMoves(events, WorkerGone);
    PhaseMoves(gone, Exit);
    RunInv(gone + [Exit]);
    if w in Run(gone + [Exit]).callers { NobodyWaitsAfterExit(gone + [Exit], w); }
    hide Run;
  }

  /** The pump takes requests from the head of the channel and holds each under its id until it is answered. */
  lemma ReceiveHolds(events: seq<Event>)
    requires var s := Run(events); s.phase == Running && s.queue != []
    ensures var s, s' := Run(events), Run(events + [Receive(true)]);
      && s'.queue == s.queue[1..] && s'.callers == s.callers && s.queue[0].1 in s'.callers && Held(s', s.queue[0].1)
      && forall w <- s.callers :: Held(s, w) ==> Held(s', w)
  {
    RunNext(events, Receive(true));
    RunInv(events);
    var s := Run(events);
    hide Run;
    assert Owes(s, s.queue[0].0, s.queue[0].1);
    forall w | w in s.callers ensures Held(Taken(s), w) <==> Held(s, w) || s.queue[0].1 == w { TakenHolds(s, w); }
  }

  // ------------------------------------------------------------------ first in, first out

  /** The callers whose requests went into the channel, in order. */
  function Sent(events: seq<Event>): seq<nat> {
    if events == [] then [] else
      var n := |events| - 1;
      var s, e := Run(events[..n]), events[n];
      Sent(events[..n]) + Sends(s, e)
  }

  function Sends(s: State, e: Event): seq<nat> {
    if e.Enqueue? && e.who in s.callers && s.callers[e.who].status == Sending && s.phase != Exited then [e.who] else []
  }

  predicate Takes(s: State, e: Event) { e.Receive? && s.phase == Running && s.queue != [] }

  /** How many requests the pump has taken. */
  function Taking(events: seq<Event>): nat {
    if events == [] then 0 else
      var n := |events| - 1;
      Taking(events[..n]) + if Takes(Run(events[..n]), events[n]) then 1 else 0
  }

  function Whose(queue: seq<(nat, nat)>): seq<nat> { seq(|queue|, i requires 0 <= i < |queue| => queue[i].1) }

  /**
   In every run the channel holds exactly what was sent and not taken, in the order of sending, until the pump returns.
   */
  lemma {:induction false} FirstInFirstOut(events: seq<Event>)
    ensures Taking(events) <= |Sent(events)|
    ensures Run(events).phase != Exited ==> Whose(Run(events).queue) == Sent(events)[Taking(events)..]
  {
    hide Run; hide Step; hide Whose; hide Sent; hide Taking; hide Sends;
    if events == [] {
      NothingSent();
    } else {
      var n := |events| - 1;
      FirstInFirstOut(events[..n]);
      var s, e := Run(events[..n]), events[n];
      SentNext(events);
      QueueMoves(s, e);
      if Step(s, e).phase != Exited {
        Shift(Sent(events[..n]), Sends(s, e), Taking(events[..n]), Whose(s.queue), Takes(s, e));
      } else {
        ExitTakesNothing(s, e);
      }
    }
  }

  lemma NothingSent()
    ensures Taking([]) == 0 && Sent([]) == [] && Whose(Run([]).queue) == []
  {
  }

  /** Taking happens at the front and sending at the back. */
  lemma Shift(sent: seq<nat>, sends: seq<nat>, k: nat, queue: seq<nat>, takes: bool)
    requires k <= |sent| && queue == sent[k..] && (takes ==> queue != [] && sends == [])
    ensures var k' := k + if takes then 1 else 0;
      k' <= |sent + sends| && (sent + sends)[k'..] == if takes then queue[1..] else queue + sends
  {
  }

  lemma ExitTakesNothing(s: State, e: Event)
    requires Step(s, e).phase == Exited
    ensures !Takes(s, e)
  {
  }

  lemma SentNext(events: seq<Event>)
    requires events != []
    ensures var n := |events| - 1; var s, e := Run(events[..n]), events[n];
      && Run(events) == Step(s, e)
      && Sent(events) == Sent(events[..n]) + Sends(s, e)
      && Taking(events) == Taking(events[..n]) + if Takes(s, e) then 1 else 0
  {
    hide Step;
  }

  lemma QueueMoves(s: State, e: Event)
    ensures Takes(s, e) ==> Sends(s, e) == [] && Whose(s.queue) != []
    ensures var s' := Step(s, e); s'.phase != Exited ==>
      && s.phase != Exited
      && Whose(s'.queue) == if Takes(s, e) then Whose(s.queue)[1..] else Whose(s.queue) + Sends(s, e)
  {
    assert Whose(s.queue) + [] == Whose(s.queue);
  }

  predicate Distinct(callers: map<nat, Caller>, pending: map<nat, nat>) {
    (forall id <- pending :: pending[id] in callers)
    && forall i, j :: i in pending && j in pending && i != j ==> pending[i] != pending[j]
  }

  /** The pump's map always meets what the drain loop needs. */
  lemma PendingDistinct(events: seq<Event>)
    ensures Distinct(Run(events).callers, Run(events).pending)
  {
    RunInv(events);
    var s := Run(events);
    hide Run;
    assert forall id <- s.pending :: Owes(s, id, s.pending[id]);
  }

  lemma FailOne(callers: map<nat, Caller>, pending: map<nat, nat>, id: nat)
    requires Distinct(callers, pending) && id in pending
    ensures var back := pending[id];
      && Distinct(callers[back := Answer(callers[back], Failed)], pending - {id})
      && FailAll(callers[back := Answer(callers[back], Failed)], pending - {id}) == FailAll(callers, pending)
  {
    var back, rest := pending[id], pending - {id};
    forall w: nat ensures w in pending.Values <==> w in rest.Values || w == back {
      if w in pending.Values && w != back {
        var i :| i in pending && pending[i] == w;
        assert rest[i] == w;
      }
    }
    assert back !in rest.Values;
    hide Answer;
  }

  /** The drain loop of `fail_all`. */
  method FailAllPending(callers: map<nat, Caller>, pending: map<nat, nat>) returns (after: map<nat, Caller>)
    requires Distinct(callers, pending)
    ensures after == FailAll(callers, pending)
  {
    hide Answer;
    after := callers;
    var left := pending;
    while left != map[]
      invariant Distinct(after, left)
      invariant FailAll(after, left) == FailAll(callers, pending)
      decreases |left|
    {
      hide FailAll;
      var id :| id in left;
      var back := left[id];
      FailOne(after, left, id);
      assert left.Keys == (left - {id}).Keys + {id};
      left := left - {id};
      after := after[back := Answer(after[back], Failed)];
    }
  }
}
