// Where each client's descriptor is, between the manager's select set, the request
// queue, a worker and the return pipe, and how the server decides to stop.
module Clients {

  datatype Req = Req(number: nat, fd: nat, closes: bool)

  // `nclient` is a plain volatile int that the manager and every worker change
  // without a lock: reading it and writing it back are two steps.
  datatype Pc =
    | Idle
    | Serving(req: Req)
    | Answered(req: Req)                // reply written; next, the return pipe
    | Closing(req: Req)                 // reply to a close written; next, read nclient
    | Loaded(req: Req, seen: int)       // next, write nclient back and close
    | Left

  datatype Manager = Polling | Accepting(fd: nat, seen: int) | Stopped | Crashed

  datatype State = State(
    select: set<nat>, queue: seq<Req>, workers: seq<Pc>, pipe: seq<nat>, manager: Manager,
    nclient: int, hup: bool, quit: bool,
    arrivals: seq<Req>, served: seq<Req>, answered: set<nat>)

  datatype Event =
    | AcceptLoad(fd: nat)
    | AcceptStore
    | Rearm
    | Dispatch(fd: nat, closes: bool)
    | Pop(w: nat)
    | Reply(w: nat)
    | Return(w: nat)
    | Load(w: nat)
    | Store(w: nat)
    | SigHup
    | SigQuit
    | ListenerReady      // a connection waits after SIGHUP
    | ManagerLeaves
    | WorkerLeaves(w: nat)

  function Init(threads: nat): State {
    State({}, [], seq(threads, _ => Idle), [], Polling, 0, false, false, [], [], {})
  }

  // How often descriptor fd is in the queue, in the workers, in the pipe.
  function Queued(queue: seq<Req>, fd: nat): nat {
    if queue == [] then 0 else (if queue[0].fd == fd then 1 else 0) + Queued(queue[1..], fd)
  }

  function Serves(pc: Pc, fd: nat): nat {
    if !pc.Idle? && !pc.Left? && pc.req.fd == fd then 1 else 0
  }

  function Held(workers: seq<Pc>, fd: nat): nat {
    if workers == [] then 0 else Serves(workers[0], fd) + Held(workers[1..], fd)
  }

  function Piped(pipe: seq<nat>, fd: nat): nat {
    if pipe == [] then 0 else (if pipe[0] == fd then 1 else 0) + Piped(pipe[1..], fd)
  }

  // How many places descriptor fd is in.
  function Places(s: State, fd: nat): nat {
    (if fd in s.select then 1 else 0) + Queued(s.queue, fd) + Held(s.workers, fd) + Piped(s.pipe, fd)
    + if s.manager.Accepting? && s.manager.fd == fd then 1 else 0
  }

  function Works(pc: Pc): nat {
    if !pc.Idle? && !pc.Left? then 1 else 0
  }

  function Busy(workers: seq<Pc>): nat {
    if workers == [] then 0 else Works(workers[0]) + Busy(workers[1..])
  }

  // Clients in the four places.
  function Connected(s: State): nat {
    |s.select| + |s.queue| + Busy(s.workers) + |s.pipe|
  }

  function SetPc(s: State, w: nat, pc: Pc): State
    requires w < |s.workers|
  {
    s.(workers := s.workers[w := pc])
  }

  // One event; one that is not possible changes nothing.
  function Next(s: State, e: Event): State {
    match e
    case AcceptLoad(fd) =>  // the kernel hands out a descriptor that is not open
      if s.manager.Polling? && !s.hup && Places(s, fd) == 0 then s.(manager := Accepting(fd, s.nclient)) else s
    case AcceptStore =>
      if s.manager.Accepting?
      then s.(manager := Polling, select := s.select + {s.manager.fd}, nclient := s.manager.seen + 1) else s
    case Rearm =>
      if s.manager.Polling? && s.pipe != [] then s.(select := s.select + {s.pipe[0]}, pipe := s.pipe[1..]) else s
    case Dispatch(fd, closes) =>
      if s.manager.Polling? && fd in s.select then
        var r := Req(|s.arrivals|, fd, closes);
        s.(select := s.select - {fd}, queue := s.queue + [r], arrivals := s.arrivals + [r])
      else s
    case Pop(w) =>
      if w < |s.workers| && s.workers[w].Idle? && s.queue != []
      then SetPc(s, w, Serving(s.queue[0])).(queue := s.queue[1..], served := s.served + [s.queue[0]]) else s
    case Reply(w) =>
      if w < |s.workers| && s.workers[w].Serving? then
        var r := s.workers[w].req;
        SetPc(s, w, if r.closes then Closing(r) else Answered(r)).(answered := s.answered + {r.number})
      else s
    case Return(w) =>
      if w < |s.workers| && s.workers[w].Answered?
      then SetPc(s, w, Idle).(pipe := s.pipe + [s.workers[w].req.fd]) else s
    case Load(w) =>
      if w < |s.workers| && s.workers[w].Closing?
      then SetPc(s, w, Loaded(s.workers[w].req, s.nclient)) else s
    case Store(w) =>
      if w < |s.workers| && s.workers[w].Loaded?
      then SetPc(s, w, Idle).(nclient := s.workers[w].seen - 1) else s
    case SigHup => if s.manager.Polling? then s.(hup := true) else s
    case SigQuit => if s.manager.Polling? then s.(quit := true) else s
    case ListenerReady => if s.manager.Polling? && s.hup then s.(manager := Crashed) else s
    case ManagerLeaves =>
      if s.manager.Polling? && (s.quit || (s.hup && s.nclient == 0)) then s.(manager := Stopped) else s
    case WorkerLeaves(w) =>
      if w < |s.workers| && s.workers[w].Idle? && s.queue == [] && (s.quit || (s.hup && s.nclient == 0))
      then SetPc(s, w, Left) else s
  }

  function Run(s: State, es: seq<Event>): State
    decreases |es|
  {
    if es == [] then s else Next(Run(s, es[..|es| - 1]), es[|es| - 1])
  }

  lemma {:induction false} QueuedSnoc(queue: seq<Req>, r: Req, fd: nat)
    ensures Queued(queue + [r], fd) == Queued(queue, fd) + if r.fd == fd then 1 else 0
  {
    if queue == [] {
      assert [r][1..] == [] && queue + [r] == [r];
    } else {
      assert (queue + [r])[1..] == queue[1..] + [r];
      QueuedSnoc(queue[1..], r, fd);
    }
  }

  lemma {:induction false} PipedSnoc(pipe: seq<nat>, x: nat, fd: nat)
    ensures Piped(pipe + [x], fd) == Piped(pipe, fd) + if x == fd then 1 else 0
  {
    if pipe == [] {
      assert [x][1..] == [] && pipe + [x] == [x];
    } else {
      assert (pipe + [x])[1..] == pipe[1..] + [x];
      PipedSnoc(pipe[1..], x, fd);
    }
  }

  lemma {:induction false} HeldUpdate(workers: seq<Pc>, w: nat, pc: Pc, fd: nat)
    requires w < |workers|
    ensures Held(workers[w := pc], fd) + Serves(workers[w], fd) == Held(workers, fd) + Serves(pc, fd)
    ensures Busy(workers[w := pc]) + Works(workers[w]) == Busy(workers) + Works(pc)
  {
    if w == 0 {
      assert workers[0 := pc][1..] == workers[1..];
    } else {
      assert workers[w := pc][1..] == workers[1..][w - 1 := pc];
      HeldUpdate(workers[1..], w - 1, pc, fd);
    }
  }

  // The counter's updates, and whether an event carries one through.
  predicate Joins(s: State, e: Event) { e.AcceptStore? && s.manager.Accepting? }
  predicate Leaves(s: State, e: Event) { e.Store? && e.w < |s.workers| && s.workers[e.w].Loaded? }
  predicate Comes(s: State, e: Event) { e.AcceptLoad? && Next(s, e) != s }

  // No descriptor is in two places.
  ghost predicate OnePlace(s: State) {
    forall fd :: Places(s, fd) <= 1
  }

  predicate ByWorker(e: Event) {
    e.Pop? || e.Reply? || e.Return? || e.Load? || e.Store? || e.WorkerLeaves?
  }

  // What an event adds to the places of fd, and takes from them.
  function Change(s: State, e: Event, fd: nat): int {
    (if Comes(s, e) && e.fd == fd then 1 else 0) - (if Leaves(s, e) && s.workers[e.w].req.fd == fd then 1 else 0)
  }

  lemma QueuedFirst(queue: seq<Req>, fd: nat)
    requires queue != []
    ensures Queued(queue, fd) == (if queue[0].fd == fd then 1 else 0) + Queued(queue[1..], fd)
  {
  }

  // A worker's event moves a descriptor between its worker and one end of the queue or
  // the pipe, if at all.
  lemma WorkerNext(s: State, e: Event)
    requires ByWorker(e) && Next(s, e) != s
    ensures var t := Next(s, e);
      e.w < |s.workers| && t.workers == s.workers[e.w := t.workers[e.w]] && t.select == s.select && t.manager == s.manager
    ensures var t := Next(s, e);
      var pc, qc := s.workers[e.w], t.workers[e.w];
      && (e.Pop? ==> pc.Idle? && s.queue != [] && qc == Serving(s.queue[0]) && t.queue == s.queue[1..])
      && (e.Return? ==> pc.Answered? && qc.Idle? && t.pipe == s.pipe + [pc.req.fd])
      && (e.Store? ==> pc.Loaded? && qc.Idle?) && (e.WorkerLeaves? ==> pc.Idle? && qc.Left?)
      && (e.Reply? || e.Load? ==> Works(pc) == Works(qc) == 1 && forall fd :: Serves(qc, fd) == Serves(pc, fd))
      && (!e.Pop? ==> t.queue == s.queue) && (!e.Return? ==> t.pipe == s.pipe)
  {
  }

  lemma WorkerMoves(s: State, e: Event, fd: nat)
    requires ByWorker(e)
    ensures Places(Next(s, e), fd) == Places(s, fd) + Change(s, e, fd)
    ensures Connected(Next(s, e)) == Connected(s) - if Leaves(s, e) then 1 else 0
  {
    var t := Next(s, e);
    if t != s {
      HeldUpdate(s.workers, e.w, t.workers[e.w], fd);
      WorkerNext(s, e);
      if e.Return? { PipedSnoc(s.pipe, s.workers[e.w].req.fd, fd); }
      if e.Pop? { QueuedFirst(s.queue, fd); }
      hide Held, Busy, Piped, Queued, Next;
    }
  }

  lemma ManagerMoves(s: State, e: Event, fd: nat)
    requires OnePlace(s) && !ByWorker(e)
    ensures Places(Next(s, e), fd) == Places(s, fd) + Change(s, e, fd)
    ensures Connected(Next(s, e)) == Connected(s) + if Joins(s, e) then 1 else 0
  {
    if Next(s, e) != s {
      ManagerNext(s, e);
      if e.Dispatch? { QueuedSnoc(s.queue, Req(|s.arrivals|, e.fd, e.closes), fd); }
      if e.Rearm? {
        assert Places(s, s.pipe[0]) <= 1;
        PipedFirst(s.pipe, fd);
        PipedFirst(s.pipe, s.pipe[0]);
      }
      if Joins(s, e) { assert Places(s, s.manager.fd) <= 1; }
      hide Held, Busy, Piped, Queued, Next;
    }
  }

  lemma PipedFirst(pipe: seq<nat>, fd: nat)
    requires pipe != []
    ensures Piped(pipe, fd) == (if pipe[0] == fd then 1 else 0) + Piped(pipe[1..], fd)
  {
  }

  // The manager's events move a descriptor into the set or from it to the queue.
  lemma ManagerNext(s: State, e: Event)
    requires !ByWorker(e) && Next(s, e) != s
    ensures var t := Next(s, e);
      && t.workers == s.workers
      && (e.AcceptLoad? ==> s.manager.Polling? && t.manager.Accepting? && t.manager.fd == e.fd)
      && (e.AcceptStore? ==> s.manager.Accepting? && t.manager.Polling? && t.select == s.select + {s.manager.fd})
      && (e.Rearm? ==> s.pipe != [] && t.select == s.select + {s.pipe[0]} && t.pipe == s.pipe[1..])
      && (e.Dispatch? ==> e.fd in s.select && t.select == s.select - {e.fd}
                            && t.queue == s.queue + [Req(|s.arrivals|, e.fd, e.closes)])
      && (!e.AcceptLoad? && !e.AcceptStore? ==> !s.manager.Accepting? && !t.manager.Accepting?)
      && (!e.AcceptStore? && !e.Rearm? && !e.Dispatch? ==> t.select == s.select)
      && (!e.Rearm? ==> t.pipe == s.pipe) && (!e.Dispatch? ==> t.queue == s.queue)
  {
    hide Places;
  }

  // A descriptor comes with its accept and goes with its close; every other event
  // moves it from one place to the next.
  lemma PlacesMove(s: State, e: Event, fd: nat)
    requires OnePlace(s)
    ensures Places(Next(s, e), fd) == Places(s, fd) + Change(s, e, fd)
    ensures Comes(s, e) ==> Places(s, e.fd) == 0
  {
    if ByWorker(e) { WorkerMoves(s, e, fd); } else { ManagerMoves(s, e, fd); }
    hide Places;
  }

  lemma OnePlaceKept(s: State, e: Event)
    requires OnePlace(s)
    ensures OnePlace(Next(s, e))
  {
    forall fd ensures Places(Next(s, e), fd) <= 1 {
      PlacesMove(s, e, fd);
      assert Places(s, fd) <= 1;
    }
  }

  // How many clients there are changes with the counter's updates only.
  lemma ClientsMove(s: State, e: Event)
    requires OnePlace(s)
    ensures Connected(Next(s, e)) == Connected(s) + (if Joins(s, e) then 1 else 0) - (if Leaves(s, e) then 1 else 0)
  {
    if ByWorker(e) { WorkerMoves(s, e, 0); } else { ManagerMoves(s, e, 0); }
    hide Connected, Next;
  }

  // ---------- the counter ----------

  // An update that writes back a value another thread has changed meanwhile.
  function Slip(s: State, e: Event): int {
    if Joins(s, e) then s.manager.seen - s.nclient
    else if Leaves(s, e) then s.workers[e.w].seen - s.nclient
    else 0
  }

  function Slips(s: State, es: seq<Event>): int
    decreases |es|
  {
    if es == [] then 0 else Slips(s, es[..|es| - 1]) + Slip(Run(s, es[..|es| - 1]), es[|es| - 1])
  }

  // The counter is the number of clients plus what lost updates have left in it.
  lemma {:induction false} CounterDrift(threads: nat, es: seq<Event>)
    ensures var t := Run(Init(threads), es);
      OnePlace(t) && t.nclient == Connected(t) + Slips(Init(threads), es)
    decreases |es|
  {
    hide Next, OnePlace, Connected, Slip;
    if es == [] {
      InitPlaces(threads);
    } else {
      var before, last := es[..|es| - 1], es[|es| - 1];
      CounterDrift(threads, before);
      var s := Run(Init(threads), before);
      OnePlaceKept(s, last);
      ClientsMove(s, last);
      SlipIs(s, last);
    }
  }

  lemma SlipIs(s: State, e: Event)
    ensures Next(s, e).nclient == s.nclient + Slip(s, e) + (if Joins(s, e) then 1 else 0) - (if Leaves(s, e) then 1 else 0)
  {
  }

  lemma {:induction false} NoneHeld(threads: nat, fd: nat)
    ensures Held(seq(threads, _ => Idle), fd) == 0 && Busy(seq(threads, _ => Idle)) == 0
  {
    if 0 < threads {
      NoneHeld(threads - 1, fd);
      assert seq(threads, _ => Idle)[1..] == seq(threads - 1, _ => Idle);
    }
  }

  lemma InitPlaces(threads: nat)
    ensures OnePlace(Init(threads)) && Connected(Init(threads)) == 0
  {
    forall fd ensures Places(Init(threads), fd) == 0 { NoneHeld(threads, fd); }
    NoneHeld(threads, 0);
  }

  // Every write-back finds the counter as it was read: nobody came between.
  ghost predicate NoSlip(s: State, es: seq<Event>) {
    forall i :: 0 <= i < |es| ==> Slip(Run(s, es[..i]), es[i]) == 0
  }

  // The counter is right throughout a run exactly when no update is lost in it.
  lemma CounterRightIff(threads: nat, es: seq<Event>)
    ensures NoSlip(Init(threads), es) <==>
      forall i :: 0 <= i <= |es| ==> Run(Init(threads), es[..i]).nclient == Connected(Run(Init(threads), es[..i]))
  {
    hide Next, Connected, Slip, Init;
    var s := Init(threads);
    if NoSlip(s, es) {
      forall i | 0 <= i <= |es| ensures Run(s, es[..i]).nclient == Connected(Run(s, es[..i])) {
        CounterDrift(threads, es[..i]);
        NoSlipSum(s, es, i);
      }
    }
    if forall i :: 0 <= i <= |es| ==> Run(s, es[..i]).nclient == Connected(Run(s, es[..i])) {
      forall i | 0 <= i < |es| ensures Slip(Run(s, es[..i]), es[i]) == 0 {
        CounterDrift(threads, es[..i]);
        CounterDrift(threads, es[..i + 1]);
        assert es[..i + 1][..i] == es[..i] && es[..i + 1][i] == es[i];
      }
    }
  }

  lemma {:induction false} NoSlipSum(s: State, es: seq<Event>, i: nat)
    requires NoSlip(s, es) && i <= |es|
    ensures Slips(s, es[..i]) == 0
  {
    if 0 < i {
      NoSlipSum(s, es, i - 1);
      assert es[..i][..i - 1] == es[..i - 1] && es[..i][i - 1] == es[i - 1];
      assert Slip(Run(s, es[..i - 1]), es[i - 1]) == 0;
    }
  }

  // ---------- requests ----------

  // Requests are numbered as they arrive and popped in that order, each once; a
  // popped one is answered or with a worker.
  ghost predicate Orderly(s: State) {
    && (forall i :: 0 <= i < |s.arrivals| ==> s.arrivals[i].number == i)
    && s.arrivals == s.served + s.queue
    && (s.manager.Accepting? ==> !s.hup)
    && (forall i :: 0 <= i < |s.served| ==> i in s.answered || InHand(s.workers, s.served[i]))
  }

  ghost predicate InHand(workers: seq<Pc>, r: Req) {
    exists w :: 0 <= w < |workers| && workers[w] == Serving(r)
  }

  lemma OrderlyKept(s: State, e: Event)
    requires Orderly(s)
    ensures Orderly(Next(s, e))
  {
    var t := Next(s, e);
    forall i | 0 <= i < |t.served| ensures i in t.answered || InHand(t.workers, t.served[i]) {
      if i < |s.served| {
        StillInHand(s, e, i);
      } else {
        assert t.workers[e.w] == Serving(t.served[i]);
      }
    }
    hide InHand, Places;
  }

  lemma StillInHand(s: State, e: Event, i: nat)
    requires Orderly(s) && i < |s.served|
    ensures var t := Next(s, e); i < |t.served| && t.served[i] == s.served[i] && (i in t.answered || InHand(t.workers, t.served[i]))
  {
    var t := Next(s, e);
    assert s.served[i] == s.arrivals[i];
    if i !in s.answered {
      var w :| 0 <= w < |s.workers| && s.workers[w] == Serving(s.served[i]);
      assert t.workers[w] == s.workers[w] || i in t.answered;
    }
  }

  lemma {:induction false} RunOrderly(threads: nat, es: seq<Event>)
    ensures Orderly(Run(Init(threads), es))
    decreases |es|
  {
    if es != [] {
      hide Next, Orderly;
      RunOrderly(threads, es[..|es| - 1]);
      OrderlyKept(Run(Init(threads), es[..|es| - 1]), es[|es| - 1]);
    }
  }

  // Each popped request is answered once: it has been, or one worker has it.
  ghost predicate AnsweredOnce(s: State) {
    && (forall n :: n in s.answered ==> n < |s.served|)
    && (forall w :: 0 <= w < |s.workers| && s.workers[w].Serving? ==>
          var n := s.workers[w].req.number; n < |s.served| && s.served[n] == s.workers[w].req && n !in s.answered)
    && (forall v, w :: 0 <= v < w < |s.workers| && s.workers[v].Serving? && s.workers[w].Serving? ==>
          s.workers[v].req.number != s.workers[w].req.number)
  }

  lemma AnsweredOnceKept(s: State, e: Event)
    requires Orderly(s) && AnsweredOnce(s)
    ensures AnsweredOnce(Next(s, e))
    ensures e.Reply? && Next(s, e) != s ==> s.workers[e.w].req.number !in s.answered
  {
    hide InHand, Places;
    if e.Pop? && s.queue != [] {
      assert s.arrivals[|s.served|] == s.queue[0];
    }
  }

  // In every run a request that was popped has been answered exactly when no worker
  // has it in hand, and no request is answered twice.
  lemma {:induction false} RunAnsweredOnce(threads: nat, es: seq<Event>)
    ensures var s := Run(Init(threads), es);
      AnsweredOnce(s) && forall i :: 0 <= i < |s.served| ==> (i in s.answered <==> !InHand(s.workers, s.served[i]))
    decreases |es|
  {
    var s := Run(Init(threads), es);
    RunOrderly(threads, es);
    if es != [] {
      var before, last := es[..|es| - 1], es[|es| - 1];
      RunAnsweredOnce(threads, before);
      RunOrderly(threads, before);
      hide Next, InHand, Orderly, AnsweredOnce;
      AnsweredOnceKept(Run(Init(threads), before), last);
    }
    forall i | 0 <= i < |s.served| ensures i in s.answered <==> !InHand(s.workers, s.served[i]) {
      ServedOrInHand(s, i);
    }
  }

  lemma ServedOrInHand(s: State, i: nat)
    requires Orderly(s) && AnsweredOnce(s) && i < |s.served|
    ensures i in s.answered <==> !InHand(s.workers, s.served[i])
  {
    assert s.arrivals[i] == s.served[i];
  }

  lemma {:induction false} BusyMeans(workers: seq<Pc>, w: nat)
    requires w < |workers|
    ensures Works(workers[w]) <= Busy(workers)
  {
    if 0 < w { BusyMeans(workers[1..], w - 1); }
  }

  lemma {:induction false} BusyIsNone(workers: seq<Pc>)
    ensures Busy(workers) == 0 <==> forall w :: 0 <= w < |workers| ==> workers[w].Idle? || workers[w].Left?
  {
    if workers != [] {
      BusyIsNone(workers[1..]);
      assert forall w :: 0 < w < |workers| ==> workers[w] == workers[1..][w - 1];
    }
  }

  // No request waits or is in a worker's hands, no descriptor is on its way, and every
  // request that came was answered.
  predicate NothingLeft(s: State) {
    && s.queue == [] && s.pipe == [] && s.select == {}
    && (forall w :: 0 <= w < |s.workers| ==> s.workers[w].Idle? || s.workers[w].Left?)
    && forall r :: r in s.arrivals ==> r.number in s.answered
  }

  // That is so exactly when no client is left.
  lemma NoClients(s: State)
    requires Orderly(s)
    ensures Connected(s) == 0 <==> NothingLeft(s)
  {
    BusyIsNone(s.workers);
    if Connected(s) == 0 {
      forall r | r in s.arrivals ensures r.number in s.answered {
        var i :| 0 <= i < |s.arrivals| && s.arrivals[i] == r;
        assert i < |s.served| && s.served[i] == r;
      }
    }
  }

  // The manager or a worker goes, and not because of SIGINT or SIGQUIT.
  predicate LeavesForHup(s: State, e: Event) {
    Next(s, e) != s && !s.quit && (e.ManagerLeaves? || e.WorkerLeaves?)
  }

  lemma LeavingMeans(s: State, e: Event)
    requires LeavesForHup(s, e)
    ensures s.hup && s.nclient == 0 && (e.WorkerLeaves? ==> s.queue == [])
  {
  }

  // After SIGHUP, when the manager or a worker leaves because the counter is 0, nothing
  // is left behind exactly when the lost updates of the counter cancel out.  Even if they
  // do not, a worker leaves no request in the queue.
  lemma LeavesNothingBehind(threads: nat, es: seq<Event>, e: Event)
    ensures var s := Run(Init(threads), es);
      LeavesForHup(s, e) ==>
        s.hup && (NothingLeft(s) <==> Slips(Init(threads), es) == 0) && (e.WorkerLeaves? ==> s.queue == [])
  {
    hide Next, LeavesForHup, NothingLeft, Connected, Init, Run, Slips, Orderly;
    var s := Run(Init(threads), es);
    RunOrderly(threads, es);
    CounterDrift(threads, es);
    NoClients(s);
    if LeavesForHup(s, e) { LeavingMeans(s, e); }
  }

  // Only signals end the server: the manager stops or a worker leaves after one of them,
  // and a waiting connection ends it after SIGHUP.
  ghost predicate Signalled(s: State, es: seq<Event>) {
    && (s.hup ==> SigHup in es) && (s.quit ==> SigQuit in es)
    && (s.manager == Stopped ==> s.hup || s.quit) && (s.manager == Crashed ==> s.hup)
    && (forall w :: 0 <= w < |s.workers| && s.workers[w].Left? ==> s.hup || s.quit)
  }

  lemma {:induction false} EndsBySignal(threads: nat, es: seq<Event>)
    ensures Signalled(Run(Init(threads), es), es)
    decreases |es|
  {
    if es != [] {
      var before, last := es[..|es| - 1], es[|es| - 1];
      EndsBySignal(threads, before);
      assert last in es && forall e :: e in before ==> e in es;
      SignalledNext(Run(Init(threads), before), last, before, es);
      hide Next, Signalled;
    }
  }

  lemma SignalledNext(s: State, e: Event, before: seq<Event>, es: seq<Event>)
    requires Signalled(s, before) && e in es && forall f :: f in before ==> f in es
    ensures Signalled(Next(s, e), es)
  {
    hide Places;
  }

  // SIGINT and SIGQUIT stop the manager whoever is connected, SIGHUP once the counter is 0;
  // so with an idle worker, if no request waits.
  lemma SignalsStop(s: State, w: nat)
    requires s.manager.Polling? && w < |s.workers| && s.workers[w].Idle?
    ensures Next(Next(s, SigQuit), ManagerLeaves).manager == Stopped
    ensures Next(Next(s, SigHup), ManagerLeaves).manager == Stopped <==> s.quit || s.nclient == 0
    ensures Next(Next(s, SigQuit), WorkerLeaves(w)).workers[w].Left? <==> s.queue == []
    ensures Next(Next(s, SigHup), WorkerLeaves(w)).workers[w].Left? <==> s.queue == [] && (s.quit || s.nclient == 0)
  {
  }

  // So nothing is left behind where no update is lost.
  lemma LeavesNothingWithoutSlips(threads: nat, es: seq<Event>, e: Event)
    requires NoSlip(Init(threads), es)
    ensures var s := Run(Init(threads), es); LeavesForHup(s, e) ==> NothingLeft(s)
  {
    hide Next, LeavesForHup, NothingLeft, Run, Init, Slip;
    NoSlipSum(Init(threads), es, |es|);
    assert es[..|es|] == es;
    LeavesNothingBehind(threads, es, e);
  }

  // How often descriptor fd was accepted, and how often it was closed.
  function Accepted(s: State, es: seq<Event>, fd: nat): nat
    decreases |es|
  {
    if es == [] then 0
    else Accepted(s, es[..|es| - 1], fd) + if Comes(Run(s, es[..|es| - 1]), es[|es| - 1]) && es[|es| - 1].fd == fd then 1 else 0
  }

  function Closed(s: State, es: seq<Event>, fd: nat): nat
    decreases |es|
  {
    if es == [] then 0
    else
      var r, e := Run(s, es[..|es| - 1]), es[|es| - 1];
      Closed(s, es[..|es| - 1], fd) + if Leaves(r, e) && r.workers[e.w].req.fd == fd then 1 else 0
  }

  // A client is in one place from its accept to its close, and in none otherwise.
  lemma {:induction false} OnePlaceWhileConnected(threads: nat, es: seq<Event>, fd: nat)
    ensures Places(Run(Init(threads), es), fd) == Accepted(Init(threads), es, fd) - Closed(Init(threads), es, fd)
    decreases |es|
  {
    if es == [] {
      NoneHeld(threads, fd);
    } else {
      var before, last := es[..|es| - 1], es[|es| - 1];
      OnePlaceWhileConnected(threads, before, fd);
      CounterDrift(threads, before);
      PlacesMove(Run(Init(threads), before), last, fd);
      hide Places, OnePlace, Next, Connected;
    }
  }

  // In every run, whatever the counter says: each client is in exactly one place while
  // it is connected, so it has no two requests outstanding, and requests are popped
  // once each, as they came.
  lemma ClientsConserved(threads: nat, es: seq<Event>)
    ensures var s := Run(Init(threads), es);
      && (forall fd :: Places(s, fd) <= 1 && Places(s, fd) == Accepted(Init(threads), es, fd) - Closed(Init(threads), es, fd))
      && s.served <= s.arrivals
      && (forall i, j :: 0 <= i < j < |s.arrivals| ==> s.arrivals[i] != s.arrivals[j])
    ensures NoSlip(Init(threads), es) ==> var s := Run(Init(threads), es); |s.queue| <= s.nclient == Connected(s)
  {
    hide Places, Next, Accepted, Closed, Slips, Run;
    var s := Run(Init(threads), es);
    CounterDrift(threads, es);
    RunOrderly(threads, es);
    assert es[..|es|] == es;
    forall fd ensures Places(s, fd) <= 1 && Places(s, fd) == Accepted(Init(threads), es, fd) - Closed(Init(threads), es, fd) {
      OnePlaceWhileConnected(threads, es, fd);
    }
    if NoSlip(Init(threads), es) { CounterRightIff(threads, es); }
  }

  // ---------- when no update is lost ----------

  // An update of the counter is under way.
  ghost predicate Open(s: State) {
    s.manager.Accepting? || exists w :: 0 <= w < |s.workers| && s.workers[w].Loaded?
  }

  // No update begins while another is under way: what a lock would ensure.
  ghost predicate OneAtATime(s: State, es: seq<Event>) {
    forall i :: 0 <= i < |es| && (es[i].AcceptLoad? || es[i].Load?) ==> !Open(Run(s, es[..i]))
  }

  ghost predicate Sole(s: State) {
    && (s.manager.Accepting? ==> s.manager.seen == s.nclient && forall w :: 0 <= w < |s.workers| ==> !s.workers[w].Loaded?)
    && (forall w :: 0 <= w < |s.workers| && s.workers[w].Loaded? ==> s.workers[w].seen == s.nclient)
    && (forall v, w :: 0 <= v < w < |s.workers| && s.workers[v].Loaded? ==> !s.workers[w].Loaded?)
  }

  lemma SoleKept(s: State, e: Event)
    requires Sole(s) && (e.AcceptLoad? || e.Load? ==> !Open(s))
    ensures Sole(Next(s, e)) && Slip(s, e) == 0
  {
  }

  lemma {:induction false} OneAtATimeIsSole(threads: nat, es: seq<Event>, n: nat)
    requires OneAtATime(Init(threads), es) && n <= |es|
    ensures Sole(Run(Init(threads), es[..n]))
  {
    if 0 < n {
      OneAtATimeIsSole(threads, es, n - 1);
      assert es[..n][..n - 1] == es[..n - 1] && es[..n][n - 1] == es[n - 1];
      SoleKept(Run(Init(threads), es[..n - 1]), es[n - 1]);
      hide Next, Sole, Open;
    }
  }

  // Updates that do not overlap are not lost, so all that is proved above of runs
  // without lost updates holds of them.
  lemma OneAtATimeNoSlip(threads: nat, es: seq<Event>)
    requires OneAtATime(Init(threads), es)
    ensures NoSlip(Init(threads), es)
  {
    hide Next, Sole, Open, Slip;
    forall i | 0 <= i < |es| ensures Slip(Run(Init(threads), es[..i]), es[i]) == 0 {
      OneAtATimeIsSole(threads, es, i);
      SoleKept(Run(Init(threads), es[..i]), es[i]);
    }
  }
}
