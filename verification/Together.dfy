// The clients' machinery and the store together: a worker that pops a request starts on
// it, and answers once it has done with the store.  The store's workers take a request
// without any test of their own here; that the client is connected and has no other
// request under way follows from where its descriptor is.
module Together {
  import C = Clients
  import opened Service
  import opened Workers
  import Ownership

  datatype Pair = Pair(clients: C.State, store: State)

  datatype Step =
    | Manage(e: C.Event)              // any step of the clients' machinery but a pop
    | Take(w: nat, request: Request)  // a pop, and what its request asks for
    | Work(section: Event)            // a section, eviction or give-up of a worker

  function Begin(threads: nat, ram: nat, nfile: nat): Pair {
    Pair(C.Init(threads), Init(ram, nfile, threads))
  }

  // What a popped request asks of the store.
  function Asked(r: C.Req, request: Request): Op {
    if r.closes then Hangup else Ask(request)
  }

  // The worker starts, whatever else goes on.
  function Begun(s: State, w: nat, fd: nat, op: Op): State
    requires w < |s.workers|
  {
    SetPc(s, w, Started(Job(fd, if fd in s.conns then s.conns[fd] else s.nextConn, op)))
  }

  function Move(p: Pair, step: Step): Pair {
    if p.store.fault then p else
    match step
    case Manage(e) =>
      if e.Pop? || (e.Reply? && e.w < |p.store.workers| && !p.store.workers[e.w].Idle?) then p
      else Pair(C.Next(p.clients, e), if C.Comes(p.clients, e) then Next(p.store, Connect(e.fd)) else p.store)
    case Take(w, request) =>
      if w < |p.store.workers| && w < |p.clients.workers| && p.clients.workers[w].Idle? && p.clients.queue != [] then
        var r := p.clients.queue[0];
        Pair(C.Next(p.clients, C.Pop(w)), Begun(p.store, w, r.fd, Asked(r, request)))
      else p
    case Work(e) =>
      if e.Advance? || e.Aim? || e.Evict? || e.Quit? then p.(store := Next(p.store, e)) else p
  }

  function Together(p: Pair, steps: seq<Step>): Pair
    decreases |steps|
  {
    if steps == [] then p else Move(Together(p, steps[..|steps| - 1]), steps[|steps| - 1])
  }

  // ---------- what ties the two together ----------

  // Worker w's client is one the store still knows.
  predicate Live(p: Pair, w: nat)
    requires w < |p.clients.workers| && w < |p.store.workers|
  {
    var pc := p.clients.workers[w];
    !pc.Idle? && !pc.Left? && (!pc.req.closes || !p.store.workers[w].Idle?)
  }

  // A worker busy in the store serves the request it popped; one that has closed its
  // connection is at the end of a close.
  predicate Matches(p: Pair, w: nat)
    requires w < |p.clients.workers| && w < |p.store.workers|
  {
    var pc, st := p.clients.workers[w], p.store.workers[w];
    && (!st.Idle? ==> pc.Serving? && pc.req.fd == st.job.fd && (pc.req.closes <==> st.job.op.Hangup?))
    && (!st.Idle? && st.job.op.Hangup? ==> st.Started?)
    && (pc.Answered? ==> !pc.req.closes) && (pc.Closing? || pc.Loaded? ==> pc.req.closes)
  }

  // Whoever waits for the manager, a worker or the pipe is connected in the store.
  ghost predicate Known(p: Pair)
    requires |p.clients.workers| == |p.store.workers|
  {
    && (forall fd :: fd in p.clients.select ==> fd in p.store.conns)
    && (forall i :: 0 <= i < |p.clients.queue| ==> p.clients.queue[i].fd in p.store.conns)
    && (forall i :: 0 <= i < |p.clients.pipe| ==> p.clients.pipe[i] in p.store.conns)
    && (p.clients.manager.Accepting? ==> p.clients.manager.fd in p.store.conns)
    && (forall w :: 0 <= w < |p.clients.workers| && Live(p, w) ==> p.clients.workers[w].req.fd in p.store.conns)
  }

  // And nobody else is.
  ghost predicate Only(p: Pair)
    requires |p.clients.workers| == |p.store.workers|
  {
    && (forall fd :: fd in p.store.conns ==> 1 <= C.Places(p.clients, fd))
    && (forall w :: 0 <= w < |p.clients.workers| && !p.clients.workers[w].Idle? && !p.clients.workers[w].Left? && !Live(p, w)
          ==> p.clients.workers[w].req.fd !in p.store.conns)
  }

  ghost predicate Coupled(p: Pair) {
    && C.OnePlace(p.clients) && |p.clients.workers| == |p.store.workers| && |p.store.files| == |p.store.ids| && !p.store.fault
    && (forall w :: 0 <= w < |p.clients.workers| ==> Matches(p, w))
    && Known(p) && Only(p)
  }

  // ---------- descriptors and their places ----------

  lemma {:induction false} QueuedIs(queue: seq<C.Req>, i: nat)
    requires i < |queue|
    ensures 1 <= C.Queued(queue, queue[i].fd)
  {
    if 0 < i { QueuedIs(queue[1..], i - 1); }
  }

  lemma {:induction false} PipedIs(pipe: seq<nat>, i: nat)
    requires i < |pipe|
    ensures 1 <= C.Piped(pipe, pipe[i])
  {
    if 0 < i { PipedIs(pipe[1..], i - 1); }
  }

  lemma {:induction false} HeldIs(workers: seq<C.Pc>, w: nat, fd: nat)
    requires w < |workers|
    ensures C.Serves(workers[w], fd) <= C.Held(workers, fd)
    ensures forall v :: 0 <= v < |workers| && v != w ==> C.Serves(workers[v], fd) + C.Serves(workers[w], fd) <= C.Held(workers, fd)
  {
    if 0 < w {
      HeldIs(workers[1..], w - 1, fd);
      assert forall v :: 0 < v < |workers| ==> workers[v] == workers[1..][v - 1];
    } else {
      forall v | 0 < v < |workers| ensures C.Serves(workers[v], fd) + C.Serves(workers[0], fd) <= C.Held(workers, fd) {
        HeldIs(workers[1..], v - 1, fd);
        assert workers[v] == workers[1..][v - 1];
      }
    }
  }

  // A descriptor that worker w has is nowhere else.
  lemma Nowhere(c: C.State, w: nat, fd: nat)
    requires C.OnePlace(c) && w < |c.workers| && C.Serves(c.workers[w], fd) == 1
    ensures fd !in c.select && fd !in c.pipe && !(c.manager.Accepting? && c.manager.fd == fd)
    ensures forall i :: 0 <= i < |c.queue| ==> c.queue[i].fd != fd
    ensures forall v :: 0 <= v < |c.workers| && v != w ==> C.Serves(c.workers[v], fd) == 0
  {
    HeldIs(c.workers, w, fd);
    assert C.Places(c, fd) <= 1;
    forall i | 0 <= i < |c.queue| ensures c.queue[i].fd != fd { QueuedIs(c.queue, i); }
    if fd in c.pipe {
      var i :| 0 <= i < |c.pipe| && c.pipe[i] == fd;
      PipedIs(c.pipe, i);
    }
  }

  // A descriptor that waits in the queue is with no worker.
  lemma NoWorkerHas(c: C.State, i: nat)
    requires C.OnePlace(c) && i < |c.queue|
    ensures forall w :: 0 <= w < |c.workers| ==> C.Serves(c.workers[w], c.queue[i].fd) == 0
  {
    var fd := c.queue[i].fd;
    QueuedIs(c.queue, i);
    assert C.Places(c, fd) <= 1;
    forall w | 0 <= w < |c.workers| ensures C.Serves(c.workers[w], fd) == 0 { HeldIs(c.workers, w, fd); }
  }

  // The guard that the store's own step system puts on a start.
  predicate Welcome(s: State, w: nat, fd: nat) {
    w < |s.workers| && s.workers[w].Idle? && fd in s.conns && !Busy(s.workers, fd)
  }

  // It always holds: the client whose request is popped is connected, and no worker is
  // busy with another request of it.
  lemma PopIsWelcome(p: Pair, w: nat)
    requires Coupled(p) && w < |p.clients.workers| && p.clients.workers[w].Idle? && p.clients.queue != []
    ensures Welcome(p.store, w, p.clients.queue[0].fd)
  {
    hide C.OnePlace, Only;
    var fd := p.clients.queue[0].fd;
    NoWorkerHas(p.clients, 0);
    assert Matches(p, w);
    forall v | 0 <= v < |p.store.workers| && !p.store.workers[v].Idle? ensures p.store.workers[v].job.fd != fd {
      assert Matches(p, v) && C.Serves(p.clients.workers[v], fd) == 0;
    }
  }

  // ---------- the steps ----------

  // A step of the clients' machinery moves no descriptor in or out of the store, but
  // for the accept.
  lemma OnlyKept(p: Pair, e: C.Event)
    requires Coupled(p)
    ensures forall fd :: fd in p.store.conns ==> 1 <= C.Places(C.Next(p.clients, e), fd)
    ensures C.Comes(p.clients, e) ==> e.fd !in p.store.conns && 1 <= C.Places(C.Next(p.clients, e), e.fd)
  {
    hide C.Places, C.Next, Known;
    if C.Leaves(p.clients, e) { assert Matches(p, e.w) && !Live(p, e.w); }
    forall fd | fd in p.store.conns ensures 1 <= C.Places(C.Next(p.clients, e), fd) {
      C.PlacesMove(p.clients, e, fd);
    }
    if C.Comes(p.clients, e) { C.PlacesMove(p.clients, e, e.fd); }
  }

  // The client that comes with an accept is no worker's.
  lemma ComesToNone(p: Pair, fd: nat)
    requires C.Places(p.clients, fd) == 0
    ensures forall w :: 0 <= w < |p.clients.workers| ==> C.Serves(p.clients.workers[w], fd) == 0
  {
    forall w | 0 <= w < |p.clients.workers| ensures C.Serves(p.clients.workers[w], fd) == 0 { HeldIs(p.clients.workers, w, fd); }
  }

  // Where the manager has moved descriptors only, or taken a new one in, the workers
  // are as they were.
  lemma SameWorkers(p: Pair, q: Pair)
    requires |p.clients.workers| == |p.store.workers|
    requires q.clients.workers == p.clients.workers && q.store.workers == p.store.workers
    ensures forall w :: 0 <= w < |p.clients.workers| ==> Matches(q, w) == Matches(p, w) && Live(q, w) == Live(p, w)
  {
  }

  // The same where one worker has moved.
  lemma OtherWorkers(p: Pair, q: Pair, w: nat)
    requires |p.clients.workers| == |p.store.workers| == |q.clients.workers| == |q.store.workers|
    requires forall v :: 0 <= v < |p.clients.workers| && v != w ==>
      q.clients.workers[v] == p.clients.workers[v] && q.store.workers[v] == p.store.workers[v]
    ensures forall v :: 0 <= v < |p.clients.workers| && v != w ==> Matches(q, v) == Matches(p, v) && Live(q, v) == Live(p, v)
  {
  }

  lemma AcceptKeeps(p: Pair, fd: nat)
    requires Coupled(p)
    ensures Coupled(Move(p, Manage(C.AcceptLoad(fd))))
  {
    var e := C.AcceptLoad(fd);
    var q := Move(p, Manage(e));
    OnlyKept(p, e);
    C.OnePlaceKept(p.clients, e);
    if C.Comes(p.clients, e) {
      ComesToNone(p, fd);
      hide C.Places, C.OnePlace;
      SameWorkers(p, q);
      hide Matches, Live;
    }
  }

  // What the manager does otherwise leaves the workers and the store alone.
  lemma ManagerKeeps(p: Pair, e: C.Event)
    requires Coupled(p) && !C.ByWorker(e) && !e.AcceptLoad?
    ensures Coupled(Move(p, Manage(e)))
  {
    var q := Move(p, Manage(e));
    OnlyKept(p, e);
    C.OnePlaceKept(p.clients, e);
    assert q.store == p.store && q.clients.workers == p.clients.workers;
    SameWorkers(p, q);
    hide C.Places, C.OnePlace, Matches, Live;
  }

  // A worker goes on within its request, or is done with it.
  lemma WorkerGoesOn(p: Pair, e: C.Event)
    requires Coupled(p) && C.ByWorker(e) && !e.Pop? && Move(p, Manage(e)) != p
    ensures var q := Move(p, Manage(e));
      && e.w < |p.clients.workers| && q.store == p.store
      && q.clients.workers == p.clients.workers[e.w := q.clients.workers[e.w]] && Matches(q, e.w)
      && (Live(q, e.w) ==> Live(p, e.w) && q.clients.workers[e.w].req == p.clients.workers[e.w].req)
      && (q.clients.workers[e.w].Idle? || q.clients.workers[e.w].Left? ||
          (q.clients.workers[e.w].req == p.clients.workers[e.w].req && !p.clients.workers[e.w].Idle? && !p.clients.workers[e.w].Left?
           && (Live(q, e.w) <==> Live(p, e.w))))
      && q.clients.select == p.clients.select && q.clients.queue == p.clients.queue && q.clients.manager == p.clients.manager
      && (q.clients.pipe == p.clients.pipe || (Live(p, e.w) && q.clients.pipe == p.clients.pipe + [p.clients.workers[e.w].req.fd]))
  {
    assert Matches(p, e.w);
    hide C.Places, C.OnePlace, Known, Only;
  }

  lemma WorkerKeeps(p: Pair, e: C.Event)
    requires Coupled(p) && C.ByWorker(e) && !e.Pop?
    ensures Coupled(Move(p, Manage(e)))
  {
    var q := Move(p, Manage(e));
    if q != p {
      OnlyKept(p, e);
      C.OnePlaceKept(p.clients, e);
      WorkerGoesOn(p, e);
      assert q.clients == C.Next(p.clients, e);
      hide C.Places, C.OnePlace, C.Next, Move;
      OtherWorkers(p, q, e.w);
      hide Matches, Live;
    }
  }

  lemma TakeKeeps(p: Pair, w: nat, request: Request)
    requires Coupled(p)
    ensures Coupled(Move(p, Take(w, request)))
  {
    var q := Move(p, Take(w, request));
    if q != p {
      PopIsWelcome(p, w);
      OnlyKept(p, C.Pop(w));
      C.OnePlaceKept(p.clients, C.Pop(w));
      hide C.Places, C.OnePlace, Busy;
      OtherWorkers(p, q, w);
      assert Matches(q, w) && Live(q, w) && q.store.conns == p.store.conns;
      hide Matches, Live;
      assert forall i :: 0 <= i < |q.clients.queue| ==> q.clients.queue[i] == p.clients.queue[i + 1];
    }
  }

  // A section that is not a hangup.
  lemma QuietSection(p: Pair, q: Pair, w: nat)
    requires Coupled(p) && q == p.(store := q.store) && w < |p.store.workers| && Ownership.GoesOn(p.store, q.store, w)
    requires q.store.conns == p.store.conns && |q.store.files| == |q.store.ids| && !q.store.fault
    requires !p.store.workers[w].Idle? ==> !p.store.workers[w].job.op.Hangup?
    ensures Coupled(q)
  {
    hide C.Places, C.OnePlace;
    assert Matches(p, w);
    assert forall v :: 0 <= v < |p.clients.workers| && v != w ==> Matches(q, v) == Matches(p, v) && Live(q, v) == Live(p, v);
    assert Matches(q, w) && (Live(q, w) ==> Live(p, w)) && (Live(p, w) ==> Live(q, w));
  }

  // The hangup takes the descriptor out of the store, and only its worker had it.
  lemma HangupSection(p: Pair, q: Pair, w: nat)
    requires Coupled(p) && q == p.(store := q.store) && w < |p.store.workers| && Ownership.GoesOn(p.store, q.store, w)
    requires p.store.workers[w].Started? && p.store.workers[w].job.op.Hangup? && q.store.workers[w].Idle?
    requires q.store.conns == p.store.conns - {p.store.workers[w].job.fd}
    requires |q.store.files| == |q.store.ids| && !q.store.fault
    ensures Coupled(q)
  {
    var fd := p.store.workers[w].job.fd;
    assert Matches(p, w);
    Nowhere(p.clients, w, fd);
    hide C.Places, C.OnePlace;
    assert forall v :: 0 <= v < |p.clients.workers| && v != w ==> Matches(q, v) == Matches(p, v) && Live(q, v) == Live(p, v);
    assert Matches(q, w) && !Live(q, w);
    assert forall i :: 0 <= i < |p.clients.pipe| ==> p.clients.pipe[i] in p.clients.pipe;
  }

  lemma WorkKeeps(p: Pair, e: Event)
    requires Coupled(p)
    ensures var q := Move(p, Work(e)); q.store.fault || Coupled(q)
  {
    var q := Move(p, Work(e));
    hide Coupled, Section, Dangling, Drop;
    assert |p.store.files| == |p.store.ids| && !p.store.fault by { CoupledMeans(p); }
    NextLengths(p.store, e);
    if e.Advance? && e.w < |p.store.workers| && !Dangling(p.store, e.w) {
      Ownership.SectionMoves(p.store, e.w);
      Ownership.SectionConns(p.store, e.w);
      SectionKeepsFault(p.store, e.w);
      if p.store.workers[e.w].Started? && p.store.workers[e.w].job.op.Hangup? {
        HangupSection(p, q, e.w);
      } else {
        HangupStarts(p, e.w);
        QuietSection(p, q, e.w);
      }
    } else if (e.Aim? || e.Evict? || e.Quit?) && e.w < |p.store.workers| && !q.store.fault {
      GivesUpOrEvicts(p.store, e);
      HangupStarts(p, e.w);
      if q != p { QuietSection(p, q, e.w); }
    }
  }

  lemma CoupledMeans(p: Pair)
    requires Coupled(p)
    ensures |p.store.files| == |p.store.ids| && !p.store.fault && |p.clients.workers| == |p.store.workers| && C.OnePlace(p.clients)
  {
  }

  lemma HangupStarts(p: Pair, w: nat)
    requires Coupled(p) && w < |p.store.workers|
    ensures !p.store.workers[w].Idle? && p.store.workers[w].job.op.Hangup? ==> p.store.workers[w].Started?
  {
    assert Matches(p, w);
  }

  lemma NextLengths(s: State, e: Event)
    requires |s.files| == |s.ids|
    ensures |Next(s, e).files| == |Next(s, e).ids|
  {
    hide Section, Dangling, Busy, IndexOf, At;
    if e.Advance? && e.w < |s.workers| && !Dangling(s, e.w) { SectionKeepsFault(s, e.w); }
  }

  lemma GivesUpOrEvicts(s: State, e: Event)
    requires (e.Aim? || e.Evict? || e.Quit?) && e.w < |s.workers| && |s.files| == |s.ids| && !s.fault
    ensures Next(s, e).fault || (Ownership.GoesOn(s, Next(s, e), e.w) && Next(s, e).conns == s.conns)
    ensures Next(s, e) != s ==> !s.workers[e.w].Started?
  {
    hide IndexOf;
  }

  lemma StepKeeps(p: Pair, step: Step)
    requires Coupled(p)
    ensures var q := Move(p, step); q.store.fault || Coupled(q)
  {
    hide Coupled;
    match step {
      case Manage(e) =>
        if e.Pop? {
        } else if C.ByWorker(e) { WorkerKeeps(p, e); } else if e.AcceptLoad? { AcceptKeeps(p, e.fd); } else { ManagerKeeps(p, e); }
      case Take(w, request) => TakeKeeps(p, w, request);
      case Work(e) => WorkKeeps(p, e);
    }
    hide Move;
  }

  lemma StartsCoupled(threads: nat, ram: nat, nfile: nat)
    ensures Coupled(Begin(threads, ram, nfile))
  {
    C.InitPlaces(threads);
    hide C.Places, C.OnePlace;
  }

  // ---------- runs ----------

  // In every run of the two together, up to a fault, whoever's request is popped is
  // connected and has no other one under way; so the store's part is a run of its own
  // system, whose guard is never what stops a start, and so is the clients' part.
  lemma {:induction false} TogetherIsBoth(threads: nat, ram: nat, nfile: nat, steps: seq<Step>)
    ensures var p := Together(Begin(threads, ram, nfile), steps);
      && (p.store.fault || Coupled(p))
      && (exists es :: Workers.Run(Init(ram, nfile, threads), es) == p.store)
      && (exists cs :: C.Run(C.Init(threads), cs) == p.clients)
    decreases |steps|
  {
    hide Coupled, Move, Next, C.Next;
    if steps == [] {
      StartsCoupled(threads, ram, nfile);
      assert Workers.Run(Init(ram, nfile, threads), []) == Init(ram, nfile, threads) && C.Run(C.Init(threads), []) == C.Init(threads);
    } else {
      var before, last := steps[..|steps| - 1], steps[|steps| - 1];
      TogetherIsBoth(threads, ram, nfile, before);
      var p := Together(Begin(threads, ram, nfile), before);
      if p.store.fault { Frozen(p, last); } else { StepKeeps(p, last); }
      StoreGoesOn(threads, ram, nfile, p, last);
      ClientsGoOn(threads, p, last);
    }
  }

  lemma Frozen(p: Pair, step: Step)
    requires p.store.fault
    ensures Move(p, step) == p
  {
  }

  // What a step does to the store is one event of the store's system, or nothing.
  lemma StoreStep(p: Pair, step: Step) returns (e: Event)
    requires p.store.fault || Coupled(p)
    ensures Move(p, step).store == p.store || Move(p, step).store == Next(p.store, e)
  {
    e := Quit(0);
    match step {
      case Manage(f) => if f.AcceptLoad? { e := Connect(f.fd); }
      case Take(w, request) =>
        if !p.store.fault && w < |p.store.workers| && w < |p.clients.workers| && p.clients.workers[w].Idle? && p.clients.queue != [] {
          PopIsWelcome(p, w);
          e := Start(w, p.clients.queue[0].fd, Asked(p.clients.queue[0], request));
          CoupledMeans(p);
        }
      case Work(f) => e := f;
    }
    hide Coupled, Section, Dangling, Busy;
  }

  lemma StoreGoesOn(threads: nat, ram: nat, nfile: nat, p: Pair, step: Step)
    requires p.store.fault || Coupled(p)
    requires exists es :: Workers.Run(Init(ram, nfile, threads), es) == p.store
    ensures exists es :: Workers.Run(Init(ram, nfile, threads), es) == Move(p, step).store
  {
    hide Coupled, Move, Next, Init;
    var es :| Workers.Run(Init(ram, nfile, threads), es) == p.store;
    var e := StoreStep(p, step);
    Extend(Init(ram, nfile, threads), es, e);
  }

  lemma ClientsStep(p: Pair, step: Step) returns (e: C.Event)
    ensures Move(p, step).clients == p.clients || Move(p, step).clients == C.Next(p.clients, e)
  {
    e := if step.Manage? then step.e else if step.Take? then C.Pop(step.w) else C.SigHup;
  }

  lemma ClientsGoOn(threads: nat, p: Pair, step: Step)
    requires exists cs :: C.Run(C.Init(threads), cs) == p.clients
    ensures exists cs :: C.Run(C.Init(threads), cs) == Move(p, step).clients
  {
    hide Move, C.Next, C.Init;
    var cs :| C.Run(C.Init(threads), cs) == p.clients;
    var e := ClientsStep(p, step);
    assert (cs + [e])[..|cs|] == cs;
    assert C.Run(C.Init(threads), cs + [e]) == C.Next(p.clients, e);
  }
}
