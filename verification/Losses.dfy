// What a lost update of the client counter does, and runs that lose one.
module Losses {
  import opened Clients

  // After SIGHUP a counter left at 1 by a lost decrement stays there: with no
  // client left nothing changes it, and neither manager nor worker ever leaves.
  lemma {:induction false} NeverStops(s: State, es: seq<Event>)
    requires OnePlace(s) && Connected(s) == 0 && s.manager.Polling? && s.hup && !s.quit && s.nclient != 0
    requires forall e :: e in es ==> !e.SigQuit? && !e.ListenerReady?
    ensures var t := Run(s, es);
      && t.manager.Polling? && t.workers == s.workers && t.nclient == s.nclient
      && OnePlace(t) && Connected(t) == 0 && t.hup && !t.quit
    decreases |es|
  {
    if es != [] {
      var before, last := es[..|es| - 1], es[|es| - 1];
      NeverStops(s, before);
      var r := Run(s, before);
      OnePlaceKept(r, last);
      if ByWorker(last) && last.w < |r.workers| { BusyMeans(r.workers, last.w); }
      assert last in es && r.select == {} && r.queue == [] && r.pipe == [];
      hide OnePlace;
    }
  }

  // Two workers that close their connections together can lose one decrement: two
  // clients go, the counter drops by one.
  lemma LostDecrement(s: State, v: nat, w: nat)
    requires OnePlace(s) && v < |s.workers| && w < |s.workers| && v != w
    requires s.workers[v].Closing? && s.workers[w].Closing?
    ensures var t := Next(Next(Next(Next(s, Load(v)), Load(w)), Store(v)), Store(w));
      Connected(t) == Connected(s) - 2 && t.nclient == s.nclient - 1
  {
    var a := Next(s, Load(v));
    var b := Next(a, Load(w));
    var c := Next(b, Store(v));
    assert b.workers[v] == Loaded(s.workers[v].req, s.nclient) && c.workers[w] == Loaded(s.workers[w].req, s.nclient);
    WorkerMoves(s, Load(v), 0);
    WorkerMoves(a, Load(w), 0);
    WorkerMoves(b, Store(v), 0);
    WorkerMoves(c, Store(w), 0);
    hide Connected, Places;
  }

  // A worker's close can wipe out the manager's count of a new client: the counter
  // drops by one while as many clients are there as before.
  lemma LostIncrement(s: State, w: nat, fd: nat)
    requires OnePlace(s) && w < |s.workers| && s.workers[w].Closing?
    requires s.manager.Polling? && !s.hup && Places(s, fd) == 0
    ensures var t := Next(Next(Next(Next(s, AcceptLoad(fd)), Load(w)), AcceptStore), Store(w));
      && Connected(t) == Connected(s) && t.nclient == s.nclient - 1
      && t.manager.Polling? && fd in t.select && !t.hup && t.quit == s.quit
  {
    var a := Next(s, AcceptLoad(fd));
    var b := Next(a, Load(w));
    var c := Next(b, AcceptStore);
    assert b.manager == Accepting(fd, s.nclient) && c.workers[w] == Loaded(s.workers[w].req, s.nclient);
    OnePlaceKept(s, AcceptLoad(fd));
    OnePlaceKept(a, Load(w));
    ManagerMoves(s, AcceptLoad(fd), 0);
    WorkerMoves(a, Load(w), 0);
    ManagerMoves(b, AcceptStore, 0);
    WorkerMoves(c, Store(w), 0);
    hide Connected, Places;
  }

  // So the server can stop with a client's request in the queue, unanswered.
  lemma StopsTooSoon(s: State, w: nat, fd: nat)
    requires OnePlace(s) && Orderly(s) && s.nclient == 1 && w < |s.workers| && s.workers[w].Closing?
    requires s.manager.Polling? && !s.hup && !s.quit && Places(s, fd) == 0
    ensures var t := Next(Next(Next(Next(s, AcceptLoad(fd)), Load(w)), AcceptStore), Store(w));
      var u := Next(Next(Next(t, Dispatch(fd, false)), SigHup), ManagerLeaves);
      u.manager == Stopped && u.queue != [] && u.nclient == 0 && !u.quit
  {
    LostIncrement(s, w, fd);
    hide Places, OnePlace, Orderly;
  }

  // ---------- runs from the start ----------

  ghost predicate Reached(threads: nat, s: State) {
    exists es :: Run(Init(threads), es) == s
  }

  lemma ReachedStep(threads: nat, s: State, e: Event)
    requires Reached(threads, s)
    ensures Reached(threads, Next(s, e))
  {
    hide Next;
    var es :| Run(Init(threads), es) == s;
    assert (es + [e])[..|es|] == es;
    assert Run(Init(threads), es + [e]) == Next(s, e);
  }

  lemma ReachedMeans(threads: nat, s: State)
    requires Reached(threads, s)
    ensures OnePlace(s) && Orderly(s)
  {
    hide Next, OnePlace, Orderly;
    var es :| Run(Init(threads), es) == s;
    CounterDrift(threads, es);
    RunOrderly(threads, es);
  }

  lemma ReachedStart(threads: nat)
    ensures Reached(threads, Init(threads))
  {
    assert Run(Init(threads), []) == Init(threads);
  }

  // A new client, its update of the counter undisturbed.
  function Joined(s: State, fd: nat): State {
    s.(select := s.select + {fd}, nclient := s.nclient + 1)
  }

  lemma Accept(threads: nat, s: State, fd: nat)
    requires Reached(threads, s) && s.manager.Polling? && !s.hup && Places(s, fd) == 0
    ensures Reached(threads, Joined(s, fd)) && Connected(Joined(s, fd)) == Connected(s) + 1
  {
    hide Reached, Places, OnePlace, Connected;
    var t := s.(manager := Manager.Accepting(fd, s.nclient));
    ReachedStep(threads, s, AcceptLoad(fd));
    ReachedStep(threads, t, AcceptStore);
    ReachedMeans(threads, s);
    ReachedMeans(threads, t);
    ClientsMove(s, AcceptLoad(fd));
    ClientsMove(t, AcceptStore);
  }

  // A client that asks to be closed, up to where its worker is to count it out.
  function Asking(s: State, fd: nat, w: nat): State
    requires w < |s.workers|
  {
    var r := Req(|s.arrivals|, fd, true);
    SetPc(s, w, Closing(r)).(select := s.select - {fd}, arrivals := s.arrivals + [r], served := s.served + [r],
                             answered := s.answered + {r.number})
  }

  lemma AskToClose(threads: nat, s: State, fd: nat, w: nat)
    requires Reached(threads, s) && s.manager.Polling? && fd in s.select && s.queue == [] && w < |s.workers| && s.workers[w].Idle?
    ensures Reached(threads, Asking(s, fd, w)) && Connected(Asking(s, fd, w)) == Connected(s)
  {
    hide Reached, OnePlace, Connected;
    var r := Req(|s.arrivals|, fd, true);
    var a := s.(select := s.select - {fd}, queue := [r], arrivals := s.arrivals + [r]);
    ReachedStep(threads, s, Dispatch(fd, true));
    assert Next(s, Dispatch(fd, true)) == a;
    var b := SetPc(s, w, Serving(r)).(select := s.select - {fd}, arrivals := s.arrivals + [r], served := s.served + [r]);
    ReachedStep(threads, a, Pop(w));
    assert Next(a, Pop(w)) == b;
    ReachedStep(threads, b, Reply(w));
    assert Next(b, Reply(w)) == Asking(s, fd, w);
    ReachedMeans(threads, s);
    ReachedMeans(threads, a);
    ReachedMeans(threads, b);
    ClientsMove(s, Dispatch(fd, true));
    ClientsMove(a, Pop(w));
    ClientsMove(b, Reply(w));
  }

  lemma NotThere(threads: nat, fd: nat)
    ensures Places(Init(threads), fd) == 0
    ensures fd != 0 ==> Places(Joined(Init(threads), 0), fd) == 0
  {
    NoneHeld(threads, fd);
  }

  // Two workers about to count their clients out, the only ones.
  lemma TwoClosing(threads: nat) returns (s: State)
    requires 2 <= threads
    ensures Reached(threads, s) && |s.workers| == threads && Connected(s) == 2
    ensures s.workers[0].Closing? && s.workers[1].Closing? && s.manager.Polling? && !s.hup && !s.quit
    ensures s.nclient == 2
  {
    InitPlaces(threads);
    hide Reached, Places, Connected;
    ReachedStart(threads);
    NotThere(threads, 0);
    NotThere(threads, 1);
    var a := Joined(Init(threads), 0);
    Accept(threads, Init(threads), 0);
    var b := Joined(a, 1);
    Accept(threads, a, 1);
    var c := Asking(b, 0, 0);
    AskToClose(threads, b, 0, 0);
    s := Asking(c, 1, 1);
    AskToClose(threads, c, 1, 1);
  }

  // With two workers or more there is a run after which no client is left and SIGHUP
  // has come, yet the server goes on for ever.
  lemma CanRunForEver(threads: nat)
    requires 2 <= threads
    ensures exists s :: Reached(threads, s) && Connected(s) == 0 && s.hup && !s.quit && Undying(s)
  {
    hide Next, OnePlace, Orderly, Connected, Undying;
    var s := TwoClosing(threads);
    ReachedMeans(threads, s);
    var a := Next(s, Load(0));
    var b := Next(a, Load(1));
    var c := Next(b, Store(0));
    var d := Next(c, Store(1));
    ReachedStep(threads, s, Load(0));
    ReachedStep(threads, a, Load(1));
    ReachedStep(threads, b, Store(0));
    ReachedStep(threads, c, Store(1));
    LostDecrement(s, 0, 1);
    WorkersOnly(s, 0, 1);
    var t := Next(d, SigHup);
    ReachedStep(threads, d, SigHup);
    ReachedMeans(threads, t);
    HupMeans(d);
    NeverDies(t);
  }

  // Whatever follows, except SIGINT, SIGQUIT and a new connection, the manager polls
  // and the workers wait.
  ghost predicate Undying(s: State) {
    forall es: seq<Event> :: (forall e :: e in es ==> !e.SigQuit? && !e.ListenerReady?) ==>
      Run(s, es).manager.Polling? && Run(s, es).workers == s.workers
  }

  lemma NeverDies(s: State)
    requires OnePlace(s) && Connected(s) == 0 && s.manager.Polling? && s.hup && !s.quit && s.nclient != 0
    ensures Undying(s)
  {
    hide OnePlace, Connected, Next;
    forall es: seq<Event> | forall e :: e in es ==> !e.SigQuit? && !e.ListenerReady?
      ensures Run(s, es).manager.Polling? && Run(s, es).workers == s.workers {
      NeverStops(s, es);
    }
  }

  lemma HupMeans(s: State)
    ensures s.manager.Polling? ==> Next(s, SigHup) == s.(hup := true) && Connected(s.(hup := true)) == Connected(s)
  {
  }

  lemma WorkersOnly(s: State, v: nat, w: nat)
    ensures var t := Next(Next(Next(Next(s, Load(v)), Load(w)), Store(v)), Store(w));
      t.manager == s.manager && t.hup == s.hup && t.quit == s.quit
  {
  }

  // With any worker there is a run that stops the server after SIGHUP with a client's
  // request in the queue.
  lemma CanStopTooSoon(threads: nat)
    requires 1 <= threads
    ensures exists s :: Reached(threads, s) && s.manager == Stopped && s.queue != [] && !s.quit
  {
    InitPlaces(threads);
    ReachedStart(threads);
    NotThere(threads, 0);
    NotThere(threads, 1);
    hide Reached, Connected, OnePlace, Orderly, Next;
    Accept(threads, Init(threads), 0);
    var a := Joined(Init(threads), 0);
    AskToClose(threads, a, 0, 0);
    var s := Asking(a, 0, 0);
    ReachedMeans(threads, s);
    OnlyOne(threads, s);
    StopsTooSoon(s, 0, 1);
    StoppedReached(threads, s);
  }

  lemma OnlyOne(threads: nat, s: State)
    requires 1 <= threads && s == Asking(Joined(Init(threads), 0), 0, 0)
    ensures Places(s, 1) == 0
  {
    NoneHeld(threads, 1);
    HeldUpdate(Init(threads).workers, 0, s.workers[0], 1);
    hide Held;
  }

  lemma StoppedReached(threads: nat, s: State)
    requires Reached(threads, s)
    ensures var t := Next(Next(Next(Next(s, AcceptLoad(1)), Load(0)), AcceptStore), Store(0));
      Reached(threads, Next(Next(Next(t, Dispatch(1, false)), SigHup), ManagerLeaves))
  {
    hide Reached, Next;
    var a := Next(s, AcceptLoad(1));
    var b := Next(a, Load(0));
    var c := Next(b, AcceptStore);
    var t := Next(c, Store(0));
    var u := Next(t, Dispatch(1, false));
    ReachedStep(threads, s, AcceptLoad(1));
    ReachedStep(threads, a, Load(0));
    ReachedStep(threads, b, AcceptStore);
    ReachedStep(threads, c, Store(0));
    ReachedStep(threads, t, Dispatch(1, false));
    ReachedStep(threads, u, SigHup);
    ReachedStep(threads, Next(u, SigHup), ManagerLeaves);
  }

  // A connection that waits once SIGHUP is known ends the server with a request in the
  // queue, although no update of the counter is lost.
  lemma CanCrash(threads: nat)
    ensures exists s :: Reached(threads, s) && s.manager == Crashed && s.queue != [] && s.answered == {} && s.nclient == Connected(s) == 1
  {
    InitPlaces(threads);
    ReachedStart(threads);
    NotThere(threads, 0);
    hide Reached, Connected, OnePlace, Orderly;
    Accept(threads, Init(threads), 0);
    var a := Joined(Init(threads), 0);
    ReachedStep(threads, a, Dispatch(0, false));
    var b := Next(a, Dispatch(0, false));
    ReachedStep(threads, b, SigHup);
    var c := Next(b, SigHup);
    ReachedStep(threads, c, ListenerReady);
    var d := Next(c, ListenerReady);
    ReachedMeans(threads, a);
    ReachedMeans(threads, b);
    ReachedMeans(threads, c);
    ClientsMove(a, Dispatch(0, false));
    ClientsMove(b, SigHup);
    ClientsMove(c, ListenerReady);
  }
}
