// When a worker can touch memory that another one has freed: cursors and files found
// in one locked section are used in the next.  Removals unlink properly here, so what a
// torn list does comes on top.
module Faults {
  import opened Files
  import opened Service
  import opened Workers
  import opened Ownership
  import Alone

  // ---------- what a step frees ----------

  // The file that an event frees.
  function Frees(s: State, e: Event): Link {
    if Takes(s, e) then To(s.ids[Aimed(s, e.w)])
    else if e.Advance? && e.w < |s.workers| && !s.fault && |s.files| == |s.ids| && s.workers[e.w].DropSelf? && !Dangling(s, e.w)
      then To(s.workers[e.w].id)
    else End
  }

  // Every other file stays.
  lemma SectionNames(s: State, w: nat, id: Id)
    requires Numbered(s) && w < |s.workers| && !s.fault && !Dangling(s, w) && id in s.ids
    ensures id in Section(s, w).ids <==> Frees(s, Advance(w)) != To(id)
  {
    assert |s.files| == |s.ids|;
    if s.workers[w].DropSelf? { DropOther(s, IndexOf(s.ids, s.workers[w].id), id); }
    hide Numbered, Newest, IndexOf, Drop, Name, Chunk, Appended;
    match s.workers[w] {
      case Started(job) => SearchMovesNothing(s, w, job);
      case Waiting(_, _) =>
      case _ =>
    }
  }

  lemma NextNames(s: State, e: Event, id: Id)
    requires Numbered(s) && id in s.ids
    ensures id in Next(s, e).ids <==> Frees(s, e) != To(id)
  {
    assert |s.files| == |s.ids|;
    if e.Advance? && e.w < |s.workers| && !s.fault && !Dangling(s, e.w) {
      SectionNames(s, e.w, id);
    } else {
      OtherEvents(s, e);
      if Takes(s, e) { DropOther(s, Aimed(s, e.w), id); }
    }
    hide Section, Dangling, Drop, Busy, Numbered, IndexOf;
  }

  // ---------- cursors ----------

  function CursorOf(pc: Pc): Link {
    match pc
    case EvictSlot(_, cur) => cur
    case EvictRoom(_, _, cur) => cur
    case Walking(_, _, cur) => cur
    case _ => End
  }

  // Worker state `pc` has its cursor on a freed file.
  predicate Lost(s: State, pc: Pc) {
    CursorOf(pc).To? && CursorOf(pc).id !in s.ids
  }

  // A worker's own section leaves its cursor on a file of the store.
  lemma SectionCursor(s: State, w: nat)
    requires Numbered(s) && w < |s.workers| && !s.fault && !Dangling(s, w) && !Lost(s, s.workers[w])
    ensures w < |Section(s, w).workers| && !Lost(Section(s, w), Section(s, w).workers[w])
  {
    assert |s.files| == |s.ids|;
    SectionMoves(s, w);
    hide Numbered, Newest, IndexOf, Drop, Name, Chunk, Appended;
    match s.workers[w] {
      case Started(_) =>
      case Waiting(_, _) =>
      case _ =>
    }
  }

  // So does its own eviction: the cursor is on the father before the file goes.
  lemma TurnCursor(s: State, w: nat, k: nat)
    requires Numbered(s) && w < |s.workers| && MakesRoom(s.workers[w]) && k < |s.files|
    ensures |s.files| == |s.ids| && w < |Turn(s, w, k).workers| && !Lost(Turn(s, w, k), Turn(s, w, k).workers[w])
  {
    if 0 < k { DropOther(s, k, s.ids[k - 1]); }
    DropKeepsWorkers(s, k);
    hide Drop, Evictable;
  }

  lemma OwnCursor(s: State, e: Event, w: nat)
    requires Numbered(s) && w < |s.workers| && !Lost(s, s.workers[w]) && !e.Connect? && e.w == w
    ensures w < |Next(s, e).workers| && !Lost(Next(s, e), Next(s, e).workers[w])
  {
    assert |s.files| == |s.ids|;
    if e.Advance? && !s.fault && !Dangling(s, w) { SectionCursor(s, w); }
    if e.Evict? && Aimed(s, w) < |s.ids| { TurnCursor(s, w, Aimed(s, w)); }
    hide Section, Dangling, Turn, Numbered, Busy, IndexOf;
  }

  lemma OthersMove(s: State, e: Event, w: nat)
    requires w < |s.workers| && (e.Connect? || e.w != w)
    ensures w < |Next(s, e).workers| && Next(s, e).workers[w] == s.workers[w]
  {
    if e.Advance? && e.w < |s.workers| && |s.files| == |s.ids| && !Dangling(s, e.w) { SectionMoves(s, e.w); }
    if e.Evict? && e.w < |s.workers| && Aimed(s, e.w) < |s.ids| && |s.files| == |s.ids| { DropKeepsWorkers(s, Aimed(s, e.w)); }
    hide Section, Dangling, Drop, Busy, Evictable, IndexOf;
  }

  // A cursor comes to point to freed memory exactly when another worker frees the file
  // it is on.
  lemma CursorLost(s: State, e: Event, w: nat)
    requires Numbered(s) && w < |s.workers| && !Lost(s, s.workers[w])
    ensures w < |Next(s, e).workers|
    ensures Lost(Next(s, e), Next(s, e).workers[w]) <==>
      !e.Connect? && e.w != w && CursorOf(s.workers[w]).To? && Frees(s, e) == CursorOf(s.workers[w])
  {
    hide Next, Frees, Numbered;
    if !e.Connect? && e.w == w {
      OwnCursor(s, e, w);
    } else {
      OthersMove(s, e, w);
      if CursorOf(s.workers[w]).To? { NextNames(s, e, CursorOf(s.workers[w]).id); }
      ConnectFrees(s, e);
    }
  }

  lemma ConnectFrees(s: State, e: Event)
    ensures e.Connect? ==> Frees(s, e) == End
  {
  }

  // ---------- without readN ----------

  // A request that waits for a file that has gone.
  predicate WaitsInVain(s: State, e: Event) {
    e.Advance? && e.w < |s.workers| && s.workers[e.w].Waiting? && s.workers[e.w].id !in s.ids
  }

  // An eviction whose cursor is on a file that has gone.
  predicate EvictsInVain(s: State, e: Event) {
    e.Evict? && e.w < |s.workers| && MakesRoom(s.workers[e.w]) && Lost(s, s.workers[e.w])
  }

  // A readN that goes on from a file that has gone.
  predicate WalksInVain(s: State, e: Event) {
    e.Advance? && e.w < |s.workers| && s.workers[e.w].Walking? && 0 < s.workers[e.w].left && Lost(s, s.workers[e.w])
  }

  // An append that looks at its file, removes it or writes to it when it has gone; its
  // tests for room and its eviction do not look at it.
  predicate AppendsInVain(s: State, e: Event) {
    e.Advance? && e.w < |s.workers| &&
    match s.workers[e.w]
    case TestSize(job, id) => s.ramTot < |Chunk(job)| && id !in s.ids
    case DropSelf(_, id) => id !in s.ids
    case CommitNow(_, id) => id !in s.ids
    case _ => false
  }

  // What touches freed memory in general, with readN: these and nothing else.
  lemma FaultsInGeneral(s: State, e: Event)
    requires |s.files| == |s.ids| && !s.fault
    ensures Next(s, e).fault <==> WaitsInVain(s, e) || EvictsInVain(s, e) || WalksInVain(s, e) || AppendsInVain(s, e)
  {
    if e.Advance? && e.w < |s.workers| && !Dangling(s, e.w) { SectionKeepsFault(s, e.w); }
    hide Section, Busy, IndexOf, Evictable;
  }

  // Without readN, freed memory is touched by a request still waiting for a file that
  // its client does not hold and by an eviction whose cursor has been lost, and by
  // nothing else: never by an append past its test, never by the file's holder.
  lemma FaultsAre(s: State, e: Event)
    requires Settled(s) && Numbered(s) && !s.fault
    ensures Next(s, e).fault <==> WaitsInVain(s, e) || EvictsInVain(s, e)
  {
    assert |s.files| == |s.ids|;
    FaultsInGeneral(s, e);
    if e.Advance? && e.w < |s.workers| { assert Calm(s, s.workers[e.w]); }
    hide Next, Numbered, Settled, IndexOf;
  }

  lemma FaultsWithoutReadN(ram: nat, nfile: nat, threads: nat, es: seq<Event>, e: Event)
    requires NoWalks(es)
    ensures var s := Workers.Run(Init(ram, nfile, threads), es);
      !s.fault ==> (Next(s, e).fault <==> WaitsInVain(s, e) || EvictsInVain(s, e))
  {
    hide Workers.Run, Init, NoWalks, Settled, Contents, Numbered, Next, WaitsInVain, EvictsInVain;
    RunSettled(ram, nfile, threads, es);
    RunContents(ram, nfile, threads, es);
    NumberedFrom(Workers.Run(Init(ram, nfile, threads), es));
    if !Workers.Run(Init(ram, nfile, threads), es).fault { FaultsAre(Workers.Run(Init(ram, nfile, threads), es), e); }
  }

  // ---------- one worker ----------

  // All that worker w has found is still there.
  ghost predicate Sound(s: State, w: nat)
    requires w < |s.workers|
  {
    && !Lost(s, s.workers[w]) && Anchored(s, s.workers[w])
    && (s.workers[w].Waiting? ==> s.workers[w].id in s.ids)
  }

  lemma SoundTouches(s: State, w: nat)
    requires w < |s.workers| && Sound(s, w)
    ensures !Dangling(s, w) && !Stray(s, w)
  {
  }

  lemma SectionWaits(s: State, w: nat)
    requires Numbered(s) && w < |s.workers| && !s.fault && !Dangling(s, w) && Sound(s, w)
    ensures w < |Section(s, w).workers|
    ensures Section(s, w).workers[w].Waiting? ==> Section(s, w).workers[w].id in Section(s, w).ids
  {
    assert |s.files| == |s.ids|;
    SectionMoves(s, w);
    hide Numbered, Newest, IndexOf, Drop, Name, Chunk, Appended, Anchored, Lost;
    match s.workers[w] {
      case Started(_) =>
      case Waiting(_, _) =>
      case _ =>
    }
  }

  // The only worker: nothing is freed but by its own sections.
  lemma SoundAlone(s: State, e: Event)
    requires Numbered(s) && !s.fault && |s.workers| == 1 && Sound(s, 0)
    ensures |Next(s, e).workers| == 1 && !Next(s, e).fault && Sound(Next(s, e), 0)
  {
    SoundTouches(s, 0);
    CursorLost(s, e, 0);
    FreesOwn(s, e);
    hide Lost, Anchored, Numbered, Section, Dangling, Stray;
    assert |s.files| == |s.ids| by { NumberedLengths(s); }
    if e.Advance? && e.w == 0 {
      assert Next(s, e) == Section(s, 0);
      SectionAnchored(s, 0);
      SectionWaits(s, 0);
      SectionKeepsFault(s, 0);
      SectionMoves(s, 0);
    } else {
      OtherAnchored(s, e, 0);
      OtherMoves(s, e, 0);
      NoFault(s, e);
      if s.workers[0].Waiting? { NextNames(s, e, s.workers[0].id); }
    }
    hide Next, Frees;
  }

  lemma NumberedLengths(s: State)
    requires Numbered(s)
    ensures |s.files| == |s.ids|
  {
  }

  lemma FreesOwn(s: State, e: Event)
    ensures Frees(s, e).To? ==> !e.Connect? && e.w < |s.workers| && !s.workers[e.w].Waiting?
  {
    hide IndexOf;
  }

  lemma NoFault(s: State, e: Event)
    requires |s.workers| == 1 && !s.fault && !Stray(s, 0) && (e.Advance? ==> e.w != 0)
    ensures !Next(s, e).fault
  {
    hide Stray, Busy, Section, Dangling;
  }

  // With one worker no run touches freed memory, readN included.
  lemma {:induction false} OneWorkerNeverFaults(ram: nat, nfile: nat, es: seq<Event>)
    ensures var s := Workers.Run(Init(ram, nfile, 1), es); |s.workers| == 1 && !s.fault && Sound(s, 0)
  {
    hide Sound, Next, Contents, Numbered;
    if es == [] {
      IdleIsSound(Init(ram, nfile, 1));
    } else {
      var before := es[..|es| - 1];
      OneWorkerNeverFaults(ram, nfile, before);
      RunContents(ram, nfile, 1, before);
      NumberedFrom(Workers.Run(Init(ram, nfile, 1), before));
      SoundAlone(Workers.Run(Init(ram, nfile, 1), before), es[|es| - 1]);
    }
  }

  lemma IdleIsSound(s: State)
    requires 0 < |s.workers| && s.workers[0].Idle?
    ensures Sound(s, 0)
  {
  }

  // ---------- no slots ----------

  // A worker that has found nothing.
  predicate Empty(pc: Pc) {
    match pc
    case Idle => true
    case Started(_) => true
    case TestSlot(_) => true
    case EvictSlot(_, cur) => cur == End
    case Walking(_, _, cur) => cur == End
    case _ => false
  }

  ghost predicate Bare(s: State) {
    && s.ids == [] && s.files == [] && s.nfileDispo <= 0 && !s.fault
    && forall w :: 0 <= w < |s.workers| ==> Empty(s.workers[w])
  }

  lemma NextBare(s: State, e: Event)
    requires Bare(s)
    ensures Bare(Next(s, e))
  {
    NewestOfNone(s.files);
    hide Newest, Busy;
    if !e.Connect? && e.w < |s.workers| { assert Empty(s.workers[e.w]); }
  }

  lemma NewestOfNone(files: seq<File>)
    ensures files == [] ==> forall path :: Newest(files, path) == 0
  {
  }

  // A store without slots never holds a file.
  lemma {:induction false} NoSlotsNeverFaults(ram: nat, threads: nat, es: seq<Event>)
    ensures Bare(Workers.Run(Init(ram, 0, threads), es))
  {
    if es != [] {
      hide Bare, Next;
      NoSlotsNeverFaults(ram, threads, es[..|es| - 1]);
      NextBare(Workers.Run(Init(ram, 0, threads), es[..|es| - 1]), es[|es| - 1]);
    } else {
      assert Bare(Init(ram, 0, threads));
    }
  }

  // ---------- two workers and a slot are enough ----------

  // Workers 0 and 1 are free for a request of clients 0 and 1.
  ghost predicate BothReady(s: State) {
    Alone.Ready(s, 0, 0) && Alone.Ready(s, 1, 1)
  }

  // Every store that requests one at a time can build is there with both of them free.
  lemma Prepared(ram: nat, nfile: nat, threads: nat, calls: seq<Call>) returns (s: State)
    requires 2 <= threads
    ensures Reached(ram, nfile, threads, s) && BothReady(s) && s.files == Service.Run(Fresh(ram, nfile), calls).files
    ensures s.ramTot == ram && s.nfileTot == nfile && forall w :: 0 <= w < |s.workers| ==> s.workers[w].Idle?
  {
    var u := Service.Run(Fresh(ram, nfile), calls);
    Alone.RunsAgree(ram, nfile, threads, calls);
    RunIsGood(ram, nfile, calls);
    hide Workers.Run, Init, Service.Run, Fresh, Good, Next, Alone.Ready;
    var es :| Alone.Follows(Workers.Run(Init(ram, nfile, threads), es), u);
    var fs := Alone.Welcome(ram, nfile, threads, es, u, 0);
    var t := Workers.Run(Init(ram, nfile, threads), fs);
    RunBudgets(ram, nfile, threads, fs);
    ReachedNext(ram, nfile, threads, t, Connect(1));
    s := Next(t, Connect(1));
    Joined(t, s);
  }

  lemma Joined(t: State, s: State)
    requires Alone.Ready(t, 0, 0) && 2 <= |t.workers| && (forall w :: 0 <= w < |t.workers| ==> t.workers[w].Idle?) && s == Next(t, Connect(1))
    ensures BothReady(s) && s.files == t.files && s.workers == t.workers && s.ramTot == t.ramTot && s.nfileTot == t.nfileTot
  {
    hide Bytes, NoShadow, DistinctIds;
  }

  // The one is still free when the other is at work.
  lemma StillReady(s: State, v: nat, w: nat, pc: Pc)
    requires Alone.Ready(s, w, w) && v < |s.workers| && v != w && !pc.Idle? && pc.job.fd == v
    ensures Alone.Ready(SetPc(s, v, pc), w, w)
  {
    hide Bytes, NoShadow, DistinctIds;
  }

  // Client 1 waits for a file of client 0, whose append drops it as too large.
  lemma WaiterLeft(ram: nat, nfile: nat, threads: nat, s: State, p: string) returns (t: State)
    requires Reached(ram, nfile, threads, s) && BothReady(s) && s.ramTot == ram && s.files == [File(p, 0, EMPTY, [])]
    ensures Reached(ram, nfile, threads, t) && !t.fault && WaitsInVain(t, Advance(1))
  {
    hide Alone.Ready, Alone.Reaches, Reached, Drop, Next;
    assert s.files[0].path == p;
    NewestFirst(s.files, p);
    assert |s.ids| == 1 && !s.fault && 1 < |s.workers| && s.workers[0].Idle? && 0 in s.conns && 1 in s.conns by {
      ReadyMeans(s, 0);
      ReadyMeans(s, 1);
    }
    var read, chunk := Read(p), seq(ram + 1, _ => 0);
    var pc := Waiting(Alone.JobOf(s, 1, read), s.ids[0]);
    Alone.Search(s, 1, 1, read);
    var a := SetPc(s, 1, pc);
    Alone.ReachedOn(ram, nfile, threads, s, 1, a);
    StillReady(s, 1, 0, pc);
    var append := Append(p, chunk);
    var job := Alone.JobOf(a, 0, append);
    Alone.OwnerTest(a, 0, 0, append);
    Alone.ToDrop(a, 0, job, 0);
    t := Drop(a, 0);
    Alone.ReachedOn(ram, nfile, threads, a, 0, t);
    Forgotten(a, 0);
  }

  lemma ReadyMeans(s: State, w: nat)
    requires Alone.Ready(s, w, w)
    ensures |s.files| == |s.ids| && !s.fault && w < |s.workers| && s.workers[w].Idle? && w in s.conns && DistinctIds(s.ids)
    ensures s.nfileDispo == s.nfileTot - |s.files|
  {
  }

  lemma Forgotten(s: State, k: nat)
    requires k < |s.files| == |s.ids| && DistinctIds(s.ids)
    ensures s.ids[k] !in Drop(s, k).ids && Drop(s, k).workers == s.workers && Drop(s, k).fault == s.fault
    ensures |Drop(s, k).files| == |Drop(s, k).ids|
  {
  }

  lemma WaiterCanFault(ram: nat, nfile: nat, threads: nat, p: string) returns (es: seq<Event>)
    requires 2 <= threads && 1 <= nfile
    ensures var s := Workers.Run(Init(ram, nfile, threads), es); !s.fault && WaitsInVain(s, Advance(1)) && Next(s, Advance(1)).fault
  {
    hide Workers.Run, Service.Run, Init, BothReady;
    CreatedOne(ram, nfile, 0, p);
    var s := Prepared(ram, nfile, threads, [Call(0, Open(p, Create))]);
    var t := WaiterLeft(ram, nfile, threads, s, p);
    es :| Workers.Run(Init(ram, nfile, threads), es) == t;
    RunContents(ram, nfile, threads, es);
    Lengths(t);
  }

  // ---------- two evictions ----------

  // Two evictions aimed at one file: the second to get the lock touches freed memory.
  lemma EvictorsFault(s: State, v: nat, w: nat, k: nat)
    requires Numbered(s) && !s.fault && v < |s.workers| && w < |s.workers| && v != w && k < |s.files|
    requires MakesRoom(s.workers[v]) && MakesRoom(s.workers[w]) && Evictable(s.files[k])
    requires CursorOf(s.workers[v]) == CursorOf(s.workers[w]) == To(s.ids[k])
    ensures var t := Next(s, Evict(v)); !t.fault && |t.files| == |t.ids| && EvictsInVain(t, Evict(w)) && Next(t, Evict(w)).fault
  {
    IndexIs(s.ids, k);
    Forgotten(s, k);
    assert Next(s, Evict(v)) == Turn(s, v, k);
    hide Drop, Evictable, Numbered, IndexOf;
  }

  // Worker v's create has found no slot and is aimed at the only file.
  lemma Aiming(ram: nat, nfile: nat, threads: nat, s: State, v: nat, q: string) returns (t: State)
    requires Reached(ram, nfile, threads, s) && Alone.Ready(s, v, v) && |s.files| == 1 && s.nfileTot == 1
    requires Apart(q, s.files[0].path)
    ensures Reached(ram, nfile, threads, t) && v in s.conns && v < |s.workers| && |s.ids| == 1
    ensures t == SetPc(s, v, EvictSlot(Alone.JobOf(s, v, Open(q, Create)), To(s.ids[0])))
  {
    hide Alone.Ready, Alone.Reaches, Reached, Next, Apart;
    ReadyMeans(s, v);
    NotFoundInOne(s.files, q);
    Alone.SlotTest(s, v, v, q);
    var job := Alone.JobOf(s, v, Open(q, Create));
    var a := SetPc(s, v, EvictSlot(job, End));
    Alone.ReachedOn(ram, nfile, threads, s, v, a);
    ReachedNext(ram, nfile, threads, a, Aim(v));
    t := Next(a, Aim(v));
    AimIs(a, v);
    Alone.Again(s, v, a.workers[v], EvictSlot(job, To(s.ids[0])));
  }

  lemma NotFoundInOne(files: seq<File>, path: string)
    requires |files| == 1 && Apart(path, files[0].path)
    ensures Newest(files, path) == 1
  {
    assert files[1..] == [];
  }

  lemma AimIs(s: State, w: nat)
    requires !s.fault && |s.files| == |s.ids| && |s.ids| == 1 && w < |s.workers| && s.workers[w].EvictSlot?
    ensures Next(s, Aim(w)) == SetPc(s, w, EvictSlot(s.workers[w].job, To(s.ids[0])))
  {
  }

  // An evictable file fills the store, and worker 0 is aimed at it.
  lemma AimedAtFull(ram: nat, threads: nat, p: string, q: string) returns (t: State)
    requires 2 <= threads && Apart(q, p)
    ensures Reached(ram, 1, threads, t) && t.files == [File(p, CLOSED, FILLED, [])] && |t.ids| == 1 && t.nfileTot == 1 && !t.fault
    ensures 2 <= |t.workers| && t.workers[0].EvictSlot? && CursorOf(t.workers[0]) == To(t.ids[0]) && Alone.Ready(t, 1, 1)
  {
    hide Service.Run, BuildOne, Reached, Alone.Ready, Apart;
    BuiltOne(ram, 1, p);
    var s := Prepared(ram, 1, threads, BuildOne(p));
    assert Apart(q, s.files[0].path);
    t := Aiming(ram, 1, threads, s, 0, q);
    ReadyMeans(s, 1);
    StillReady(s, 0, 1, t.workers[0]);
  }

  // Two creates on a full store of one file are enough.
  lemma EvictorCanFault(ram: nat, threads: nat, p: string, q: string) returns (es: seq<Event>)
    requires 2 <= threads && Apart(q, p)
    ensures var s := Workers.Run(Init(ram, 1, threads), es); !s.fault && EvictsInVain(s, Evict(1)) && Next(s, Evict(1)).fault
  {
    hide Alone.Ready, Workers.Run, Init, Next, Apart, EvictsInVain, Numbered;
    var a := AimedAtFull(ram, threads, p, q);
    assert Apart(q, a.files[0].path);
    var b := Aiming(ram, 1, threads, a, 1, q);
    var fs :| Workers.Run(Init(ram, 1, threads), fs) == b;
    RunContents(ram, 1, threads, fs);
    hide Contents, Reached;
    NumberedFrom(b);
    EvictorsFault(b, 0, 1, 0);
    ReachedNext(ram, 1, threads, b, Evict(0));
    es := ReachedRun(ram, 1, threads, Next(b, Evict(0)));
  }

  // Exactly with two workers and a slot, some run touches freed memory.
  lemma FaultIff(ram: nat, nfile: nat, threads: nat)
    ensures (exists es :: Workers.Run(Init(ram, nfile, threads), es).fault) <==> 2 <= threads && 1 <= nfile
  {
    hide Workers.Run, Init, Bare, Sound;
    if 2 <= threads && 1 <= nfile {
      var es := WaiterCanFault(ram, nfile, threads, "");
      Extend(Init(ram, nfile, threads), es, Advance(1));
      hide Next, WaitsInVain;
      assert Workers.Run(Init(ram, nfile, threads), es + [Advance(1)]).fault;
    } else {
      forall es ensures !Workers.Run(Init(ram, nfile, threads), es).fault {
        if nfile == 0 {
          NoSlotsNeverFaults(ram, threads, es);
          BareIsSafe(Workers.Run(Init(ram, nfile, threads), es));
        } else if threads == 1 {
          OneWorkerNeverFaults(ram, nfile, es);
        } else {
          NobodyNeverFaults(ram, nfile, es);
        }
      }
    }
  }

  lemma BareIsSafe(s: State)
    requires Bare(s)
    ensures !s.fault
  {
  }

  lemma {:induction false} NobodyNeverFaults(ram: nat, nfile: nat, es: seq<Event>)
    ensures var s := Workers.Run(Init(ram, nfile, 0), es); !s.fault && s.workers == []
  {
    hide Next;
    if es != [] {
      NobodyNeverFaults(ram, nfile, es[..|es| - 1]);
      NobodyMoves(Workers.Run(Init(ram, nfile, 0), es[..|es| - 1]), es[|es| - 1]);
    }
  }

  lemma NobodyMoves(s: State, e: Event)
    requires s.workers == [] && !s.fault
    ensures Next(s, e).workers == [] && !Next(s, e).fault
  {
    hide Section, Dangling, Busy, Turn, Stray, Aimed;
  }
}
