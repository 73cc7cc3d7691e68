// A worker that no other one interrupts: the step system then does to the store what
// the handlers on values do, so both layers describe the same server.
module Alone {
  import opened Files
  import opened Service
  import opened Workers
  import Ownership

  predicate By(e: Event, w: nat) {
    match e
    case Connect(_) => false
    case Start(v, _, _) => v == w
    case Advance(v) => v == w
    case Aim(v) => v == w
    case Evict(v) => v == w
    case Quit(v) => v == w
  }

  // Worker w alone can take s to t.
  ghost predicate Reaches(s: State, w: nat, t: State) {
    exists es: seq<Event> :: Workers.Run(s, es) == t && forall e :: e in es ==> By(e, w)
  }

  lemma ReachesSelf(s: State, w: nat)
    ensures Reaches(s, w, s)
  {
    assert Workers.Run(s, []) == s;
  }

  lemma ReachesStep(s: State, w: nat, t: State, e: Event)
    requires Reaches(s, w, t) && By(e, w)
    ensures Reaches(s, w, Next(t, e))
  {
    hide Next, By;
    var es: seq<Event> :| Workers.Run(s, es) == t && forall e :: e in es ==> By(e, w);
    Extend(s, es, e);
    assert forall f :: f in es + [e] ==> f in es || f == e;
  }

  lemma ReachesOn(s: State, w: nat, t: State, u: State)
    requires Reaches(s, w, t) && Reaches(t, w, u)
    ensures Reaches(s, w, u)
  {
    hide Next, By;
    var es: seq<Event> :| Workers.Run(s, es) == t && forall e :: e in es ==> By(e, w);
    var fs: seq<Event> :| Workers.Run(t, fs) == u && forall e :: e in fs ==> By(e, w);
    Join(s, es, fs);
    assert forall f :: f in es + fs ==> f in es || f in fs;
  }

  lemma ReachedOn(ram: nat, nfile: nat, threads: nat, s: State, w: nat, t: State)
    requires Reached(ram, nfile, threads, s) && Reaches(s, w, t)
    ensures Reached(ram, nfile, threads, t)
  {
    hide Workers.Run, Init, By;
    var es := ReachedRun(ram, nfile, threads, s);
    var fs: seq<Event> :| Workers.Run(s, fs) == t && forall e :: e in fs ==> By(e, w);
    Join(Init(ram, nfile, threads), es, fs);
  }

  // A sound store with worker w free for a request of fd.
  ghost predicate Ready(s: State, w: nat, fd: nat) {
    && !s.fault && |s.files| == |s.ids| && Ownership.DistinctIds(s.ids) && NoShadow(s.files)
    && s.nfileDispo == s.nfileTot - |s.files| && 0 <= s.nfileDispo
    && s.ramDispo == s.ramTot - Bytes(s.files) && 0 <= s.ramDispo
    && w < |s.workers| && s.workers[w].Idle? && fd in s.conns && !Busy(s.workers, fd)
  }

  function JobOf(s: State, fd: nat, r: Request): Job
    requires fd in s.conns
  {
    Job(fd, s.conns[fd], Ask(r))
  }

  // Back where it started, but for the store.
  predicate Finished(s: State, t: State) {
    t.workers == s.workers && t.conns == s.conns && !t.fault
  }

  function StoreOf(s: State, maxMem: nat, peak: nat): Store {
    Store(s.files, s.nfileTot, s.ramTot, s.removed, maxMem, s.created, peak)
  }

  predicate Holds(t: State, u: Store) {
    t.files == u.files && t.removed == u.removed && t.created == u.created
  }

  // What is logged of a request, by its reply: nothing of a refusal.
  function Deeds(files: seq<File>, r: Request, reply: Reply): seq<Deed> {
    match reply
    case Failure => []
    case Content(_, data) => [Reading(data)]
    case Batch(sent, _) => Dumps(sent)
    case Success(_) =>
      if r.Open? then [if Newest(files, r.path) < |files| then Opening else Creation]
      else if r.Append? then [Appending(r.chunk)]
      else [Closing]
  }

  function Dumps(sent: seq<File>): (ds: seq<Deed>)
    ensures |ds| == |sent|
  {
    if sent == [] then [] else [Dump(sent[0].data)] + Dumps(sent[1..])
  }

  // From s to t the log has grown by these, for connection `conn` of fd.
  ghost predicate Says(s: State, t: State, fd: nat, conn: nat, ds: seq<Deed>) {
    && |t.log| == |s.log| + |ds| && t.log[..|s.log|] == s.log
    && forall i :: 0 <= i < |ds| ==> var n := t.log[|s.log| + i]; n.deed == ds[i] && n.fd == fd && n.conn == conn
  }

  lemma SaysNothing(s: State, t: State, fd: nat, conn: nat)
    ensures t.log == s.log ==> Says(s, t, fd, conn, [])
  {
  }

  lemma SaysOne(s: State, t: State, id: Id, fd: nat, conn: nat, deed: Deed)
    ensures t.log == s.log + [Entry(id, fd, conn, deed)] ==> Says(s, t, fd, conn, [deed])
  {
  }

  // The handler's answer, as the log of fd's connection has it.
  ghost predicate Replies(s: State, t: State, fd: nat, r: Request, reply: Reply) {
    fd in s.conns && Says(s, t, fd, s.conns[fd], Deeds(s.files, r, reply))
  }

  lemma Again(s: State, w: nat, a: Pc, b: Pc)
    requires w < |s.workers|
    ensures SetPc(SetPc(s, w, a), w, b) == SetPc(s, w, b)
    ensures s.workers[w] == Idle ==> SetPc(s, w, Idle) == s
  {
  }

  // ---------- the search ----------

  lemma Begin(s: State, w: nat, fd: nat, r: Request)
    requires Ready(s, w, fd)
    ensures Reaches(s, w, SetPc(s, w, Started(JobOf(s, fd, r))))
  {
    ReachesSelf(s, w);
    ReachesStep(s, w, s, Start(w, fd, Ask(r)));
    hide Reaches, Busy, NoShadow, Bytes;
  }

  // What the search finds, and where it leaves the worker.
  function Found(s: State, job: Job, path: string): Pc
    requires |s.files| == |s.ids|
  {
    var k := Newest(s.files, path);
    var creates := job.op.Ask? && job.op.request.Open? && job.op.request.flag == Create;
    if k == |s.files| then (if creates then TestSlot(job) else Idle)
    else if creates then Idle else Waiting(job, s.ids[k])
  }

  lemma Search(s: State, w: nat, fd: nat, r: Request)
    requires Ready(s, w, fd) && !r.ReadN?
    ensures Reaches(s, w, SetPc(s, w, Found(s, JobOf(s, fd, r), r.path)))
  {
    var job := JobOf(s, fd, r);
    Begin(s, w, fd, r);
    var t := SetPc(s, w, Started(job));
    ReachesStep(s, w, t, Advance(w));
    Again(s, w, Started(job), Found(s, job, r.path));
    hide Reaches, Busy, NoShadow, Bytes, Newest;
  }

  // ---------- read, close, open of a file that is there ----------

  lemma Serving(s: State, w: nat, fd: nat, r: Request, k: nat)
    requires Ready(s, w, fd) && k < |s.files|
    requires Reaches(s, w, SetPc(s, w, Waiting(JobOf(s, fd, r), s.ids[k])))
    ensures var t := SetPc(s, w, Waiting(JobOf(s, fd, r), s.ids[k]));
      Reaches(s, w, Serve(t, w, JobOf(s, fd, r), k)) && Reaches(s, w, s)
  {
    var t := SetPc(s, w, Waiting(JobOf(s, fd, r), s.ids[k]));
    Ownership.IndexIs(s.ids, k);
    ReachesStep(s, w, t, Advance(w));
    ReachesStep(s, w, t, Quit(w));
    Again(s, w, Waiting(JobOf(s, fd, r), s.ids[k]), Idle);
    hide Reaches, Busy, NoShadow, Bytes, Newest, Serve, IndexOf;
  }

  lemma ServedAlone(s: State, w: nat, fd: nat, r: Request, maxMem: nat, peak: nat) returns (t: State)
    requires Ready(s, w, fd) && (r.Read? || r.Close? || (r.Open? && (r.flag == OpenExisting || Newest(s.files, r.path) < |s.files|)))
    ensures Reaches(s, w, t) && Finished(s, t) && Holds(t, Handle(StoreOf(s, maxMem, peak), fd, r).0)
    ensures Replies(s, t, fd, r, Handle(StoreOf(s, maxMem, peak), fd, r).1)
  {
    hide Reaches, Busy, NoShadow, Bytes, Newest, Evicting, Freed;
    var k := Newest(s.files, r.path);
    var pc := Found(s, JobOf(s, fd, r), r.path);
    Search(s, w, fd, r);
    Again(s, w, pc, Idle);
    t := s;
    SaysNothing(s, s, fd, s.conns[fd]);
    if pc.Waiting? {
      Serving(s, w, fd, r, k);
      var u := Serve(SetPc(s, w, pc), w, JobOf(s, fd, r), k);
      if u != SetPc(s, w, pc) {
        t := u;
        Again(s, w, pc, Idle);
        SaysOne(s, t, s.ids[k], fd, s.conns[fd], if r.Open? then Opening else if r.Read? then Reading(s.files[k].data) else Closing);
      }
    }
  }

  // ---------- eviction ----------

  // What evicting from the files after `cut` leaves of s.
  ghost predicate Swept(s: State, cut: nat, t: State)
    requires cut <= |s.files|
  {
    && t.files == s.files[..cut] + Kept(s.files[cut..])
    && t == s.(ids := t.ids, files := t.files, workers := t.workers, nfileDispo := s.nfileDispo + Victims(s.files[cut..]),
               ramDispo := s.ramDispo + Freed(Room(0), s.files[cut..]), removed := s.removed + Victims(s.files[cut..]))
    && |t.ids| == |t.files| && Ownership.DistinctIds(t.ids) && Keeps(s, t)
  }

  // The files that may not go are still there under their names.
  ghost predicate Keeps(s: State, t: State) {
    forall id, f :: Named(s, id, f) && !Evictable(f) ==> Named(t, id, f)
  }

  ghost predicate Named(s: State, id: Id, f: File) {
    exists k :: 0 <= k < |s.ids| && k < |s.files| && s.ids[k] == id && s.files[k] == f
  }

  lemma DropKeeps(s: State, t: State, k: nat)
    requires |t.files| == |t.ids| && Ownership.DistinctIds(t.ids) && k < |t.files| && Keeps(s, t) && Evictable(t.files[k])
    ensures Keeps(s, Drop(t, k)) && Ownership.DistinctIds(Drop(t, k).ids) && |Drop(t, k).ids| == |Drop(t, k).files|
  {
    var u := Drop(t, k);
    hide Evictable;
    forall id, f | Named(s, id, f) && !Evictable(f) ensures Named(u, id, f) {
      assert Named(t, id, f);
      var j :| 0 <= j < |t.ids| && t.ids[j] == id && t.files[j] == f;
      assert u.ids[if j < k then j else j - 1] == id && u.files[if j < k then j else j - 1] == f;
    }
  }

  // An eviction of worker w, with its cursor at the file before `cut`.
  ghost predicate Pointing(s: State, w: nat, cut: nat, t: State)
    requires w < |s.workers|
  {
    && cut <= |t.ids| && cut <= |s.ids| && s.ids[..cut] == t.ids[..cut]
    && t.workers == s.workers[w := Workers.At(s.workers[w], if cut == 0 then End else To(t.ids[cut - 1]))]
  }

  lemma Aims(s: State, w: nat)
    requires !s.fault && |s.files| == |s.ids| && w < |s.workers| && MakesRoom(s.workers[w])
    ensures Pointing(s, w, |s.ids|, Next(s, Aim(w)))
    ensures Next(s, Aim(w)) == s.(workers := Next(s, Aim(w)).workers)
  {
    assert s.ids[..|s.ids|] == s.ids;
  }

  // The turn of a cursor that points to the file before `cut`.
  lemma Turns(s: State, w: nat, cut: nat, u: State)
    requires !u.fault && |u.files| == |u.ids| && Ownership.DistinctIds(u.ids)
    requires w < |s.workers| && MakesRoom(s.workers[w]) && Pointing(s, w, cut + 1, u)
    ensures var t := Next(u, Evict(w));
      && Pointing(s, w, cut, t)
      && t == (if Evictable(u.files[cut]) then Drop(u, cut) else u).(workers := t.workers)
  {
    var k := cut;
    Ownership.IndexIs(u.ids, k);
    TurnIs(u, w, k);
    hide IndexOf, Evictable, Ownership.DistinctIds, Next;
    var t := Turn(u, w, k);
    assert s.ids[..k] == s.ids[..k + 1][..k] && u.ids[..k] == u.ids[..k + 1][..k];
    assert t.ids[..k] == u.ids[..k];
    assert t.workers == u.workers[w := Workers.At(u.workers[w], Father(u.ids, k))];
    assert Father(u.ids, k) == if k == 0 then End else To(t.ids[k - 1]);
  }

  lemma TurnIs(u: State, w: nat, k: nat)
    requires !u.fault && k < |u.files| == |u.ids| && w < |u.workers| && MakesRoom(u.workers[w]) && u.workers[w].cur == To(u.ids[k])
    requires IndexOf(u.ids, u.ids[k]) == k
    ensures Next(u, Evict(w)) == Turn(u, w, k)
  {
    hide IndexOf, Turn;
  }

  // One more file seen.
  lemma SweptOne(s: State, cut: nat, u: State, t: State)
    requires |s.files| == |s.ids| && cut < |s.files| && Swept(s, cut + 1, u)
    requires t == (if Evictable(u.files[cut]) then Drop(u, cut) else u).(workers := t.workers)
    ensures Swept(s, cut, t)
  {
    var f := s.files[cut];
    SeenOne(s.files, cut);
    hide Evictable, Keeps, Victims, Kept, Freed, Ownership.DistinctIds;
    assert u.files[cut] == f;
    if Evictable(f) {
      DropKeeps(s, u, cut);
      SameNames(s, Drop(u, cut), t);
      assert Remove(u.files, cut) == s.files[..cut] + Kept(s.files[cut + 1..]);
    } else {
      SameNames(s, u, t);
    }
  }

  lemma SeenOne(files: seq<File>, cut: nat)
    requires cut < |files|
    ensures var f, seen, later := files[cut], files[cut..], files[cut + 1..];
      && files[..cut + 1] == files[..cut] + [f]
      && Victims(seen) == Victims(later) + (if Evictable(f) then 1 else 0)
      && Freed(Room(0), seen) == Freed(Room(0), later) + (if Evictable(f) then |f.data| else 0)
      && files[..cut] + Kept(seen) == if Evictable(f) then files[..cut] + Kept(later) else files[..cut + 1] + Kept(later)
  {
    var f, seen, later := files[cut], files[cut..], files[cut + 1..];
    assert seen == [f] + later && files[..cut + 1] == files[..cut] + [f];
    SeenCons(f, later);
    hide Evictable, Kept, Victims, Freed;
    if !Evictable(f) { assert files[..cut] + ([f] + Kept(later)) == files[..cut] + [f] + Kept(later); }
  }

  lemma SeenCons(f: File, later: seq<File>)
    ensures Victims([f] + later) == Victims(later) + (if Evictable(f) then 1 else 0)
    ensures Freed(Room(0), [f] + later) == Freed(Room(0), later) + (if Evictable(f) then |f.data| else 0)
    ensures Kept([f] + later) == if Evictable(f) then Kept(later) else [f] + Kept(later)
  {
    hide Evictable;
    assert ([f] + later)[1..] == later;
  }

  lemma SameNames(s: State, t: State, u: State)
    requires u.ids == t.ids && u.files == t.files
    ensures Keeps(s, t) ==> Keeps(s, u)
  {
    forall id, f | Named(t, id, f) ensures Named(u, id, f) {
      var k :| 0 <= k < |t.ids| && k < |t.files| && t.ids[k] == id && t.files[k] == f;
      assert u.ids[k] == id && u.files[k] == f;
    }
  }

  // The eviction loops of worker w, from the last file down to the one at `cut`.
  lemma {:induction false} Sweep(s: State, w: nat, cut: nat) returns (t: State)
    requires !s.fault && |s.files| == |s.ids| && Ownership.DistinctIds(s.ids) && cut <= |s.files|
    requires w < |s.workers| && MakesRoom(s.workers[w])
    ensures Reaches(s, w, t) && Swept(s, cut, t) && Pointing(s, w, cut, t)
    decreases |s.files| - cut
  {
    hide Reaches, Evictable, Keeps, Pointing, MakesRoom, Next;
    if cut == |s.files| {
      ReachesSelf(s, w);
      ReachesStep(s, w, s, Aim(w));
      Aims(s, w);
      t := Next(s, Aim(w));
      assert s.files[..cut] == s.files && s.files[cut..] == [];
      assert Keeps(s, t) by { KeepsSelf(s); SameNames(s, s, t); }
    } else {
      var u := Sweep(s, w, cut + 1);
      ReachesStep(s, w, u, Evict(w));
      Turns(s, w, cut, u);
      t := Next(u, Evict(w));
      SweptOne(s, cut, u, t);
    }
  }

  lemma KeepsSelf(s: State)
    ensures Keeps(s, s)
  {
  }

  lemma {:induction false} FreedRoom(files: seq<File>, size: nat)
    ensures Freed(Room(size), files) == Freed(Room(0), files)
  {
    if files != [] { FreedRoom(files[1..], size); }
  }

  // With nothing missing there is nothing to evict; otherwise what the sweep frees is
  // enough exactly when the handler says so.
  lemma Enough(s: State, goal: Goal, maxMem: nat, peak: nat)
    ensures var u := StoreOf(s, maxMem, peak);
      var cut := Stop(goal, s.files, ShortOf(u, goal));
      && Evicting(u, goal) == u.(files := s.files[..cut] + Kept(s.files[cut..]), removed := s.removed + Victims(s.files[cut..]))
      && (Fits(u, goal) <==> ShortOf(u, goal) <= if goal.Slot? then Victims(s.files[cut..]) else Freed(Room(0), s.files[cut..]))
      && (ShortOf(u, goal) <= 0 ==> Evicting(u, goal) == u && Fits(u, goal))
  {
    hide Stop, Bytes, Victims, Kept, Freed, Short;
    var u := StoreOf(s, maxMem, peak);
    var short := ShortOf(u, goal);
    var cut := Stop(goal, s.files, short);
    StopStops(goal, s.files, short);
    StopIsShortest(goal, s.files, short, cut);
    EvictionConserves(goal, s.files[cut..]);
    if goal.Room? { FreedRoom(s.files[cut..], goal.size); }
    if short <= 0 { NothingMissing(goal, s.files, short, cut); }
  }

  // ---------- create ----------

  lemma InsertAlone(s: State, w: nat, q: State, job: Job)
    requires w < |q.workers| && q.workers[w].EvictSlot? && q.workers[w].job == job && !q.fault && |q.files| == |q.ids| && Reaches(s, w, q)
    ensures 0 < q.nfileDispo ==> Reaches(s, w, Insert(q, w, job))
    ensures Reaches(s, w, SetPc(q, w, Idle))
  {
    hide Reaches, Bytes;
    ReachesStep(s, w, q, Quit(w));
    if 0 < q.nfileDispo {
      var u := SetPc(q, w, InsertNow(job));
      ReachesStep(s, w, q, Advance(w));
      ReachesStep(s, w, u, Advance(w));
      Again(q, w, InsertNow(job), Idle);
    }
  }

  lemma SlotTest(s: State, w: nat, fd: nat, path: string)
    requires Ready(s, w, fd) && Newest(s.files, path) == |s.files|
    ensures var job := JobOf(s, fd, Open(path, Create));
      Reaches(s, w, SetPc(s, w, if s.nfileDispo <= 0 then EvictSlot(job, End) else InsertNow(job)))
  {
    var job := JobOf(s, fd, Open(path, Create));
    Search(s, w, fd, Open(path, Create));
    hide Reaches, Busy, NoShadow, Bytes, Newest;
    ReachesStep(s, w, SetPc(s, w, TestSlot(job)), Advance(w));
    Again(s, w, TestSlot(job), EvictSlot(job, End));
    Again(s, w, TestSlot(job), InsertNow(job));
  }

  lemma CreateFree(s: State, w: nat, fd: nat, path: string, maxMem: nat, peak: nat) returns (t: State)
    requires Ready(s, w, fd) && Newest(s.files, path) == |s.files| && 0 < s.nfileDispo
    ensures Reaches(s, w, t) && Finished(s, t) && Holds(t, Handle(StoreOf(s, maxMem, peak), fd, Open(path, Create)).0)
    ensures Replies(s, t, fd, Open(path, Create), Handle(StoreOf(s, maxMem, peak), fd, Open(path, Create)).1)
  {
    var job := JobOf(s, fd, Open(path, Create));
    var c := SetPc(s, w, InsertNow(job));
    SlotTest(s, w, fd, path);
    Enough(s, Slot, maxMem, peak);
    hide Reaches, Busy, NoShadow, Bytes, Newest, Fits, Freed, Victims, Kept, Stop, Notice, Evicting;
    ReachesStep(s, w, c, Advance(w));
    t := Insert(c, w, job);
    Again(s, w, InsertNow(job), Idle);
    SaysOne(s, t, s.nextId, fd, s.conns[fd], Creation);
  }

  // What the handler makes of a create without a free slot.
  lemma CreateMeans(s: State, fd: nat, path: string, maxMem: nat, peak: nat)
    requires Newest(s.files, path) == |s.files| && s.nfileTot <= |s.files|
    ensures var u := StoreOf(s, maxMem, peak);
      var cut, h := Stop(Slot, s.files, ShortOf(u, Slot)), Handle(u, fd, Open(path, Create)).0;
      var kept := s.files[..cut] + Kept(s.files[cut..]);
      if ShortOf(u, Slot) <= Victims(s.files[cut..])
      then h.files == [File(path, fd, EMPTY, [])] + kept && h.created == s.created + 1 && h.removed == s.removed + Victims(s.files[cut..])
      else h.files == kept && h.created == s.created && h.removed == s.removed + Victims(s.files[cut..])
    ensures var u := StoreOf(s, maxMem, peak);
      var enough := ShortOf(u, Slot) <= Victims(s.files[Stop(Slot, s.files, ShortOf(u, Slot))..]);
      var reply := Handle(u, fd, Open(path, Create)).1;
      if enough then reply.Success? else reply == Failure
  {
    hide Newest, Evicting, Fits, Freed, Kept, Victims, Stop, Told, Bytes, ShortOf;
    Enough(s, Slot, maxMem, peak);
  }

  // A create's eviction, run by the worker alone, and what it leaves.
  lemma SweptForCreate(s: State, w: nat, fd: nat, path: string, cut: nat) returns (q: State)
    requires Ready(s, w, fd) && Newest(s.files, path) == |s.files| && s.nfileDispo <= 0 && cut <= |s.files|
    ensures Reaches(s, w, q) && q.files == s.files[..cut] + Kept(s.files[cut..])
    ensures q.removed == s.removed + Victims(s.files[cut..]) && q.nfileDispo == s.nfileDispo + Victims(s.files[cut..])
    ensures q.created == s.created && q.conns == s.conns && q.log == s.log && !q.fault && |q.files| == |q.ids|
    ensures exists cur :: q.workers == s.workers[w := EvictSlot(JobOf(s, fd, Open(path, Create)), cur)]
  {
    var b := SetPc(s, w, EvictSlot(JobOf(s, fd, Open(path, Create)), End));
    SlotTest(s, w, fd, path);
    hide Reaches, Newest, NoShadow, Bytes, Busy, Freed, Kept, Victims, Ownership.DistinctIds, Keeps;
    q := Sweep(b, w, cut);
    ReachesOn(s, w, b, q);
  }

  lemma CreateEvicting(s: State, w: nat, fd: nat, path: string, maxMem: nat, peak: nat) returns (t: State)
    requires Ready(s, w, fd) && Newest(s.files, path) == |s.files| && s.nfileDispo <= 0
    ensures Reaches(s, w, t) && Finished(s, t) && Holds(t, Handle(StoreOf(s, maxMem, peak), fd, Open(path, Create)).0)
    ensures Replies(s, t, fd, Open(path, Create), Handle(StoreOf(s, maxMem, peak), fd, Open(path, Create)).1)
  {
    var job, short := JobOf(s, fd, Open(path, Create)), ShortOf(StoreOf(s, maxMem, peak), Slot);
    CreateMeans(s, fd, path, maxMem, peak);
    var q := SweptForCreate(s, w, fd, path, Stop(Slot, s.files, short));
    assert short == 1 - s.nfileDispo && s.workers[w] == Idle;
    hide Reaches, Ready, NoShadow, Bytes, Newest, Victims, Kept, Stop, Handle, ShortOf;
    InsertAlone(s, w, q, job);
    t := if 0 < q.nfileDispo then Insert(q, w, job) else SetPc(q, w, Idle);
    Again(s, w, q.workers[w], Idle);
    SaysOne(s, t, q.nextId, fd, s.conns[fd], Creation);
    SaysNothing(s, t, fd, s.conns[fd]);
    hide Says;
  }

  // ---------- append ----------

  // Where a commit of worker w leaves the store, but for the budget.
  ghost predicate Committed(q: State, w: nat, t: State, f: File, chunk: seq<Byte>)
    requires w < |q.workers| && !q.workers[w].Idle?
  {
    && (exists id :: t.log == q.log + [Entry(id, q.workers[w].job.fd, q.workers[w].job.conn, Appending(chunk))])
    && t.files == Swap(q.files, f, Appended(f, chunk)) && t.removed == q.removed && t.created == q.created
    && t.workers == q.workers[w := Idle] && t.conns == q.conns && !t.fault
  }

  lemma CommitIs(q: State, w: nat, job: Job, id: Id, f: File, j: nat)
    requires w < |q.workers| && q.workers[w] == CommitNow(job, id) && !q.fault && j < |q.files| == |q.ids|
    requires NoShadow(q.files) && q.files[j] == f && f.owner == job.fd
    ensures Committed(q, w, Commit(q, w, job, j), f, Chunk(job))
  {
    hide Swap, NoShadow, Chunk;
    SwapIsUpdate(q.files, j, Appended(f, Chunk(job)));
  }

  lemma CommitAlone(s: State, w: nat, q: State, job: Job, id: Id, f: File) returns (t: State)
    requires w < |q.workers| && q.workers[w].EvictRoom? && q.workers[w].job == job && q.workers[w].id == id
    requires !q.fault && |q.files| == |q.ids| && Reaches(s, w, q)
    requires Ownership.DistinctIds(q.ids) && NoShadow(q.files) && Named(q, id, f) && f.owner == job.fd
    requires |Chunk(job)| <= q.ramDispo
    ensures Reaches(s, w, t) && Committed(q, w, t, f, Chunk(job))
  {
    hide Reaches, NoShadow, Chunk, Swap;
    var j :| 0 <= j < |q.ids| && j < |q.files| && q.ids[j] == id && q.files[j] == f;
    Ownership.IndexIs(q.ids, j);
    hide IndexOf, Ownership.DistinctIds, Commit;
    var u := SetPc(q, w, CommitNow(job, id));
    ReachesStep(s, w, q, Advance(w));
    ReachesStep(s, w, u, Advance(w));
    CommitIs(u, w, job, id, f, j);
    t := Commit(u, w, job, j);
    Again(q, w, CommitNow(job, id), Idle);
  }

  lemma RefuseAlone(s: State, w: nat, q: State)
    requires w < |q.workers| && q.workers[w].EvictRoom? && !q.fault && |q.files| == |q.ids| && Reaches(s, w, q)
    ensures Reaches(s, w, SetPc(q, w, Idle))
  {
    hide Reaches;
    ReachesStep(s, w, q, Quit(w));
  }

  // An append past its owner test, up to where it makes room.
  lemma OwnerTest(s: State, w: nat, fd: nat, r: Request)
    requires Ready(s, w, fd) && r.Append?
    requires var k := Newest(s.files, r.path); k < |s.files| && s.files[k].owner == fd
    ensures var job, k := JobOf(s, fd, r), Newest(s.files, r.path);
      Reaches(s, w, SetPc(s, w, if TooBig(s.ramTot, s.files[k], r.chunk) then DropSelf(job, s.ids[k]) else TestRoom(job, s.ids[k])))
  {
    var k := Newest(s.files, r.path);
    var job, id := JobOf(s, fd, r), s.ids[k];
    Search(s, w, fd, r);
    Serving(s, w, fd, r, k);
    Ownership.IndexIs(s.ids, k);
    hide Reaches, Busy, NoShadow, Bytes, Newest, IndexOf;
    Again(s, w, Waiting(job, id), TestSize(job, id));
    ReachesStep(s, w, SetPc(s, w, TestSize(job, id)), Advance(w));
    Again(s, w, TestSize(job, id), DropSelf(job, id));
    Again(s, w, TestSize(job, id), TestRoom(job, id));
  }

  lemma ToDrop(s: State, w: nat, job: Job, k: nat)
    requires !s.fault && |s.files| == |s.ids| && Ownership.DistinctIds(s.ids) && k < |s.files| && w < |s.workers| && s.workers[w].Idle?
    requires Reaches(s, w, SetPc(s, w, DropSelf(job, s.ids[k])))
    ensures Reaches(s, w, Drop(s, k))
  {
    Ownership.IndexIs(s.ids, k);
    hide Reaches, IndexOf, Remove;
    ReachesStep(s, w, SetPc(s, w, DropSelf(job, s.ids[k])), Advance(w));
    Again(s, w, DropSelf(job, s.ids[k]), Idle);
  }

  lemma ToRoom(s: State, w: nat, job: Job, id: Id)
    requires !s.fault && |s.files| == |s.ids| && id in s.ids && w < |s.workers|
    requires Reaches(s, w, SetPc(s, w, TestRoom(job, id)))
    ensures Reaches(s, w, SetPc(s, w, if s.ramDispo < |Chunk(job)| then EvictRoom(job, id, End) else CommitNow(job, id)))
  {
    hide Reaches, IndexOf, Chunk;
    ReachesStep(s, w, SetPc(s, w, TestRoom(job, id)), Advance(w));
    Again(s, w, TestRoom(job, id), EvictRoom(job, id, End));
    Again(s, w, TestRoom(job, id), CommitNow(job, id));
  }

  // The request is turned down, or the file itself is the victim.
  lemma AppendRefused(s: State, w: nat, fd: nat, path: string, chunk: seq<Byte>, maxMem: nat, peak: nat) returns (t: State)
    requires Ready(s, w, fd)
    requires var k := Newest(s.files, path); k == |s.files| || s.files[k].owner != fd || TooBig(s.ramTot, s.files[k], chunk)
    ensures Reaches(s, w, t) && Finished(s, t) && Holds(t, Handle(StoreOf(s, maxMem, peak), fd, Append(path, chunk)).0)
    ensures Replies(s, t, fd, Append(path, chunk), Handle(StoreOf(s, maxMem, peak), fd, Append(path, chunk)).1)
  {
    hide Reaches, Busy, NoShadow, Bytes, Newest, Evicting, Remove;
    var r, k := Append(path, chunk), Newest(s.files, path);
    var job := JobOf(s, fd, r);
    Search(s, w, fd, r);
    Again(s, w, Found(s, job, path), Idle);
    t := s;
    SaysNothing(s, s, fd, s.conns[fd]);
    if k < |s.files| {
      Serving(s, w, fd, r, k);
      if s.files[k].owner == fd {
        OwnerTest(s, w, fd, r);
        ToDrop(s, w, job, k);
        t := Drop(s, k);
        SaysNothing(s, t, fd, s.conns[fd]);
      }
    }
  }

  lemma ToCommit(s: State, w: nat, fd: nat, r: Request)
    requires Ready(s, w, fd) && r.Append?
    requires var k := Newest(s.files, r.path); k < |s.files| && s.files[k].owner == fd && !TooBig(s.ramTot, s.files[k], r.chunk)
    ensures var job, id := JobOf(s, fd, r), s.ids[Newest(s.files, r.path)];
      Reaches(s, w, SetPc(s, w, if s.ramDispo < |r.chunk| then EvictRoom(job, id, End) else CommitNow(job, id)))
  {
    var k := Newest(s.files, r.path);
    OwnerTest(s, w, fd, r);
    hide Reaches, Busy, NoShadow, Bytes, Newest;
    ToRoom(s, w, JobOf(s, fd, r), s.ids[k]);
  }

  // What the handler makes of an append that is not too large.
  lemma AppendMeans(s: State, fd: nat, path: string, chunk: seq<Byte>, maxMem: nat, peak: nat)
    requires var k := Newest(s.files, path); k < |s.files| && s.files[k].owner == fd && !TooBig(s.ramTot, s.files[k], chunk)
    ensures var u, goal, f := StoreOf(s, maxMem, peak), Room(|chunk|), s.files[Newest(s.files, path)];
      var cut := Stop(goal, s.files, ShortOf(u, goal));
      var kept, h := s.files[..cut] + Kept(s.files[cut..]), Handle(u, fd, Append(path, chunk)).0;
      && h.files == (if ShortOf(u, goal) <= Freed(Room(0), s.files[cut..]) then Swap(kept, f, Appended(f, chunk)) else kept)
      && h.removed == s.removed + Victims(s.files[cut..]) && h.created == s.created
    ensures var u, goal := StoreOf(s, maxMem, peak), Room(|chunk|);
      var enough := ShortOf(u, goal) <= Freed(Room(0), s.files[Stop(goal, s.files, ShortOf(u, goal))..]);
      var reply := Handle(u, fd, Append(path, chunk)).1;
      if enough then reply.Success? else reply == Failure
  {
    hide Newest, Evicting, Fits, Freed, Kept, Victims, Stop, Told, Swap, Bytes, ShortOf;
    Enough(s, Room(|chunk|), maxMem, peak);
    var u := StoreOf(s, maxMem, peak);
    hide TooBig;
  }

  lemma RoomyMeans(s: State, fd: nat, path: string, chunk: seq<Byte>, maxMem: nat, peak: nat)
    requires NoShadow(s.files) && |chunk| <= s.ramTot - Bytes(s.files)
    requires var k := Newest(s.files, path); k < |s.files| && s.files[k].owner == fd && !TooBig(s.ramTot, s.files[k], chunk)
    ensures var k, h := Newest(s.files, path), Handle(StoreOf(s, maxMem, peak), fd, Append(path, chunk)).0;
      h.files == s.files[k := Appended(s.files[k], chunk)] && h.removed == s.removed && h.created == s.created
    ensures Handle(StoreOf(s, maxMem, peak), fd, Append(path, chunk)).1.Success?
  {
    var k, goal := Newest(s.files, path), Room(|chunk|);
    var short := ShortOf(StoreOf(s, maxMem, peak), goal);
    AppendMeans(s, fd, path, chunk, maxMem, peak);
    NothingMissing(goal, s.files, short, Stop(goal, s.files, short));
    SwapIsUpdate(s.files, k, Appended(s.files[k], chunk));
    hide NoShadow, Bytes, Newest, Freed, Kept, Victims, Stop, Swap, Handle;
  }

  lemma AppendRoomy(s: State, w: nat, fd: nat, path: string, chunk: seq<Byte>, maxMem: nat, peak: nat) returns (t: State)
    requires Ready(s, w, fd) && |chunk| <= s.ramDispo
    requires var k := Newest(s.files, path); k < |s.files| && s.files[k].owner == fd && !TooBig(s.ramTot, s.files[k], chunk)
    ensures Reaches(s, w, t) && Finished(s, t) && Holds(t, Handle(StoreOf(s, maxMem, peak), fd, Append(path, chunk)).0)
    ensures Replies(s, t, fd, Append(path, chunk), Handle(StoreOf(s, maxMem, peak), fd, Append(path, chunk)).1)
  {
    var r, k := Append(path, chunk), Newest(s.files, path);
    var job := JobOf(s, fd, r);
    RoomyMeans(s, fd, path, chunk, maxMem, peak);
    SwapIsUpdate(s.files, k, Appended(s.files[k], chunk));
    t := CommitRoomy(s, w, fd, r);
    hide Reaches, Ready, Newest, Handle, Swap, NoShadow;
    Again(s, w, CommitNow(job, s.ids[k]), Idle);
    SaysAppending(s, t, fd, s.conns[fd], chunk);
  }

  lemma SaysAppending(s: State, t: State, fd: nat, conn: nat, chunk: seq<Byte>)
    requires exists id :: t.log == s.log + [Entry(id, fd, conn, Appending(chunk))]
    ensures Says(s, t, fd, conn, [Appending(chunk)])
  {
  }

  lemma CommitStep(c: State, w: nat, job: Job, k: nat)
    requires w < |c.workers| && k < |c.files| == |c.ids| && c.workers[w] == CommitNow(job, c.ids[k]) && !c.fault
    requires Ownership.DistinctIds(c.ids)
    ensures Next(c, Advance(w)) == Commit(c, w, job, k)
  {
    Ownership.IndexIs(c.ids, k);
    hide IndexOf, Commit, Ownership.DistinctIds;
  }

  lemma CommitRoomy(s: State, w: nat, fd: nat, r: Request) returns (t: State)
    requires Ready(s, w, fd) && r.Append? && |r.chunk| <= s.ramDispo
    requires var k := Newest(s.files, r.path); k < |s.files| && s.files[k].owner == fd && !TooBig(s.ramTot, s.files[k], r.chunk)
    ensures var k := Newest(s.files, r.path);
      Reaches(s, w, t) && Committed(SetPc(s, w, CommitNow(JobOf(s, fd, r), s.ids[k])), w, t, s.files[k], r.chunk)
  {
    var k, job := Newest(s.files, r.path), JobOf(s, fd, r);
    var c := SetPc(s, w, CommitNow(job, s.ids[k]));
    ToCommit(s, w, fd, r);
    hide Next, Reaches, Newest, NoShadow, Bytes, Busy, Commit, Ownership.DistinctIds, Committed;
    CommitStep(c, w, job, k);
    ReachesStep(s, w, c, Advance(w));
    CommitIs(c, w, job, s.ids[k], s.files[k], k);
    t := Commit(c, w, job, k);
  }

  // An append's eviction, run by the worker alone, and what it leaves.
  lemma SweptForAppend(s: State, w: nat, fd: nat, r: Request, cut: nat) returns (q: State)
    requires Ready(s, w, fd) && r.Append? && s.ramDispo < |r.chunk| && cut <= |s.files|
    requires var k := Newest(s.files, r.path); k < |s.files| && s.files[k].owner == fd && !TooBig(s.ramTot, s.files[k], r.chunk)
    ensures Reaches(s, w, q) && q.files == s.files[..cut] + Kept(s.files[cut..]) && NoShadow(q.files)
    ensures q.removed == s.removed + Victims(s.files[cut..]) && q.ramDispo == s.ramDispo + Freed(Room(0), s.files[cut..])
    ensures q.created == s.created && q.conns == s.conns && q.log == s.log && !q.fault && |q.files| == |q.ids|
    ensures Ownership.DistinctIds(q.ids)
    ensures var k := Newest(s.files, r.path);
      (exists cur :: q.workers == s.workers[w := EvictRoom(JobOf(s, fd, r), s.ids[k], cur)]) && Named(q, s.ids[k], s.files[k])
  {
    var k := Newest(s.files, r.path);
    var b := SetPc(s, w, EvictRoom(JobOf(s, fd, r), s.ids[k], End));
    ToCommit(s, w, fd, r);
    CutNoShadow(s.files, cut);
    NamedAt(b, k);
    assert !Evictable(s.files[k]);
    hide Reaches, Newest, NoShadow, Bytes, Busy, Freed, Kept, Victims, Ownership.DistinctIds, Keeps, Named, Swept, Pointing;
    q := Sweep(b, w, cut);
    ReachesOn(s, w, b, q);
    SweptIs(b, w, cut, q);
    KeepsOne(b, q, s.ids[k], s.files[k]);
    PointingIs(b, w, cut, q);
  }

  lemma SweptIs(s: State, w: nat, cut: nat, q: State)
    requires w < |s.workers| && !s.fault && |s.files| == |s.ids| && cut <= |s.files| && Swept(s, cut, q)
    ensures q.files == s.files[..cut] + Kept(s.files[cut..]) && |q.files| == |q.ids|
    ensures q.removed == s.removed + Victims(s.files[cut..]) && q.ramDispo == s.ramDispo + Freed(Room(0), s.files[cut..])
    ensures q.created == s.created && q.conns == s.conns && q.log == s.log && !q.fault && Ownership.DistinctIds(q.ids) && Keeps(s, q)
  {
    hide Freed, Kept, Victims, Keeps, Ownership.DistinctIds;
  }

  lemma PointingIs(s: State, w: nat, cut: nat, q: State)
    requires w < |s.workers| && s.workers[w].EvictRoom? && Pointing(s, w, cut, q)
    ensures exists cur :: q.workers == s.workers[w := EvictRoom(s.workers[w].job, s.workers[w].id, cur)]
  {
  }

  lemma AppendEvicting(s: State, w: nat, fd: nat, path: string, chunk: seq<Byte>, maxMem: nat, peak: nat) returns (t: State)
    requires Ready(s, w, fd) && s.ramDispo < |chunk|
    requires var k := Newest(s.files, path); k < |s.files| && s.files[k].owner == fd && !TooBig(s.ramTot, s.files[k], chunk)
    ensures Reaches(s, w, t) && Finished(s, t) && Holds(t, Handle(StoreOf(s, maxMem, peak), fd, Append(path, chunk)).0)
    ensures Replies(s, t, fd, Append(path, chunk), Handle(StoreOf(s, maxMem, peak), fd, Append(path, chunk)).1)
  {
    var r, k, goal := Append(path, chunk), Newest(s.files, path), Room(|chunk|);
    var job, short := JobOf(s, fd, r), ShortOf(StoreOf(s, maxMem, peak), goal);
    AppendMeans(s, fd, path, chunk, maxMem, peak);
    var q := SweptForAppend(s, w, fd, r, Stop(goal, s.files, short));
    assert short == |chunk| - s.ramDispo && s.workers[w] == Idle;
    hide Reaches, Ready, Newest, NoShadow, Bytes, Freed, Kept, Victims, Stop, Swap, Named, Handle, ShortOf, Ownership.DistinctIds;
    if |chunk| <= q.ramDispo {
      t := CommitAlone(s, w, q, job, s.ids[k], s.files[k]);
      CommittedEnds(s, w, q, job, t, s.files[k], chunk);
    } else {
      t := SetPc(q, w, Idle);
      RefuseAlone(s, w, q);
      SaysNothing(s, t, fd, s.conns[fd]);
      Again(s, w, q.workers[w], Idle);
    }
    hide Says, Committed;
  }

  lemma CommittedEnds(s: State, w: nat, q: State, job: Job, t: State, f: File, chunk: seq<Byte>)
    requires w < |s.workers| == |q.workers| && s.workers[w].Idle? && q.workers == s.workers[w := q.workers[w]]
    requires !q.workers[w].Idle? && q.workers[w].job == job && q.conns == s.conns && q.log == s.log
    requires Committed(q, w, t, f, chunk)
    ensures Finished(s, t) && t.files == Swap(q.files, f, Appended(f, chunk)) && t.removed == q.removed && t.created == q.created
    ensures Says(s, t, job.fd, job.conn, [Appending(chunk)])
  {
    hide Swap;
    Again(s, w, q.workers[w], Idle);
    SaysAppending(s, t, job.fd, job.conn, chunk);
    hide Says;
  }

  lemma NamedAt(s: State, k: nat)
    requires k < |s.files| == |s.ids|
    ensures Named(s, s.ids[k], s.files[k])
  {
  }

  lemma KeepsOne(s: State, t: State, id: Id, f: File)
    requires Keeps(s, t) && Named(s, id, f) && !Evictable(f)
    ensures Named(t, id, f)
  {
  }

  // ---------- readNFiles ----------

  function CursorAt(s: State, i: nat): Link {
    if i < |s.ids| then To(s.ids[i]) else End
  }

  lemma {:induction false} WalkAlone(s: State, w: nat, job: Job, i: nat, left: nat) returns (t: State)
    requires !s.fault && |s.files| == |s.ids| && Ownership.DistinctIds(s.ids) && i <= |s.files|
    requires w < |s.workers| && s.workers[w] == Walking(job, left, CursorAt(s, i))
    ensures Reaches(s, w, t) && t.files == s.files[..i] + Shut(s.files[i..], left)
    ensures t.removed == s.removed && t.created == s.created && t.conns == s.conns && !t.fault
    ensures t.workers == s.workers[w := Idle] && Says(s, t, job.fd, job.conn, Dumps(Sent(s.files[i..], left)))
    decreases |s.files| - i
  {
    hide Reaches, Ownership.DistinctIds, IndexOf;
    ReachesSelf(s, w);
    ReachesStep(s, w, s, Advance(w));
    if i == |s.files| || left == 0 {
      t := SetPc(s, w, Idle);
      assert s.files[..i] + s.files[i..] == s.files;
      SaysNothing(s, t, job.fd, job.conn);
    } else {
      Ownership.IndexIs(s.ids, i);
      var u := Walk(s, w, job, left, i);
      var left' := if s.files[i].modified == EMPTY then left else left - 1;
      assert u.workers[w] == Walking(job, left', CursorAt(u, i + 1));
      t := WalkAlone(u, w, job, i + 1, left');
      ReachesOn(s, w, u, t);
      WalkedOne(s.files, i, left);
      WalkedSays(s, w, job, i, left, t);
      hide Says;
    }
  }

  lemma WalkedSays(s: State, w: nat, job: Job, i: nat, left: nat, t: State)
    requires |s.files| == |s.ids| && i < |s.files| && w < |s.workers| && 0 < left && |Walk(s, w, job, left, i).files| == |s.files|
    requires var u, left' := Walk(s, w, job, left, i), if s.files[i].modified == EMPTY then left else left - 1;
      Says(u, t, job.fd, job.conn, Dumps(Sent(u.files[i + 1..], left')))
    ensures Says(s, t, job.fd, job.conn, Dumps(Sent(s.files[i..], left)))
  {
    var u := Walk(s, w, job, left, i);
    assert s.files[i..][1..] == s.files[i + 1..] && u.files[i + 1..] == s.files[i + 1..];
    if s.files[i].modified != EMPTY {
      var later := Sent(s.files[i + 1..], left - 1);
      assert ([s.files[i]] + later)[1..] == later;
      SaysMore(s, u, t, s.ids[i], job.fd, job.conn, Dump(s.files[i].data), Dumps(later));
    } else {
      SaysSame(s, u, t, job.fd, job.conn, Dumps(Sent(s.files[i + 1..], left)));
    }
    hide Says;
  }

  lemma SaysMore(s: State, u: State, t: State, id: Id, fd: nat, conn: nat, deed: Deed, later: seq<Deed>)
    requires u.log == s.log + [Entry(id, fd, conn, deed)] && Says(u, t, fd, conn, later)
    ensures Says(s, t, fd, conn, [deed] + later)
  {
    assert t.log[..|s.log|] == t.log[..|u.log|][..|s.log|] == s.log && t.log[|s.log|] == t.log[..|u.log|][|s.log|];
    var ds := [deed] + later;
    forall i | 0 <= i < |ds| ensures var n := t.log[|s.log| + i]; n.deed == ds[i] && n.fd == fd && n.conn == conn {
      if 0 < i { assert t.log[|s.log| + i] == t.log[|u.log| + (i - 1)] && ds[i] == later[i - 1]; }
    }
  }

  lemma WalkedOne(files: seq<File>, i: nat, left: nat)
    requires i < |files| && 0 < left
    ensures var f := files[i];
      files[..i] + Shut(files[i..], left) ==
        if f.modified == EMPTY then files[..i + 1] + Shut(files[i + 1..], left)
        else files[i := f.(owner := CLOSED)][..i + 1] + Shut(files[i := f.(owner := CLOSED)][i + 1..], left - 1)
  {
    var g := files[i].(owner := CLOSED);
    assert files[i..][1..] == files[i + 1..] && files[i := g][i + 1..] == files[i + 1..];
    assert files[..i + 1] == files[..i] + [files[i]] && files[i := g][..i + 1] == files[..i] + [g];
  }

  lemma WalkStarts(s: State, w: nat, fd: nat, n: nat, left: nat)
    requires Ready(s, w, fd) && left == (if n == 0 then s.nfileDispo else n)
    ensures Reaches(s, w, SetPc(s, w, Walking(JobOf(s, fd, ReadN(n)), left, CursorAt(s, 0))))
  {
    var job := JobOf(s, fd, ReadN(n));
    Begin(s, w, fd, ReadN(n));
    hide Reaches, Busy, NoShadow, Bytes;
    ReachesStep(s, w, SetPc(s, w, Started(job)), Advance(w));
    Again(s, w, Started(job), Walking(job, left, CursorAt(s, 0)));
  }

  lemma ReadNMeans(s: State, fd: nat, n: nat, maxMem: nat, peak: nat)
    ensures var u := StoreOf(s, maxMem, peak);
      var (v, reply) := Handle(u, fd, ReadN(n));
      && v.files == Shut(s.files, Wanted(u, n)) && v.removed == s.removed && v.created == s.created
      && Deeds(s.files, ReadN(n), reply) == Dumps(Sent(s.files, Wanted(u, n)))
  {
    hide Sent, Shut, Dumps, Bytes;
  }

  lemma ReadNAlone(s: State, w: nat, fd: nat, n: nat, maxMem: nat, peak: nat) returns (t: State)
    requires Ready(s, w, fd)
    ensures Reaches(s, w, t) && Finished(s, t) && Holds(t, Handle(StoreOf(s, maxMem, peak), fd, ReadN(n)).0)
    ensures Replies(s, t, fd, ReadN(n), Handle(StoreOf(s, maxMem, peak), fd, ReadN(n)).1)
  {
    var job, left := JobOf(s, fd, ReadN(n)), Wanted(StoreOf(s, maxMem, peak), n);
    WalkStarts(s, w, fd, n, left);
    ReadNMeans(s, fd, n, maxMem, peak);
    hide Reaches, Busy, NoShadow, Bytes, Shut, Sent, Dumps, Says, Handle, Deeds, Wanted, Ownership.DistinctIds;
    var a := SetPc(s, w, Walking(job, left, CursorAt(s, 0)));
    assert a.files[0..] == s.files && a.files[..0] == [];
    t := WalkAlone(a, w, job, 0, left);
    ReachesOn(s, w, a, t);
    Again(s, w, Walking(job, left, CursorAt(s, 0)), Idle);
    SaysSame(s, a, t, fd, job.conn, Dumps(Sent(s.files, left)));
  }

  lemma SaysSame(s: State, a: State, t: State, fd: nat, conn: nat, ds: seq<Deed>)
    requires a.log == s.log && Says(a, t, fd, conn, ds)
    ensures Says(s, t, fd, conn, ds)
  {
  }

  // ---------- all of them ----------

  // A worker that no other interrupts can bring every request to the store that the
  // handler gives, and be idle again.
  lemma AloneIsHandle(s: State, w: nat, fd: nat, r: Request, maxMem: nat, peak: nat)
    requires Ready(s, w, fd)
    ensures var (u, reply) := Handle(StoreOf(s, maxMem, peak), fd, r);
      exists t :: Reaches(s, w, t) && Finished(s, t) && Holds(t, u) && Replies(s, t, fd, r, reply)
  {
    hide Reaches, Finished, Holds, Replies, Handle, Ready;
    var t: State;
    match r {
      case Open(path, flag) =>
        if flag == OpenExisting || Newest(s.files, path) < |s.files| {
          t := ServedAlone(s, w, fd, r, maxMem, peak);
        } else if s.nfileDispo <= 0 {
          t := CreateEvicting(s, w, fd, path, maxMem, peak);
        } else {
          t := CreateFree(s, w, fd, path, maxMem, peak);
        }
      case Append(path, chunk) =>
        var k := Newest(s.files, path);
        if k == |s.files| || s.files[k].owner != fd || TooBig(s.ramTot, s.files[k], chunk) {
          t := AppendRefused(s, w, fd, path, chunk, maxMem, peak);
        } else if s.ramDispo < |chunk| {
          t := AppendEvicting(s, w, fd, path, chunk, maxMem, peak);
        } else {
          t := AppendRoomy(s, w, fd, path, chunk, maxMem, peak);
        }
      case ReadN(n) => t := ReadNAlone(s, w, fd, n, maxMem, peak);
      case _ => t := ServedAlone(s, w, fd, r, maxMem, peak);
    }
  }

  // The workers are idle and the store is the one given.
  ghost predicate Follows(s: State, u: Store) {
    && Holds(s, u) && s.nfileTot == u.nfileTot && s.ramTot == u.ramTot && !s.fault
    && forall w :: 0 <= w < |s.workers| ==> s.workers[w].Idle?
  }

  // After a run, with the client connected, the first worker is free for a request.
  lemma Welcome(ram: nat, nfile: nat, threads: nat, es: seq<Event>, u: Store, fd: nat) returns (fs: seq<Event>)
    requires 0 < threads && Follows(Workers.Run(Init(ram, nfile, threads), es), u) && Good(u)
    ensures var s := Workers.Run(Init(ram, nfile, threads), fs);
      Follows(s, u) && Ready(s, 0, fd) && s.nfileTot == nfile && s.ramTot == ram
  {
    hide Workers.Run, Init, NoShadow, Ownership.Truthful, Ownership.Chunks;
    var s := Workers.Run(Init(ram, nfile, threads), es);
    fs := if fd in s.conns then es else es + [Connect(fd)];
    Extend(Init(ram, nfile, threads), es, Connect(fd));
    RunBudgets(ram, nfile, threads, fs);
    Ownership.RunContents(ram, nfile, threads, fs);
  }

  lemma Continued(ram: nat, nfile: nat, threads: nat, fs: seq<Event>, t: State) returns (es: seq<Event>)
    requires Reaches(Workers.Run(Init(ram, nfile, threads), fs), 0, t)
    ensures Workers.Run(Init(ram, nfile, threads), es) == t
  {
    hide Workers.Run, Init, By;
    var s := Workers.Run(Init(ram, nfile, threads), fs);
    var gs: seq<Event> :| Workers.Run(s, gs) == t && forall e :: e in gs ==> By(e, 0);
    Join(Init(ram, nfile, threads), fs, gs);
    es := fs + gs;
  }

  // So every run of requests one at a time is also a run of the step system, and what
  // is proved of all interleavings holds of it.
  lemma {:induction false} RunsAgree(ram: nat, nfile: nat, threads: nat, calls: seq<Call>)
    requires 0 < threads
    ensures exists es :: Follows(Workers.Run(Init(ram, nfile, threads), es), Service.Run(Fresh(ram, nfile), calls))
    decreases |calls|
  {
    if calls == [] {
      assert Follows(Workers.Run(Init(ram, nfile, threads), []), Fresh(ram, nfile));
    } else {
      var before, c := calls[..|calls| - 1], calls[|calls| - 1];
      RunsAgree(ram, nfile, threads, before);
      var u := Service.Run(Fresh(ram, nfile), before);
      var es :| Follows(Workers.Run(Init(ram, nfile, threads), es), u);
      RunIsGood(ram, nfile, before);
      assert Service.Run(Fresh(ram, nfile), calls) == Handle(u, c.fd, c.request).0;
      hide Workers.Run, Service.Run, Init, Fresh, Handle, Good, Ready, Reaches;
      var fs := Welcome(ram, nfile, threads, es, u, c.fd);
      var s := Workers.Run(Init(ram, nfile, threads), fs);
      assert StoreOf(s, u.maxMem, u.peak) == u;
      AloneIsHandle(s, 0, c.fd, c.request, u.maxMem, u.peak);
      var t :| Reaches(s, 0, t) && Finished(s, t) && Holds(t, Handle(u, c.fd, c.request).0);
      var gs := Continued(ram, nfile, threads, fs, t);
      RunBudgets(ram, nfile, threads, gs);
      SameTotals(u, c.fd, c.request);
      assert Follows(Workers.Run(Init(ram, nfile, threads), gs), Service.Run(Fresh(ram, nfile), calls));
    }
  }

  lemma SameTotals(u: Store, fd: nat, r: Request)
    ensures Handle(u, fd, r).0.nfileTot == u.nfileTot && Handle(u, fd, r).0.ramTot == u.ramTot
  {
  }
}
