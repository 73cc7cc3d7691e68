// Worker threads over one store.  A step is one locked section of a request, or
// one test the code makes without the lock; steps of different workers interleave
// freely.  Files carry identities, newest first, and the cursors of the loops are
// identities too: one that another worker's removal has left behind points to freed
// memory, and using it is a fault.
module Workers {
  import opened Files
  import opened Service

  type Id = nat

  datatype Op = Ask(request: Request) | Hangup

  // A request as a worker got it: descriptor, the connection behind it, operation.
  datatype Job = Job(fd: nat, conn: nat, op: Op)

  // Where a worker is, between two atomic sections.
  datatype Pc =
    | Idle
    | Started(job: Job)                // next: the locked search
    | TestSlot(job: Job)               // next: is a slot free, without the lock
    | EvictSlot(job: Job, cur: Link)   // it was not: next, the file at the cursor, or the test again
    | InsertNow(job: Job)              // a slot was free: next, the locked insertion
    | Waiting(job: Job, id: Id)        // next: the locked test of the owner
    | TestSize(job: Job, id: Id)       // next: is the chunk larger than the store
    | DropSelf(job: Job, id: Id)       // it was: next, the locked removal
    | TestRoom(job: Job, id: Id)       // next: is there room, without the lock
    | EvictRoom(job: Job, id: Id, cur: Link)
    | CommitNow(job: Job, id: Id)      // there was room: next, the locked copy
    | Walking(job: Job, left: int, cur: Link)

  datatype Link = End | To(id: Id)

  // What was done to a file for a connection, in lock order.
  datatype Deed = Creation | Opening | Reading(data: seq<Byte>) | Appending(chunk: seq<Byte>) | Closing | Dump(bytes: seq<Byte>)
  datatype Entry = Entry(id: Id, fd: nat, conn: nat, deed: Deed)

  datatype State = State(
    ramTot: nat, ramDispo: int, nfileTot: nat, nfileDispo: int,
    ids: seq<Id>, files: seq<File>, nextId: Id,
    workers: seq<Pc>, conns: map<nat, nat>, nextConn: nat,
    removed: nat, created: nat, log: seq<Entry>, fault: bool)

  datatype Event =
    | Connect(fd: nat)
    | Start(w: nat, fd: nat, op: Op)
    | Advance(w: nat)
    | Aim(w: nat)      // an eviction's cursor is set to the last file, without the lock
    | Evict(w: nat)    // removeFile at the cursor, under the lock
    | Quit(w: nat)

  function Init(ram: nat, nfile: nat, threads: nat): State {
    State(ram, ram, nfile, nfile, [], [], 0, seq(threads, _ => Idle), map[], 0, 0, 0, [], false)
  }

  function IndexOf(ids: seq<Id>, id: Id): (k: nat)
    ensures k <= |ids|
    ensures k < |ids| ==> ids[k] == id
    ensures k == |ids| <==> id !in ids
  {
    if ids == [] || ids[0] == id then 0 else 1 + IndexOf(ids[1..], id)
  }

  predicate Busy(workers: seq<Pc>, fd: nat) {
    exists w :: 0 <= w < |workers| && !workers[w].Idle? && workers[w].job.fd == fd
  }

  function SetPc(s: State, w: nat, pc: Pc): State
    requires w < |s.workers|
  {
    s.(workers := s.workers[w := pc])
  }

  function Log(s: State, id: Id, job: Job, deed: Deed): State {
    s.(log := s.log + [Entry(id, job.fd, job.conn, deed)])
  }

  // removeFile under the lock, on the file at k.
  function Drop(s: State, k: nat): State
    requires k < |s.files| == |s.ids|
  {
    s.(ids := Remove(s.ids, k), files := Remove(s.files, k), nfileDispo := s.nfileDispo + 1,
       ramDispo := s.ramDispo + |s.files[k].data|, removed := s.removed + 1)
  }

  function Own(s: State, k: nat, owner: int): State
    requires k < |s.files|
  {
    s.(files := s.files[k := s.files[k].(owner := owner)])
  }

  // The locked search, and what the handler does with what it finds.
  function Search(s: State, w: nat, job: Job): State
    requires w < |s.workers| && |s.files| == |s.ids|
  {
    match job.op
    case Hangup => SetPc(s, w, Idle).(conns := s.conns - {job.fd})
    case Ask(ReadN(n)) =>
      SetPc(s, w, Walking(job, if n == 0 then s.nfileDispo else n, if s.ids == [] then End else To(s.ids[0])))
    case Ask(Open(path, flag)) =>
      var k := Newest(s.files, path);
      if k == |s.files| then SetPc(s, w, if flag == Create then TestSlot(job) else Idle)
      else SetPc(s, w, if flag == Create then Idle else Waiting(job, s.ids[k]))
    case Ask(r) =>
      var k := Newest(s.files, r.path);
      SetPc(s, w, if k == |s.files| then Idle else Waiting(job, s.ids[k]))
  }

  // The locked test of the owner, for the file at k.
  function Serve(s: State, w: nat, job: Job, k: nat): State
    requires w < |s.workers| && k < |s.files| == |s.ids| && job.op.Ask?
  {
    var f, id := s.files[k], s.ids[k];
    match job.op.request
    case Open(_, _) =>
      if f.owner != CLOSED then s else Log(SetPc(Own(s, k, job.fd), w, Idle), id, job, Opening)
    case Read(_) =>
      if f.owner != job.fd then s else Log(SetPc(s, w, Idle), id, job, Reading(f.data))
    case Append(_, _) =>
      if f.owner != job.fd then s else SetPc(s, w, TestSize(job, id))
    case Close(_) =>
      if f.owner != job.fd then s else Log(SetPc(Own(s, k, CLOSED), w, Idle), id, job, Closing)
    case ReadN(_) => s
  }

  function Chunk(job: Job): seq<Byte> {
    if job.op.Ask? && job.op.request.Append? then job.op.request.chunk else []
  }

  function Name(job: Job): string {
    if job.op.Ask? && job.op.request.Open? then job.op.request.path else ""
  }

  // The locked end of UpdateFile, for the file at k.
  function Commit(s: State, w: nat, job: Job, k: nat): State
    requires w < |s.workers| && k < |s.files| == |s.ids|
  {
    if s.files[k].owner != job.fd then SetPc(s, w, Idle)
    else
      Log(SetPc(s, w, Idle), s.ids[k], job, Appending(Chunk(job)))
        .(files := s.files[k := Appended(s.files[k], Chunk(job))], ramDispo := s.ramDispo - |Chunk(job)|)
  }

  // One file of readNFiles: sent and closed, unless it is empty.
  function Walk(s: State, w: nat, job: Job, left: int, k: nat): State
    requires w < |s.workers| && k < |s.files| == |s.ids|
  {
    var next := if k + 1 < |s.ids| then To(s.ids[k + 1]) else End;
    if s.files[k].modified == EMPTY then SetPc(s, w, Walking(job, left, next))
    else Log(SetPc(Own(s, k, CLOSED), w, Walking(job, left - 1, next)), s.ids[k], job, Dump(s.files[k].data))
  }

  function Insert(s: State, w: nat, job: Job): State
    requires w < |s.workers|
  {
    Log(SetPc(s, w, Idle), s.nextId, job, Creation)
      .(ids := [s.nextId] + s.ids, files := [File(Name(job), job.fd, EMPTY, [])] + s.files, nextId := s.nextId + 1,
        nfileDispo := s.nfileDispo - 1, created := s.created + 1)
  }

  // The file a section is about to touch; touching a freed one is a fault.
  function Touched(s: State, pc: Pc): Link {
    match pc
    case Waiting(_, id) => To(id)
    case TestSize(job, id) => if s.ramTot < |Chunk(job)| then To(id) else End
    case DropSelf(_, id) => To(id)
    case CommitNow(_, id) => To(id)
    case Walking(_, left, cur) => if left <= 0 then End else cur
    case _ => End
  }

  predicate Dangling(s: State, w: nat)
    requires w < |s.workers|
  {
    var t := Touched(s, s.workers[w]);
    t.To? && t.id !in s.ids
  }

  // One section of worker w.
  function Section(s: State, w: nat): State
    requires w < |s.workers| && |s.files| == |s.ids| && !Dangling(s, w)
  {
    match s.workers[w]
    case Idle => s
    case Started(job) => Search(s, w, job)
    case TestSlot(job) => SetPc(s, w, if s.nfileDispo <= 0 then EvictSlot(job, End) else InsertNow(job))
    case EvictSlot(job, cur) => SetPc(s, w, if s.nfileDispo <= 0 then EvictSlot(job, cur) else InsertNow(job))
    case InsertNow(job) => Insert(s, w, job)
    case Waiting(job, id) => if job.op.Ask? then Serve(s, w, job, IndexOf(s.ids, id)) else s
    case TestSize(job, id) =>
      SetPc(s, w, if s.ramTot < |Chunk(job)| && s.files[IndexOf(s.ids, id)].modified == EMPTY
                  then DropSelf(job, id) else TestRoom(job, id))
    case DropSelf(_, id) => SetPc(Drop(s, IndexOf(s.ids, id)), w, Idle)
    case TestRoom(job, id) =>
      SetPc(s, w, if s.ramDispo - |Chunk(job)| < 0 then EvictRoom(job, id, End) else CommitNow(job, id))
    case EvictRoom(job, id, cur) =>
      SetPc(s, w, if s.ramDispo - |Chunk(job)| < 0 then EvictRoom(job, id, cur) else CommitNow(job, id))
    case CommitNow(job, id) => Commit(s, w, job, IndexOf(s.ids, id))
    case Walking(job, left, cur) =>
      if left <= 0 || cur == End then SetPc(s, w, Idle) else Walk(s, w, job, left, IndexOf(s.ids, cur.id))
  }

  predicate MakesRoom(pc: Pc) {
    pc.EvictSlot? || pc.EvictRoom?
  }

  // An eviction with its cursor moved.
  function At(pc: Pc, cur: Link): Pc {
    match pc
    case EvictSlot(job, _) => EvictSlot(job, cur)
    case EvictRoom(job, id, _) => EvictRoom(job, id, cur)
    case _ => pc
  }

  // An eviction whose cursor points to a freed file.
  predicate Stray(s: State, w: nat)
    requires w < |s.workers|
  {
    MakesRoom(s.workers[w]) && s.workers[w].cur.To? && s.workers[w].cur.id !in s.ids
  }

  // The place of the file at an eviction's cursor, if there is one.
  function Aimed(s: State, w: nat): nat
    requires w < |s.workers|
  {
    if MakesRoom(s.workers[w]) && s.workers[w].cur.To? then IndexOf(s.ids, s.workers[w].cur.id) else |s.ids|
  }

  function LastOf(ids: seq<Id>): Link {
    if ids == [] then End else To(ids[|ids| - 1])
  }

  // The neighbour towards the head.
  function Father(ids: seq<Id>, k: nat): Link
    requires k < |ids|
  {
    if k == 0 then End else To(ids[k - 1])
  }

  // One turn of an eviction: the file at the cursor goes if it may, and the cursor moves
  // on either way.
  function Turn(s: State, w: nat, k: nat): State
    requires w < |s.workers| && MakesRoom(s.workers[w]) && k < |s.files| == |s.ids|
  {
    SetPc(if Evictable(s.files[k]) then Drop(s, k) else s, w, At(s.workers[w], Father(s.ids, k)))
  }

  // One event; an event that is not possible changes nothing, and after a fault
  // nothing is promised, so the model stops there.
  function Next(s: State, e: Event): State {
    if s.fault || |s.files| != |s.ids| then s else
    match e
    case Connect(fd) =>
      if fd in s.conns then s else s.(conns := s.conns[fd := s.nextConn], nextConn := s.nextConn + 1)
    case Start(w, fd, op) =>
      if w < |s.workers| && s.workers[w].Idle? && fd in s.conns && !Busy(s.workers, fd)
      then SetPc(s, w, Started(Job(fd, s.conns[fd], op))) else s
    case Advance(w) =>
      if w >= |s.workers| then s
      else if Dangling(s, w) then s.(fault := true)
      else Section(s, w)
    case Aim(w) =>
      if w < |s.workers| && MakesRoom(s.workers[w]) then SetPc(s, w, At(s.workers[w], LastOf(s.ids))) else s
    case Evict(w) =>
      if w >= |s.workers| then s
      else if Stray(s, w) then s.(fault := true)
      else if Aimed(s, w) < |s.ids| then Turn(s, w, Aimed(s, w))
      else s
    case Quit(w) =>
      if w < |s.workers| && (s.workers[w].Waiting? || MakesRoom(s.workers[w]))
      then SetPc(s, w, Idle) else s
  }

  lemma SectionKeepsFault(s: State, w: nat)
    requires w < |s.workers| && |s.files| == |s.ids| && !Dangling(s, w)
    ensures Section(s, w).fault == s.fault && |Section(s, w).files| == |Section(s, w).ids|
  {
    hide Newest, IndexOf, Chunk, Name;
    match s.workers[w] {
      case Started(_) =>
      case Waiting(_, _) =>
      case CommitNow(_, _) =>
      case Walking(_, _, _) =>
      case _ =>
    }
  }

  // The event is an eviction that removes a file.
  predicate Takes(s: State, e: Event) {
    && e.Evict? && !s.fault && |s.files| == |s.ids| && e.w < |s.workers|
    && Aimed(s, e.w) < |s.ids| && Evictable(s.files[Aimed(s, e.w)])
  }

  // What an event other than a section leaves of the store.
  function Left(s: State, e: Event): State {
    if Takes(s, e) then Drop(s, Aimed(s, e.w)) else s
  }

  lemma OtherEvents(s: State, e: Event)
    requires e.Advance? ==> s.fault || |s.files| != |s.ids| || e.w >= |s.workers| || Dangling(s, e.w)
    ensures var t, u := Next(s, e), Left(s, e); t.ids == u.ids && t.files == u.files && t.nextId == u.nextId && t.log == u.log
  {
    hide Section, Dangling, Busy, IndexOf, Evictable, LastOf, Father, At;
  }

  function Run(s: State, es: seq<Event>): State
    decreases |es|
  {
    if es == [] then s else Next(Run(s, es[..|es| - 1]), es[|es| - 1])
  }

  lemma {:induction false} Extend(s: State, es: seq<Event>, e: Event)
    ensures Run(s, es + [e]) == Next(Run(s, es), e)
  {
    assert (es + [e])[..|es|] == es;
  }

  lemma {:induction false} Join(s: State, es: seq<Event>, fs: seq<Event>)
    ensures Run(s, es + fs) == Run(Run(s, es), fs)
    decreases |fs|
  {
    if fs == [] {
      assert es + fs == es;
    } else {
      var before, last := fs[..|fs| - 1], fs[|fs| - 1];
      Join(s, es, before);
      assert (es + fs)[..|es + fs| - 1] == es + before;
    }
  }

  // Some run from the start ends in t.
  ghost predicate Reached(ram: nat, nfile: nat, threads: nat, t: State) {
    exists es :: Run(Init(ram, nfile, threads), es) == t
  }

  lemma ReachedNext(ram: nat, nfile: nat, threads: nat, s: State, e: Event)
    requires Reached(ram, nfile, threads, s)
    ensures Reached(ram, nfile, threads, Next(s, e))
  {
    hide Run, Init, Next;
    var es :| Run(Init(ram, nfile, threads), es) == s;
    Extend(Init(ram, nfile, threads), es, e);
  }

  lemma ReachedRun(ram: nat, nfile: nat, threads: nat, t: State) returns (es: seq<Event>)
    requires Reached(ram, nfile, threads, t)
    ensures Run(Init(ram, nfile, threads), es) == t
  {
    es :| Run(Init(ram, nfile, threads), es) == t;
  }

  // ---------- budgets ----------

  // Workers that have seen a free slot and not yet taken it.
  function Inserting(workers: seq<Pc>): nat {
    if workers == [] then 0 else (if workers[0].InsertNow? then 1 else 0) + Inserting(workers[1..])
  }

  // Bytes that workers have seen room for and not yet taken.
  function Reserved(pc: Pc): nat {
    if pc.CommitNow? then |Chunk(pc.job)| else 0
  }

  function Pending(workers: seq<Pc>): nat {
    if workers == [] then 0 else Reserved(workers[0]) + Pending(workers[1..])
  }

  // The budgets say what the files take, and are overdrawn only as far as workers
  // that tested together can: one slot, or one store full, for each but one.
  ghost predicate Budgets(s: State) {
    && |s.files| == |s.ids| && 0 < |s.workers|
    && s.nfileDispo == s.nfileTot - |s.files|
    && s.ramDispo == s.ramTot - Bytes(s.files)
    && s.created == |s.files| + s.removed
    && 1 - |s.workers| <= s.nfileDispo - Inserting(s.workers)
    && -((|s.workers| - 1) * s.ramTot) <= s.ramDispo - Pending(s.workers)
    && forall w :: 0 <= w < |s.workers| ==> Reserved(s.workers[w]) <= s.ramTot
  }

  lemma {:induction false} InsertingUpdate(workers: seq<Pc>, w: nat, pc: Pc)
    requires w < |workers|
    ensures Inserting(workers[w := pc])
      == Inserting(workers) - (if workers[w].InsertNow? then 1 else 0) + (if pc.InsertNow? then 1 else 0)
    ensures Inserting(workers) <= |workers| - if workers[w].InsertNow? then 0 else 1
  {
    if 0 < w {
      assert workers[w := pc][1..] == workers[1..][w - 1 := pc];
      InsertingUpdate(workers[1..], w - 1, pc);
    } else {
      assert workers[w := pc][1..] == workers[1..];
      InsertingBound(workers[1..]);
    }
  }

  lemma {:induction false} InsertingBound(workers: seq<Pc>)
    ensures Inserting(workers) <= |workers|
  {
    if workers != [] { InsertingBound(workers[1..]); }
  }

  lemma {:induction false} PendingUpdate(workers: seq<Pc>, w: nat, pc: Pc)
    requires w < |workers|
    ensures Pending(workers[w := pc]) == Pending(workers) - Reserved(workers[w]) + Reserved(pc)
  {
    if 0 < w {
      assert workers[w := pc][1..] == workers[1..][w - 1 := pc];
      PendingUpdate(workers[1..], w - 1, pc);
    } else {
      assert workers[w := pc][1..] == workers[1..];
    }
  }

  lemma {:induction false} PendingBound(workers: seq<Pc>, ram: nat)
    requires forall w :: 0 <= w < |workers| ==> Reserved(workers[w]) <= ram
    ensures Pending(workers) <= |workers| * ram
  {
    if workers != [] {
      PendingBound(workers[1..], ram);
      assert |workers| * ram == ram + |workers[1..]| * ram;
    }
  }

  // One worker that has reserved nothing leaves the others at most a store each.
  lemma OthersBound(workers: seq<Pc>, w: nat, ram: nat)
    requires w < |workers| && Reserved(workers[w]) == 0
    requires forall v :: 0 <= v < |workers| ==> Reserved(workers[v]) <= ram
    ensures Pending(workers) <= (|workers| - 1) * ram
  {
    hide Pending, Reserved;
    var others := Remove(workers, w);
    assert |others| == |workers| - 1;
    forall v | 0 <= v < |others| ensures Reserved(others[v]) <= ram {
      assert others[v] == workers[if v < w then v else v + 1];
    }
    PendingRemove(workers, w);
    PendingBound(others, ram);
  }

  lemma {:induction false} PendingRemove(workers: seq<Pc>, w: nat)
    requires w < |workers|
    ensures Pending(workers) == Pending(Remove(workers, w)) + Reserved(workers[w])
  {
    if w == 0 {
      assert Remove(workers, 0) == workers[1..];
    } else {
      PendingRemove(workers[1..], w - 1);
      assert Remove(workers, w)[1..] == Remove(workers[1..], w - 1);
    }
  }

  // Whatever worker w does next, these are the facts about its two counters.
  lemma Moving(s: State, w: nat, pc: Pc)
    requires Budgets(s) && w < |s.workers|
    ensures Inserting(s.workers[w := pc]) ==
      Inserting(s.workers) - (if s.workers[w].InsertNow? then 1 else 0) + (if pc.InsertNow? then 1 else 0)
    ensures Pending(s.workers[w := pc]) == Pending(s.workers) - Reserved(s.workers[w]) + Reserved(pc)
  {
    InsertingUpdate(s.workers, w, pc);
    PendingUpdate(s.workers, w, pc);
  }

  // Moving on without taking or reserving anything new.
  lemma QuietMove(s: State, w: nat, pc: Pc)
    requires Budgets(s) && w < |s.workers| && !pc.InsertNow? && !pc.CommitNow?
    ensures Budgets(SetPc(s, w, pc))
  {
    Moving(s, w, pc);
  }

  // The unlocked tests: a reservation is only made while there is something left.
  lemma SlotSeen(s: State, w: nat, job: Job)
    requires Budgets(s) && w < |s.workers| && !s.workers[w].InsertNow? && !s.workers[w].CommitNow? && 0 < s.nfileDispo
    ensures Budgets(SetPc(s, w, InsertNow(job)))
  {
    Moving(s, w, InsertNow(job));
    InsertingUpdate(s.workers, w, Idle);
  }

  lemma RoomSeen(s: State, w: nat, job: Job, id: Id)
    requires Budgets(s) && w < |s.workers| && !s.workers[w].InsertNow? && !s.workers[w].CommitNow?
    requires |Chunk(job)| <= s.ramDispo
    ensures Budgets(SetPc(s, w, CommitNow(job, id)))
  {
    Moving(s, w, CommitNow(job, id));
    OthersBound(s.workers, w, s.ramTot);
  }

  lemma DropKeepsBudgets(s: State, k: nat)
    requires Budgets(s) && k < |s.files|
    ensures Budgets(Drop(s, k))
  {
    BytesRemove(s.files, k);
  }

  lemma OwnKeepsBudgets(s: State, k: nat, owner: int)
    requires Budgets(s) && k < |s.files|
    ensures Budgets(Own(s, k, owner))
  {
    BytesUpdate(s.files, k, s.files[k].(owner := owner));
  }

  lemma InsertKeepsBudgets(s: State, w: nat, job: Job)
    requires Budgets(s) && w < |s.workers| && s.workers[w] == InsertNow(job)
    ensures Budgets(Insert(s, w, job))
  {
    Moving(s, w, Idle);
    var t := Insert(s, w, job);
    assert t.files[1..] == s.files;
  }

  lemma CommitKeepsBudgets(s: State, w: nat, job: Job, id: Id)
    requires Budgets(s) && w < |s.workers| && s.workers[w] == CommitNow(job, id) && id in s.ids
    ensures Budgets(Commit(s, w, job, IndexOf(s.ids, id)))
  {
    hide Bytes, Inserting, Pending;
    var k := IndexOf(s.ids, id);
    Moving(s, w, Idle);
    BytesUpdate(s.files, k, Appended(s.files[k], Chunk(job)));
  }

  lemma ServeKeepsBudgets(s: State, w: nat, job: Job, k: nat)
    requires Budgets(s) && w < |s.workers| && k < |s.files| && s.workers[w].Waiting? && job.op.Ask?
    ensures Budgets(Serve(s, w, job, k))
  {
    hide Bytes, Inserting, Pending;
    var id := s.ids[k];
    QuietMove(s, w, Idle);
    QuietMove(s, w, TestSize(job, id));
    OwnKeepsBudgets(SetPc(s, w, Idle), k, job.fd);
    OwnKeepsBudgets(SetPc(s, w, Idle), k, CLOSED);
  }

  lemma WalkKeepsBudgets(s: State, w: nat, job: Job, left: int, k: nat)
    requires Budgets(s) && w < |s.workers| && k < |s.files| && s.workers[w].Walking?
    ensures Budgets(Walk(s, w, job, left, k))
  {
    hide Bytes, Inserting, Pending;
    var next := if k + 1 < |s.ids| then To(s.ids[k + 1]) else End;
    QuietMove(s, w, Walking(job, left, next));
    QuietMove(s, w, Walking(job, left - 1, next));
    OwnKeepsBudgets(SetPc(s, w, Walking(job, left - 1, next)), k, CLOSED);
  }

  lemma SearchKeepsBudgets(s: State, w: nat, job: Job)
    requires Budgets(s) && w < |s.workers| && s.workers[w].Started?
    ensures Budgets(Search(s, w, job))
  {
    hide Newest;
    var pc := Search(s, w, job).workers[w];
    QuietMove(s, w, pc);
  }

  lemma SectionKeepsBudgets(s: State, w: nat)
    requires Budgets(s) && w < |s.workers| && !Dangling(s, w)
    ensures Budgets(Section(s, w))
  {
    SameLength(s);
    hide Budgets, Search, Serve, Insert, Commit, Walk, Drop;
    match s.workers[w] {
      case Idle =>
      case Started(job) => SearchKeepsBudgets(s, w, job);
      case TestSlot(job) => QuietMove(s, w, EvictSlot(job, End)); if 0 < s.nfileDispo { SlotSeen(s, w, job); }
      case EvictSlot(job, cur) => QuietMove(s, w, EvictSlot(job, cur)); if 0 < s.nfileDispo { SlotSeen(s, w, job); }
      case InsertNow(job) => InsertKeepsBudgets(s, w, job);
      case Waiting(job, id) => if job.op.Ask? { ServeKeepsBudgets(s, w, job, IndexOf(s.ids, id)); }
      case TestSize(job, id) => QuietMove(s, w, DropSelf(job, id)); QuietMove(s, w, TestRoom(job, id));
      case DropSelf(_, id) =>
        DropKeepsBudgets(s, IndexOf(s.ids, id));
        DropKeepsWorkers(s, IndexOf(s.ids, id));
        QuietMove(Drop(s, IndexOf(s.ids, id)), w, Idle);
      case TestRoom(job, id) =>
        QuietMove(s, w, EvictRoom(job, id, End)); if |Chunk(job)| <= s.ramDispo { RoomSeen(s, w, job, id); }
      case EvictRoom(job, id, cur) =>
        QuietMove(s, w, EvictRoom(job, id, cur)); if |Chunk(job)| <= s.ramDispo { RoomSeen(s, w, job, id); }
      case CommitNow(job, id) => CommitKeepsBudgets(s, w, job, id);
      case Walking(job, left, cur) =>
        if left <= 0 || cur == End { QuietMove(s, w, Idle); } else { WalkKeepsBudgets(s, w, job, left, IndexOf(s.ids, cur.id)); }
    }
  }

  lemma SameLength(s: State)
    requires Budgets(s)
    ensures |s.files| == |s.ids|
  {
  }

  lemma DropKeepsWorkers(s: State, k: nat)
    requires k < |s.files| == |s.ids|
    ensures Drop(s, k).workers == s.workers
  {
  }

  lemma TurnKeepsBudgets(s: State, w: nat, k: nat)
    requires Budgets(s) && w < |s.workers| && MakesRoom(s.workers[w]) && k < |s.files|
    ensures |s.files| == |s.ids| && Budgets(Turn(s, w, k))
  {
    SameLength(s);
    DropKeepsBudgets(s, k);
    DropKeepsWorkers(s, k);
    hide Budgets, Drop;
    var pc := At(s.workers[w], Father(s.ids, k));
    QuietMove(s, w, pc);
    QuietMove(Drop(s, k), w, pc);
  }

  lemma ConnectKeepsBudgets(s: State, conns: map<nat, nat>, nextConn: nat)
    requires Budgets(s)
    ensures Budgets(s.(conns := conns, nextConn := nextConn))
    ensures Budgets(s.(fault := true))
  {
  }

  // The configuration is fixed.
  ghost predicate SameSize(s: State, t: State) {
    t.nfileTot == s.nfileTot && t.ramTot == s.ramTot && |t.workers| == |s.workers|
  }

  lemma NextKeepsSize(s: State, e: Event)
    ensures SameSize(s, Next(s, e))
  {
    hide Newest, IndexOf, Remove;
  }

  lemma AimedEvicts(s: State, w: nat)
    requires w < |s.workers| && Aimed(s, w) < |s.ids|
    ensures MakesRoom(s.workers[w])
  {
  }

  lemma NextKeepsBudgets(s: State, e: Event)
    requires Budgets(s)
    ensures Budgets(Next(s, e))
  {
    SameLength(s);
    hide Budgets, Section, Turn, Aimed, Stray, Dangling, Busy;
    match e
    case Connect(fd) => ConnectKeepsBudgets(s, s.conns[fd := s.nextConn], s.nextConn + 1);
    case Start(w, fd, op) =>
      if w < |s.workers| && fd in s.conns { QuietMove(s, w, Started(Job(fd, s.conns[fd], op))); }
    case Advance(w) =>
      ConnectKeepsBudgets(s, s.conns, s.nextConn);
      if w < |s.workers| && !Dangling(s, w) { SectionKeepsBudgets(s, w); }
    case Aim(w) => if w < |s.workers| && MakesRoom(s.workers[w]) { QuietMove(s, w, At(s.workers[w], LastOf(s.ids))); }
    case Evict(w) =>
      ConnectKeepsBudgets(s, s.conns, s.nextConn);
      if w < |s.workers| && Aimed(s, w) < |s.ids| { AimedEvicts(s, w); TurnKeepsBudgets(s, w, Aimed(s, w)); }
    case Quit(w) => if w < |s.workers| { QuietMove(s, w, Idle); }
  }

  lemma {:induction false} InitBudgets(ram: nat, nfile: nat, threads: nat)
    requires 0 < threads
    ensures Budgets(Init(ram, nfile, threads))
  {
    AllIdle(threads);
    assert 0 <= (threads - 1) * ram;
  }

  lemma {:induction false} AllIdle(threads: nat)
    ensures Inserting(seq(threads, _ => Idle)) == 0 && Pending(seq(threads, _ => Idle)) == 0
  {
    if 0 < threads {
      AllIdle(threads - 1);
      assert seq(threads, _ => Idle)[1..] == seq(threads - 1, _ => Idle);
    }
  }

  lemma Overdrawn(s: State)
    requires Budgets(s)
    ensures 1 - |s.workers| <= s.nfileDispo && -((|s.workers| - 1) * s.ramTot) <= s.ramDispo
  {
  }

  // In every interleaving the budgets are exact; with T workers the slots are
  // overdrawn by at most T - 1, the memory by at most T - 1 stores.
  lemma {:induction false} RunBudgets(ram: nat, nfile: nat, threads: nat, es: seq<Event>)
    requires 0 < threads
    ensures var s := Run(Init(ram, nfile, threads), es);
      && Budgets(s) && |s.workers| == threads && s.ramTot == ram && s.nfileTot == nfile
      && 1 - threads <= s.nfileDispo && -((threads - 1) * ram) <= s.ramDispo
  {
    hide Budgets, Next;
    if es == [] {
      InitBudgets(ram, nfile, threads);
    } else {
      RunBudgets(ram, nfile, threads, es[..|es| - 1]);
      NextKeepsBudgets(Run(Init(ram, nfile, threads), es[..|es| - 1]), es[|es| - 1]);
      NextKeepsSize(Run(Init(ram, nfile, threads), es[..|es| - 1]), es[|es| - 1]);
    }
    Overdrawn(Run(Init(ram, nfile, threads), es));
  }

  // So with one worker neither budget is ever overdrawn.
  lemma OneWorkerNeverOverdraws(ram: nat, nfile: nat, es: seq<Event>)
    ensures var s := Run(Init(ram, nfile, 1), es); 0 <= s.nfileDispo && 0 <= s.ramDispo
  {
    RunBudgets(ram, nfile, 1, es);
  }
}
