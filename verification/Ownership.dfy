// What every interleaving keeps about a file's bytes and about who may touch it.
module Ownership {
  import opened Files
  import opened Service
  import opened Workers

  // The bytes appended to file `id`, in lock order.
  function Chunks(log: seq<Entry>, id: Id): seq<Byte> {
    if log == [] then []
    else Chunks(log[..|log| - 1], id) + Added(log[|log| - 1], id)
  }

  function Added(e: Entry, id: Id): seq<Byte> {
    if e.id == id && e.deed.Appending? then e.deed.chunk else []
  }

  // What an entry says was sent to a client is what the file held then.
  ghost predicate Truthful(log: seq<Entry>, i: int)
    requires 0 <= i < |log|
  {
    && (log[i].deed.Reading? ==> log[i].deed.data == Chunks(log[..i], log[i].id))
    && (log[i].deed.Dump? ==> log[i].deed.bytes == Chunks(log[..i], log[i].id))
  }

  // Each file holds exactly the chunks appended to it since it was created.
  ghost predicate Contents(s: State) {
    && |s.files| == |s.ids|
    && (forall i, j :: 0 <= i < j < |s.ids| ==> s.ids[i] != s.ids[j])
    && (forall i :: 0 <= i < |s.ids| ==> s.ids[i] < s.nextId)
    && (forall i :: 0 <= i < |s.log| ==> s.log[i].id < s.nextId && Truthful(s.log, i))
    && (forall k :: 0 <= k < |s.files| ==> s.files[k].data == Chunks(s.log, s.ids[k]))
  }

  lemma {:induction false} ChunksNone(log: seq<Entry>, id: Id)
    requires forall i :: 0 <= i < |log| ==> log[i].id < id
    ensures Chunks(log, id) == []
  {
    if log != [] { ChunksNone(log[..|log| - 1], id); }
  }

  // One more entry, about a file of the store, whose bytes it reports truly.
  lemma LogKeeps(s: State, e: Entry, id: Id)
    requires Contents(s)
    ensures Chunks(s.log + [e], id) == Chunks(s.log, id) + Added(e, id)
    ensures forall i :: 0 <= i < |s.log| ==> Truthful(s.log + [e], i)
    ensures Truthful(s.log + [e], |s.log|) <==>
      (e.deed.Reading? ==> e.deed.data == Chunks(s.log, e.id)) && (e.deed.Dump? ==> e.deed.bytes == Chunks(s.log, e.id))
  {
    var log := s.log + [e];
    assert log[..|log| - 1] == s.log;
    forall i | 0 <= i < |s.log| ensures Truthful(log, i) {
      assert log[..i] == s.log[..i] && Truthful(s.log, i);
    }
  }

  lemma QuietEntry(s: State, t: State, e: Entry)
    requires Contents(s) && e.id < s.nextId && !e.deed.Appending?
    requires e.deed.Reading? ==> e.deed.data == Chunks(s.log, e.id)
    requires e.deed.Dump? ==> e.deed.bytes == Chunks(s.log, e.id)
    requires t.ids == s.ids && t.nextId == s.nextId && |t.files| == |s.files| && t.log == s.log + [e]
    requires forall k :: 0 <= k < |s.files| ==> t.files[k].data == s.files[k].data
    ensures Contents(t)
  {
    LogKeeps(s, e, 0);
    forall k | 0 <= k < |t.files| ensures t.files[k].data == Chunks(t.log, t.ids[k]) {
      LogKeeps(s, e, t.ids[k]);
    }
  }

  lemma InsertKeepsContents(s: State, w: nat, job: Job)
    requires Contents(s) && w < |s.workers|
    ensures Contents(Insert(s, w, job))
  {
    hide Chunks, Truthful;
    var t, e := Insert(s, w, job), Entry(s.nextId, job.fd, job.conn, Creation);
    LogKeeps(s, e, 0);
    ChunksNone(s.log, s.nextId);
    forall k | 0 <= k < |t.files| ensures t.files[k].data == Chunks(t.log, t.ids[k]) {
      LogKeeps(s, e, t.ids[k]);
    }
  }

  lemma CommitKeepsContents(s: State, w: nat, job: Job, k: nat)
    requires Contents(s) && w < |s.workers| && k < |s.files|
    ensures Contents(Commit(s, w, job, k))
  {
    hide Chunks, Truthful;
    var t, e := Commit(s, w, job, k), Entry(s.ids[k], job.fd, job.conn, Appending(Chunk(job)));
    if s.files[k].owner == job.fd {
      LogKeeps(s, e, 0);
      forall j | 0 <= j < |t.files| ensures t.files[j].data == Chunks(t.log, t.ids[j]) {
        LogKeeps(s, e, t.ids[j]);
      }
    }
  }

  lemma DropKeepsContents(s: State, k: nat)
    requires Contents(s) && k < |s.files|
    ensures Contents(Drop(s, k))
  {
    var t := Drop(s, k);
    forall i | 0 <= i < |t.ids| ensures t.ids[i] == s.ids[if i < k then i else i + 1] && t.files[i] == s.files[if i < k then i else i + 1] {
    }
  }

  lemma ServeKeepsContents(s: State, w: nat, job: Job, k: nat)
    requires Contents(s) && w < |s.workers| && k < |s.files| && job.op.Ask?
    ensures Contents(Serve(s, w, job, k))
  {
    hide Chunks, Truthful;
    var t := Serve(s, w, job, k);
    if |t.log| > |s.log| {
      QuietEntry(s, t, t.log[|s.log|]);
    }
  }

  lemma WalkKeepsContents(s: State, w: nat, job: Job, left: int, k: nat)
    requires Contents(s) && w < |s.workers| && k < |s.files|
    ensures Contents(Walk(s, w, job, left, k))
  {
    var t := Walk(s, w, job, left, k);
    if |t.log| > |s.log| {
      QuietEntry(s, t, t.log[|s.log|]);
    }
  }

  lemma Unmoved(s: State, t: State)
    requires Contents(s)
    ensures t.ids == s.ids && t.files == s.files && t.nextId == s.nextId && t.log == s.log ==> Contents(t)
  {
  }

  lemma Lengths(s: State)
    requires Contents(s)
    ensures |s.files| == |s.ids|
  {
  }

  lemma SectionKeepsContents(s: State, w: nat)
    requires Contents(s) && w < |s.workers| && |s.files| == |s.ids| && !Dangling(s, w)
    ensures Contents(Section(s, w))
  {
    hide Contents, Insert, Commit, Serve, Walk, Drop, Search, Name, Chunk, IndexOf;
    match s.workers[w] {
      case Started(job) => SearchMovesNothing(s, w, job);
      case InsertNow(job) => InsertKeepsContents(s, w, job);
      case Waiting(job, id) => if job.op.Ask? { ServeKeepsContents(s, w, job, IndexOf(s.ids, id)); }
      case DropSelf(_, id) =>
        DropKeepsContents(s, IndexOf(s.ids, id));
        Unmoved(Drop(s, IndexOf(s.ids, id)), Section(s, w));
      case CommitNow(job, id) => CommitKeepsContents(s, w, job, IndexOf(s.ids, id));
      case Walking(job, left, cur) =>
        if 0 < left && cur.To? { WalkKeepsContents(s, w, job, left, IndexOf(s.ids, cur.id)); }
      case _ =>
    }
    Unmoved(s, Section(s, w));
  }

  lemma SearchMovesNothing(s: State, w: nat, job: Job)
    requires w < |s.workers| && |s.files| == |s.ids|
    ensures var t := Search(s, w, job); t.ids == s.ids && t.files == s.files && t.nextId == s.nextId && t.log == s.log
  {
    hide Newest;
  }

  lemma NextKeepsContents(s: State, e: Event)
    requires Contents(s)
    ensures Contents(Next(s, e))
  {
    Unmoved(s, Next(s, e));
    Lengths(s);
    hide Contents, Section, Dangling, Drop, Busy;
    if e.Advance? && e.w < |s.workers| && !s.fault && !Dangling(s, e.w) {
      SectionKeepsContents(s, e.w);
    } else {
      OtherEvents(s, e);
      if Takes(s, e) { DropKeepsContents(s, Aimed(s, e.w)); }
      Unmoved(Left(s, e), Next(s, e));
    }
  }

  // In every interleaving, a resident file's bytes are the accepted chunks in lock
  // order, and what a read sent was the file's bytes at that moment.
  lemma {:induction false} RunContents(ram: nat, nfile: nat, threads: nat, es: seq<Event>)
    ensures Contents(Workers.Run(Init(ram, nfile, threads), es))
  {
    if es != [] {
      hide Contents, Next;
      RunContents(ram, nfile, threads, es[..|es| - 1]);
      NextKeepsContents(Workers.Run(Init(ram, nfile, threads), es[..|es| - 1]), es[|es| - 1]);
    }
  }

  // ---------- who may touch a file ----------

  // Descriptor fd holds file `id` open.
  predicate Holder(s: State, id: Id, fd: nat) {
    |s.files| == |s.ids| && id in s.ids && s.files[IndexOf(s.ids, id)].owner == fd
  }

  // The steps that let go of file `id` while fd holds it: its close, a removal as too
  // large, or readNFiles passing over it, whichever worker takes them.
  predicate LetsGo(s: State, e: Event, id: Id, fd: nat) {
    e.Advance? && e.w < |s.workers| && !s.fault && Holder(s, id, fd) &&
    match s.workers[e.w]
    case Waiting(job, i) => i == id && job.op.Ask? && job.op.request.Close? && job.fd == fd
    case DropSelf(_, i) => i == id
    case Walking(_, left, cur) => 0 < left && cur == To(id) && s.files[IndexOf(s.ids, id)].modified != EMPTY
    case _ => false
  }

  // The holder's own of these: its close, or its own first append that is larger than
  // the store.
  predicate GivesUp(s: State, e: Event, id: Id, fd: nat) {
    e.Advance? && e.w < |s.workers| && !s.fault && Holder(s, id, fd) &&
    match s.workers[e.w]
    case Waiting(job, i) => i == id && job.op.Ask? && job.op.request.Close? && job.fd == fd
    case DropSelf(job, i) => i == id && job.fd == fd
    case _ => false
  }

  // readNFiles closes file `id` over its holder's head.
  predicate PassesOver(s: State, e: Event, id: Id) {
    e.Advance? && e.w < |s.workers| && !s.fault && |s.files| == |s.ids| && id in s.ids &&
    match s.workers[e.w]
    case Walking(_, left, cur) => 0 < left && cur == To(id) && s.files[IndexOf(s.ids, id)].modified != EMPTY
    case _ => false
  }

  predicate Releases(s: State, e: Event, id: Id, fd: nat) {
    GivesUp(s, e, id, fd) || (Holder(s, id, fd) && PassesOver(s, e, id))
  }

  predicate DistinctIds(ids: seq<Id>) {
    forall i, j :: 0 <= i < j < |ids| ==> ids[i] != ids[j]
  }

  lemma IndexIs(ids: seq<Id>, k: nat)
    requires DistinctIds(ids) && k < |ids|
    ensures IndexOf(ids, ids[k]) == k
  {
    var i := IndexOf(ids, ids[k]);
    assert ids[k] in ids;
  }

  // Removing another file leaves this one and its owner alone.
  lemma DropOther(s: State, k: nat, id: Id)
    requires |s.files| == |s.ids| && DistinctIds(s.ids) && k < |s.ids| && id in s.ids
    ensures id in Drop(s, k).ids <==> id != s.ids[k]
    ensures id != s.ids[k] ==> Drop(s, k).files[IndexOf(Drop(s, k).ids, id)] == s.files[IndexOf(s.ids, id)]
  {
    var t := Drop(s, k);
    var i := IndexOf(s.ids, id);
    assert DistinctIds(t.ids);
    if id != s.ids[k] {
      var j := if i < k then i else i - 1;
      assert t.ids[j] == id && t.files[j] == s.files[i];
      IndexIs(t.ids, j);
    }
  }

  // A change to the file at k is a change to no other.
  lemma UpdateOther(s: State, k: nat, f: File, id: Id)
    requires |s.files| == |s.ids| && DistinctIds(s.ids) && k < |s.ids| && id in s.ids
    ensures s.files[k := f][IndexOf(s.ids, id)] == if id == s.ids[k] then f else s.files[IndexOf(s.ids, id)]
  {
    IndexIs(s.ids, k);
  }

  ghost predicate Numbered(s: State) {
    |s.files| == |s.ids| && DistinctIds(s.ids) && forall i :: 0 <= i < |s.ids| ==> s.ids[i] < s.nextId
  }

  lemma HeldByOwn(s: State, k: nat, owner: int, id: Id, fd: nat)
    requires Numbered(s) && k < |s.files| && id in s.ids
    ensures Holder(Own(s, k, owner), id, fd) <==> if s.ids[k] == id then owner == fd else Holder(s, id, fd)
    ensures s.ids[k] == id ==> (Holder(s, id, fd) <==> s.files[k].owner == fd)
  {
    IndexIs(s.ids, k);
    UpdateOther(s, k, s.files[k].(owner := owner), id);
  }

  lemma HeldByServe(s: State, w: nat, job: Job, k: nat, id: Id, fd: nat)
    requires Numbered(s) && Holder(s, id, fd) && w < |s.workers| && k < |s.files| && job.op.Ask?
    ensures Holder(Serve(s, w, job, k), id, fd) <==> !(s.ids[k] == id && job.op.request.Close? && job.fd == fd)
  {
    var t := Serve(s, w, job, k);
    HeldByOwn(s, k, CLOSED, id, fd);
    HeldByOwn(s, k, job.fd, id, fd);
    HeldByOthers(s, t, id, fd);
    HeldByOthers(Own(s, k, CLOSED), t, id, fd);
    HeldByOthers(Own(s, k, job.fd), t, id, fd);
    hide Holder, Numbered;
  }

  lemma HeldByWalk(s: State, w: nat, job: Job, left: int, k: nat, id: Id, fd: nat)
    requires Numbered(s) && Holder(s, id, fd) && w < |s.workers| && k < |s.files|
    ensures Holder(Walk(s, w, job, left, k), id, fd) <==> !(s.ids[k] == id && s.files[k].modified != EMPTY)
  {
    IndexIs(s.ids, k);
    UpdateOther(s, k, s.files[k].(owner := CLOSED), id);
  }

  lemma HeldByCommit(s: State, w: nat, job: Job, k: nat, id: Id, fd: nat)
    requires Numbered(s) && Holder(s, id, fd) && w < |s.workers| && k < |s.files|
    ensures Holder(Commit(s, w, job, k), id, fd)
  {
    IndexIs(s.ids, k);
    UpdateOther(s, k, Appended(s.files[k], Chunk(job)), id);
  }

  lemma HeldByInsert(s: State, w: nat, job: Job, id: Id, fd: nat)
    requires Numbered(s) && Holder(s, id, fd) && w < |s.workers|
    ensures Holder(Insert(s, w, job), id, fd)
  {
    assert Insert(s, w, job).ids[1..] == s.ids && id != s.nextId;
  }

  lemma HeldByDrop(s: State, k: nat, id: Id, fd: nat)
    requires Numbered(s) && Holder(s, id, fd) && k < |s.files|
    ensures Holder(Drop(s, k), id, fd) <==> s.ids[k] != id
    ensures Evictable(s.files[k]) ==> s.ids[k] != id
  {
    DropOther(s, k, id);
    IndexIs(s.ids, k);
  }

  lemma HeldByOthers(s: State, t: State, id: Id, fd: nat)
    ensures t.ids == s.ids && t.files == s.files ==> Holder(t, id, fd) == Holder(s, id, fd)
  {
  }

  // No eviction takes it, nor does any other event that is not a section.
  lemma HeldByOtherEvents(s: State, e: Event, id: Id, fd: nat)
    requires Numbered(s) && Holder(s, id, fd)
    requires e.Advance? ==> s.fault || e.w >= |s.workers| || Dangling(s, e.w)
    ensures Holder(Next(s, e), id, fd)
  {
    OtherEvents(s, e);
    HeldByOthers(Left(s, e), Next(s, e), id, fd);
    hide Next, Holder, Numbered, Dangling;
    if Takes(s, e) { HeldByDrop(s, Aimed(s, e.w), id, fd); }
  }

  lemma NotLetGoByFault(s: State, w: nat, id: Id, fd: nat)
    requires w < |s.workers| && Dangling(s, w)
    ensures !LetsGo(s, Advance(w), id, fd)
  {
    hide IndexOf;
  }

  // Step by step, a held file stays held exactly as long as nothing lets it go;
  // in particular no eviction takes it.
  lemma HeldUntilLetGo(s: State, e: Event, id: Id, fd: nat)
    requires Numbered(s) && Holder(s, id, fd)
    ensures Holder(Next(s, e), id, fd) <==> !LetsGo(s, e, id, fd)
  {
    if e.Advance? && e.w < |s.workers| && !s.fault && !Dangling(s, e.w) {
      HeldBySection(s, e.w, id, fd);
    } else {
      HeldByOtherEvents(s, e, id, fd);
      if e.Advance? && e.w < |s.workers| && !s.fault { NotLetGoByFault(s, e.w, id, fd); }
    }
    hide Section, Dangling, Drop, Busy, Holder, Numbered;
  }

  lemma HeldBySection(s: State, w: nat, id: Id, fd: nat)
    requires Numbered(s) && Holder(s, id, fd) && !s.fault && w < |s.workers| && !Dangling(s, w)
    ensures Holder(Section(s, w), id, fd) <==> !LetsGo(s, Advance(w), id, fd)
  {
    HeldByOthers(s, Section(s, w), id, fd);
    hide DistinctIds, Insert, Commit, Serve, Walk, Drop, Newest;
    match s.workers[w] {
      case InsertNow(job) => HeldByInsert(s, w, job, id, fd);
      case Waiting(job, i) => if job.op.Ask? { HeldByServe(s, w, job, IndexOf(s.ids, i), id, fd); }
      case DropSelf(_, i) =>
        HeldByDrop(s, IndexOf(s.ids, i), id, fd);
        HeldByOthers(Drop(s, IndexOf(s.ids, i)), Section(s, w), id, fd);
      case CommitNow(job, i) => HeldByCommit(s, w, job, IndexOf(s.ids, i), id, fd);
      case Walking(job, left, cur) =>
        if 0 < left && cur.To? { HeldByWalk(s, w, job, left, IndexOf(s.ids, cur.id), id, fd); }
      case _ =>
    }
  }

  // ---------- one request a client, one connection a descriptor ----------

  // Each busy worker serves a connected client, for the connection the request
  // came on, and no two serve the same client.  The guard of a start sees to that here;
  // module Together shows that it always holds.
  ghost predicate Jobs(s: State) {
    && (forall w :: 0 <= w < |s.workers| && !s.workers[w].Idle? ==>
          s.workers[w].job.fd in s.conns && s.conns[s.workers[w].job.fd] == s.workers[w].job.conn)
    && (forall v, w :: 0 <= v < w < |s.workers| && !s.workers[v].Idle? && !s.workers[w].Idle? ==>
          s.workers[v].job.fd != s.workers[w].job.fd)
  }

  predicate HangsUp(s: State, e: Event, fd: nat) {
    e.Advance? && e.w < |s.workers| && s.workers[e.w].Started?
    && s.workers[e.w].job.op.Hangup? && s.workers[e.w].job.fd == fd
  }

  // What worker w is at once its section is done.
  ghost predicate GoesOn(s: State, t: State, w: nat)
    requires w < |s.workers|
  {
    && |t.workers| == |s.workers| && t.workers == s.workers[w := t.workers[w]]
    && (t.workers[w].Idle? || (!s.workers[w].Idle? && t.workers[w].job == s.workers[w].job))
  }

  // A section changes its own worker only, which goes on with its job or is done.
  lemma SectionMoves(s: State, w: nat)
    requires w < |s.workers| && |s.files| == |s.ids| && !Dangling(s, w)
    ensures GoesOn(s, Section(s, w), w)
  {
    hide Newest, IndexOf, Drop, Own, Name, Chunk, Appended;
    match s.workers[w] {
      case Started(job) => assert GoesOn(s, Search(s, w, job), w);
      case Waiting(job, id) => if job.op.Ask? { assert GoesOn(s, Serve(s, w, job, IndexOf(s.ids, id)), w) by { OwnMoves(s, IndexOf(s.ids, id)); } }
      case DropSelf(_, id) => DropKeepsWorkers(s, IndexOf(s.ids, id));
      case Walking(_, _, cur) => if cur.To? && cur.id in s.ids { OwnMoves(s, IndexOf(s.ids, cur.id)); }
      case _ =>
    }
  }

  lemma OwnMoves(s: State, k: nat)
    requires k < |s.files|
    ensures forall owner :: Own(s, k, owner).workers == s.workers && Own(s, k, owner).conns == s.conns
  {
  }

  lemma SectionConns(s: State, w: nat)
    requires w < |s.workers| && |s.files| == |s.ids| && !Dangling(s, w)
    ensures if s.workers[w].Started? && s.workers[w].job.op.Hangup?
      then Section(s, w).conns == s.conns - {s.workers[w].job.fd} && Section(s, w).workers[w].Idle?
      else Section(s, w).conns == s.conns
  {
    hide Newest, IndexOf, Remove;
  }

  lemma JobsKept(s: State, e: Event)
    requires Jobs(s)
    ensures Jobs(Next(s, e))
    ensures forall fd :: fd in s.conns && !HangsUp(s, e, fd) ==> fd in Next(s, e).conns && Next(s, e).conns[fd] == s.conns[fd]
  {
    if e.Advance? && e.w < |s.workers| && |s.files| == |s.ids| && !Dangling(s, e.w) {
      SectionMoves(s, e.w);
      SectionConns(s, e.w);
    }
    if e.Evict? && e.w < |s.workers| && |s.files| == |s.ids| && Aimed(s, e.w) < |s.ids| { TurnMoves(s, e.w, Aimed(s, e.w)); }
    hide Section, Dangling, Turn, Stray, Aimed;
  }

  lemma TurnMoves(s: State, w: nat, k: nat)
    requires w < |s.workers| && MakesRoom(s.workers[w]) && k < |s.files| == |s.ids|
    ensures GoesOn(s, Turn(s, w, k), w) && Turn(s, w, k).conns == s.conns
  {
    hide Evictable;
  }

  // The log grows by at most one entry, and what that says of a file held by fd
  // was done by fd.
  ghost predicate DeedBy(s: State, t: State, id: Id, fd: nat, job: Job) {
    t.log == s.log ||
    (exists deed, i :: t.log == s.log + [Entry(i, job.fd, job.conn, deed)] && (i == id ==> job.fd == fd))
  }

  lemma DeedOfServe(s: State, w: nat, job: Job, k: nat, id: Id, fd: nat)
    requires Numbered(s) && Holder(s, id, fd) && w < |s.workers| && k < |s.files| && job.op.Ask?
    ensures DeedBy(s, Serve(s, w, job, k), id, fd, job)
  {
    IndexIs(s.ids, k);
    hide IndexOf, Numbered, Own, Name, Chunk;
    var t := Serve(s, w, job, k);
    if t.log != s.log {
      assert t.log == s.log + [Entry(s.ids[k], job.fd, job.conn, t.log[|s.log|].deed)];
    }
  }

  lemma DeedOfCommit(s: State, w: nat, job: Job, k: nat, id: Id, fd: nat)
    requires Numbered(s) && Holder(s, id, fd) && w < |s.workers| && k < |s.files|
    ensures DeedBy(s, Commit(s, w, job, k), id, fd, job)
  {
    IndexIs(s.ids, k);
    var t := Commit(s, w, job, k);
    if t.log != s.log {
      assert t.log == s.log + [Entry(s.ids[k], job.fd, job.conn, t.log[|s.log|].deed)];
    }
  }

  lemma DeedOfInsert(s: State, w: nat, job: Job, id: Id, fd: nat)
    requires Numbered(s) && Holder(s, id, fd) && w < |s.workers|
    ensures DeedBy(s, Insert(s, w, job), id, fd, job)
  {
    assert Insert(s, w, job).log == s.log + [Entry(s.nextId, job.fd, job.conn, Creation)];
  }

  lemma DeedOfWalk(s: State, w: nat, job: Job, left: int, k: nat, id: Id, fd: nat)
    requires Numbered(s) && Holder(s, id, fd) && w < |s.workers| && k < |s.files|
    requires !(s.ids[k] == id && s.files[k].modified != EMPTY)
    ensures DeedBy(s, Walk(s, w, job, left, k), id, fd, job)
  {
    var t := Walk(s, w, job, left, k);
    if t.log != s.log {
      assert t.log == s.log + [Entry(s.ids[k], job.fd, job.conn, Dump(s.files[k].data))];
    }
  }

  lemma DeedsOfHolder(s: State, w: nat, id: Id, fd: nat)
    requires Numbered(s) && Holder(s, id, fd) && !s.fault && w < |s.workers| && !s.workers[w].Idle? && !Dangling(s, w)
    requires !LetsGo(s, Advance(w), id, fd)
    ensures DeedBy(s, Section(s, w), id, fd, s.workers[w].job)
  {
    hide Numbered, DistinctIds, Insert, Commit, Serve, Walk, Newest;
    match s.workers[w] {
      case InsertNow(job) => DeedOfInsert(s, w, job, id, fd);
      case Waiting(job, i) => if job.op.Ask? { DeedOfServe(s, w, job, IndexOf(s.ids, i), id, fd); }
      case CommitNow(job, i) => DeedOfCommit(s, w, job, IndexOf(s.ids, i), id, fd);
      case Walking(job, left, cur) =>
        if 0 < left && cur.To? { DeedOfWalk(s, w, job, left, IndexOf(s.ids, cur.id), id, fd); }
      case _ =>
    }
  }

  // ---------- a file too large for the store is its holder's own ----------

  predicate Unwritten(s: State, id: Id) {
    |s.files| == |s.ids| && id in s.ids && s.files[IndexOf(s.ids, id)].modified == EMPTY
  }

  // A worker about to remove a file as too large works for its holder, also when
  // readNFiles goes on: that steps over a file that was never written.
  ghost predicate FirstAppend(s: State, pc: Pc) {
    match pc
    case TestSize(job, id) => id < s.nextId && (Unwritten(s, id) ==> Holder(s, id, job.fd))
    case DropSelf(job, id) => id < s.nextId && Unwritten(s, id) && Holder(s, id, job.fd)
    case _ => true
  }

  ghost predicate OwnDrops(s: State) {
    forall w :: 0 <= w < |s.workers| ==> FirstAppend(s, s.workers[w])
  }

  predicate Commits(s: State, w: nat, id: Id)
    requires w < |s.workers|
  {
    s.workers[w].CommitNow? && s.workers[w].id == id && Holder(s, id, s.workers[w].job.fd)
  }

  lemma UnwrittenOthers(s: State, t: State, id: Id)
    ensures t.ids == s.ids && t.files == s.files ==> Unwritten(t, id) == Unwritten(s, id)
  {
  }

  lemma UnwrittenByDrop(s: State, k: nat, id: Id)
    requires Numbered(s) && k < |s.files|
    ensures Unwritten(Drop(s, k), id) <==> Unwritten(s, id) && s.ids[k] != id
  {
    if id in s.ids { DropOther(s, k, id); }
  }

  lemma UnwrittenByOwn(s: State, k: nat, owner: int, id: Id)
    requires Numbered(s) && k < |s.files|
    ensures Unwritten(Own(s, k, owner), id) <==> Unwritten(s, id)
  {
    if id in s.ids { UpdateOther(s, k, s.files[k].(owner := owner), id); }
  }

  lemma UnwrittenByServe(s: State, w: nat, job: Job, k: nat, id: Id)
    requires Numbered(s) && w < |s.workers| && k < |s.files| && job.op.Ask?
    ensures Unwritten(Serve(s, w, job, k), id) <==> Unwritten(s, id)
  {
    var t := Serve(s, w, job, k);
    UnwrittenByOwn(s, k, CLOSED, id);
    UnwrittenByOwn(s, k, job.fd, id);
    UnwrittenOthers(s, t, id);
    UnwrittenOthers(Own(s, k, CLOSED), t, id);
    UnwrittenOthers(Own(s, k, job.fd), t, id);
    hide Unwritten, Numbered;
  }

  lemma UnwrittenByWalk(s: State, w: nat, job: Job, left: int, k: nat, id: Id)
    requires Numbered(s) && w < |s.workers| && k < |s.files|
    ensures Unwritten(Walk(s, w, job, left, k), id) <==> Unwritten(s, id)
  {
    var t := Walk(s, w, job, left, k);
    UnwrittenByOwn(s, k, CLOSED, id);
    UnwrittenOthers(s, t, id);
    UnwrittenOthers(Own(s, k, CLOSED), t, id);
    hide Unwritten, Numbered;
  }

  lemma UnwrittenByCommit(s: State, w: nat, job: Job, k: nat, id: Id)
    requires Numbered(s) && w < |s.workers| && k < |s.files|
    ensures Unwritten(Commit(s, w, job, k), id) <==> Unwritten(s, id) && !(s.ids[k] == id && s.files[k].owner == job.fd)
  {
    if id in s.ids {
      IndexIs(s.ids, k);
      UpdateOther(s, k, Appended(s.files[k], Chunk(job)), id);
    }
  }

  lemma UnwrittenByInsert(s: State, w: nat, job: Job, id: Id)
    requires Numbered(s) && w < |s.workers| && id < s.nextId
    ensures Unwritten(Insert(s, w, job), id) <==> Unwritten(s, id)
  {
    assert Insert(s, w, job).ids[1..] == s.ids;
  }

  // A section writes a file by a commit only, and makes none with an old name.
  lemma UnwrittenBySection(s: State, w: nat, id: Id)
    requires Numbered(s) && w < |s.workers| && !Dangling(s, w) && id < s.nextId
    ensures Unwritten(Section(s, w), id) ==> Unwritten(s, id)
    ensures Unwritten(s, id) && !Commits(s, w, id) && !(s.workers[w].DropSelf? && s.workers[w].id == id) ==> Unwritten(Section(s, w), id)
  {
    UnwrittenOthers(s, Section(s, w), id);
    assert |s.files| == |s.ids|;
    hide Numbered, Unwritten, Insert, Commit, Serve, Walk, Search, Drop;
    match s.workers[w] {
      case Started(job) => SearchMovesNothing(s, w, job);
      case InsertNow(job) => UnwrittenByInsert(s, w, job, id);
      case Waiting(job, i) => if job.op.Ask? { UnwrittenByServe(s, w, job, IndexOf(s.ids, i), id); }
      case DropSelf(_, i) =>
        UnwrittenByDrop(s, IndexOf(s.ids, i), id);
        UnwrittenOthers(Drop(s, IndexOf(s.ids, i)), Section(s, w), id);
      case CommitNow(job, i) => UnwrittenByCommit(s, w, job, IndexOf(s.ids, i), id);
      case Walking(job, left, cur) =>
        if 0 < left && cur.To? { UnwrittenByWalk(s, w, job, left, IndexOf(s.ids, cur.id), id); }
      case _ =>
    }
  }

  lemma NamesGrow(s: State, w: nat)
    requires w < |s.workers| && |s.files| == |s.ids| && !Dangling(s, w)
    ensures s.nextId <= Section(s, w).nextId
  {
    hide Newest, IndexOf, Remove, Chunk, Name, Appended;
  }

  lemma OneHolder(s: State, id: Id, fd: nat, fd': nat)
    requires Holder(s, id, fd) && Holder(s, id, fd')
    ensures fd == fd'
  {
  }

  // What the section of another worker leaves of it.
  lemma OthersFirst(s: State, v: nat, w: nat)
    requires Numbered(s) && Jobs(s) && OwnDrops(s) && !s.fault && v != w && v < |s.workers| && w < |s.workers| && !Dangling(s, w)
    ensures FirstAppend(Section(s, w), s.workers[v])
  {
    assert FirstAppend(s, s.workers[v]) && FirstAppend(s, s.workers[w]);
    var pc := s.workers[v];
    hide Section, Dangling, Numbered;
    if (pc.TestSize? || pc.DropSelf?) && !s.workers[w].Idle? {
      var id, fd := pc.id, pc.job.fd;
      assert s.workers[w].job.fd != fd;
      UnwrittenBySection(s, w, id);
      NamesGrow(s, w);
      if Unwritten(s, id) {
        HeldBySection(s, w, id, fd);
        hide Unwritten, Holder;
        if s.workers[w].DropSelf? && s.workers[w].id == id { OneHolder(s, id, fd, s.workers[w].job.fd); }
        NotCommits(s, w, id, fd);
        NotLetGo(s, w, id, fd);
      }
    }
    IdleSection(s, w);
  }

  lemma NotCommits(s: State, w: nat, id: Id, fd: nat)
    requires w < |s.workers| && !s.workers[w].Idle? && s.workers[w].job.fd != fd && Holder(s, id, fd)
    ensures !Commits(s, w, id)
  {
  }

  lemma IdleSection(s: State, w: nat)
    requires w < |s.workers| && |s.files| == |s.ids|
    ensures s.workers[w].Idle? ==> !Dangling(s, w) && Section(s, w) == s
  {
  }

  // The holder of a file that was never written loses it by its own steps only.
  lemma NotLetGo(s: State, w: nat, id: Id, fd: nat)
    requires w < |s.workers| && !s.workers[w].Idle? && s.workers[w].job.fd != fd && FirstAppend(s, s.workers[w])
    requires Holder(s, id, fd) && Unwritten(s, id)
    ensures !LetsGo(s, Advance(w), id, fd)
  {
    hide IndexOf;
    if s.workers[w].DropSelf? && s.workers[w].id == id { OneHolder(s, id, fd, s.workers[w].job.fd); }
  }

  // Where a worker's own section leaves it.
  lemma SectionFirst(s: State, w: nat)
    requires Numbered(s) && w < |s.workers| && !s.fault && !Dangling(s, w) && FirstAppend(s, s.workers[w])
    ensures w < |Section(s, w).workers| && FirstAppend(Section(s, w), Section(s, w).workers[w])
  {
    SectionMoves(s, w);
    hide DistinctIds, Newest, Remove, Name, Chunk, Appended;
    match s.workers[w] {
      case Started(_) =>
      case TestSize(_, _) =>
      case Waiting(_, _) =>
      case _ =>
    }
  }

  lemma QuietFirst(s: State, e: Event, v: nat)
    requires Numbered(s) && v < |s.workers| && FirstAppend(s, s.workers[v])
    requires e.Advance? ==> s.fault || e.w >= |s.workers| || Dangling(s, e.w)
    ensures |Next(s, e).workers| == |s.workers| && FirstAppend(Next(s, e), Next(s, e).workers[v])
  {
    var pc := s.workers[v];
    OtherMoves(s, e, v);
    OtherEvents(s, e);
    hide Next, Dangling, Holder, Unwritten, Numbered, Drop;
    if pc.TestSize? || pc.DropSelf? {
      UnwrittenByOthers(s, e, pc.id, pc.job.fd);
      if Holder(s, pc.id, pc.job.fd) { HeldByOtherEvents(s, e, pc.id, pc.job.fd); }
    }
  }

  lemma UnwrittenByOthers(s: State, e: Event, id: Id, fd: nat)
    requires Numbered(s) && (e.Advance? ==> s.fault || e.w >= |s.workers| || Dangling(s, e.w))
    ensures Unwritten(Next(s, e), id) ==> Unwritten(s, id)
    ensures Unwritten(s, id) && Holder(s, id, fd) ==> Unwritten(Next(s, e), id)
    ensures Next(s, e).nextId == s.nextId
  {
    OtherEvents(s, e);
    UnwrittenOthers(Left(s, e), Next(s, e), id);
    hide Next, Dangling, Unwritten;
    if Takes(s, e) {
      UnwrittenByDrop(s, Aimed(s, e.w), id);
      if Holder(s, id, fd) { HeldByDrop(s, Aimed(s, e.w), id, fd); }
    }
  }

  lemma NextFirst(s: State, e: Event, v: nat)
    requires Numbered(s) && Jobs(s) && OwnDrops(s) && v < |s.workers|
    ensures |Next(s, e).workers| == |s.workers| && FirstAppend(Next(s, e), Next(s, e).workers[v])
  {
    assert FirstAppend(s, s.workers[v]) && |s.files| == |s.ids|;
    hide Section, Dangling, Drop, Busy, Numbered, Jobs, FirstAppend;
    if e.Advance? && e.w < |s.workers| && !s.fault && !Dangling(s, e.w) {
      assert FirstAppend(s, s.workers[e.w]);
      SectionMoves(s, e.w);
      if v == e.w { SectionFirst(s, v); } else { OthersFirst(s, v, e.w); }
    } else {
      QuietFirst(s, e, v);
    }
  }

  lemma NextOwnDrops(s: State, e: Event)
    requires Contents(s) && Jobs(s) && OwnDrops(s)
    ensures OwnDrops(Next(s, e))
  {
    NumberedFrom(s);
    WorkersKept(s, e);
    hide Contents, Jobs, Numbered, FirstAppend, Next;
    forall v | 0 <= v < |s.workers| ensures FirstAppend(Next(s, e), Next(s, e).workers[v]) {
      NextFirst(s, e, v);
    }
  }

  lemma WorkersKept(s: State, e: Event)
    ensures |Next(s, e).workers| == |s.workers|
  {
    NextKeepsSize(s, e);
  }

  // Where an event that is no section leaves a worker.
  lemma OtherMoves(s: State, e: Event, v: nat)
    requires v < |s.workers| && (e.Advance? ==> s.fault || |s.files| != |s.ids| || e.w >= |s.workers| || Dangling(s, e.w))
    ensures |Next(s, e).workers| == |s.workers|
    ensures var pc, qc := s.workers[v], Next(s, e).workers[v];
      qc == pc || qc.Idle? || (qc.Started? && e.Start? && qc.job.op == e.op) || (MakesRoom(pc) && exists cur :: qc == At(pc, cur))
  {
    hide Section, Dangling, Busy, IndexOf, Evictable, Remove, At;
  }

  // What every run keeps about who works on what.
  ghost predicate Orderly(s: State) {
    Contents(s) && Jobs(s) && OwnDrops(s)
  }

  lemma NextOrderly(s: State, e: Event)
    requires Orderly(s)
    ensures Orderly(Next(s, e))
  {
    hide Contents, Jobs, OwnDrops, Next;
    NextKeepsContents(s, e);
    JobsKept(s, e);
    NextOwnDrops(s, e);
  }

  lemma {:induction false} RunOrderly(ram: nat, nfile: nat, threads: nat, es: seq<Event>)
    ensures Orderly(Workers.Run(Init(ram, nfile, threads), es))
  {
    if es != [] {
      hide Orderly, Next;
      RunOrderly(ram, nfile, threads, es[..|es| - 1]);
      NextOrderly(Workers.Run(Init(ram, nfile, threads), es[..|es| - 1]), es[|es| - 1]);
    } else {
      RunContents(ram, nfile, threads, es);
    }
  }

  // Under these, a held file is let go by its holder or by readNFiles only.
  lemma LetsGoIsReleases(s: State, e: Event, id: Id, fd: nat)
    requires OwnDrops(s)
    ensures LetsGo(s, e, id, fd) <==> Releases(s, e, id, fd)
  {
    if e.Advance? && e.w < |s.workers| && s.workers[e.w].DropSelf? && Holder(s, id, fd) {
      assert FirstAppend(s, s.workers[e.w]);
      if s.workers[e.w].id == id { OneHolder(s, id, fd, s.workers[e.w].job.fd); }
    }
    hide IndexOf;
  }

  // A held file stays held by every step except the holder's own close, the holder's
  // own append that is larger than the store, and readNFiles passing over it.
  lemma HeldUntilReleased(s: State, e: Event, id: Id, fd: nat)
    requires Orderly(s) && Holder(s, id, fd)
    ensures Holder(Next(s, e), id, fd) <==> !Releases(s, e, id, fd)
  {
    hide Contents, Jobs, OwnDrops, Next, LetsGo, Releases, Holder;
    NumberedFrom(s);
    HeldUntilLetGo(s, e, id, fd);
    LetsGoIsReleases(s, e, id, fd);
  }

  // Nothing lets file `id` go, and its holder does not hang up.
  ghost predicate Undisturbed(s: State, es: seq<Event>, id: Id, fd: nat)
    decreases |es|
  {
    es == [] ||
    var before, last := es[..|es| - 1], es[|es| - 1];
    && Undisturbed(s, before, id, fd)
    && !Releases(Workers.Run(s, before), last, id, fd)
    && !HangsUp(Workers.Run(s, before), last, fd)
  }

  // All that happened to file `id` since `from`, connection `conn` did.
  ghost predicate OnlyBy(log: seq<Entry>, from: nat, id: Id, fd: nat, conn: nat) {
    forall i :: from <= i < |log| && log[i].id == id ==> log[i].fd == fd && log[i].conn == conn
  }

  // The same of one event, with the connection behind the descriptor.
  lemma NextDeed(s: State, e: Event, from: nat, id: Id, fd: nat)
    requires Contents(s) && Jobs(s) && Holder(s, id, fd) && !LetsGo(s, e, id, fd) && fd in s.conns
    requires from <= |s.log| && OnlyBy(s.log, from, id, fd, s.conns[fd])
    ensures s.log <= Next(s, e).log && OnlyBy(Next(s, e).log, from, id, fd, s.conns[fd])
  {
    NumberedFrom(s);
    if e.Advance? && e.w < |s.workers| && !s.fault && !Dangling(s, e.w) && !s.workers[e.w].Idle? {
      DeedsOfHolder(s, e.w, id, fd);
    }
    hide Section, Numbered, Contents, Holder, LetsGo, Dangling, Drop, Busy;
  }

  // While a client holds a file open and stays connected, the file stays there and
  // no other client opens, reads, appends to or closes it, whatever the others do.
  lemma {:induction false} ExclusiveWhileHeld(s: State, es: seq<Event>, id: Id, fd: nat)
    requires Orderly(s) && Holder(s, id, fd) && fd in s.conns && Undisturbed(s, es, id, fd)
    ensures var t := Workers.Run(s, es);
      && Orderly(t) && Holder(t, id, fd) && fd in t.conns && t.conns[fd] == s.conns[fd]
      && s.log <= t.log && OnlyBy(t.log, |s.log|, id, fd, s.conns[fd])
    decreases |es|
  {
    hide Contents, Jobs, OwnDrops, Holder, Next, Releases, LetsGo, HangsUp;
    if es != [] {
      var before, last := es[..|es| - 1], es[|es| - 1];
      ExclusiveWhileHeld(s, before, id, fd);
      var r := Workers.Run(s, before);
      NextOrderly(r, last);
      HeldUntilReleased(r, last, id, fd);
      LetsGoIsReleases(r, last, id, fd);
      JobsKept(r, last);
      NextDeed(r, last, |s.log|, id, fd);
    }
  }

  lemma NumberedFrom(s: State)
    requires Contents(s)
    ensures Numbered(s)
  {
    hide Chunks, Truthful;
  }

  lemma {:induction false} RunJobs(ram: nat, nfile: nat, threads: nat, es: seq<Event>)
    ensures Jobs(Workers.Run(Init(ram, nfile, threads), es))
  {
    if es != [] {
      hide Jobs, Next;
      RunJobs(ram, nfile, threads, es[..|es| - 1]);
      JobsKept(Workers.Run(Init(ram, nfile, threads), es[..|es| - 1]), es[|es| - 1]);
    } else {
      assert Jobs(Init(ram, nfile, threads));
    }
  }

  // ---------- what entitles a client ----------

  predicate Closed(s: State, id: Id) {
    |s.files| == |s.ids| && id in s.ids && s.files[IndexOf(s.ids, id)].owner == CLOSED
  }

  // Who an entry of the log has to be the holder, before and after.
  ghost predicate Rightful(s: State, t: State, n: Entry) {
    match n.deed
    case Creation => n.id !in s.ids && Holder(t, n.id, n.fd)
    case Opening => Closed(s, n.id) && Holder(t, n.id, n.fd)
    case Reading(_) => Holder(s, n.id, n.fd) && Holder(t, n.id, n.fd)
    case Appending(_) => Holder(s, n.id, n.fd) && Holder(t, n.id, n.fd)
    case Closing => Holder(s, n.id, n.fd) && Closed(t, n.id)
    case Dump(_) => n.id in s.ids && Closed(t, n.id)
  }

  ghost predicate Logged(s: State, t: State) {
    t.log == s.log || (t.log != [] && t.log == s.log + [t.log[|t.log| - 1]] && Rightful(s, t, t.log[|t.log| - 1]))
  }

  lemma InsertLogged(s: State, w: nat, job: Job)
    requires Numbered(s) && w < |s.workers|
    ensures Logged(s, Insert(s, w, job))
  {
    var t := Insert(s, w, job);
    assert t.ids[0] == s.nextId;
  }

  lemma CommitLogged(s: State, w: nat, job: Job, k: nat)
    requires Numbered(s) && w < |s.workers| && k < |s.files|
    ensures Logged(s, Commit(s, w, job, k))
  {
    IndexIs(s.ids, k);
    hide IndexOf, Numbered, Chunk;
  }

  lemma ServeLogged(s: State, w: nat, job: Job, k: nat)
    requires Numbered(s) && w < |s.workers| && k < |s.files| && job.op.Ask?
    ensures Logged(s, Serve(s, w, job, k))
  {
    IndexIs(s.ids, k);
    hide IndexOf, Numbered, Chunk;
  }

  lemma WalkLogged(s: State, w: nat, job: Job, left: int, k: nat)
    requires Numbered(s) && w < |s.workers| && k < |s.files|
    ensures Logged(s, Walk(s, w, job, left, k))
  {
    IndexIs(s.ids, k);
    hide IndexOf, Numbered, Chunk;
  }

  lemma SectionLogged(s: State, w: nat)
    requires Numbered(s) && w < |s.workers| && !Dangling(s, w)
    ensures Logged(s, Section(s, w))
  {
    assert |s.files| == |s.ids|;
    hide Numbered, DistinctIds, Insert, Commit, Serve, Walk, Newest, Rightful;
    match s.workers[w] {
      case InsertNow(job) => InsertLogged(s, w, job);
      case Waiting(job, id) => if job.op.Ask? { ServeLogged(s, w, job, IndexOf(s.ids, id)); }
      case CommitNow(job, id) => CommitLogged(s, w, job, IndexOf(s.ids, id));
      case Walking(job, left, cur) =>
        if 0 < left && cur.To? { WalkLogged(s, w, job, left, IndexOf(s.ids, cur.id)); }
      case _ =>
    }
  }

  // Whatever is done to a file, its client was entitled to: it had the file open, or
  // found it closed, and an open makes it the holder until a close.
  lemma NextLogged(s: State, e: Event)
    requires Numbered(s)
    ensures Logged(s, Next(s, e))
  {
    if e.Advance? && e.w < |s.workers| && !Dangling(s, e.w) { SectionLogged(s, e.w); }
    hide Section, Dangling, Rightful, Numbered, Busy;
  }

  // ---------- appends past their test ----------

  // The file an append works on, between its test of the owner and its end.
  function Target(pc: Pc): Link {
    match pc
    case TestSize(_, id) => To(id)
    case DropSelf(_, id) => To(id)
    case TestRoom(_, id) => To(id)
    case EvictRoom(_, id, _) => To(id)
    case CommitNow(_, id) => To(id)
    case _ => End
  }

  // If worker state `pc` is an append past its first test, the client it works for
  // holds the file.
  ghost predicate Anchored(s: State, pc: Pc) {
    Target(pc).To? ==> Holder(s, Target(pc).id, pc.job.fd)
  }

  // Worker state `pc` is not part of readNFiles.
  predicate NotWalking(pc: Pc) {
    !pc.Walking? && (!pc.Idle? && pc.job.op.Ask? ==> !pc.job.op.request.ReadN?)
  }

  ghost predicate Calm(s: State, pc: Pc) {
    NotWalking(pc) && Anchored(s, pc)
  }

  ghost predicate Settled(s: State) {
    forall w :: 0 <= w < |s.workers| ==> Calm(s, s.workers[w])
  }

  // Where an append's own section leaves it.
  lemma SectionAnchored(s: State, w: nat)
    requires Numbered(s) && w < |s.workers| && !s.fault && !Dangling(s, w) && Anchored(s, s.workers[w])
    ensures w < |Section(s, w).workers| && Anchored(Section(s, w), Section(s, w).workers[w])
  {
    SectionMoves(s, w);
    StillHolds(s, w);
    var pc := Section(s, w).workers[w];
    if Target(pc).To? {
      HeldBySection(s, w, Target(pc).id, pc.job.fd);
    }
    hide Section, Dangling, Numbered, Holder, LetsGo;
  }

  lemma StillHolds(s: State, w: nat)
    requires Numbered(s) && w < |s.workers| && !s.fault && !Dangling(s, w) && Anchored(s, s.workers[w])
    ensures var pc := Section(s, w).workers[w];
      Target(pc).To? ==> Holder(s, Target(pc).id, pc.job.fd) && !LetsGo(s, Advance(w), Target(pc).id, pc.job.fd)
  {
    hide DistinctIds, Newest, Remove, Name, Chunk, Appended;
    match s.workers[w] {
      case Started(_) =>
      case TestSize(_, _) =>
      case Waiting(_, _) =>
      case _ =>
    }
  }

  lemma SectionNotWalking(s: State, w: nat)
    requires Numbered(s) && w < |s.workers| && !Dangling(s, w) && NotWalking(s.workers[w])
    ensures w < |Section(s, w).workers| && NotWalking(Section(s, w).workers[w])
  {
    SectionMoves(s, w);
    hide DistinctIds, Newest, IndexOf, Drop, Own, Name, Chunk, Appended, Log;
    match s.workers[w] {
      case Started(_) =>
      case Waiting(_, _) =>
      case _ =>
    }
  }

  // A section of another worker lets go of no file an append is working on.
  lemma OthersCalm(s: State, v: nat, w: nat)
    requires Numbered(s) && Jobs(s) && Settled(s) && !s.fault && v != w && v < |s.workers| && w < |s.workers| && !Dangling(s, w)
    ensures Calm(Section(s, w), s.workers[v])
  {
    assert Calm(s, s.workers[v]) && Calm(s, s.workers[w]);
    var pc := s.workers[v];
    if Target(pc).To? {
      HeldBySection(s, w, Target(pc).id, pc.job.fd);
    }
    hide Numbered, Section, Dangling;
  }

  // Events that are no section leave every append its file.
  lemma OtherAnchored(s: State, e: Event, v: nat)
    requires Numbered(s) && v < |s.workers| && Anchored(s, s.workers[v])
    requires e.Advance? ==> s.fault || e.w >= |s.workers| || Dangling(s, e.w)
    ensures |Next(s, e).workers| == |s.workers| && Anchored(Next(s, e), Next(s, e).workers[v])
  {
    var pc := s.workers[v];
    OtherMoves(s, e, v);
    if Target(pc).To? { HeldByOtherEvents(s, e, Target(pc).id, pc.job.fd); }
    hide Next, Dangling, Holder, Numbered;
  }

  lemma NextSettled(s: State, e: Event)
    requires Contents(s) && Jobs(s) && Settled(s) && (e.Start? && e.op.Ask? ==> !e.op.request.ReadN?)
    ensures Settled(Next(s, e))
  {
    NumberedFrom(s);
    Lengths(s);
    WorkersKept(s, e);
    hide Section, Dangling, Numbered, Contents, Jobs, Calm;
    forall v | 0 <= v < |s.workers| ensures Calm(Next(s, e), Next(s, e).workers[v]) {
      assert Calm(s, s.workers[v]);
      if e.Advance? && e.w < |s.workers| && !s.fault && !Dangling(s, e.w) {
        assert Next(s, e) == Section(s, e.w);
        SectionMoves(s, e.w);
        if v == e.w { SectionCalm(s, v); } else { OthersCalm(s, v, e.w); }
      } else {
        OtherCalm(s, e, v);
      }
      hide Next;
    }
  }

  lemma SectionCalm(s: State, w: nat)
    requires Numbered(s) && w < |s.workers| && !s.fault && !Dangling(s, w) && Calm(s, s.workers[w])
    ensures w < |Section(s, w).workers| && Calm(Section(s, w), Section(s, w).workers[w])
  {
    hide Section, Dangling, Numbered, Anchored, NotWalking;
    SectionAnchored(s, w);
    SectionNotWalking(s, w);
  }

  lemma OtherCalm(s: State, e: Event, v: nat)
    requires Numbered(s) && v < |s.workers| && Calm(s, s.workers[v]) && (e.Start? && e.op.Ask? ==> !e.op.request.ReadN?)
    requires e.Advance? ==> s.fault || e.w >= |s.workers| || Dangling(s, e.w)
    ensures |Next(s, e).workers| == |s.workers| && Calm(Next(s, e), Next(s, e).workers[v])
  {
    hide Next, Dangling, Numbered, Anchored;
    OtherAnchored(s, e, v);
    OtherMoves(s, e, v);
  }

  predicate NoWalks(es: seq<Event>) {
    forall i :: 0 <= i < |es| && es[i].Start? && es[i].op.Ask? ==> !es[i].op.request.ReadN?
  }

  lemma {:induction false} RunSettled(ram: nat, nfile: nat, threads: nat, es: seq<Event>)
    requires NoWalks(es)
    ensures Settled(Workers.Run(Init(ram, nfile, threads), es))
  {
    if es != [] {
      hide Settled, Next;
      var before, last := es[..|es| - 1], es[|es| - 1];
      RunSettled(ram, nfile, threads, before);
      RunContents(ram, nfile, threads, before);
      RunJobs(ram, nfile, threads, before);
      NextSettled(Workers.Run(Init(ram, nfile, threads), before), last);
    } else {
      assert Settled(Init(ram, nfile, threads));
    }
  }

  // ---------- from an open to the holder's own act ----------

  // Nothing the holder does gives file `id` up, and it does not hang up.
  ghost predicate HolderKeeps(s: State, es: seq<Event>, id: Id, fd: nat)
    decreases |es|
  {
    es == [] ||
    var before, last := es[..|es| - 1], es[|es| - 1];
    && HolderKeeps(s, before, id, fd)
    && !GivesUp(Workers.Run(s, before), last, id, fd)
    && !HangsUp(Workers.Run(s, before), last, fd)
  }

  lemma NoPassing(s: State, e: Event, id: Id)
    requires Settled(s)
    ensures !PassesOver(s, e, id)
  {
    if e.Advance? && e.w < |s.workers| { assert Calm(s, s.workers[e.w]); }
    hide IndexOf;
  }

  // Without readN there is nothing else that could disturb it.
  lemma {:induction false} KeptIsUndisturbed(ram: nat, nfile: nat, threads: nat, es: seq<Event>, fs: seq<Event>, id: Id, fd: nat)
    requires NoWalks(es + fs) && HolderKeeps(Workers.Run(Init(ram, nfile, threads), es), fs, id, fd)
    ensures Undisturbed(Workers.Run(Init(ram, nfile, threads), es), fs, id, fd)
    decreases |fs|
  {
    hide Workers.Run, Init, GivesUp, PassesOver, HangsUp, Settled;
    if fs != [] {
      var before, last := fs[..|fs| - 1], fs[|fs| - 1];
      assert es + fs == (es + before) + [last];
      assert NoWalks(es + before) by { assert forall i :: 0 <= i < |es + before| ==> (es + before)[i] == (es + fs)[i]; }
      KeptIsUndisturbed(ram, nfile, threads, es, before, id, fd);
      RunSettled(ram, nfile, threads, es + before);
      Join(Init(ram, nfile, threads), es, before);
      NoPassing(Workers.Run(Workers.Run(Init(ram, nfile, threads), es), before), last, id);
    }
  }

  // In every run without readN, whoever holds a file holds it, and alone touches it,
  // until its own close, its own append larger than the store, or its own hangup: no
  // other client's request and no eviction comes between.
  lemma HeldUntilOwnAct(ram: nat, nfile: nat, threads: nat, es: seq<Event>, fs: seq<Event>, id: Id, fd: nat)
    requires NoWalks(es + fs)
    ensures var s, t := Workers.Run(Init(ram, nfile, threads), es), Workers.Run(Init(ram, nfile, threads), es + fs);
      Holder(s, id, fd) && fd in s.conns && HolderKeeps(s, fs, id, fd) ==>
        && Holder(t, id, fd) && fd in t.conns && t.conns[fd] == s.conns[fd]
        && s.log <= t.log && OnlyBy(t.log, |s.log|, id, fd, s.conns[fd])
  {
    hide Workers.Run, Init, Orderly, NoWalks, Holder, Undisturbed, OnlyBy, HolderKeeps;
    var s := Workers.Run(Init(ram, nfile, threads), es);
    RunOrderly(ram, nfile, threads, es);
    if Holder(s, id, fd) && fd in s.conns && HolderKeeps(s, fs, id, fd) {
      KeptIsUndisturbed(ram, nfile, threads, es, fs, id, fd);
      Join(Init(ram, nfile, threads), es, fs);
      ExclusiveWhileHeld(s, fs, id, fd);
    }
  }

  // The state after es and the first i events of fs.
  function After(s: State, es: seq<Event>, fs: seq<Event>, i: nat): State
    requires i <= |fs|
  {
    Workers.Run(s, es + fs[..i])
  }

  // Step by step this is exact: the file is held on after every step of the run if and
  // only if none of them is its holder's close or over-large append.
  lemma HeldExactlyUntilOwnAct(ram: nat, nfile: nat, threads: nat, es: seq<Event>, fs: seq<Event>, id: Id, fd: nat)
    requires NoWalks(es + fs) && Holder(Workers.Run(Init(ram, nfile, threads), es), id, fd)
    ensures var s := Init(ram, nfile, threads);
      (forall i :: 0 <= i <= |fs| ==> Holder(After(s, es, fs, i), id, fd)) <==>
      (forall i :: 0 <= i < |fs| ==> !GivesUp(After(s, es, fs, i), fs[i], id, fd))
  {
    AfterNone(Init(ram, nfile, threads), es, fs);
    hide Workers.Run, Init, Holder, GivesUp, After;
    HeldExactlyFor(ram, nfile, threads, es, fs, |fs|, id, fd);
  }

  lemma AfterNone(s: State, es: seq<Event>, fs: seq<Event>)
    ensures After(s, es, fs, 0) == Workers.Run(s, es)
  {
    assert es + fs[..0] == es;
  }

  lemma {:induction false} HeldExactlyFor(ram: nat, nfile: nat, threads: nat, es: seq<Event>, fs: seq<Event>, n: nat, id: Id, fd: nat)
    requires NoWalks(es + fs) && n <= |fs| && Holder(After(Init(ram, nfile, threads), es, fs, 0), id, fd)
    ensures var s := Init(ram, nfile, threads);
      (forall i :: 0 <= i <= n ==> Holder(After(s, es, fs, i), id, fd)) <==>
      (forall i :: 0 <= i < n ==> !GivesUp(After(s, es, fs, i), fs[i], id, fd))
  {
    hide Workers.Run, Init, Holder, GivesUp, After, NoWalks;
    if 0 < n {
      HeldExactlyFor(ram, nfile, threads, es, fs, n - 1, id, fd);
      if Holder(After(Init(ram, nfile, threads), es, fs, n - 1), id, fd) {
        OneStepOn(ram, nfile, threads, es, fs, n - 1, id, fd);
      }
    }
  }

  lemma OneStepOn(ram: nat, nfile: nat, threads: nat, es: seq<Event>, fs: seq<Event>, i: nat, id: Id, fd: nat)
    requires NoWalks(es + fs) && i < |fs| && Holder(After(Init(ram, nfile, threads), es, fs, i), id, fd)
    ensures var s := Init(ram, nfile, threads);
      Holder(After(s, es, fs, i + 1), id, fd) <==> !GivesUp(After(s, es, fs, i), fs[i], id, fd)
  {
    hide Workers.Run, Init, Holder, GivesUp, PassesOver, Next, Orderly, Settled;
    var before := es + fs[..i];
    assert es + fs[..i + 1] == before + [fs[i]];
    assert NoWalks(before) by { assert forall j :: 0 <= j < |before| ==> before[j] == (es + fs)[j]; }
    Extend(Init(ram, nfile, threads), before, fs[i]);
    RunOrderly(ram, nfile, threads, before);
    RunSettled(ram, nfile, threads, before);
    NoPassing(Workers.Run(Init(ram, nfile, threads), before), fs[i], id);
    HeldUntilReleased(Workers.Run(Init(ram, nfile, threads), before), fs[i], id, fd);
  }

  // An entry is written by a worker, for the client and the connection it works for.
  ghost predicate Signed(s: State, t: State, job: Job) {
    t.log == s.log || (exists id, deed :: t.log == s.log + [Entry(id, job.fd, job.conn, deed)])
  }

  lemma SectionSigned(s: State, w: nat)
    requires w < |s.workers| && |s.files| == |s.ids| && !Dangling(s, w) && !s.workers[w].Idle?
    ensures Signed(s, Section(s, w), s.workers[w].job)
  {
    hide Newest, IndexOf, Remove, Chunk, Name, Appended;
    var t := Section(s, w);
    if t.log != s.log {
      var n := t.log[|s.log|];
      assert t.log == s.log + [Entry(n.id, s.workers[w].job.fd, s.workers[w].job.conn, n.deed)];
    }
  }

  lemma EntrySigned(s: State, e: Event, n: Entry)
    requires Jobs(s) && Next(s, e).log == s.log + [n]
    ensures n.fd in s.conns && s.conns[n.fd] == n.conn
    ensures n.fd in Next(s, e).conns && Next(s, e).conns[n.fd] == n.conn
  {
    var t := Next(s, e);
    assert t.log[|s.log|] == n;
    assert e.Advance? && e.w < |s.workers| && |s.files| == |s.ids| && !Dangling(s, e.w) && t == Section(s, e.w) by {
      hide Section, Dangling, Busy;
    }
    IdleSection(s, e.w);
    SectionSigned(s, e.w);
    SectionConns(s, e.w);
    HangupLogsNothing(s, e.w);
    hide Section, Dangling, Busy;
  }

  lemma HangupLogsNothing(s: State, w: nat)
    requires w < |s.workers| && |s.files| == |s.ids| && !Dangling(s, w)
    ensures s.workers[w].Started? ==> Section(s, w).log == s.log
  {
    hide Newest;
  }

  // From a client's successful open or create on, all that happens to the file is that
  // connection's doing, until its own close, over-large append or hangup.
  lemma OpenIsExclusive(ram: nat, nfile: nat, threads: nat, es: seq<Event>, e: Event, fs: seq<Event>, n: Entry)
    requires NoWalks(es + [e] + fs) && (n.deed.Opening? || n.deed.Creation?)
    requires var s := Workers.Run(Init(ram, nfile, threads), es);
      Next(s, e).log == s.log + [n] && HolderKeeps(Next(s, e), fs, n.id, n.fd)
    ensures var s, t := Workers.Run(Init(ram, nfile, threads), es), Workers.Run(Init(ram, nfile, threads), es + [e] + fs);
      && Holder(t, n.id, n.fd) && n.fd in t.conns && t.conns[n.fd] == n.conn
      && s.log + [n] <= t.log && OnlyBy(t.log, |s.log|, n.id, n.fd, n.conn)
  {
    var s := Workers.Run(Init(ram, nfile, threads), es);
    hide Workers.Run, Init, NoWalks, Holder, HolderKeeps, Next, Contents, Jobs, OwnDrops, Numbered;
    RunOrderly(ram, nfile, threads, es);
    NumberedFrom(s);
    NextLogged(s, e);
    assert Next(s, e).log[|Next(s, e).log| - 1] == n;
    EntrySigned(s, e, n);
    Extend(Init(ram, nfile, threads), es, e);
    HeldUntilOwnAct(ram, nfile, threads, es + [e], fs, n.id, n.fd);
    hide Orderly;
  }

  // ---------- a descriptor is not a client ----------

  // A descriptor comes to hold a file by its own worker's doing only.
  lemma ServeHolds(s: State, w: nat, job: Job, k: nat, id: Id, fd: nat)
    requires Numbered(s) && w < |s.workers| && k < |s.files| && job.op.Ask? && job.fd != fd
    ensures Holder(Serve(s, w, job, k), id, fd) ==> Holder(s, id, fd)
  {
    var t := Serve(s, w, job, k);
    if id in s.ids {
      HeldByOwn(s, k, CLOSED, id, fd);
      HeldByOwn(s, k, job.fd, id, fd);
    } else {
      assert t.ids == s.ids && !Holder(t, id, fd);
    }
    HeldByOthers(s, t, id, fd);
    HeldByOthers(Own(s, k, CLOSED), t, id, fd);
    HeldByOthers(Own(s, k, job.fd), t, id, fd);
    hide Holder, Numbered;
  }

  lemma WalkHolds(s: State, w: nat, job: Job, left: int, k: nat, id: Id, fd: nat)
    requires Numbered(s) && w < |s.workers| && k < |s.files|
    ensures Holder(Walk(s, w, job, left, k), id, fd) ==> Holder(s, id, fd)
  {
    if id in s.ids { UpdateOther(s, k, s.files[k].(owner := CLOSED), id); }
  }

  lemma CommitHolds(s: State, w: nat, job: Job, k: nat, id: Id, fd: nat)
    requires Numbered(s) && w < |s.workers| && k < |s.files|
    ensures Holder(Commit(s, w, job, k), id, fd) ==> Holder(s, id, fd)
  {
    if id in s.ids { UpdateOther(s, k, Appended(s.files[k], Chunk(job)), id); }
  }

  lemma InsertHolds(s: State, w: nat, job: Job, id: Id, fd: nat)
    requires Numbered(s) && w < |s.workers| && job.fd != fd
    ensures Holder(Insert(s, w, job), id, fd) ==> Holder(s, id, fd)
  {
    assert Insert(s, w, job).ids[1..] == s.ids && Insert(s, w, job).files[1..] == s.files;
  }

  lemma DropHolds(s: State, k: nat, id: Id, fd: nat)
    requires Numbered(s) && k < |s.files|
    ensures Holder(Drop(s, k), id, fd) ==> Holder(s, id, fd)
  {
    if id in s.ids { DropOther(s, k, id); }
  }

  lemma SectionHolds(s: State, w: nat, id: Id, fd: nat)
    requires Numbered(s) && w < |s.workers| && !Dangling(s, w) && (s.workers[w].Idle? || s.workers[w].job.fd != fd)
    ensures Holder(Section(s, w), id, fd) ==> Holder(s, id, fd)
  {
    HeldByOthers(s, Section(s, w), id, fd);
    assert |s.files| == |s.ids|;
    hide Numbered, Holder, Insert, Commit, Serve, Walk, Search, Drop;
    match s.workers[w] {
      case Started(job) => SearchMovesNothing(s, w, job);
      case InsertNow(job) => InsertHolds(s, w, job, id, fd);
      case Waiting(job, i) => if job.op.Ask? { ServeHolds(s, w, job, IndexOf(s.ids, i), id, fd); }
      case DropSelf(_, i) =>
        DropHolds(s, IndexOf(s.ids, i), id, fd);
        HeldByOthers(Drop(s, IndexOf(s.ids, i)), Section(s, w), id, fd);
      case CommitNow(job, i) => CommitHolds(s, w, job, IndexOf(s.ids, i), id, fd);
      case Walking(job, left, cur) =>
        if 0 < left && cur.To? { WalkHolds(s, w, job, left, IndexOf(s.ids, cur.id), id, fd); }
      case _ =>
    }
  }

  // While nobody is connected on fd, what it holds only shrinks, and by readN alone.
  lemma HeldWhileGone(s: State, e: Event, id: Id, fd: nat)
    requires Orderly(s) && fd !in s.conns
    ensures Holder(Next(s, e), id, fd) <==> Holder(s, id, fd) && !PassesOver(s, e, id)
  {
    NumberedFrom(s);
    NoWorkerOf(s, fd);
    hide Contents, Jobs, OwnDrops, Numbered, Holder, Section, Dangling, Drop, Busy;
    if e.Advance? && e.w < |s.workers| && !s.fault && |s.files| == |s.ids| && !Dangling(s, e.w) {
      SectionHolds(s, e.w, id, fd);
    } else {
      OtherEvents(s, e);
      HeldByOthers(Left(s, e), Next(s, e), id, fd);
      if Takes(s, e) { DropHolds(s, Aimed(s, e.w), id, fd); }
    }
    if Holder(s, id, fd) {
      hide Next;
      HeldUntilReleased(s, e, id, fd);
    }
  }

  lemma NoWorkerOf(s: State, fd: nat)
    requires Jobs(s) && fd !in s.conns
    ensures forall w :: 0 <= w < |s.workers| ==> s.workers[w].Idle? || s.workers[w].job.fd != fd
  {
  }

  // Nobody connects on fd during fs.
  ghost predicate Gone(s: State, fs: seq<Event>, fd: nat) {
    forall i :: 0 <= i <= |fs| ==> fd !in Workers.Run(s, fs[..i]).conns
  }

  // readN passes over file `id` during fs.
  ghost predicate Passed(s: State, fs: seq<Event>, id: Id)
    decreases |fs|
  {
    fs != [] && (Passed(s, fs[..|fs| - 1], id) || PassesOver(Workers.Run(s, fs[..|fs| - 1]), fs[|fs| - 1], id))
  }

  lemma {:induction false} HeldSinceGone(s: State, fs: seq<Event>, id: Id, fd: nat)
    requires Orderly(s) && Gone(s, fs, fd)
    ensures var t := Workers.Run(s, fs);
      Orderly(t) && fd !in t.conns && (Holder(t, id, fd) <==> Holder(s, id, fd) && !Passed(s, fs, id))
    decreases |fs|
  {
    hide Orderly, Holder, PassesOver, Next;
    assert fs[..|fs|] == fs;
    if fs != [] {
      var before, last := fs[..|fs| - 1], fs[|fs| - 1];
      assert forall i :: 0 <= i <= |before| ==> before[..i] == fs[..i];
      HeldSinceGone(s, before, id, fd);
      HeldWhileGone(Workers.Run(s, before), last, id, fd);
      NextOrderly(Workers.Run(s, before), last);
    }
  }

  // So the next client on a descriptor inherits exactly the files that the last one
  // left open and that no readN has passed over since.
  lemma DescriptorReuse(ram: nat, nfile: nat, threads: nat, es: seq<Event>, fs: seq<Event>, id: Id, fd: nat)
    requires var s := Workers.Run(Init(ram, nfile, threads), es); Gone(s, fs, fd)
    ensures var s, t := Workers.Run(Init(ram, nfile, threads), es), Workers.Run(Init(ram, nfile, threads), es + fs + [Connect(fd)]);
      Holder(t, id, fd) <==> Holder(s, id, fd) && !Passed(s, fs, id)
  {
    var s := Workers.Run(Init(ram, nfile, threads), es);
    hide Workers.Run, Init, Orderly, Holder, Gone, Passed, Next;
    RunOrderly(ram, nfile, threads, es);
    HeldSinceGone(s, fs, id, fd);
    Join(Init(ram, nfile, threads), es, fs);
    Extend(Init(ram, nfile, threads), es + fs, Connect(fd));
    ConnectMovesNothing(Workers.Run(s, fs), fd, id);
  }

  lemma ConnectMovesNothing(s: State, fd: nat, id: Id)
    ensures Holder(Next(s, Connect(fd)), id, fd) <==> Holder(s, id, fd)
  {
  }
}
