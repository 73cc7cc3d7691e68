// Runs that reach the limits the other modules prove, and runs that show where
// the code falls short of what it promises.
module Witnesses {
  import opened Files
  import opened Service
  import opened Workers
  import opened Ownership
  import Alone

  // Steps of a run, one after another.
  lemma Two(s: State, a: Event, b: Event)
    ensures Workers.Run(s, [a, b]) == Next(Next(s, a), b)
  {
    Extend(s, [], a);
    Extend(s, [a], b);
    assert [] + [a] == [a] && [a] + [b] == [a, b];
  }

  lemma Three(s: State, a: Event, b: Event, c: Event)
    ensures Workers.Run(s, [a, b, c]) == Next(Next(Next(s, a), b), c)
  {
    Two(s, a, b);
    Extend(s, [a, b], c);
    assert [a, b] + [c] == [a, b, c];
  }

  lemma Four(s: State, a: Event, b: Event, c: Event, d: Event)
    ensures Workers.Run(s, [a, b, c, d]) == Next(Next(Next(Next(s, a), b), c), d)
  {
    Three(s, a, b, c);
    Extend(s, [a, b, c], d);
    assert [a, b, c] + [d] == [a, b, c, d];
  }

  // ---------- the slot budget can be overdrawn as far as proved ----------

  // Client n asks worker n to create a file, up to the test for a free slot.
  function Look(n: nat): seq<Event> {
    [Connect(n), Start(n, n, Ask(Open(Path(n), Create))), Advance(n), Advance(n)]
  }

  // Every one of T workers sees the last free slot ...
  function SeeSlot(n: nat): seq<Event> {
    if n == 0 then [] else SeeSlot(n - 1) + Look(n - 1)
  }

  // ... and then takes it.
  function TakeSlot(n: nat): seq<Event> {
    if n == 0 then [] else TakeSlot(n - 1) + [Advance(n - 1)]
  }

  function Path(n: nat): string { seq(n + 1, _ => 'a') }

  ghost predicate Seeing(s: State, n: nat, threads: nat) {
    && |s.workers| == threads && n <= threads && !s.fault && s.ids == [] && s.files == [] && s.nfileDispo == 1
    && (forall w :: 0 <= w < n ==> s.workers[w].InsertNow? && s.workers[w].job.fd < n)
    && (forall w :: n <= w < threads ==> s.workers[w].Idle?)
    && (forall fd :: fd in s.conns ==> fd < n)
  }

  lemma SeeOne(s: State, n: nat, threads: nat)
    requires Seeing(s, n, threads) && n < threads
    ensures Seeing(Workers.Run(s, Look(n)), n + 1, threads)
  {
    Four(s, Connect(n), Start(n, n, Ask(Open(Path(n), Create))), Advance(n), Advance(n));
    var a := Next(s, Connect(n));
    assert !Busy(a.workers, n);
    var b := Next(a, Start(n, n, Ask(Open(Path(n), Create))));
    assert b.workers[n].Started?;
    var c := Next(b, Advance(n));
    assert c.workers[n].TestSlot?;
    var d := Next(c, Advance(n));
    assert d.workers[n].InsertNow?;
  }

  lemma SeeNone(ram: nat, threads: nat)
    ensures Seeing(Workers.Run(Init(ram, 1, threads), []), 0, threads)
  {
  }

  lemma {:induction false} SeeAll(ram: nat, n: nat, threads: nat)
    requires n <= threads
    ensures Seeing(Workers.Run(Init(ram, 1, threads), SeeSlot(n)), n, threads)
  {
    hide Seeing, Next, Look, Init, Workers.Run;
    if n == 0 {
      SeeNone(ram, threads);
    } else {
      SeeAll(ram, n - 1, threads);
      var s := Init(ram, 1, threads);
      SeeOne(Workers.Run(s, SeeSlot(n - 1)), n - 1, threads);
      Join(s, SeeSlot(n - 1), Look(n - 1));
    }
  }

  ghost predicate Taken(s: State, n: nat, threads: nat) {
    && |s.workers| == threads && n <= threads && !s.fault && |s.ids| == |s.files|
    && s.nfileDispo == 1 - n && (forall w :: n <= w < threads ==> s.workers[w].InsertNow?)
  }

  lemma {:induction false} TakeAll(s: State, n: nat, threads: nat)
    requires Taken(s, 0, threads) && n <= threads
    ensures Taken(Workers.Run(s, TakeSlot(n)), n, threads)
  {
    hide Taken, Next;
    if n != 0 {
      TakeAll(s, n - 1, threads);
      Extend(s, TakeSlot(n - 1), Advance(n - 1));
      TakeOne(Workers.Run(s, TakeSlot(n - 1)), n - 1, threads);
    }
  }

  lemma TakeOne(s: State, n: nat, threads: nat)
    requires Taken(s, n, threads) && n < threads
    ensures Taken(Next(s, Advance(n)), n + 1, threads)
  {
    assert s.workers[n].InsertNow?;
  }

  // T workers can leave the slot budget at 1 - T: the bound is attained.
  lemma SlotBoundIsAttained(ram: nat, threads: nat)
    ensures Workers.Run(Init(ram, 1, threads), SeeSlot(threads) + TakeSlot(threads)).nfileDispo == 1 - threads
  {
    SeeAll(ram, threads, threads);
    hide Next, SeeSlot, TakeSlot, Init, Workers.Run;
    var s := Workers.Run(Init(ram, 1, threads), SeeSlot(threads));
    TakeAll(s, threads, threads);
    Join(Init(ram, 1, threads), SeeSlot(threads), TakeSlot(threads));
  }

  // ---------- and so can the memory ----------

  // The first n of T workers each have seen room for a whole store, for a file of their
  // own client's; nothing is taken yet.
  ghost predicate Loaded(s: State, n: nat, threads: nat) {
    && |s.workers| == threads && n <= threads && !s.fault && Numbered(s) && NoShadow(s.files)
    && |s.files| == n && s.nfileDispo == s.nfileTot - n && Bytes(s.files) == 0 && s.ramDispo == s.ramTot
    && (forall f :: f in s.files ==> |f.path| <= n) && (forall fd :: fd in s.conns ==> fd < n)
    && (forall w :: n <= w < threads ==> s.workers[w].Idle?) && Committing(s, 0, n)
  }

  // Workers `from` to `to` are about to copy a store's worth, each into its client's file.
  ghost predicate Committing(s: State, from: nat, to: nat) {
    to <= |s.workers| && forall w :: from <= w < to ==> Copies(s, s.workers[w], w)
  }

  predicate Copies(s: State, pc: Pc, fd: nat) {
    pc.CommitNow? && |Chunk(pc.job)| == s.ramTot && pc.job.fd == fd && Holder(s, pc.id, fd)
  }

  function Fill(ram: nat): seq<Byte> { seq(ram, _ => 0) }

  lemma JoinReady(s: State, n: nat, threads: nat)
    requires Loaded(s, n, threads) && n < threads && n < s.nfileTot
    ensures var t := Next(s, Connect(n));
      && Alone.Ready(t, n, n) && Newest(t.files, Path(n)) == |t.files| && 0 < t.nfileDispo
      && t == s.(conns := t.conns, nextConn := t.nextConn) && (forall fd :: fd in t.conns ==> fd <= n)
      && t.conns[n] == s.nextConn < t.nextConn
  {
    LongerIsNew(s.files, Path(n));
    hide NoShadow, Bytes, Holder, Newest, Chunk;
    assert forall w :: 0 <= w < n ==> Copies(s, s.workers[w], w);
  }

  lemma {:induction false} LongerIsNew(files: seq<File>, path: string)
    requires forall f :: f in files ==> |f.path| < |path|
    ensures Newest(files, path) == |files|
  {
    if files != [] { LongerIsNew(files[1..], path); }
  }

  // Client n's file is at the head, and worker n is free again.
  lemma CreateOwn(s: State, n: nat) returns (t: State)
    requires Alone.Ready(s, n, n) && Numbered(s) && Newest(s.files, Path(n)) == |s.files| && 0 < s.nfileDispo
    requires forall f :: f in s.files ==> |f.path| <= n
    ensures Alone.Reaches(s, n, t) && Alone.Ready(t, n, n) && Numbered(t)
    ensures t.files == [File(Path(n), n, EMPTY, [])] + s.files && t.nfileDispo == s.nfileDispo - 1
    ensures t.workers == s.workers && t.conns == s.conns && t.ramDispo == s.ramDispo && t.ramTot == s.ramTot && t.nfileTot == s.nfileTot
    ensures t.nextConn == s.nextConn && t.ids != [] && t.log == s.log + [Entry(t.ids[0], n, s.conns[n], Creation)]
    ensures forall id, fd: nat :: Holder(s, id, fd) ==> Holder(t, id, fd)
  {
    var job := Alone.JobOf(s, n, Open(Path(n), Create));
    var c := SetPc(s, n, InsertNow(job));
    Alone.SlotTest(s, n, n, Path(n));
    Alone.ReachesStep(s, n, c, Advance(n));
    t := Insert(c, n, job);
    assert Next(c, Advance(n)) == t;
    Alone.Again(s, n, InsertNow(job), Idle);
    InFront(File(Path(n), n, EMPTY, []), s.files);
    forall id, fd: nat | Holder(s, id, fd) ensures Holder(t, id, fd) {
      HeldByOthers(s, c, id, fd);
      HeldByInsert(c, n, job, id, fd);
    }
    hide NoShadow, Bytes, Holder, Newest, Alone.Reaches, Busy;
    assert t.ids[1..] == s.ids;
  }

  // Client n appends a whole store to it, up to the copy.
  lemma FillOwn(s: State, n: nat) returns (t: State)
    requires Alone.Ready(s, n, n) && Numbered(s) && s.files != [] && s.ramDispo == s.ramTot
    requires s.files[0].path == Path(n) && s.files[0].owner == n
    ensures Alone.Reaches(s, n, t) && n < |t.workers| == |s.workers| && t == SetPc(s, n, t.workers[n]) && Copies(t, t.workers[n], n)
  {
    var r := Append(Path(n), Fill(s.ramTot));
    var pc := CommitNow(Alone.JobOf(s, n, r), s.ids[0]);
    hide NoShadow, Bytes, Alone.Reaches, Busy;
    Alone.ToCommit(s, n, n, r);
    IndexIs(s.ids, 0);
    t := SetPc(s, n, pc);
  }

  lemma LoadOne(ram: nat, nfile: nat, threads: nat, s: State, n: nat) returns (u: State)
    requires Reached(ram, nfile, threads, s) && Loaded(s, n, threads) && n < threads && n < s.nfileTot
    ensures Reached(ram, nfile, threads, u) && Loaded(u, n + 1, threads) && u.ramTot == s.ramTot && u.nfileTot == s.nfileTot
  {
    var a := Next(s, Connect(n));
    JoinReady(s, n, threads);
    ReachedNext(ram, nfile, threads, s, Connect(n));
    hide Next, Reached, Alone.Reaches, NoShadow, Bytes, Newest, Busy, Path;
    var b := CreateOwn(a, n);
    Alone.ReachedOn(ram, nfile, threads, a, n, b);
    u := FillOwn(b, n);
    Alone.ReachedOn(ram, nfile, threads, b, n, u);
    StillLoaded(s, a, b, u, n, threads);
  }

  lemma StillLoaded(s: State, a: State, b: State, u: State, n: nat, threads: nat)
    requires Loaded(s, n, threads) && n < threads && a == s.(conns := a.conns, nextConn := a.nextConn)
    requires (forall fd :: fd in a.conns ==> fd <= n) && Alone.Ready(b, n, n) && Numbered(b)
    requires b.files == [File(Path(n), n, EMPTY, [])] + a.files && b.nfileDispo == a.nfileDispo - 1
    requires b.workers == a.workers && b.conns == a.conns && b.ramDispo == a.ramDispo && b.ramTot == a.ramTot && b.nfileTot == a.nfileTot
    requires forall id, fd: nat :: Holder(a, id, fd) ==> Holder(b, id, fd)
    requires n < |u.workers| == |b.workers| && u == SetPc(b, n, u.workers[n]) && Copies(u, u.workers[n], n)
    ensures Loaded(u, n + 1, threads)
  {
    hide NoShadow, Holder, Newest, Busy, Chunk;
    BytesOfHead(b.files);
    assert b.files[1..] == s.files;
    forall w | 0 <= w < n ensures Copies(u, u.workers[w], w) {
      assert Copies(s, s.workers[w], w);
      HeldByOthers(s, a, s.workers[w].id, w);
      HeldByOthers(b, u, s.workers[w].id, w);
    }
  }

  lemma BytesOfHead(files: seq<File>)
    requires files != []
    ensures Bytes(files) == |files[0].data| + Bytes(files[1..])
  {
  }

  lemma {:induction false} LoadAll(ram: nat, nfile: nat, threads: nat, n: nat) returns (s: State)
    requires n <= threads && threads <= nfile
    ensures Reached(ram, nfile, threads, s) && Loaded(s, n, threads) && s.ramTot == ram && s.nfileTot == nfile
  {
    hide Loaded, Reached;
    if n == 0 {
      s := Init(ram, nfile, threads);
      assert Reached(ram, nfile, threads, s) by { NothingDone(ram, nfile, threads); }
      assert Loaded(s, 0, threads) by { NothingLoaded(ram, nfile, threads); }
    } else {
      hide Init;
      s := LoadAll(ram, nfile, threads, n - 1);
      s := LoadOne(ram, nfile, threads, s, n - 1);
    }
  }

  lemma NothingDone(ram: nat, nfile: nat, threads: nat)
    ensures Reached(ram, nfile, threads, Init(ram, nfile, threads))
  {
    assert Workers.Run(Init(ram, nfile, threads), []) == Init(ram, nfile, threads);
  }

  lemma NothingLoaded(ram: nat, nfile: nat, threads: nat)
    ensures Loaded(Init(ram, nfile, threads), 0, threads)
  {
  }

  ghost predicate Copied(s: State, n: nat, threads: nat) {
    |s.workers| == threads && n <= threads && !s.fault && Numbered(s) && Committing(s, n, threads) && s.ramDispo == s.ramTot - n * s.ramTot
  }

  lemma CopyOne(s: State, n: nat, threads: nat)
    requires Copied(s, n, threads) && n < threads
    ensures Copied(Next(s, Advance(n)), n + 1, threads) && Next(s, Advance(n)).ramTot == s.ramTot
  {
    assert Copies(s, s.workers[n], n);
    var job, id := s.workers[n].job, s.workers[n].id;
    var k := IndexOf(s.ids, id);
    var t := Commit(s, n, job, k);
    assert Next(s, Advance(n)) == t;
    forall w | n + 1 <= w < threads ensures Copies(t, t.workers[w], w) {
      assert Copies(s, s.workers[w], w);
      HeldByCommit(s, n, job, k, s.workers[w].id, w);
    }
    hide Chunk, Appended, IndexOf, Holder;
    assert (n + 1) * s.ramTot == n * s.ramTot + s.ramTot;
  }

  lemma {:induction false} CopyAll(ram: nat, nfile: nat, threads: nat, s: State, n: nat) returns (t: State)
    requires Reached(ram, nfile, threads, s) && Copied(s, 0, threads) && n <= threads
    ensures Reached(ram, nfile, threads, t) && Copied(t, n, threads) && t.ramTot == s.ramTot
  {
    hide Copied, Reached, Next;
    t := s;
    if 0 < n {
      t := CopyAll(ram, nfile, threads, s, n - 1);
      CopyOne(t, n - 1, threads);
      ReachedNext(ram, nfile, threads, t, Advance(n - 1));
      t := Next(t, Advance(n - 1));
    }
  }

  // With a slot for each, T workers can leave the memory at T - 1 stores below nothing:
  // that bound is attained too.
  lemma MemoryBoundIsAttained(ram: nat, nfile: nat, threads: nat)
    requires threads <= nfile
    ensures exists es :: Workers.Run(Init(ram, nfile, threads), es).ramDispo == -((threads - 1) * ram)
  {
    hide Workers.Run, Init, Reached;
    var s := LoadAll(ram, nfile, threads, threads);
    var t := CopyAll(ram, nfile, threads, s, threads);
    var es := ReachedRun(ram, nfile, threads, t);
    assert Workers.Run(Init(ram, nfile, threads), es).ramDispo == ram - threads * ram;
    assert ram - threads * ram == -((threads - 1) * ram);
  }

  // ---------- a file passes to a stranger ----------

  // The client with descriptor fd hangs up, and another one connects on it.
  lemma Succeeds(s: State, w: nat, fd: nat) returns (u: State, t: State)
    requires Alone.Ready(s, w, fd)
    ensures u == Next(Next(s, Start(w, fd, Hangup)), Advance(w)) && t == Next(u, Connect(fd))
    ensures fd !in u.conns && fd in t.conns && t.conns[fd] == s.nextConn
    ensures t.files == u.files == s.files && t.ids == u.ids == s.ids && t.log == s.log
  {
    hide Bytes, NoShadow, Busy;
    var a := Next(s, Start(w, fd, Hangup));
    assert a == SetPc(s, w, Started(Job(fd, s.conns[fd], Hangup)));
    u := Next(a, Advance(w));
    assert u == SetPc(a, w, Idle).(conns := a.conns - {fd});
    t := Next(u, Connect(fd));
  }

  // A client creates a file and hangs up; the next one on its descriptor, another
  // connection, holds the file.
  lemma DescriptorInherits(ram: nat, nfile: nat, threads: nat)
    requires 1 <= nfile && 1 <= threads
    ensures exists es, id, conn :: var t := Workers.Run(Init(ram, nfile, threads), es);
      Holder(t, id, 0) && t.log == [Entry(id, 0, conn, Creation)] && 0 in t.conns && t.conns[0] != conn
  {
    var s := Init(ram, nfile, threads);
    NothingDone(ram, nfile, threads);
    NothingLoaded(ram, nfile, threads);
    JoinReady(s, 0, threads);
    ReachedNext(ram, nfile, threads, s, Connect(0));
    var a := Next(s, Connect(0));
    var conn := a.conns[0];
    hide Workers.Run, Next, Reached, NoShadow, Bytes, Newest, Busy, Path;
    var b := CreateOwn(a, 0);
    Alone.ReachedOn(ram, nfile, threads, a, 0, b);
    var u, t := Succeeds(b, 0, 0);
    ReachedNext(ram, nfile, threads, b, Start(0, 0, Hangup));
    ReachedNext(ram, nfile, threads, Next(b, Start(0, 0, Hangup)), Advance(0));
    ReachedNext(ram, nfile, threads, u, Connect(0));
    var es := ReachedRun(ram, nfile, threads, t);
    HeadHeld(b, t);
    assert t.log == [Entry(t.ids[0], 0, conn, Creation)];
  }

  lemma HeadHeld(b: State, t: State)
    requires t.ids == b.ids && t.files == b.files && |b.files| == |b.ids| && b.ids != [] && b.files[0].owner == 0
    ensures Holder(t, t.ids[0], 0)
  {
  }

  // ---------- one path twice ----------

  function Both(s: State, v: nat, w: nat, a: Pc, b: Pc): State
    requires v < |s.workers| && w < |s.workers|
  {
    s.(workers := s.workers[v := a][w := b])
  }

  // A section of v and one of w.
  function Round(v: nat, w: nat): seq<Event> { [Advance(v), Advance(w)] }

  lemma RoundIs(s: State, v: nat, w: nat)
    ensures Workers.Run(s, Round(v, w)) == Next(Next(s, Advance(v)), Advance(w))
  {
    Two(s, Advance(v), Advance(w));
  }

  // While two creates of one path interleave, each looks before the other inserts.
  lemma LookTogether(s: State, v: nat, w: nat, a: Job, b: Job, path: string)
    requires !s.fault && |s.files| == |s.ids| && v < |s.workers| && w < |s.workers| && v != w
    requires a.op == b.op == Ask(Open(path, Create)) && Newest(s.files, path) == |s.files|
    ensures Workers.Run(Both(s, v, w, Started(a), Started(b)), Round(v, w)) == Both(s, v, w, TestSlot(a), TestSlot(b))
  {
    var p := Both(s, v, w, Started(a), Started(b));
    RoundIs(p, v, w);
    hide Newest, Workers.Run, IndexOf, Round;
    var q := Next(p, Advance(v));
    assert q == Both(s, v, w, TestSlot(a), Started(b));
    assert Next(q, Advance(w)) == Both(s, v, w, TestSlot(a), TestSlot(b));
  }

  lemma TestTogether(s: State, v: nat, w: nat, a: Job, b: Job)
    requires !s.fault && |s.files| == |s.ids| && v < |s.workers| && w < |s.workers| && v != w && 0 < s.nfileDispo
    ensures Workers.Run(Both(s, v, w, TestSlot(a), TestSlot(b)), Round(v, w)) == Both(s, v, w, InsertNow(a), InsertNow(b))
  {
    var p := Both(s, v, w, TestSlot(a), TestSlot(b));
    RoundIs(p, v, w);
    hide Newest, Workers.Run, IndexOf, Round;
    var q := Next(p, Advance(v));
    assert q == Both(s, v, w, InsertNow(a), TestSlot(b));
    assert Next(q, Advance(w)) == Both(s, v, w, InsertNow(a), InsertNow(b));
  }

  // So both can succeed: then the path is stored twice, and with one free slot the
  // slots are overdrawn.  One request at a time, paths stay distinct.
  lemma CreatedTwice(s: State, v: nat, w: nat, a: Job, b: Job, path: string)
    requires !s.fault && |s.files| == |s.ids| && v < |s.workers| && w < |s.workers| && v != w
    requires a.op == b.op == Ask(Open(path, Create)) && Newest(s.files, path) == |s.files| && 0 < s.nfileDispo
    ensures var t := Workers.Run(Both(s, v, w, Started(a), Started(b)), Round(v, w) + Round(v, w) + Round(v, w));
      t.files == [File(path, b.fd, EMPTY, []), File(path, a.fd, EMPTY, [])] + s.files && t.nfileDispo == s.nfileDispo - 2
  {
    hide Newest, Workers.Run, Next, Round, Both;
    var p, round := Both(s, v, w, Started(a), Started(b)), Round(v, w);
    LookTogether(s, v, w, a, b, path);
    TestTogether(s, v, w, a, b);
    Join(p, round, round);
    Join(p, round + round, round);
    RoundIs(Both(s, v, w, InsertNow(a), InsertNow(b)), v, w);
    InsertBoth(s, v, w, a, b, path);
  }

  // Two clients, two workers and an empty store are all it takes.
  lemma CanCreateTwice(ram: nat, nfile: nat, threads: nat, path: string)
    requires 1 <= nfile && 2 <= threads
    ensures exists es :: var t := Workers.Run(Init(ram, nfile, threads), es);
      t.files == [File(path, 1, EMPTY, []), File(path, 0, EMPTY, [])] && t.nfileDispo == nfile - 2
  {
    var s0, op := Init(ram, nfile, threads), Ask(Open(path, Create));
    var a, b := Job(0, 0, op), Job(1, 1, op);
    var s := s0.(conns := map[0 := 0, 1 := 1], nextConn := 2);
    var start := [Connect(0), Connect(1), Start(0, 0, op), Start(1, 1, op)];
    Four(s0, Connect(0), Connect(1), Start(0, 0, op), Start(1, 1, op));
    StartBoth(s0, s, a, b);
    NewestNone(path);
    hide Workers.Run, Next, Both, Round, Newest;
    var rounds := Round(0, 1) + Round(0, 1) + Round(0, 1);
    CreatedTwice(s, 0, 1, a, b, path);
    Join(s0, start, rounds);
    var t := Workers.Run(s0, start + rounds);
    assert [File(path, 1, EMPTY, []), File(path, 0, EMPTY, [])] + [] == [File(path, 1, EMPTY, []), File(path, 0, EMPTY, [])];
    assert t.nfileDispo == nfile - 2;
  }

  lemma StartBoth(s0: State, s: State, a: Job, b: Job)
    requires 1 < |s0.workers| && (forall w :: 0 <= w < |s0.workers| ==> s0.workers[w].Idle?) && s0.conns == map[] && s0.nextConn == 0
    requires !s0.fault && |s0.files| == |s0.ids| && s == s0.(conns := map[0 := 0, 1 := 1], nextConn := 2)
    requires a == Job(0, 0, a.op) && b == Job(1, 1, b.op)
    ensures Next(Next(Next(Next(s0, Connect(0)), Connect(1)), Start(0, 0, a.op)), Start(1, 1, b.op)) == Both(s, 0, 1, Started(a), Started(b))
  {
    hide Section, Dangling;
    var c := Next(Next(s0, Connect(0)), Connect(1));
    assert c == s;
    var d := Next(c, Start(0, 0, a.op));
    assert d == s.(workers := s.workers[0 := Started(a)]);
    assert d.workers[1].Idle? && !Busy(d.workers, 1);
  }

  lemma InsertBoth(s: State, v: nat, w: nat, a: Job, b: Job, path: string)
    requires !s.fault && |s.files| == |s.ids| && v < |s.workers| && w < |s.workers| && v != w
    requires a.op == b.op == Ask(Open(path, Create))
    ensures var t := Next(Next(Both(s, v, w, InsertNow(a), InsertNow(b)), Advance(v)), Advance(w));
      t.files == [File(path, b.fd, EMPTY, []), File(path, a.fd, EMPTY, [])] + s.files && t.nfileDispo == s.nfileDispo - 2
  {
    hide Newest, Search, Serve, Commit, Walk, IndexOf, Chunk;
    var q := Both(s, v, w, InsertNow(a), InsertNow(b));
    var r := Next(q, Advance(v));
    assert r == Insert(q, v, a) && r.workers[w] == InsertNow(b);
    assert Next(r, Advance(w)) == Insert(r, w, b);
    assert [File(path, b.fd, EMPTY, [])] + ([File(path, a.fd, EMPTY, [])] + s.files)
      == [File(path, b.fd, EMPTY, []), File(path, a.fd, EMPTY, [])] + s.files;
  }
}
