// What each request promises its client, told from owners, marks, paths and bytes: who
// is answered, which files may go, and what stays as it was.
module Promises {
  import opened Files
  import opened Service
  import Wire
  import M = Messages
  import opened Reports

  // ---------- where files come from ----------

  // A stored file as one request may leave it: as it was, or changed for the client
  // that is entitled to it.
  predicate Becomes(f: File, g: File, fd: nat, r: Request) {
    || g == f
    || (r.Open? && r.path <= f.path && f.owner == CLOSED && g == f.(owner := fd))
    || (r.Append? && r.path <= f.path && f.owner == fd && g == f.(data := f.data + r.chunk, modified := FILLED))
    || (r.Close? && r.path <= f.path && f.owner == fd && g == f.(owner := CLOSED))
    || (r.ReadN? && f.modified != EMPTY && g == f.(owner := CLOSED))
  }

  // Every stored file is one of those before, or the one just created.
  ghost predicate ComesFrom(files: seq<File>, g: File, fd: nat, r: Request) {
    (exists f :: f in files && Becomes(f, g, fd, r)) || (r == Open(g.path, Create) && g == File(g.path, fd, EMPTY, []))
  }

  lemma Stays(files: seq<File>, g: File, fd: nat, r: Request)
    requires g in files
    ensures ComesFrom(files, g, fd, r)
  {
    assert Becomes(g, g, fd, r);
  }

  lemma OpenComes(s: Store, fd: nat, path: string, flag: Flag, i: nat)
    requires i < |HandleOpen(s, fd, path, flag).0.files|
    ensures ComesFrom(s.files, HandleOpen(s, fd, path, flag).0.files[i], fd, Open(path, flag))
  {
    EvictedFrom(s, Slot);
    hide Evict, Seen, Victims, Newest, Fits, Told;
    var k, e, t := Newest(s.files, path), Evicting(s, Slot), HandleOpen(s, fd, path, flag).0;
    var g, r := t.files[i], Open(path, flag);
    if k == |s.files| && flag == Create {
      if Fits(s, Slot) && i == 0 {
        assert g == File(path, fd, EMPTY, []);
      } else {
        assert g in e.files;
        Stays(s.files, g, fd, r);
      }
    } else {
      assert s.files[i] in s.files && Becomes(s.files[i], g, fd, r);
    }
  }

  lemma AppendComes(s: Store, fd: nat, path: string, chunk: seq<Byte>, i: nat)
    requires i < |HandleAppend(s, fd, path, chunk).0.files|
    ensures ComesFrom(s.files, HandleAppend(s, fd, path, chunk).0.files[i], fd, Append(path, chunk))
  {
    var k, goal, r := Newest(s.files, path), Room(|chunk|), Append(path, chunk);
    EvictedFrom(s, goal);
    hide Evict, Seen, Victims, Newest, Fits, Told, Swap, Bytes, TooBig;
    var e, t := Evicting(s, goal), HandleAppend(s, fd, path, chunk).0;
    var g := t.files[i];
    if k < |s.files| && s.files[k].owner == fd && !TooBig(s.ramTot, s.files[k], chunk) {
      assert e.files[i] in e.files;
      assert Becomes(e.files[i], g, fd, r);
    } else {
      assert g in s.files;
      Stays(s.files, g, fd, r);
    }
  }

  lemma ReadNComes(s: Store, fd: nat, n: nat, i: nat)
    requires i < |HandleReadN(s, n).0.files|
    ensures ComesFrom(s.files, HandleReadN(s, n).0.files[i], fd, ReadN(n))
  {
    ShutOne(s.files, Wanted(s, n), i);
    hide Shut, Sent;
    assert Becomes(s.files[i], HandleReadN(s, n).0.files[i], fd, ReadN(n));
  }

  lemma {:induction false} ShutOne(files: seq<File>, n: nat, i: nat)
    requires i < |files|
    ensures Shut(files, n)[i] == files[i] || (files[i].modified != EMPTY && Shut(files, n)[i] == files[i].(owner := CLOSED))
  {
    if n != 0 && 0 < i { ShutOne(files[1..], if files[0].modified == EMPTY then n else n - 1, i - 1); }
  }

  // No request changes a file but the one it names, for its holder, and no bytes but
  // those it appends; a readN closes written files.
  lemma FilesComeFrom(s: Store, fd: nat, r: Request)
    ensures forall g :: g in Answer(s, fd, r).0.files ==> ComesFrom(s.files, g, fd, r)
  {
    var t := Answer(s, fd, r).0;
    hide HandleOpen, HandleAppend, HandleReadN, Newest, ComesFrom;
    forall i | 0 <= i < |t.files| ensures ComesFrom(s.files, t.files[i], fd, r) {
      match r {
        case Open(path, flag) => OpenComes(s, fd, path, flag, i);
        case Append(path, chunk) => AppendComes(s, fd, path, chunk, i);
        case ReadN(n) => ReadNComes(s, fd, n, i);
        case Close(path) => CloseComes(s, fd, path, i);
        case Read(_) => Stays(s.files, t.files[i], fd, r);
      }
    }
  }

  lemma CloseComes(s: Store, fd: nat, path: string, i: nat)
    requires i < |HandleClose(s, fd, path).0.files|
    ensures ComesFrom(s.files, HandleClose(s, fd, path).0.files[i], fd, Close(path))
  {
    hide Newest;
    assert Becomes(s.files[i], HandleClose(s, fd, path).0.files[i], fd, Close(path));
  }

  // A file that was never written is marked so and empty; any other is marked written.
  ghost predicate Marked(files: seq<File>) {
    forall f :: f in files ==> f.modified == FILLED || (f.modified == EMPTY && f.data == [])
  }

  lemma {:induction false} RunIsMarked(ram: nat, nfile: nat, calls: seq<Call>)
    ensures Marked(Run(Fresh(ram, nfile), calls).files)
  {
    if calls != [] {
      var before, c := calls[..|calls| - 1], calls[|calls| - 1];
      RunIsMarked(ram, nfile, before);
      FilesComeFrom(Run(Fresh(ram, nfile), before), c.fd, c.request);
      hide Answer, Bytes;
    }
  }

  // ---------- which files may go ----------

  // A file that is open or was never written is still there after any request, but for
  // its holder's own first append that is larger than the store.
  lemma OnlyClosedAndWrittenGo(s: Store, fd: nat, r: Request, f: File)
    requires NoShadow(s.files) && f in s.files && (f.owner != CLOSED || f.modified == EMPTY)
    ensures Has(Answer(s, fd, r).0.files, f.path) <==>
      !(r.Append? && Owns(s, fd, r.path) && s.files[Newest(s.files, r.path)] == f && s.ramTot < |r.chunk| && f.modified == EMPTY)
  {
    LostIsMissing(s, fd, r, f);
    if f.path in Lost(s, fd, r) {
      NotEvicted(s.files, Stop(Slot, s.files, ShortOf(s, Slot)), f);
      if r.Append? {
        NotEvicted(s.files, Stop(Room(|r.chunk|), s.files, ShortOf(s, Room(|r.chunk|))), f);
        var k := Newest(s.files, r.path);
        if k < |s.files| && s.files[k].path == f.path { OnePath(s.files, f, s.files[k]); }
      }
    }
    hide NoShadow, Answer, Has, M.Gone, Stop, Newest;
  }

  // No eviction reports it.
  lemma NotEvicted(files: seq<File>, cut: nat, f: File)
    requires NoShadow(files) && cut <= |files| && f in files && (f.owner != CLOSED || f.modified == EMPTY)
    ensures f.path !in M.Gone(files[cut..])
  {
    hide NoShadow, M.Gone;
    M.GonePaths(files[cut..]);
    if g :| g in files[cut..] && Evictable(g) && g.path == f.path { OnePath(files, f, g); }
  }

  // ---------- when there is room ----------

  // Files that are open or were never written, and the bytes of open files.
  function Staying(files: seq<File>): nat {
    if files == [] then 0
    else Staying(files[1..]) + if files[0].owner != CLOSED || files[0].modified == EMPTY then 1 else 0
  }

  function OpenBytes(files: seq<File>): nat {
    if files == [] then 0 else OpenBytes(files[1..]) + if files[0].owner != CLOSED then |files[0].data| else 0
  }

  lemma {:induction false} RoomByMarks(files: seq<File>, size: nat)
    requires Marked(files)
    ensures Freed(Slot, files) == |files| - Staying(files)
    ensures Freed(Room(size), files) == Bytes(files) - OpenBytes(files)
  {
    if files != [] {
      assert files[0] in files && forall f :: f in files[1..] ==> f in files;
      RoomByMarks(files[1..], size);
    }
  }

  lemma {:induction false} StayingFew(files: seq<File>)
    requires Marked(files)
    ensures Staying(files) < |files| <==> exists f :: f in files && f.owner == CLOSED && f.modified == FILLED
    ensures Staying(files) <= |files|
  {
    if files != [] {
      assert files[0] in files && forall f :: f in files <==> f == files[0] || f in files[1..];
      StayingFew(files[1..]);
    }
  }

  // A create succeeds exactly for a new path while the files that are open or were never
  // written leave a slot: on a full store, while some file is closed and written.
  lemma CreateSucceedsIff(s: Store, fd: nat, path: string)
    requires Marked(s.files) && |s.files| <= s.nfileTot
    ensures HandleOpen(s, fd, path, Create).1.Success? <==> Newest(s.files, path) == |s.files| && Staying(s.files) < s.nfileTot
    ensures |s.files| == s.nfileTot ==> (HandleOpen(s, fd, path, Create).1.Success? <==>
      Newest(s.files, path) == |s.files| && exists f :: f in s.files && f.owner == CLOSED && f.modified == FILLED)
  {
    RoomByMarks(s.files, 0);
    StayingFew(s.files);
    hide Newest, Evict, Seen, Notice, Victims, Freed, Marked;
  }

  // An append succeeds exactly for the file's holder while the open files, its own with
  // the chunk, fit the store.
  lemma AppendSucceedsIff(s: Store, fd: nat, path: string, chunk: seq<Byte>)
    requires Marked(s.files)
    ensures HandleAppend(s, fd, path, chunk).1.Success? <==> Owns(s, fd, path) && OpenBytes(s.files) + |chunk| <= s.ramTot
  {
    RoomByMarks(s.files, |chunk|);
    AppendFails(s, fd, path, chunk);
    hide Newest, HandleAppend, Freed, Marked, Bytes, OpenBytes;
  }

  // ---------- opening ----------

  // The path's file after an open that succeeds: the one found, with its bytes, or a new
  // one; it is the client's, and a read by the client finds it.  An open that fails changes
  // nothing: a create without a slot finds no file to evict.
  lemma OpenGrants(s: Store, fd: nat, path: string, flag: Flag)
    ensures var (t, reply) := HandleOpen(s, fd, path, flag);
      var k := Newest(s.files, path);
      && (reply.Success? && k == |s.files| ==> HandleRead(t, fd, path).1 == Content(path, []))
      && (reply.Success? && k < |s.files| ==> HandleRead(t, fd, path).1 == Content(s.files[k].path, s.files[k].data))
      && (flag == OpenExisting ==> (reply.Success? <==> k < |s.files| && s.files[k].owner == CLOSED))
      && (flag == Create && k < |s.files| ==> reply == Failure)
      && (reply == Failure && (|s.files| <= s.nfileTot || flag == OpenExisting || k < |s.files|) ==> t == s)
      && (reply.Success? || reply == Failure)
  {
    var (t, reply) := HandleOpen(s, fd, path, flag);
    var k := Newest(s.files, path);
    hide Evict, Seen, Victims, Notice, Freed;
    if reply.Success? { NewestIs(t.files, path, if k == |s.files| then 0 else k); }
    if reply == Failure && |s.files| <= s.nfileTot && flag == Create && k == |s.files| {
      NoVictims(s.files);
      NothingGoes(s, fd, path);
    }
    hide Newest;
  }

  // ---------- reading and closing ----------

  // What is read is a stored file that the reader holds, so no two clients are ever sent
  // the file of one path; every other read is refused.
  lemma OneReader(s: Store, fd: nat, gd: nat, path: string)
    ensures HandleRead(s, fd, path).1.Content? && HandleRead(s, gd, path).1.Content? ==> fd == gd
    ensures HandleRead(s, fd, path).0 == s && (HandleRead(s, fd, path).1.Content? || HandleRead(s, fd, path).1 == Failure)
    ensures var r := HandleRead(s, fd, path).1;
      r.Content? ==> exists f :: f in s.files && f.owner == fd && path <= f.path && r == Content(f.path, f.data)
  {
    hide Newest;
    if HandleRead(s, fd, path).1.Content? { assert s.files[Newest(s.files, path)] in s.files; }
  }

  // A close succeeds exactly for the client that could read the file; then any client may
  // open it and nobody can close it again.  Any other close is refused and changes nothing.
  lemma CloseFrees(s: Store, fd: nat, gd: nat, path: string)
    ensures var (t, reply) := HandleClose(s, fd, path);
      && (reply == Success("") || reply == Failure)
      && (reply.Success? <==> HandleRead(s, fd, path).1.Content?)
      && (reply == Failure ==> t == s)
      && (reply.Success? ==> HandleOpen(t, gd, path, OpenExisting).1.Success?)
      && (reply.Success? ==> HandleClose(t, gd, path) == (t, Failure) && HandleRead(t, gd, path).1 == Failure)
      && (reply.Success? && gd != fd ==> HandleClose(s, gd, path) == (s, Failure))
  {
    var (t, reply) := HandleClose(s, fd, path);
    hide Evict, Seen, Victims, Notice, Freed;
    if reply.Success? { NewestIs(t.files, path, Newest(s.files, path)); }
    hide Newest;
  }

  // ---------- from an open to its release ----------

  // The file of that path is stored and held by fd.
  ghost predicate HeldBy(files: seq<File>, path: string, fd: nat) {
    exists f :: f in files && f.path == path && f.owner == fd
  }

  // A lookup of p finds it.
  predicate Finds(s: Store, p: string, path: string) {
    Newest(s.files, p) < |s.files| && s.files[Newest(s.files, p)].path == path
  }

  // The requests that take it from its holder: the holder's close, the holder's first
  // append if larger than the store, and a readN that sends it.
  ghost predicate Frees(s: Store, c: Call, path: string, fd: nat) {
    match c.request
    case Close(p) => c.fd == fd && Finds(s, p, path)
    case Append(p, chunk) => c.fd == fd && Finds(s, p, path) && s.ramTot < |chunk| && s.files[Newest(s.files, p)].modified == EMPTY
    case ReadN(n) => Has(Sent(s.files, Wanted(s, n)), path)
    case _ => false
  }

  // The file of a path before and after a request is the same one.
  lemma HeldFrom(s: Store, fd: nat, r: Request, f: File, g: File)
    requires NoShadow(s.files) && f in s.files && g in Answer(s, fd, r).0.files && g.path == f.path
    ensures Becomes(f, g, fd, r)
  {
    FilesComeFrom(s, fd, r);
    assert r.Open? ==> Answer(s, fd, r) == HandleOpen(s, fd, r.path, r.flag);
    hide Answer, NoShadow;
    if e :| e in s.files && Becomes(e, g, fd, r) {
      OnePath(s.files, e, f);
    } else {
      StoredIsFound(s.files, f);
      OpenGrants(s, fd, g.path, Create);
      OnePath(s.files, g, f);
    }
  }

  // A stored path is found, so no create can make another file of it.
  lemma StoredIsFound(files: seq<File>, f: File)
    requires f in files
    ensures Newest(files, f.path) < |files|
  {
    hide Newest;
    var i :| 0 <= i < |files| && files[i] == f;
  }

  // The file found for a holder is the file that is looked for.
  lemma FoundIs(s: Store, p: string, f: File)
    requires NoShadow(s.files) && f in s.files && Newest(s.files, p) < |s.files|
    ensures s.files[Newest(s.files, p)] == f <==> Finds(s, p, f.path)
  {
    hide NoShadow, Newest;
    if Finds(s, p, f.path) { OnePath(s.files, s.files[Newest(s.files, p)], f); }
  }

  // Request by request, a held file stays held exactly until one of these.
  lemma HeldUntilFreed(s: Store, c: Call, path: string, fd: nat)
    requires NoShadow(s.files) && HeldBy(s.files, path, fd)
    ensures HeldBy(Answer(s, c.fd, c.request).0.files, path, fd) <==> !Frees(s, c, path, fd)
  {
    var f :| f in s.files && f.path == path && f.owner == fd;
    hide NoShadow, Answer, Newest;
    OnlyClosedAndWrittenGo(s, c.fd, c.request, f);
    match c.request {
      case Close(p) => HeldByClose(s, c.fd, p, f, fd);
      case Append(p, chunk) => HeldByAppend(s, c.fd, p, chunk, f, fd);
      case ReadN(n) => HeldByReadN(s, c.fd, n, f, fd);
      case _ => HeldByOther(s, c.fd, c.request, f, fd);
    }
  }

  lemma HeldByOther(s: Store, gd: nat, r: Request, f: File, fd: nat)
    requires NoShadow(s.files) && f in s.files && f.owner == fd && (r.Open? || r.Read?)
    ensures HeldBy(Answer(s, gd, r).0.files, f.path, fd)
  {
    OnlyClosedAndWrittenGo(s, gd, r, f);
    hide Answer, NoShadow, Newest;
    var g :| g in Answer(s, gd, r).0.files && g.path == f.path;
    HeldFrom(s, gd, r, f, g);
  }

  lemma HeldByClose(s: Store, gd: nat, p: string, f: File, fd: nat)
    requires NoShadow(s.files) && f in s.files && f.owner == fd
    ensures HeldBy(Answer(s, gd, Close(p)).0.files, f.path, fd) <==> !(gd == fd && Finds(s, p, f.path))
  {
    var k := Newest(s.files, p);
    hide NoShadow, Newest;
    var i :| 0 <= i < |s.files| && s.files[i] == f;
    var t := Answer(s, gd, Close(p)).0;
    if k < |s.files| { FoundIs(s, p, f); }
    if gd == fd && Finds(s, p, f.path) {
      forall g | g in t.files && g.path == f.path ensures g.owner != fd {
        var j :| 0 <= j < |t.files| && t.files[j] == g;
        if j != k { OnePath(s.files, s.files[j], f); SameIndex(s.files, j, k); }
      }
    } else {
      assert t.files[i] == f;
    }
  }

  lemma SameIndex(files: seq<File>, i: nat, j: nat)
    requires NoShadow(files) && i < |files| && j < |files| && files[i].path == files[j].path
    ensures i == j
  {
    hide NoShadow;
    if i < j { NoShadowAt(files, i, j); }
    if j < i { NoShadowAt(files, j, i); }
  }

  lemma HeldByAppend(s: Store, gd: nat, p: string, chunk: seq<Byte>, f: File, fd: nat)
    requires NoShadow(s.files) && f in s.files && f.owner == fd
    ensures HeldBy(Answer(s, gd, Append(p, chunk)).0.files, f.path, fd) <==> !Frees(s, Call(gd, Append(p, chunk)), f.path, fd)
  {
    var r := Append(p, chunk);
    OnlyClosedAndWrittenGo(s, gd, r, f);
    if Newest(s.files, p) < |s.files| { FoundIs(s, p, f); }
    hide Answer, NoShadow, Newest;
    var t := Answer(s, gd, r).0;
    if Has(t.files, f.path) {
      var g :| g in t.files && g.path == f.path;
      HeldFrom(s, gd, r, f, g);
    }
  }

  lemma HeldByReadN(s: Store, gd: nat, n: nat, f: File, fd: nat)
    requires NoShadow(s.files) && f in s.files && f.owner == fd
    ensures HeldBy(Answer(s, gd, ReadN(n)).0.files, f.path, fd) <==> !Has(Sent(s.files, Wanted(s, n)), f.path)
  {
    hide NoShadow, Sent, Shut;
    var i :| 0 <= i < |s.files| && s.files[i] == f;
    var m := Wanted(s, n);
    var at := SentInOrder(s.files, m);
    var t := Answer(s, gd, ReadN(n)).0;
    assert t.files == Shut(s.files, m);
    if i in at {
      var j :| 0 <= j < |at| && at[j] == i;
      assert Sent(s.files, m)[j] in Sent(s.files, m);
      forall g | g in t.files && g.path == f.path ensures g.owner != fd {
        var l :| 0 <= l < |t.files| && t.files[l] == g;
        SameIndex(s.files, l, i);
      }
    } else {
      assert t.files[i] == f;
      if e :| e in Sent(s.files, m) && e.path == f.path {
        var j :| 0 <= j < |at| && s.files[at[j]] == e;
        SameIndex(s.files, at[j], i);
      }
    }
  }

  // ---------- over runs ----------

  // The store after `before` and the first i requests of `after`.
  function Later(ram: nat, nfile: nat, before: seq<Call>, after: seq<Call>, i: nat): Store
    requires i <= |after|
  {
    Run(Fresh(ram, nfile), before + after[..i])
  }

  lemma LaterNext(ram: nat, nfile: nat, before: seq<Call>, after: seq<Call>, i: nat)
    requires i < |after|
    ensures var s := Later(ram, nfile, before, after, i);
      NoShadow(s.files) && Later(ram, nfile, before, after, i + 1).files == Answer(s, after[i].fd, after[i].request).0.files
  {
    assert before + after[..i + 1] == (before + after[..i]) + [after[i]];
    RunSnoc(Fresh(ram, nfile), before + after[..i], after[i]);
    RunIsGood(ram, nfile, before + after[..i]);
    hide Run, Answer, NoShadow;
  }

  lemma {:induction false} HeldFor(ram: nat, nfile: nat, before: seq<Call>, after: seq<Call>, n: nat, path: string, fd: nat)
    requires n <= |after| && HeldBy(Later(ram, nfile, before, after, 0).files, path, fd)
    ensures (forall i :: 0 <= i <= n ==> HeldBy(Later(ram, nfile, before, after, i).files, path, fd)) <==>
      (forall i :: 0 <= i < n ==> !Frees(Later(ram, nfile, before, after, i), after[i], path, fd))
  {
    hide Later, HeldBy, Frees, Answer, NoShadow;
    if 0 < n {
      HeldFor(ram, nfile, before, after, n - 1, path, fd);
      LaterNext(ram, nfile, before, after, n - 1);
      var s := Later(ram, nfile, before, after, n - 1);
      if HeldBy(s.files, path, fd) { HeldUntilFreed(s, after[n - 1], path, fd); }
    }
  }

  // While it is held, every other client's read, close, append and open that finds the
  // file is refused.
  lemma OthersRefused(s: Store, path: string, fd: nat, gd: nat, p: string, chunk: seq<Byte>)
    requires NoShadow(s.files) && HeldBy(s.files, path, fd) && gd != fd && Finds(s, p, path)
    ensures HandleRead(s, gd, p) == (s, Failure) && HandleClose(s, gd, p) == (s, Failure)
    ensures HandleOpen(s, gd, p, OpenExisting) == (s, Failure) && HandleOpen(s, gd, p, Create) == (s, Failure)
    ensures HandleAppend(s, gd, p, chunk) == (Measured(s), Failure)
  {
    hide NoShadow, Newest, Measured;
    var f :| f in s.files && f.path == path && f.owner == fd;
    FoundIs(s, p, f);
  }

  // Client gd is kept from the file of that path, whatever path p it asks by.
  ghost predicate KeptOut(s: Store, path: string, gd: nat, p: string) {
    && !(HandleRead(s, gd, p).1.Content? && HandleRead(s, gd, p).1.path == path)
    && (Finds(s, p, path) ==>
          HandleClose(s, gd, p) == (s, Failure) && HandleOpen(s, gd, p, OpenExisting) == (s, Failure)
          && forall chunk :: HandleAppend(s, gd, p, chunk) == (Measured(s), Failure))
  }

  lemma OthersKeptOut(s: Store, path: string, fd: nat, gd: nat, p: string)
    requires NoShadow(s.files) && HeldBy(s.files, path, fd) && gd != fd
    ensures KeptOut(s, path, gd, p)
  {
    if Finds(s, p, path) {
      forall chunk ensures HandleAppend(s, gd, p, chunk) == (Measured(s), Failure) { OthersRefused(s, path, fd, gd, p, chunk); }
      OthersRefused(s, path, fd, gd, p, []);
    }
    hide NoShadow, Newest, HeldBy, HandleOpen, HandleClose, HandleAppend;
  }

  // The file an open or create is about.
  function PathOf(s: Store, p: string): string {
    if Newest(s.files, p) < |s.files| then s.files[Newest(s.files, p)].path else p
  }

  lemma OpenHolds(s: Store, fd: nat, p: string, flag: Flag)
    requires HandleOpen(s, fd, p, flag).1.Success?
    ensures HeldBy(Handle(s, fd, Open(p, flag)).0.files, PathOf(s, p), fd)
  {
    var t := HandleOpen(s, fd, p, flag).0;
    OpenGrants(s, fd, p, flag);
    OneReader(t, fd, fd, p);
    assert Handle(s, fd, Open(p, flag)).0.files == t.files;
    hide HandleOpen, HandleRead, Newest;
  }

  // From a successful open or create on, as long as no request takes the file from its
  // holder, it is the holder's and every other client is kept out; and it is held after
  // every request exactly when none takes it.
  lemma HeldSinceOpen(ram: nat, nfile: nat, before: seq<Call>, c: Call, after: seq<Call>)
    requires c.request.Open? && HandleOpen(Run(Fresh(ram, nfile), before), c.fd, c.request.path, c.request.flag).1.Success?
    ensures var path := PathOf(Run(Fresh(ram, nfile), before), c.request.path);
      && ((forall i :: 0 <= i <= |after| ==> HeldBy(Later(ram, nfile, before + [c], after, i).files, path, c.fd)) <==>
          (forall i :: 0 <= i < |after| ==> !Frees(Later(ram, nfile, before + [c], after, i), after[i], path, c.fd)))
      && ((forall i :: 0 <= i < |after| ==> !Frees(Later(ram, nfile, before + [c], after, i), after[i], path, c.fd)) ==>
          forall gd: nat, p :: gd != c.fd ==> KeptOut(Later(ram, nfile, before + [c], after, |after|), path, gd, p))
  {
    var s := Run(Fresh(ram, nfile), before);
    var path := PathOf(s, c.request.path);
    hide Handle, HandleOpen, HeldBy, Frees, NoShadow, Newest, Later, PathOf, KeptOut;
    OpenHolds(s, c.fd, c.request.path, c.request.flag);
    RunSnoc(Fresh(ram, nfile), before, c);
    LaterStart(ram, nfile, before + [c], after);
    HeldFor(ram, nfile, before + [c], after, |after|, path, c.fd);
    var t := Later(ram, nfile, before + [c], after, |after|);
    if HeldBy(t.files, path, c.fd) {
      LaterIsGood(ram, nfile, before + [c], after);
      forall gd: nat, p | gd != c.fd ensures KeptOut(t, path, gd, p) { OthersKeptOut(t, path, c.fd, gd, p); }
    }
  }

  lemma LaterStart(ram: nat, nfile: nat, before: seq<Call>, after: seq<Call>)
    ensures Later(ram, nfile, before, after, 0) == Run(Fresh(ram, nfile), before)
  {
    assert before + after[..0] == before;
  }

  lemma LaterIsGood(ram: nat, nfile: nat, before: seq<Call>, after: seq<Call>)
    ensures NoShadow(Later(ram, nfile, before, after, |after|).files)
  {
    RunIsGood(ram, nfile, before + after[..|after|]);
  }

  // ---------- reading n files ----------

  // `at` says which of the files are sent, in this order: each is written ...
  ghost predicate Stands(files: seq<File>, sent: seq<File>, at: seq<nat>) {
    && |at| == |sent| && (forall i :: 0 <= i < |at| ==> at[i] < |files| && sent[i] == files[at[i]] && sent[i].modified != EMPTY)
    && (forall i, j :: 0 <= i < j < |at| ==> at[i] < at[j])
  }

  // ... and none is left out before the last one sent, or at all if fewer than n are.
  ghost predicate First(files: seq<File>, n: nat, at: seq<nat>) {
    && |at| <= n
    && forall k :: 0 <= k < |files| && files[k].modified != EMPTY && k !in at ==> |at| == n && forall i :: 0 <= i < n ==> at[i] < k
  }

  ghost predicate Closes(files: seq<File>, now: seq<File>, at: seq<nat>) {
    |now| == |files| && forall k :: 0 <= k < |files| ==> now[k] == if k in at then files[k].(owner := CLOSED) else files[k]
  }

  // The files sent are the first n of the written ones, newest first, as they are stored,
  // and exactly they are closed.
  lemma {:induction false} SentInOrder(files: seq<File>, n: nat) returns (at: seq<nat>)
    ensures Stands(files, Sent(files, n), at) && First(files, n, at) && Closes(files, Shut(files, n), at)
  {
    at := [];
    if files != [] && n != 0 {
      var sent := files[0].modified != EMPTY;
      var later := SentInOrder(files[1..], if sent then n - 1 else n);
      at := (if sent then [0] else []) + M.Shifted(later);
      hide Stands, First, Closes;
      OneMoreStands(files, n, later, at);
      OneMoreFirst(files, n, later, at);
      OneMoreCloses(files, n, later, at);
    }
  }

  lemma OneMoreStands(files: seq<File>, n: nat, later: seq<nat>, at: seq<nat>)
    requires files != [] && n != 0 && at == (if files[0].modified != EMPTY then [0] else []) + M.Shifted(later)
    requires Stands(files[1..], Sent(files[1..], if files[0].modified != EMPTY then n - 1 else n), later)
    ensures Stands(files, Sent(files, n), at)
  {
    hide M.Shifted;
  }

  lemma OneMoreFirst(files: seq<File>, n: nat, later: seq<nat>, at: seq<nat>)
    requires files != [] && n != 0 && at == (if files[0].modified != EMPTY then [0] else []) + M.Shifted(later)
    requires First(files[1..], if files[0].modified != EMPTY then n - 1 else n, later)
    ensures First(files, n, at)
  {
    hide M.Shifted;
    var written := files[0].modified != EMPTY;
    forall k | 0 <= k < |files| && files[k].modified != EMPTY && k !in at
      ensures |at| == n && forall i :: 0 <= i < n ==> at[i] < k
    {
      assert written ==> at[0] == 0;
      M.ShiftedIn(later, k);
      assert k in M.Shifted(later) ==> k in at;
      assert files[1..][k - 1] == files[k];
    }
  }

  lemma OneMoreCloses(files: seq<File>, n: nat, later: seq<nat>, at: seq<nat>)
    requires files != [] && n != 0 && at == (if files[0].modified != EMPTY then [0] else []) + M.Shifted(later)
    requires Closes(files[1..], Shut(files[1..], if files[0].modified != EMPTY then n - 1 else n), later)
    ensures Closes(files, Shut(files, n), at)
  {
    hide M.Shifted;
    forall k | 0 < k < |files| ensures Shut(files, n)[k] == if k in at then files[k].(owner := CLOSED) else files[k] {
      M.ShiftedIn(later, k);
      assert files[1..][k - 1] == files[k];
    }
    assert 0 in at <==> files[0].modified != EMPTY;
  }

  // The batch ends well exactly when a file is sent: one is written, and for n = 0 a slot
  // is free.
  lemma BatchEndsWell(s: Store, n: nat)
    requires |s.files| <= s.nfileTot
    ensures var reply := HandleReadN(s, n).1;
      && reply.Batch? && (reply.status <==> reply.sent != [])
      && (reply.status <==> (exists f :: f in s.files && f.modified != EMPTY) && (0 < n || |s.files| < s.nfileTot))
  {
    SentCount(s.files, Wanted(s, n));
    SomeWritten(s.files);
    hide Sent, Shut, Written;
  }

  lemma {:induction false} SomeWritten(files: seq<File>)
    ensures 0 < Written(files) <==> exists f :: f in files && f.modified != EMPTY
  {
    if files != [] {
      SomeWritten(files[1..]);
      assert forall f :: f in files <==> f == files[0] || f in files[1..];
    }
  }

  function Items(files: seq<File>): (items: seq<M.Item>)
    ensures |items| == |files| && forall i :: 0 <= i < |files| ==> items[i] == M.Item(files[i].path, files[i].data)
  {
    if files == [] then [] else [M.Item(files[0].path, files[0].data)] + Items(files[1..])
  }

  // What the client of readNFiles makes of it, whatever its reads do, if they come to an
  // end: the files sent, and 0 exactly if it has got one.
  method ReadBatch(ghost s: Store, ghost n: nat, stream: seq<Byte>, calls: seq<Wire.Io>, ghost rest: seq<Byte>)
    returns (r: Wire.Result, got: seq<M.Item>, result: int, left: seq<Byte>)
    requires |s.files| <= s.nfileTot && M.AllFit(Items(HandleReadN(s, n).1.sent))
    requires stream <= M.Batch(Items(HandleReadN(s, n).1.sent), HandleReadN(s, n).1.status) + rest
    ensures r == Wire.Done ==> got == Items(HandleReadN(s, n).1.sent) && (result == 0 || result == -1) && (result == 0 <==> got != [])
    ensures r == Wire.Done ==>
      (result == 0 <==> (exists f :: f in s.files && f.modified != EMPTY) && (0 < n || |s.files| < s.nfileTot))
    ensures r == Wire.Done ==> left <= rest
  {
    BatchEndsWell(s, n);
    hide M.AllFit, M.Batch, HandleReadN;
    r, got, result, left := M.ReadNFiles(stream, calls, Items(HandleReadN(s, n).1.sent), HandleReadN(s, n).1.status, rest);
  }

  // ---------- a store full of files never written ----------

  // Client fd creates a file on a store of one slot and closes it, and another client's
  // create is refused: the file was never written, so it stays.
  lemma NeverWrittenStays(ram: nat, fd: nat, gd: nat, p: string, q: string)
    requires Apart(q, p)
    ensures var s := Run(Fresh(ram, 1), [Call(fd, Open(p, Create)), Call(fd, Close(p))]);
      s.files == [File(p, CLOSED, EMPTY, [])] && HandleOpen(s, gd, q, Create) == (s, Failure)
  {
    var c, d := Call(fd, Open(p, Create)), Call(fd, Close(p));
    CreatedOne(ram, 1, fd, p);
    RunSnoc(Fresh(ram, 1), [c], d);
    assert [c] + [d] == [c, d];
    ApartMeans(q, p);
    HandleKeepsTotals(Run(Fresh(ram, 1), [c]), fd, d.request);
    hide Run, Fresh, HandleOpen, HandleAppend, Apart;
    var s := Run(Fresh(ram, 1), [c, d]);
    NewestFirst(Run(Fresh(ram, 1), [c]).files, p);
    assert s.files == [File(p, CLOSED, EMPTY, [])];
    assert s.files[1..] == [] && Newest(s.files, q) == 1;
    NothingGoes(s, gd, q);
  }

  // A create on a store full of files that may not go changes nothing.
  lemma NothingGoes(s: Store, fd: nat, path: string)
    requires Newest(s.files, path) == |s.files| == s.nfileTot
    requires forall f :: f in s.files ==> f.owner != CLOSED || f.modified != FILLED
    ensures HandleOpen(s, fd, path, Create) == (s, Failure)
  {
    NothingToEvict(Slot, s.files);
    hide Newest, Victims, Notice, Freed, Kept;
    AllGone(s, Slot);
    var cut := Stop(Slot, s.files, ShortOf(s, Slot));
    assert s.files[cut..] == s.files && cut == 0 && s.files[..0] + s.files == s.files;
  }
}
