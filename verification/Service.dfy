// What the server's request handlers do to the stored files and the statistics,
// one request at a time, and what every run of them keeps.
module Service {
  import opened Files

  // The two flags of openFile.
  datatype Flag = OpenExisting | Create

  datatype Request =
    | Open(path: string, flag: Flag)
    | Read(path: string)
    | ReadN(n: nat)
    | Append(path: string, chunk: seq<Byte>)
    | Close(path: string)

  datatype Reply =
    | Failure                                         // "-1"
    | Success(evicted: string)                        // "0" and the evicted paths
    | Content(path: string, data: seq<Byte>)          // "1,path,size" and the bytes
    | Batch(sent: seq<File>, status: bool)            // one Content a file, then "0" or "-1"

  // The storage, the counters of statistics_t, and two ghosts of history: how many
  // files were ever created, and the largest number of bytes ever held.
  datatype Store = Store(files: seq<File>, nfileTot: nat, ramTot: nat,
                         removed: nat, maxMem: nat, created: nat, peak: nat)

  // searchFileNode: the newest file whose path starts with the query, or |files|.
  function Newest(files: seq<File>, path: string): (k: nat)
    ensures k <= |files|
    ensures k < |files| ==> path <= files[k].path
    ensures forall i :: 0 <= i < k ==> !(path <= files[i].path)
  {
    if files == [] || path <= files[0].path then 0 else 1 + Newest(files[1..], path)
  }

  lemma {:induction false} NewestIs(files: seq<File>, path: string, k: nat)
    requires k <= |files| && (k < |files| ==> path <= files[k].path)
    requires forall i :: 0 <= i < k ==> !(path <= files[i].path)
    ensures k == Newest(files, path)
  {
    if 0 < k {
      NewestIs(files[1..], path, k - 1);
    }
  }

  function ShortOf(s: Store, goal: Goal): int {
    Short(goal, s.nfileTot, s.ramTot, s.files)
  }

  // The store after an eviction.
  function Evicting(s: Store, goal: Goal): Store {
    s.(files := Evict(goal, s.files, ShortOf(s, goal)),
       removed := s.removed + Victims(Seen(goal, s.files, ShortOf(s, goal))))
  }

  lemma SeenBound(s: Store, goal: Goal)
    ensures |Seen(goal, s.files, ShortOf(s, goal))| <= |s.files|
  {
  }

  function Fits(s: Store, goal: Goal): bool {
    ShortOf(s, goal) <= Freed(goal, s.files)
  }

  function Told(s: Store, goal: Goal): string {
    Notice(Seen(goal, s.files, ShortOf(s, goal)))
  }

  // `f` replaced by `g` wherever it stands.
  function Swap(files: seq<File>, f: File, g: File): (r: seq<File>)
    ensures |r| == |files|
    ensures forall i :: 0 <= i < |files| ==> r[i] == if files[i] == f then g else files[i]
  {
    if files == [] then [] else [if files[0] == f then g else files[0]] + Swap(files[1..], f, g)
  }

  // readNFiles sends the first n written files, newest first, and closes them.
  function Sent(files: seq<File>, n: nat): seq<File> {
    if files == [] || n == 0 then []
    else if files[0].modified == EMPTY then Sent(files[1..], n)
    else [files[0]] + Sent(files[1..], n - 1)
  }

  function Shut(files: seq<File>, n: nat): (r: seq<File>)
    ensures |r| == |files|
  {
    if files == [] || n == 0 then files
    else if files[0].modified == EMPTY then [files[0]] + Shut(files[1..], n)
    else [files[0].(owner := CLOSED)] + Shut(files[1..], n - 1)
  }

  // A walk that has passed i files, with `left` still wanted.
  ghost predicate Sending(fs: seq<File>, check: nat, i: int, left: int, now: seq<File>, sent: seq<File>) {
    && 0 <= i <= |fs| == |now| && 0 <= left == check - |sent|
    && now[i..] == fs[i..]
    && now[..i] + Shut(fs[i..], left) == Shut(fs, check)
    && sent + Sent(fs[i..], left) == Sent(fs, check)
  }

  lemma SendStarts(fs: seq<File>, check: nat)
    ensures Sending(fs, check, 0, check, fs, [])
  {
    assert fs[0..] == fs && fs[..0] == [];
  }

  lemma SendNext(fs: seq<File>, check: nat, i: int, left: int, now: seq<File>, sent: seq<File>)
    requires Sending(fs, check, i, left, now, sent) && i < |fs| && 0 < left
    ensures now[i] == fs[i]
    ensures fs[i].modified == EMPTY ==> Sending(fs, check, i + 1, left, now, sent)
    ensures fs[i].modified != EMPTY ==>
      Sending(fs, check, i + 1, left - 1, now[i := now[i].(owner := CLOSED)], sent + [now[i]])
  {
    assert now[i] == now[i..][0] == fs[i..][0] == fs[i];
    assert fs[i..][1..] == fs[i + 1..] && now[i..][1..] == now[i + 1..];
    var g := now[i].(owner := CLOSED);
    if fs[i].modified == EMPTY {
      assert now[..i + 1] == now[..i] + [fs[i]];
    } else {
      assert now[i := g][..i + 1] == now[..i] + [g];
      assert now[i := g][i + 1..] == now[i + 1..];
    }
  }

  lemma SendEnds(fs: seq<File>, check: nat, i: int, left: int, now: seq<File>, sent: seq<File>)
    requires Sending(fs, check, i, left, now, sent) && (i == |fs| || left == 0)
    ensures now == Shut(fs, check) && sent == Sent(fs, check)
  {
    assert Shut(fs[i..], left) == fs[i..] && Sent(fs[i..], left) == [];
    assert now[..i] + now[i..] == now;
  }

  // As written, n = 0 asks for as many files as there are free slots.
  function Wanted(s: Store, n: nat): nat {
    if n == 0 then (if |s.files| <= s.nfileTot then s.nfileTot - |s.files| else 0) else n
  }

  function Max(a: nat, b: nat): nat { if a < b then b else a }

  // max_mem_used is brought up to date at the end of every append request.
  function Measured(s: Store): Store {
    s.(maxMem := Max(s.maxMem, Bytes(s.files)))
  }

  function HandleOpen(s: Store, fd: int, path: string, flag: Flag): (Store, Reply) {
    var k := Newest(s.files, path);
    if (k < |s.files| && flag == Create) || (k == |s.files| && flag == OpenExisting) then
      (s, Failure)
    else if k == |s.files| then
      var e := Evicting(s, Slot);
      if Fits(s, Slot) then
        (e.(files := [File(path, fd, EMPTY, [])] + e.files, created := s.created + 1), Success(Told(s, Slot)))
      else
        (e, Failure)
    else if s.files[k].owner == CLOSED then
      (s.(files := s.files[k := s.files[k].(owner := fd)]), Success(""))
    else
      (s, Failure)
  }

  // UpdateFile, for the file at k held open by the client that asks.
  function HandleUpdate(s: Store, k: nat, chunk: seq<Byte>): (Store, Reply)
    requires k < |s.files|
  {
    var goal := Room(|chunk|);
    var e := Evicting(s, goal);
    if TooBig(s.ramTot, s.files[k], chunk) then
      (s.(files := Remove(s.files, k), removed := s.removed + 1), Failure)
    else if Fits(s, goal) then
      (e.(files := Swap(e.files, s.files[k], Appended(s.files[k], chunk))), Success(Told(s, goal)))
    else
      (e, Failure)
  }

  function HandleAppend(s: Store, fd: int, path: string, chunk: seq<Byte>): (Store, Reply) {
    var k := Newest(s.files, path);
    if k == |s.files| || s.files[k].owner != fd then
      (Measured(s), Failure)
    else
      var (t, reply) := HandleUpdate(s, k, chunk);
      (Measured(t), reply)
  }

  function HandleRead(s: Store, fd: int, path: string): (Store, Reply) {
    var k := Newest(s.files, path);
    if k < |s.files| && s.files[k].owner == fd then (s, Content(s.files[k].path, s.files[k].data)) else (s, Failure)
  }

  function HandleReadN(s: Store, n: nat): (Store, Reply) {
    var sent := Sent(s.files, Wanted(s, n));
    (s.(files := Shut(s.files, Wanted(s, n))), Batch(sent, sent != []))
  }

  function HandleClose(s: Store, fd: int, path: string): (Store, Reply) {
    var k := Newest(s.files, path);
    if k < |s.files| && s.files[k].owner == fd then
      (s.(files := s.files[k := s.files[k].(owner := CLOSED)]), Success(""))
    else
      (s, Failure)
  }

  function Answer(s: Store, fd: int, r: Request): (Store, Reply) {
    match r
    case Open(path, flag) => HandleOpen(s, fd, path, flag)
    case Read(path) => HandleRead(s, fd, path)
    case ReadN(n) => HandleReadN(s, n)
    case Append(path, chunk) => HandleAppend(s, fd, path, chunk)
    case Close(path) => HandleClose(s, fd, path)
  }

  // One request, with the history kept up.
  function Handle(s: Store, fd: int, r: Request): (Store, Reply) {
    var (t, reply) := Answer(s, fd, r);
    (t.(peak := Max(t.peak, Bytes(t.files))), reply)
  }

  // Where the handlers as written do what `Handle` says: no file is evicted from
  // between two others, and an append's eviction has nothing to step over.
  predicate Survives(s: Store, fd: int, r: Request) {
    match r
    case Open(path, flag) =>
      Newest(s.files, path) == |s.files| && flag == Create ==> !Torn(s.files, ShortOf(s, Slot))
    case Append(path, chunk) =>
      var k := Newest(s.files, path);
      k < |s.files| && s.files[k].owner == fd ==> Outlives(s, k, chunk)
    case _ => true
  }

  predicate Outlives(s: Store, k: nat, chunk: seq<Byte>)
    requires k < |s.files|
  {
    if TooBig(s.ramTot, s.files[k], chunk) then !(0 < k < |s.files| - 1)
    else NoSkip(Room(|chunk|), s.files, ShortOf(s, Room(|chunk|)))
  }

  // Client requests, each with the descriptor it came from, in the order served.
  datatype Call = Call(fd: nat, request: Request)

  function Run(s: Store, calls: seq<Call>): Store {
    if calls == [] then s else Handle(Run(s, calls[..|calls| - 1]), calls[|calls| - 1].fd, calls[|calls| - 1].request).0
  }

  // What the clients are told along the way.
  function Replies(s: Store, calls: seq<Call>): seq<Reply> {
    if calls == [] then []
    else
      var before, last := calls[..|calls| - 1], calls[|calls| - 1];
      Replies(s, before) + [Handle(Run(s, before), last.fd, last.request).1]
  }

  // The code as written gets through the whole run.
  predicate AllSurvive(s: Store, calls: seq<Call>) {
    calls == [] ||
    var before, last := calls[..|calls| - 1], calls[|calls| - 1];
    AllSurvive(s, before) && Survives(Run(s, before), last.fd, last.request)
  }

  lemma {:induction false} FewerSurvive(s: Store, calls: seq<Call>, i: nat)
    requires i <= |calls| && AllSurvive(s, calls)
    ensures AllSurvive(s, calls[..i])
  {
    hide Survives, Handle;
    if i < |calls| {
      FewerSurvive(s, calls[..|calls| - 1], i);
      assert calls[..|calls| - 1][..i] == calls[..i];
    } else {
      assert calls[..i] == calls;
    }
  }

  function Fresh(ram: nat, nfile: nat): Store {
    Store([], nfile, ram, 0, 0, 0, 0)
  }

  // No newer path is a prefix of an older one: so no two are equal.
  ghost predicate NoShadow(files: seq<File>) {
    files == [] || (NoShadow(files[1..]) && forall f :: f in files[1..] ==> !(files[0].path <= f.path))
  }

  // What every run keeps: both budgets in bounds, every file ever created either
  // resident or counted as removed, the memory statistic exact, no path shadowed.
  ghost predicate Good(s: Store) {
    && |s.files| <= s.nfileTot && Bytes(s.files) <= s.ramTot
    && s.created == |s.files| + s.removed
    && s.maxMem == s.peak && Bytes(s.files) <= s.peak
    && NoShadow(s.files)
  }

  lemma {:induction false} NoShadowAt(files: seq<File>, i: int, j: int)
    requires NoShadow(files) && 0 <= i < j < |files|
    ensures !(files[i].path <= files[j].path)
  {
    if i == 0 {
      assert files[j] == files[1..][j - 1];
    } else {
      NoShadowAt(files[1..], i - 1, j - 1);
    }
  }

  lemma {:induction false} KeptNoShadow(files: seq<File>)
    requires NoShadow(files)
    ensures NoShadow(Kept(files))
    ensures forall f :: f in Kept(files) <==> f in files && !Evictable(f)
  {
    if files != [] {
      hide Evictable;
      KeptNoShadow(files[1..]);
      assert files == [files[0]] + files[1..];
      if !Evictable(files[0]) {
        assert Kept(files)[1..] == Kept(files[1..]);
      } else {
        assert Kept(files) == Kept(files[1..]);
      }
    }
  }

  // Evicting keeps the order of what stays, so it uncovers no prefix.
  lemma {:induction false} CutNoShadow(files: seq<File>, cut: nat)
    requires NoShadow(files) && cut <= |files|
    ensures var now := files[..cut] + Kept(files[cut..]);
      && NoShadow(now)
      && (forall f :: f in now ==> f in files)
      && (forall f :: f in files && !Evictable(f) ==> f in now)
    decreases |files|
  {
    hide Evictable, Kept;
    if cut == 0 {
      assert files[..0] + Kept(files[0..]) == Kept(files) by { assert files[0..] == files; }
      KeptNoShadow(files);
    } else {
      var now := files[..cut] + Kept(files[cut..]);
      CutNoShadow(files[1..], cut - 1);
      assert files[1..][cut - 1..] == files[cut..];
      assert now[1..] == files[1..][..cut - 1] + Kept(files[cut..]);
      assert now == [files[0]] + now[1..] && files == [files[0]] + files[1..];
    }
  }

  lemma {:induction false} RemoveNoShadow(files: seq<File>, k: int)
    requires NoShadow(files) && 0 <= k < |files|
    ensures NoShadow(Remove(files, k))
    ensures forall f :: f in Remove(files, k) ==> f in files
  {
    if k == 0 {
      assert Remove(files, k) == files[1..];
    } else {
      RemoveNoShadow(files[1..], k - 1);
      assert Remove(files, k)[1..] == Remove(files[1..], k - 1);
      assert Remove(files, k) == [files[0]] + Remove(files[1..], k - 1);
    }
  }

  // Paths are distinct, so a file stands at one place only.
  lemma SwapIsUpdate(files: seq<File>, pos: int, g: File)
    requires NoShadow(files) && 0 <= pos < |files|
    ensures Swap(files, files[pos], g) == files[pos := g]
  {
    forall i | 0 <= i < |files| && i != pos ensures files[i] != files[pos] {
      NoShadowAt(files, if i < pos then i else pos, if i < pos then pos else i);
    }
  }

  lemma {:induction false} ReplaceNoShadow(files: seq<File>, now: seq<File>)
    requires NoShadow(files) && |now| == |files|
    requires forall i :: 0 <= i < |files| ==> now[i].path == files[i].path
    ensures NoShadow(now)
  {
    if files != [] {
      ReplaceNoShadow(files[1..], now[1..]);
      forall f | f in now[1..] ensures !(now[0].path <= f.path) {
        var i :| 0 <= i < |now[1..]| && now[1..][i] == f;
        assert files[1..][i] in files[1..];
      }
    }
  }

  lemma EvictBounds(s: Store, goal: Goal)
    ensures |Evicting(s, goal).files| + Evicting(s, goal).removed == |s.files| + s.removed
    ensures Bytes(Evicting(s, goal).files) <= Bytes(s.files)
    ensures Fits(s, goal) <==> ShortOf(Evicting(s, goal), goal) <= 0
  {
    hide Kept, Bytes, Freed, Victims, Stop, Short;
    EnoughOrNot(goal, s.nfileTot, s.ramTot, s.files);
    CutConserves(goal, s.nfileTot, s.ramTot, s.files, Stop(goal, s.files, ShortOf(s, goal)));
  }

  lemma OpenKeepsGood(s: Store, fd: nat, path: string, flag: Flag)
    requires Good(s)
    ensures Good(HandleOpen(s, fd, path, flag).0)
  {
    hide Kept, Freed, Victims, Notice, Stop, Seen, Told, Fits;
    var k := Newest(s.files, path);
    EvictBounds(s, Slot);
    CutNoShadow(s.files, Stop(Slot, s.files, ShortOf(s, Slot)));
    if k < |s.files| {
      var f := s.files[k].(owner := fd);
      BytesUpdate(s.files, k, f);
      ReplaceNoShadow(s.files, s.files[k := f]);
    } else {
      var kept := Evicting(s, Slot).files;
      var files := [File(path, fd, EMPTY, [])] + kept;
      assert files[1..] == kept;
      forall f | f in kept ensures !(path <= f.path) {
        var i :| 0 <= i < |s.files| && s.files[i] == f;
      }
    }
  }

  // An accepted append replaces one file of those the eviction keeps.
  lemma GrowKeepsGood(s: Store, kept: seq<File>, f: File, chunk: seq<Byte>)
    requires NoShadow(kept) && f in kept
    ensures var now := Swap(kept, f, Appended(f, chunk));
      NoShadow(now) && |now| == |kept| && Bytes(now) == Bytes(kept) + |chunk|
  {
    var pos :| 0 <= pos < |kept| && kept[pos] == f;
    SwapIsUpdate(kept, pos, Appended(f, chunk));
    BytesUpdate(kept, pos, Appended(f, chunk));
    ReplaceNoShadow(kept, kept[pos := Appended(f, chunk)]);
  }

  lemma AppendKeepsGood(s: Store, fd: nat, path: string, chunk: seq<Byte>)
    requires Good(s)
    ensures var t := HandleAppend(s, fd, path, chunk).0; Good(t.(peak := Max(t.peak, Bytes(t.files))))
  {
    hide Kept, Freed, Victims, Notice, Stop, Seen, Bytes, Swap, NoShadow, Newest, Told, Fits;
    var k := Newest(s.files, path);
    var goal := Room(|chunk|);
    if k < |s.files| && s.files[k].owner == fd {
      var f := s.files[k];
      BytesRemove(s.files, k);
      RemoveNoShadow(s.files, k);
      EvictBounds(s, goal);
      CutNoShadow(s.files, Stop(goal, s.files, ShortOf(s, goal)));
      GrowKeepsGood(s, Evicting(s, goal).files, f, chunk);
    }
  }

  lemma {:induction false} ShutKeeps(files: seq<File>, n: nat)
    ensures Bytes(Shut(files, n)) == Bytes(files)
    ensures forall i :: 0 <= i < |files| ==> Shut(files, n)[i].path == files[i].path
  {
    if files != [] && n != 0 {
      ShutKeeps(files[1..], if files[0].modified == EMPTY then n else n - 1);
    }
  }

  lemma HandleKeepsGood(s: Store, fd: nat, r: Request)
    requires Good(s)
    ensures Good(Handle(s, fd, r).0)
  {
    match r
    case Open(path, flag) => OpenKeepsGood(s, fd, path, flag);
    case Read(_) =>
    case ReadN(n) =>
      ShutKeeps(s.files, Wanted(s, n));
      ReplaceNoShadow(s.files, Shut(s.files, Wanted(s, n)));
    case Append(path, chunk) => AppendKeepsGood(s, fd, path, chunk);
    case Close(path) =>
      var k := Newest(s.files, path);
      if k < |s.files| {
        var f := s.files[k].(owner := CLOSED);
        BytesUpdate(s.files, k, f);
        ReplaceNoShadow(s.files, s.files[k := f]);
      }
  }

  // Over every run: neither budget is overdrawn, every file ever created is
  // resident or counted as removed, the reported maximum is the true one, and no
  // path is a prefix of an older one.
  lemma {:induction false} RunIsGood(ram: nat, nfile: nat, calls: seq<Call>)
    ensures Good(Run(Fresh(ram, nfile), calls))
  {
    if calls != [] {
      RunIsGood(ram, nfile, calls[..|calls| - 1]);
      HandleKeepsGood(Run(Fresh(ram, nfile), calls[..|calls| - 1]), calls[|calls| - 1].fd, calls[|calls| - 1].request);
    }
  }

  // The path is a key for lookups exactly when no newer path continues it.
  lemma LookupFindsKey(files: seq<File>, i: int)
    requires NoShadow(files) && 0 <= i < |files|
    ensures Newest(files, files[i].path) == i <==> forall j :: 0 <= j < i ==> !(files[i].path <= files[j].path)
    ensures Newest(files, files[i].path) < |files|
    ensures files[Newest(files, files[i].path)].path == files[i].path <==> Newest(files, files[i].path) == i
  {
    var k := Newest(files, files[i].path);
    if k < i {
      NoShadowAt(files, k, i);
    }
  }

  // ---------- what one request does for the next ----------

  // A file that stays is found as before: nothing before it matches, or ever will.
  lemma {:induction false} NewestKept(files: seq<File>, cut: nat, path: string)
    requires cut <= |files| && Newest(files, path) < |files| && !Evictable(files[Newest(files, path)])
    ensures var now, k := files[..cut] + Kept(files[cut..]), Newest(files, path);
      Newest(now, path) < |now| && now[Newest(now, path)] == files[k]
    decreases |files|
  {
    hide Evictable, Kept, Newest;
    var rest, c := files[1..], if cut == 0 then 0 else cut - 1;
    var now, later := files[..cut] + Kept(files[cut..]), rest[..c] + Kept(rest[c..]);
    assert files == [files[0]] + rest;
    NewestCons(files[0], rest, path);
    CutTail(files, cut);
    if cut == 0 && Evictable(files[0]) {
      assert now == later;
    } else {
      assert now == [files[0]] + later;
      NewestCons(files[0], later, path);
    }
    if !(path <= files[0].path) {
      NewestKept(rest, c, path);
    }
  }

  lemma NewestCons(f: File, files: seq<File>, path: string)
    ensures Newest([f] + files, path) == if path <= f.path then 0 else 1 + Newest(files, path)
  {
    assert ([f] + files)[1..] == files;
  }

  lemma CutTail(files: seq<File>, cut: nat)
    requires cut <= |files| && files != []
    ensures var now, c := files[..cut] + Kept(files[cut..]), if cut == 0 then 0 else cut - 1;
      var later := files[1..][..c] + Kept(files[1..][c..]);
      if cut == 0 && Evictable(files[0]) then now == later else now == [files[0]] + later
  {
    hide Evictable;
    if cut == 0 {
      assert files[0..] == files && files[1..][0..] == files[1..] && files[1..][..0] == [];
    } else {
      assert files[..cut] == [files[0]] + files[1..][..cut - 1] && files[1..][cut - 1..] == files[cut..];
    }
  }

  // An accepted append is what the client reads next: the bytes it would have read
  // before, and the chunk.
  lemma AppendIsRead(s: Store, fd: nat, path: string, chunk: seq<Byte>)
    requires Good(s) && HandleAppend(s, fd, path, chunk).1.Success?
    ensures var before, after := HandleRead(s, fd, path).1, HandleRead(HandleAppend(s, fd, path, chunk).0, fd, path).1;
      before.Content? && after == Content(before.path, before.data + chunk)
  {
    hide Kept, Freed, Victims, Notice, Stop, Seen, Bytes, NoShadow;
    var k, goal := Newest(s.files, path), Room(|chunk|);
    var f, cut := s.files[k], Stop(goal, s.files, ShortOf(s, goal));
    var kept, grown := Evicting(s, goal).files, Appended(s.files[k], chunk);
    NewestKept(s.files, cut, path);
    var j := Newest(kept, path);
    assert kept[j] == f;
    var now := Swap(kept, f, grown);
    NewestIs(now, path, j);
  }

  // Opening a closed file and closing it again undoes the open, exactly.
  lemma CloseUndoesOpen(s: Store, fd: nat, path: string)
    requires HandleOpen(s, fd, path, OpenExisting).1.Success?
    ensures HandleClose(HandleOpen(s, fd, path, OpenExisting).0, fd, path) == (s, Success(""))
  {
    hide Evict, Notice, Seen, Victims, Freed;
    var k := Newest(s.files, path);
    var t := HandleOpen(s, fd, path, OpenExisting).0;
    NewestIs(t.files, path, k);
    assert t.files[k := t.files[k].(owner := CLOSED)] == s.files;
  }

  function Written(files: seq<File>): nat {
    if files == [] then 0 else (if files[0].modified == EMPTY then 0 else 1) + Written(files[1..])
  }

  // readNFiles sends written files only, and never more than there are or than n.
  lemma {:induction false} SentCount(files: seq<File>, n: nat)
    ensures |Sent(files, n)| == if n < Written(files) then n else Written(files)
    ensures forall f :: f in Sent(files, n) ==> f in files && f.modified != EMPTY
    ensures Written(files) <= n ==> forall f :: f in files && f.modified != EMPTY ==> f in Sent(files, n)
  {
    if files != [] && n != 0 {
      assert forall f :: f in files <==> f == files[0] || f in files[1..];
      SentCount(files[1..], if files[0].modified == EMPTY then n else n - 1);
    } else if files != [] {
      assert forall f :: f in files <==> f == files[0] || f in files[1..];
      SentCount(files[1..], n);
    }
  }

  // As written, a request for n = 0, meant to read every file, reads every
  // written one exactly when there are as many free slots as written files.
  lemma ReadAllIff(s: Store)
    requires |s.files| <= s.nfileTot
    ensures HandleReadN(s, 0).1.sent == Sent(s.files, |s.files|) <==> Written(s.files) <= s.nfileTot - |s.files|
  {
    var n := s.nfileTot - |s.files|;
    SentCount(s.files, n);
    SentCount(s.files, |s.files|);
    WrittenBound(s.files);
    if Written(s.files) <= n {
      SentSame(s.files, n, |s.files|);
    }
  }

  lemma {:induction false} WrittenBound(files: seq<File>)
    ensures Written(files) <= |files|
  {
    if files != [] { WrittenBound(files[1..]); }
  }

  lemma {:induction false} SentSame(files: seq<File>, m: nat, n: nat)
    requires Written(files) <= m && Written(files) <= n
    ensures Sent(files, m) == Sent(files, n)
  {
    if files != [] {
      if m == 0 || n == 0 {
        SentCount(files, m);
        SentCount(files, n);
      } else if files[0].modified == EMPTY {
        SentSame(files[1..], m, n);
      } else {
        SentSame(files[1..], m - 1, n - 1);
      }
    }
  }

  // ---------- the handlers as written ----------

  predicate Apart(p: string, q: string) { !(p <= q) }

  lemma InFront(f: File, files: seq<File>)
    requires NoShadow(files) && forall g :: g in files ==> Apart(f.path, g.path)
    ensures NoShadow([f] + files) && Bytes([f] + files) == |f.data| + Bytes(files)
  {
    assert ([f] + files)[1..] == files;
  }

  lemma ThreeFiles(c: File, b: File, a: File)
    requires Apart(c.path, b.path) && Apart(c.path, a.path) && Apart(b.path, a.path)
    ensures NoShadow([c, b, a]) && Bytes([c, b, a]) == |c.data| + |b.data| + |a.data|
  {
    InFront(a, []);
    hide Apart, NoShadow;
    assert [a] + [] == [a] && [b] + [a] == [b, a] && [c] + [b, a] == [c, b, a];
    InFront(b, [a]);
    InFront(c, [b, a]);
  }

  lemma ApartMeans(p: string, q: string)
    requires Apart(p, q)
    ensures !(p <= q)
  {
  }

  // A store of three files, newest first, with the middle one alone evictable and no
  // slot left: a create tears the list, and an append without room hangs.
  lemma ThreeFallShort(s: Store, fd: int, c: File, b: File, a: File, path: string, chunk: seq<Byte>)
    requires s.files == [c, b, a] && s.nfileTot == 3 && Evictable(b) && !Evictable(a)
    requires Apart(path, c.path) && Apart(path, b.path) && Apart(path, a.path)
    requires |chunk| <= s.ramTot < Bytes(s.files) + |chunk|
    ensures !Survives(s, fd, Open(path, Create)) && !Survives(s, c.owner, Append(c.path, chunk))
  {
    hide NoShadow, Notice, Victims, Bytes, Evictable, Apart;
    ApartMeans(path, c.path);
    ApartMeans(path, b.path);
    ApartMeans(path, a.path);
    var files := s.files;
    assert files[1..][1..][1..] == [] && files[1..][1..] == [a] && files[1..] == [b, a];
    assert Newest(files, path) == 3 && Newest(files, c.path) == 0;
    hide Newest;
    TornExactly(files);
    assert Evictable(files[1]) && forall j :: 1 < j < |files| ==> files[j] == a;
    hide Torn;
    NotSkipped(Room(|chunk|), files, ShortOf(s, Room(|chunk|)));
  }

  // An eviction starts at the last file, so that one has to be evictable.
  lemma NotSkipped(goal: Goal, files: seq<File>, short: int)
    requires files != [] && !Evictable(files[|files| - 1]) && 0 < short
    ensures !NoSkip(goal, files, short)
  {
    StopStops(goal, files, short);
    var cut := Stop(goal, files, short);
    assert files[|files|..] == [] && Freed(goal, []) == 0;
    hide Stop;
    assert Seen(goal, files, short)[|files| - 1 - cut] == files[|files| - 1];
  }

  lemma RunSnoc(s: Store, calls: seq<Call>, c: Call)
    ensures Run(s, calls + [c]) == Handle(Run(s, calls), c.fd, c.request).0
  {
    assert (calls + [c])[..|calls|] == calls;
  }

  // What three simple requests do to the files.
  lemma CreateStores(s: Store, fd: nat, path: string)
    requires Newest(s.files, path) == |s.files| < s.nfileTot
    ensures Handle(s, fd, Open(path, Create)).0.files == [File(path, fd, EMPTY, [])] + s.files
  {
    hide Stop, Kept, Victims, Freed, Bytes, Newest, Notice;
    NothingMissing(Slot, s.files, ShortOf(s, Slot), Stop(Slot, s.files, ShortOf(s, Slot)));
    StopStops(Slot, s.files, ShortOf(s, Slot));
  }

  lemma AppendStores(s: Store, fd: nat, path: string, chunk: seq<Byte>)
    requires NoShadow(s.files) && |chunk| <= s.ramTot - Bytes(s.files)
    requires var k := Newest(s.files, path); k < |s.files| && s.files[k].owner == fd
    ensures var k := Newest(s.files, path);
      Handle(s, fd, Append(path, chunk)).0.files == s.files[k := Appended(s.files[k], chunk)]
  {
    hide Stop, Kept, Victims, Freed, Bytes, Newest, Notice, NoShadow, Swap;
    var k, goal := Newest(s.files, path), Room(|chunk|);
    NothingMissing(goal, s.files, ShortOf(s, goal), Stop(goal, s.files, ShortOf(s, goal)));
    SwapIsUpdate(s.files, k, Appended(s.files[k], chunk));
  }

  lemma HandleKeepsTotals(s: Store, fd: nat, r: Request)
    ensures Handle(s, fd, r).0.nfileTot == s.nfileTot && Handle(s, fd, r).0.ramTot == s.ramTot
  {
    hide Stop, Kept, Victims, Freed, Bytes, Newest, Notice, Swap, Sent, Shut;
  }

  // Client 1 creates p and keeps it open; client 2 creates q, writes it and closes it;
  // client 3 creates r.
  function Build(p: string, q: string, r: string): seq<Call> {
    [] + [Call(1, Open(p, Create))] + [Call(2, Open(q, Create))] + [Call(2, Append(q, [7]))] + [Call(2, Close(q))]
    + [Call(3, Open(r, Create))]
  }

  // ---------- the store of three, step by step ----------

  lemma BuildTwo(s: Store, p: string, q: string) returns (t: Store)
    requires s.files == [] && 2 < s.nfileTot && Apart(q, p)
    ensures t == Handle(Handle(s, 1, Open(p, Create)).0, 2, Open(q, Create)).0
    ensures t.files == [File(q, 2, EMPTY, []), File(p, 1, EMPTY, [])] && t.nfileTot == s.nfileTot && t.ramTot == s.ramTot
  {
    NewestNone(p);
    NewestCons(File(p, 1, EMPTY, []), [], q);
    ApartMeans(q, p);
    hide Handle, Newest, Apart;
    CreateStores(s, 1, p);
    HandleKeepsTotals(s, 1, Open(p, Create));
    var u := Handle(s, 1, Open(p, Create)).0;
    assert u.files == [File(p, 1, EMPTY, [])] && [File(p, 1, EMPTY, [])] + [] == u.files;
    NewestNone(q);
    CreateStores(u, 2, q);
    HandleKeepsTotals(u, 2, Open(q, Create));
    t := Handle(u, 2, Open(q, Create)).0;
    assert [File(q, 2, EMPTY, [])] + [File(p, 1, EMPTY, [])] == [File(q, 2, EMPTY, []), File(p, 1, EMPTY, [])];
  }

  lemma BuildWrite(s: Store, p: string, q: string) returns (t: Store)
    requires s.files == [File(q, 2, EMPTY, []), File(p, 1, EMPTY, [])] && Apart(q, p) && 0 < s.ramTot
    ensures t == Handle(Handle(s, 2, Append(q, [7])).0, 2, Close(q)).0
    ensures t.files == [File(q, CLOSED, FILLED, [7]), File(p, 1, EMPTY, [])] && t.nfileTot == s.nfileTot && t.ramTot == s.ramTot
  {
    InFront(File(p, 1, EMPTY, []), []);
    InFront(File(q, 2, EMPTY, []), [File(p, 1, EMPTY, [])]);
    assert [File(q, 2, EMPTY, [])] + [File(p, 1, EMPTY, [])] == s.files && [File(p, 1, EMPTY, [])] + [] == [File(p, 1, EMPTY, [])];
    NewestFirst(s.files, q);
    hide Newest, Apart, NoShadow;
    AppendStores(s, 2, q, [7]);
    HandleKeepsTotals(s, 2, Append(q, [7]));
    hide HandleAppend, HandleOpen, HandleReadN;
    var u := Handle(s, 2, Append(q, [7])).0;
    assert [] + [7] == [7];
    assert u.files == [File(q, 2, FILLED, [7]), File(p, 1, EMPTY, [])];
    NewestFirst(u.files, q);
    t := Handle(u, 2, Close(q)).0;
  }

  lemma NewestNone(path: string)
    ensures Newest([], path) == 0
  {
  }

  lemma NewestFirst(files: seq<File>, path: string)
    requires files != [] && files[0].path == path
    ensures Newest(files, path) == 0
  {
  }

  lemma Built(ram: nat, nfile: nat, p: string, q: string, r: string)
    requires 2 < nfile && 0 < ram && Apart(q, p) && Apart(r, p) && Apart(r, q)
    ensures var s := Run(Fresh(ram, nfile), Build(p, q, r));
      s.nfileTot == nfile && s.ramTot == ram
      && s.files == [File(r, 3, EMPTY, []), File(q, CLOSED, FILLED, [7]), File(p, 1, EMPTY, [])]
  {
    var s0 := Fresh(ram, nfile);
    var c1, c2, c3, c4, c5 := Call(1, Open(p, Create)), Call(2, Open(q, Create)), Call(2, Append(q, [7])), Call(2, Close(q)), Call(3, Open(r, Create));
    RunSnoc(s0, [], c1);
    RunSnoc(s0, [] + [c1], c2);
    RunSnoc(s0, [] + [c1] + [c2], c3);
    RunSnoc(s0, [] + [c1] + [c2] + [c3], c4);
    RunSnoc(s0, [] + [c1] + [c2] + [c3] + [c4], c5);
    assert Run(s0, []) == s0;
    hide Run, Handle, Apart;
    var t := BuildTwo(s0, p, q);
    var u := BuildWrite(t, p, q);
    NotFoundInTwo(u.files, r);
    CreateStores(u, 3, r);
    HandleKeepsTotals(u, 3, c5.request);
    assert [File(r, 3, EMPTY, [])] + u.files == [File(r, 3, EMPTY, []), File(q, CLOSED, FILLED, [7]), File(p, 1, EMPTY, [])];
  }

  lemma NotFoundInTwo(files: seq<File>, path: string)
    requires |files| == 2 && Apart(path, files[0].path) && Apart(path, files[1].path)
    ensures Newest(files, path) == 2
  {
    assert files[1..][1..] == [];
  }

  // One file, written with nothing and closed.
  function BuildOne(p: string): seq<Call> {
    [] + [Call(0, Open(p, Create))] + [Call(0, Append(p, []))] + [Call(0, Close(p))]
  }

  lemma BuiltOne(ram: nat, nfile: nat, p: string)
    requires 0 < nfile
    ensures var s := Run(Fresh(ram, nfile), BuildOne(p)); s.files == [File(p, CLOSED, FILLED, [])] && s.nfileTot == nfile && s.ramTot == ram
  {
    var s0 := Fresh(ram, nfile);
    var c1, c2, c3 := Call(0, Open(p, Create)), Call(0, Append(p, [])), Call(0, Close(p));
    RunSnoc(s0, [], c1);
    RunSnoc(s0, [] + [c1], c2);
    RunSnoc(s0, [] + [c1] + [c2], c3);
    assert Run(s0, []) == s0 && Bytes([]) == 0;
    hide Run, Handle, Newest, Bytes;
    NewestNone(p);
    CreateStores(s0, 0, p);
    HandleKeepsTotals(s0, 0, c1.request);
    assert [File(p, 0, EMPTY, [])] + [] == [File(p, 0, EMPTY, [])];
    var s1 := Handle(s0, 0, c1.request).0;
    WriteAndClose(s1, p);
    HandleKeepsTotals(s1, 0, c2.request);
    HandleKeepsTotals(Handle(s1, 0, c2.request).0, 0, c3.request);
  }

  // The simplest run of all.
  lemma CreatedOne(ram: nat, nfile: nat, fd: nat, p: string)
    requires 0 < nfile
    ensures var s := Run(Fresh(ram, nfile), [Call(fd, Open(p, Create))]);
      s.files == [File(p, fd, EMPTY, [])] && s.nfileTot == nfile && s.ramTot == ram
  {
    var s0 := Fresh(ram, nfile);
    RunSnoc(s0, [], Call(fd, Open(p, Create)));
    hide Handle, Newest;
    NewestNone(p);
    CreateStores(s0, fd, p);
    HandleKeepsTotals(s0, fd, Open(p, Create));
    assert [] + [Call(fd, Open(p, Create))] == [Call(fd, Open(p, Create))];
  }

  // On a full store a request for every file is sent none.
  lemma ReadAllSendsNone(ram: nat, p: string)
    ensures var s := Run(Fresh(ram, 1), BuildOne(p));
      HandleReadN(s, 0).1.sent == [] && Sent(s.files, |s.files|) == [File(p, CLOSED, FILLED, [])]
  {
    BuiltOne(ram, 1, p);
    hide Run, BuildOne;
    assert Sent(Run(Fresh(ram, 1), BuildOne(p)).files[1..], 0) == [];
  }

  // A readN by any client takes a written file from the one that holds it: its next read
  // fails, and others may open the file.
  lemma ReadNTakesAway(ram: nat, nfile: nat, fd: nat, other: nat, p: string)
    requires 1 <= nfile
    ensures var s := Run(Fresh(ram, nfile), [Call(fd, Open(p, Create)), Call(fd, Append(p, []))]);
      var t := Handle(s, other, ReadN(1)).0;
      && HandleRead(s, fd, p).1 == Content(p, []) && HandleRead(t, fd, p).1 == Failure
      && HandleOpen(t, other, p, OpenExisting).1.Success?
  {
    var c, d := Call(fd, Open(p, Create)), Call(fd, Append(p, []));
    CreatedOne(ram, nfile, fd, p);
    RunSnoc(Fresh(ram, nfile), [c], d);
    assert [c] + [d] == [c, d];
    hide Run, HandleOpen, HandleAppend, Fresh;
    WrittenOne(Run(Fresh(ram, nfile), [c]), fd, p);
  }

  lemma WrittenOne(s: Store, fd: nat, p: string)
    requires s.files == [File(p, fd, EMPTY, [])]
    ensures var t := Handle(s, fd, Append(p, [])).0;
      t.files == [File(p, fd, FILLED, [])] && HandleRead(t, fd, p).1 == Content(p, [])
  {
    assert [File(p, fd, EMPTY, [])] + [] == s.files;
    InFront(File(p, fd, EMPTY, []), []);
    NewestFirst(s.files, p);
    hide HandleOpen, HandleAppend, Newest, Bytes, NoShadow;
    AppendStores(s, fd, p, []);
    var t := Handle(s, fd, Append(p, [])).0;
    assert t.files == [File(p, fd, FILLED, [])];
    NewestFirst(t.files, p);
  }

  // A file is out of reach once a path that continues its own is created: the lookup
  // finds the other one, and its bytes are what a read sends.
  lemma LongerPathIsFound(ram: nat, nfile: nat, fd: nat, p: string, q: string)
    requires 2 <= nfile && p < q
    ensures var s := Run(Fresh(ram, nfile), [Call(fd, Open(p, Create)), Call(fd, Open(q, Create))]);
      && s.files == [File(q, fd, EMPTY, []), File(p, fd, EMPTY, [])]
      && Newest(s.files, p) == 0 && HandleRead(s, fd, p).1 == Content(q, [])
  {
    var c, d := Call(fd, Open(p, Create)), Call(fd, Open(q, Create));
    CreatedOne(ram, nfile, fd, p);
    RunSnoc(Fresh(ram, nfile), [c], d);
    assert [c] + [d] == [c, d];
    hide Run, Handle;
    var s := Run(Fresh(ram, nfile), [c]);
    assert s.files[1..] == [];
    CreateStores(s, fd, q);
    assert [File(q, fd, EMPTY, [])] + s.files == [File(q, fd, EMPTY, []), File(p, fd, EMPTY, [])];
  }

  lemma WriteAndClose(s: Store, p: string)
    requires s.files == [File(p, 0, EMPTY, [])]
    ensures Handle(Handle(s, 0, Append(p, [])).0, 0, Close(p)).0.files == [File(p, CLOSED, FILLED, [])]
  {
    hide HandleOpen, HandleAppend, HandleReadN, Newest;
    assert [File(p, 0, EMPTY, [])] + [] == s.files;
    InFront(File(p, 0, EMPTY, []), []);
    NewestFirst(s.files, p);
    AppendStores(s, 0, p, []);
    var t := Handle(s, 0, Append(p, [])).0;
    assert t.files == [File(p, 0, FILLED, [])];
    NewestFirst(t.files, p);
    hide Bytes, NoShadow;
  }

  // Well-behaved clients get there: after these five requests a create tears the list
  // and an append never returns.
  lemma AsWrittenFallsShort()
    ensures var s := Run(Fresh(10, 3), Build("a", "b", "c"));
      !Survives(s, 4, Open("d", Create)) && !Survives(s, 3, Append("c", seq(10, _ => 1)))
  {
    assert "b"[0] != "a"[0] && "c"[0] != "a"[0] && "c"[0] != "b"[0] && "d"[0] != "a"[0] && "d"[0] != "b"[0] && "d"[0] != "c"[0];
    assert Apart("b", "a") && Apart("c", "a") && Apart("c", "b") && Apart("d", "a") && Apart("d", "b") && Apart("d", "c");
    hide Run, Build, Survives, NoShadow, Bytes, Apart;
    Built(10, 3, "a", "b", "c");
    var s := Run(Fresh(10, 3), Build("a", "b", "c"));
    ThreeFiles(s.files[0], s.files[1], s.files[2]);
    ThreeFallShort(s, 4, s.files[0], s.files[1], s.files[2], "d", seq(10, _ => 1));
  }
}
