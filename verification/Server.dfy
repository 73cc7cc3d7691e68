// The request handlers of threadF, over the linked store.
module Server {
  import opened Files
  import opened FileStorage
  import opened Service

  class Server {
    const storage: Storage
    var cntFileRemoved: nat
    var maxMemUsed: nat
    ghost var created: nat
    ghost var peak: nat

    ghost function Abs(): Store
      reads this, storage
    {
      Store(storage.files, storage.nfileTot, storage.ramTot, cntFileRemoved, maxMemUsed, created, peak)
    }

    ghost predicate Ready()
      reads this, storage, storage.nodes
    {
      storage.Valid()
    }

    constructor (ram: nat, nfile: nat)
      ensures Ready() && Abs() == Fresh(ram, nfile) && fresh(storage)
    {
      storage := new Storage(ram, nfile);
      cntFileRemoved, maxMemUsed := 0, 0;
      created, peak := 0, 0;
    }

    // The lookup every handler starts with.
    method Find(path: string) returns (file: Node?, ghost k: nat)
      requires Ready()
      ensures |storage.files| == |storage.nodes|
      ensures file == var n := Newest(storage.files, path); if n == |storage.files| then null else storage.nodes[n]
      ensures k == Newest(storage.files, path) && (file == null <==> k == |storage.files|)
      ensures file != null ==> storage.nodes[k] == file && file in storage.repr
      ensures file != null ==> file.View() == storage.files[k] && file.Sound()
    {
      storage.Ends();
      file, k := storage.SearchFileNode(path);
      NewestIs(storage.files, path, k);
      if file != null {
        storage.NodeAt(k);
      }
    }

    // OPEN FILE, when the path is not there yet.
    method CreateFile(path: string, fd: nat, splice: bool) returns (reply: Reply)
      requires Ready()
      modifies this`cntFileRemoved, this`created, storage, storage.repr
      ensures var s, e := old(Abs()), Evicting(old(Abs()), Slot);
        && Abs() == (if Fits(s, Slot) then e.(files := [File(path, fd, EMPTY, [])] + e.files, created := s.created + 1) else e)
        && reply == (if Fits(s, Slot) then Success(Told(s, Slot)) else Failure)
      ensures Ready() <==> splice || !Torn(old(Abs()).files, ShortOf(old(Abs()), Slot))
      ensures fresh(storage.repr - old(storage.repr))
    {
      hide Storage.Valid, Evict, Seen, Notice, Victims, Freed, Stop, Bytes, Storage.BrokenAt, Torn;
      var node := new Node(path, fd);
      var ok, notice, n := storage.InsertCreateFile(node, "", cntFileRemoved, splice);
      cntFileRemoved := n;
      assert "" + Told(old(Abs()), Slot) == Told(old(Abs()), Slot);
      if ok {
        created := created + 1;
        reply := Success(notice);
      } else {
        reply := Failure;
      }
    }

    // OPEN FILE
    method OpenFile(path: string, fd: nat, flag: Flag, splice: bool) returns (reply: Reply)
      requires Ready()
      modifies this`cntFileRemoved, this`created, storage, storage.repr
      ensures (Abs(), reply) == HandleOpen(old(Abs()), fd, path, flag)
      ensures Ready() <==> splice || Survives(old(Abs()), fd, Open(path, flag))
      ensures fresh(storage.repr - old(storage.repr))
    {
      hide Storage.Valid, Newest, Evicting, Fits, Told, Torn;
      var file, k := Find(path);
      if (file != null && flag == Create) || (file == null && flag == OpenExisting) {
        reply := Failure;
      } else if file == null {
        reply := CreateFile(path, fd, splice);
      } else if file.owner == CLOSED {
        storage.SetOwner(file, fd, k);
        reply := Success("");
      } else {
        reply := Failure;
      }
    }

    // READ FILE
    method ReadFile(path: string, fd: nat) returns (reply: Reply)
      requires Ready()
      ensures (Abs(), reply) == HandleRead(Abs(), fd, path)
    {
      hide Storage.Valid, Newest;
      var file, k := Find(path);
      if file == null {
        return Failure;
      }
      if file.owner != fd {
        return Failure;
      }
      reply := Content(file.pathname, file.buffer[..file.fileSz]);
    }

    // CLOSE FILE
    method CloseFile(path: string, fd: nat) returns (reply: Reply)
      requires Ready()
      modifies storage, storage.repr
      ensures (Abs(), reply) == HandleClose(old(Abs()), fd, path) && Ready()
      ensures storage.repr == old(storage.repr)
    {
      hide Storage.Valid, Newest;
      var file, k := Find(path);
      if file == null {
        return Failure;
      }
      if file.owner == fd {
        storage.SetOwner(file, CLOSED, k);
        reply := Success("");
      } else {
        reply := Failure;
      }
    }

    // READ N FILES, with the walk along the sons.
    method ReadNFiles(n: nat) returns (reply: Reply)
      requires Ready()
      modifies storage`files, storage.repr`owner
      ensures (Abs(), reply) == HandleReadN(old(Abs()), n) && Ready()
    {
      var check := if n == 0 then storage.nfileDispo else n;
      var sent := SendAll(check);
      reply := Batch(sent, |sent| != 0);
    }

    method SendAll(check: int) returns (sent: seq<File>)
      requires Ready() && 0 <= check
      modifies storage`files, storage.repr`owner
      ensures storage.files == Shut(old(storage.files), check) && sent == Sent(old(storage.files), check)
      ensures Ready()
    {
      storage.Ends();
      hide Sending, Storage.Valid, Sent, Shut;
      var left := check;
      var current := storage.head;
      sent := [];
      ghost var i := 0;
      SendStarts(storage.files, left);
      while left > 0 && current != null
        invariant Ready() && Sending(old(storage.files), check, i, left, storage.files, sent)
        invariant 0 <= i <= |storage.nodes| == |storage.files| == |old(storage.files)|
        invariant 0 <= left == check - |sent|
        invariant current == if i < |storage.nodes| then storage.nodes[i] else null
        decreases |storage.nodes| - i
      {
        storage.NodeAt(i);
        current, left, sent := Send(current, left, sent, check, old(storage.files), i);
        i := i + 1;
      }
      SendEnds(old(storage.files), check, i, left, storage.files, sent);
    }

    // One turn of that loop.
    method Send(current: Node, left: int, sent: seq<File>, ghost check: nat, ghost fs: seq<File>, ghost i: nat)
      returns (current': Node?, left': int, sent': seq<File>)
      requires Ready() && i < |fs| == |storage.nodes| == |storage.files| && storage.nodes[i] == current
      requires 0 < left && Sending(fs, check, i, left, storage.files, sent)
      modifies storage`files, current`owner
      ensures Ready() && |storage.files| == |fs|
      ensures current' == if i + 1 < |fs| then storage.nodes[i + 1] else null
      ensures Sending(fs, check, i + 1, left', storage.files, sent') && 0 <= left' == check - |sent'|
    {
      storage.NodeAt(i);
      hide Storage.Valid, Sending;
      SendNext(fs, check, i, left, storage.files, sent);
      current', left', sent' := current.son, left, sent;
      if current.modified != EMPTY {
        sent' := sent + [File(current.pathname, current.owner, current.modified, current.buffer[..current.fileSz])];
        left' := left - 1;
        storage.SetOwner(current, CLOSED, i);
      }
    }

    // The statistic threadF keeps after an append, whatever became of it.
    method Measure()
      requires storage.Accounts()
      modifies `maxMemUsed
      ensures Abs() == Measured(old(Abs()))
    {
      var used := storage.ramTot - storage.ramDispo;
      if used > maxMemUsed {
        maxMemUsed := used;
      }
    }

    // An append by the client that holds the file open.
    method UpdateFile(file: Node, fd: nat, chunk: seq<Byte>, splice: bool, turns: nat, ghost k: nat)
      returns (returned: bool, reply: Reply)
      requires Ready() && NoShadow(storage.files) && |storage.files| <= turns
      requires k < |storage.nodes| && storage.nodes[k] == file && |storage.files| == |storage.nodes|
      requires storage.files[k].owner == fd
      modifies this`cntFileRemoved, storage, storage.repr
      ensures returned ==> (Abs(), reply) == HandleUpdate(old(Abs()), k, chunk)
      ensures storage.Accounts()
      ensures returned && Ready() <==> splice || Outlives(old(Abs()), k, chunk)
      ensures storage.repr == old(storage.repr)
    {
      hide Storage.Valid, Evict, Freed, Stop, Notice, Victims, Bytes, Storage.Accounts, Seen, NoSkip;
      ghost var s, goal := Abs(), Room(|chunk|);
      SeenBound(s, goal);
      var outcome, notice, n :=
        storage.UpdateFile(file, "", fd, chunk, cntFileRemoved, splice, turns, k);
      cntFileRemoved := n;
      returned := !outcome.NeverReturns?;
      reply := if outcome == Stored then Success(notice) else Failure;
      assert "" + Told(s, goal) == Told(s, goal);
      if outcome == Stored {
        GrownIsSwap(file, s, k, chunk);
      }
    }

    // Paths are distinct, so the node that grew is the file that grew.
    lemma GrownIsSwap(file: Node, s: Store, k: nat, chunk: seq<Byte>)
      requires NoShadow(s.files) && k < |s.files|
      requires storage.Grown(file, s.files[k], chunk, Evicting(s, Room(|chunk|)).files)
      ensures storage.files == Swap(Evicting(s, Room(|chunk|)).files, s.files[k], Appended(s.files[k], chunk))
    {
      var kept := Evicting(s, Room(|chunk|)).files;
      var pos :| storage.GrownAt(pos, file, s.files[k], chunk, kept);
      CutNoShadow(s.files, Stop(Room(|chunk|), s.files, ShortOf(s, Room(|chunk|))));
      SwapIsUpdate(kept, pos, Appended(s.files[k], chunk));
    }

    // APPEND TO FILE
    method AppendToFile(path: string, fd: nat, chunk: seq<Byte>, splice: bool, turns: nat)
      returns (returned: bool, reply: Reply)
      requires Ready() && NoShadow(storage.files) && |storage.files| <= turns
      modifies this`cntFileRemoved, this`maxMemUsed, storage, storage.repr
      ensures returned ==> (Abs(), reply) == HandleAppend(old(Abs()), fd, path, chunk)
      ensures returned && Ready() <==> splice || Survives(old(Abs()), fd, Append(path, chunk))
      ensures storage.repr == old(storage.repr)
    {
      storage.Ends();
      hide Storage.Valid, Newest, HandleUpdate, Outlives, NoShadow, Bytes;
      var file, k := Find(path);
      returned := true;
      if file == null || file.owner != fd {
        reply := Failure;
      } else {
        returned, reply := UpdateFile(file, fd, chunk, splice, turns, k);
      }
      Measure();
    }

    // threadF's dispatch.
    method Dispatch(fd: nat, r: Request, splice: bool, turns: nat) returns (returned: bool, reply: Reply)
      requires Ready() && NoShadow(storage.files) && |storage.files| <= turns
      modifies this`cntFileRemoved, this`created, this`maxMemUsed, storage, storage.repr
      ensures returned ==> (Abs(), reply) == Answer(old(Abs()), fd, r)
      ensures returned && Ready() <==> splice || Survives(old(Abs()), fd, r)
      ensures fresh(storage.repr - old(storage.repr))
    {
      hide Storage.Valid, HandleOpen, HandleRead, HandleReadN, HandleAppend, HandleClose, NoShadow, Outlives, Torn, Newest;
      returned := true;
      match r {
        case Open(path, flag) => reply := OpenFile(path, fd, flag, splice);
        case Read(path) => reply := ReadFile(path, fd);
        case ReadN(n) => reply := ReadNFiles(n);
        case Append(path, chunk) => returned, reply := AppendToFile(path, fd, chunk, splice, turns);
        case Close(path) => reply := CloseFile(path, fd);
      }
    }

    // One request at a time, what the server does is `Handle`, exactly as long as the
    // request survives the code as written.
    method Serve(fd: nat, r: Request, splice: bool, turns: nat) returns (returned: bool, reply: Reply)
      requires Ready() && Good(Abs()) && |storage.files| <= turns
      modifies this, storage, storage.repr
      ensures returned ==> (Abs(), reply) == Handle(old(Abs()), fd, r)
      ensures returned && Ready() <==> splice || Survives(old(Abs()), fd, r)
      ensures returned && Ready() ==> Good(Abs())
      ensures fresh(storage.repr - old(storage.repr))
    {
      HandleKeepsGood(Abs(), fd, r);
      hide Storage.Valid, Answer, Survives, NoShadow, Bytes;
      returned, reply := Dispatch(fd, r, splice, turns);
      peak := Max(peak, Bytes(storage.files));
    }

    // The requests of a run, one after another, up to the first that the code as written
    // does not survive: replies and store are those of the run, and it comes to the end
    // with a proper list exactly when every request survives.
    method ServeAll(calls: seq<Call>, splice: bool, turns: nat) returns (returned: bool, replies: seq<Reply>)
      requires Ready() && Good(Abs()) && storage.nfileTot <= turns
      requires splice || calls == [] || AllSurvive(Abs(), calls[..|calls| - 1])
      modifies this, storage, storage.repr
      ensures returned && Ready() <==> splice || AllSurvive(old(Abs()), calls)
      ensures returned ==> Abs() == Run(old(Abs()), calls) && replies == Replies(old(Abs()), calls)
      ensures returned && Ready() ==> Good(Abs())
    {
      hide Storage.Valid, Survives, Handle, NoShadow, Bytes;
      ghost var s := Abs();
      returned, replies := true, [];
      var i := 0;
      while i < |calls|
        invariant i <= |calls| && fresh(storage.repr - old(storage.repr))
        invariant returned && Abs() == Run(s, calls[..i]) && replies == Replies(s, calls[..i])
        invariant Ready() <==> splice || AllSurvive(s, calls[..i])
        invariant Ready() ==> Good(Abs()) && storage.nfileTot <= turns
      {
        assert calls[..i + 1][..i] == calls[..i] && calls[..i + 1][i] == calls[i];
        if i + 1 < |calls| { SurviveSoFar(s, calls, i + 1); } else { assert calls[..|calls| - 1] == calls[..i]; }
        if splice { } else { SurviveSoFar(s, calls, i); }
        HandleKeepsTotals(Abs(), calls[i].fd, calls[i].request);
        var reply;
        returned, reply := Serve(calls[i].fd, calls[i].request, splice, turns);
        if !returned {
          return;
        }
        replies := replies + [reply];
        i := i + 1;
      }
      assert calls[..|calls|] == calls;
    }

    lemma SurviveSoFar(s: Store, calls: seq<Call>, i: nat)
      requires i < |calls|
      ensures AllSurvive(s, calls[..|calls| - 1]) ==> AllSurvive(s, calls[..i])
    {
      hide Survives, Handle;
      if AllSurvive(s, calls[..|calls| - 1]) { FewerSurvive(s, calls[..|calls| - 1], i); }
      assert calls[..|calls| - 1][..i] == calls[..i];
    }
  }
}
