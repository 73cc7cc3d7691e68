// The doubly linked store, as includes/file_storage.c changes it in place, used
// by one request at a time.
module FileStorage {
  import opened Files

  const TIMER := 30  // rounds an eviction tries before it gives up

  class Node {
    var fileSz: nat
    var pathname: string
    var owner: int     // fdClient_id: the descriptor that holds the file open, or CLOSED
    var modified: int
    var buffer: seq<Byte>  // content_file: the allocated bytes, fileSz of them in use
    var son: Node?     // the next older file
    var father: Node?  // the next newer file
    var freed: bool    // handed back to the allocator

    // createFileNode
    constructor (name: string, fd: int)
      ensures View() == File(name, fd, EMPTY, []) && Sound()
      ensures son == null && father == null
    {
      fileSz := 0;
      owner := fd;
      son, father := null, null;
      pathname := name;
      buffer := [0, 0];
      modified := EMPTY;
      freed := false;
    }

    ghost function View(): File
      reads `pathname, `owner, `modified, `fileSz, `buffer
    {
      File(pathname, owner, modified, if fileSz <= |buffer| then buffer[..fileSz] else [])
    }

    // Allocated, with room for the bytes it says it has.
    ghost predicate Sound()
      reads `freed, `fileSz, `buffer
    {
      !freed && fileSz <= |buffer|
    }

    // The buffer grows in place and takes the chunk behind what is in it.
    method Grow(chunk: seq<Byte>)
      requires Sound()
      modifies `buffer, `fileSz, `modified
      ensures Sound() && View() == Appended(old(View()), chunk)
    {
      GrowAppends(buffer, fileSz, chunk);
      buffer := Realloc(buffer, |chunk| + fileSz + 1);
      buffer := Memcpy(buffer, fileSz, chunk);
      fileSz := fileSz + |chunk|;
      modified := FILLED;
    }
  }

  ghost predicate Distinct(s: seq<Node>) {
    forall i, j :: 0 <= i < j < |s| ==> s[i] != s[j]
  }

  lemma DistinctRemove(s: seq<Node>, k: int)
    requires Distinct(s) && 0 <= k < |s|
    ensures Distinct(Remove(s, k))
  {
  }

  // The sons lead from s[0] through s, and end after it.
  ghost predicate SonChain(s: seq<Node>)
    reads s`son
  {
    && (forall i {:trigger s[i].son} :: 0 <= i < |s| - 1 ==> s[i].son == s[i + 1])
    && (s != [] ==> s[|s| - 1].son == null)
  }

  // The fathers lead back the same way.
  ghost predicate FatherChain(s: seq<Node>)
    reads s`father
  {
    && (forall i {:trigger s[i].father} :: 0 < i < |s| ==> s[i].father == s[i - 1])
    && (s != [] ==> s[0].father == null)
  }

  // Once its two neighbours lead to each other, both chains skip the node at k.
  lemma ChainSkips(s: seq<Node>, k: int)
    requires 0 < k < |s| - 1
    requires forall i {:trigger s[i].son} :: 0 <= i < |s| - 1 && i != k - 1 && i != k ==> s[i].son == s[i + 1]
    requires forall i {:trigger s[i].father} :: 0 < i < |s| && i != k && i != k + 1 ==> s[i].father == s[i - 1]
    requires s[k - 1].son == s[k + 1] && s[k + 1].father == s[k - 1]
    requires s[|s| - 1].son == null && s[0].father == null
    ensures SonChain(Remove(s, k)) && FatherChain(Remove(s, k))
  {
    var r := Remove(s, k);
    forall i {:trigger r[i].son} | 0 <= i < |r| - 1 ensures r[i].son == r[i + 1] {
      assert r[i] == s[if i < k then i else i + 1];
    }
    forall i {:trigger r[i].father} | 0 < i < |r| ensures r[i].father == r[i - 1] {
      assert r[i] == s[if i < k then i else i + 1];
    }
  }

  // Node by node, `ns` holds the files `fs`.
  ghost predicate Mirror(ns: seq<Node>, fs: seq<File>)
    reads ns`pathname, ns`owner, ns`modified, ns`fileSz, ns`buffer, ns`freed
  {
    && |fs| == |ns|
    && forall i {:trigger ns[i]} :: 0 <= i < |ns| ==> ns[i].Sound() && ns[i].View() == fs[i]
  }

  // The node taken out is the only one that need not hold its file any more.
  lemma MirrorRemove(ns: seq<Node>, fs: seq<File>, k: int)
    requires |fs| == |ns| && 0 <= k < |ns|
    requires forall i {:trigger ns[i]} :: 0 <= i < |ns| && i != k ==> ns[i].Sound() && ns[i].View() == fs[i]
    ensures Mirror(Remove(ns, k), Remove(fs, k))
  {
    forall i | 0 <= i < |ns| - 1 
      ensures Remove(ns, k)[i].Sound() && Remove(ns, k)[i].View() == Remove(fs, k)[i]
    {
      assert Remove(ns, k)[i] == ns[if i < k then i else i + 1];
    }
  }

  // `n` and `f` stand at the same place in `ns` and `fs`.
  ghost predicate Pairs(ns: seq<Node>, fs: seq<File>, n: Node, f: File) {
    |fs| == |ns| && exists i :: 0 <= i < |ns| && ns[i] == n && fs[i] == f
  }

  lemma HoldsRemoved(ns: seq<Node>, fs: seq<File>, k: int, n: Node, f: File)
    requires |ns| == |fs| && 0 <= k < |ns|
    ensures Pairs(ns, fs, n, f) && fs[k] != f ==> Pairs(Remove(ns, k), Remove(fs, k), n, f)
  {
    if Pairs(ns, fs, n, f) && fs[k] != f {
      var i :| 0 <= i < |ns| && ns[i] == n && fs[i] == f;
      var j := if i < k then i else i - 1;
      assert Remove(ns, k)[j] == n && Remove(fs, k)[j] == f;
    }
  }

  // The pointers alone decide which nodes the store holds: two chains that
  // start at the same node are the same.
  lemma {:induction false} ChainIsUnique(s: seq<Node>, t: seq<Node>)
    requires SonChain(s) && SonChain(t)
    requires s != [] && t != [] && s[0] == t[0]
    ensures s == t
  {
    if |s| == 1 || |t| == 1 {
      assert s[0].son == t[0].son;
    } else {
      assert s[0].son == s[1] && t[0].son == t[1];
      assert SonChain(s[1..]) by { Tail(s); }
      assert SonChain(t[1..]) by { Tail(t); }
      ChainIsUnique(s[1..], t[1..]);
      assert s == [s[0]] + s[1..] && t == [t[0]] + t[1..];
    }
  }

  lemma Tail(s: seq<Node>)
    requires SonChain(s) && |s| > 1
    ensures SonChain(s[1..])
  {
    forall i {:trigger s[1..][i].son} | 0 <= i < |s[1..]| - 1 ensures s[1..][i].son == s[1..][i + 1] {
      assert s[i + 1].son == s[i + 2];
    }
  }

  // The cursor the append's loop takes over from removeFile, and how the loop can
  // end: with room, by following an unset cursor, or not within the turns watched.
  datatype Cursor = Unset | At(node: Node?)
  datatype Ending = Enough | WildCursor | StillTurning

  // As written the append's eviction finishes exactly when it has nothing to step
  // over.  Otherwise it follows an unset pointer at once, or turns for ever.
  ghost predicate Outcome(size: nat, fs: seq<File>, short: int, turns: nat, ending: Ending) {
    var goal := Room(size);
    && (NoSkip(goal, fs, short) ==> ending == if turns < |Seen(goal, fs, short)| then StillTurning else Enough)
    && (!NoSkip(goal, fs, short) ==> ending != Enough)
    && (ending == WildCursor <==> 0 < turns && 0 < short && fs != [] && !Evictable(fs[|fs| - 1]))
  }

  // The turns left say how many files have gone, unless the loop is stuck on one.
  ghost predicate Counted(current: Cursor, m: int, fs: seq<File>, turns: nat, left: nat) {
    && 0 < m <= |fs|
    && (current == Unset <==> m == |fs|)
    && (left == turns - (|fs| - m) || (left <= turns - (|fs| - m) && m < |fs| && !Evictable(fs[m - 1])))
    && (m < |fs| ==> Evictable(fs[|fs| - 1]))
  }

  // What an append's eviction set out from: the room it needs, the files, how much it
  // was short of, the turns it is watched for, and the report so far.
  datatype Trim = Trim(size: nat, fs: seq<File>, short: int, turns: nat, path: string, removed: nat)

  datatype Update = Stored | Refused | NeverReturns(how: Ending)

  class Storage {
    var ramTot: nat
    var ramDispo: int
    var nfileTot: nat
    var nfileDispo: int
    var head: Node?
    var last: Node?
    ghost var nodes: seq<Node>  // from head to last
    ghost var repr: set<Node>   // every node ever inserted
    ghost var files: seq<File>  // what the nodes hold

    // head and last are the ends of a chain of sons through `nodes`.
    ghost predicate Spans()
      reads `head, `last, `nodes, `repr, nodes`son
    {
      && (forall i {:trigger nodes[i]} :: 0 <= i < |nodes| ==> nodes[i] in repr)
      && Distinct(nodes) && SonChain(nodes)
      && head == (if nodes == [] then null else nodes[0])
      && last == (if nodes == [] then null else nodes[|nodes| - 1])
    }

    // ... and father undoes son all the way.
    ghost predicate Linked()
      reads `head, `last, `nodes, `repr, nodes`son, nodes`father
    {
      Spans() && FatherChain(nodes)
    }

    // The budgets are what the files leave free, and are not overdrawn.
    ghost predicate Accounts()
      reads this
    {
      && |files| == nfileTot - nfileDispo && 0 <= nfileDispo
      && Bytes(files) == ramTot - ramDispo && 0 <= ramDispo
    }

    // A proper store: linked both ways, no freed node in it, both budgets exact.
    ghost predicate Valid()
      reads this, nodes
    {
      Linked() && Mirror(nodes, files) && Accounts()
    }

    // createStorage
    constructor (ram: nat, nfile: nat)
      ensures Valid() && nodes == [] && files == [] && ramTot == ram && nfileTot == nfile
      ensures ramDispo == ram && nfileDispo == nfile
    {
      head, last := null, null;
      nfileDispo, nfileTot := nfile, nfile;
      ramDispo, ramTot := ram, ram;
      nodes, files, repr := [], [], {};
    }

    // Where the removal goes wrong: between a father and a son.
    ghost predicate InMiddle(k: int)
      reads `nodes
    {
      0 < k < |nodes| - 1
    }

    // After a removal from the middle the sons still lead through the freed node.
    ghost predicate BrokenAt(k: int)
      reads this, nodes
      ensures BrokenAt(k) ==> !Valid()
    {
      Spans() && InMiddle(k) && nodes[k].freed && |files| < |nodes|
    }

    // The relinking inside removeFile.  As written (`splice` false), in the middle
    // only the removed node's own links change, so its neighbours keep leading to
    // it; what it is meant to do is let the neighbours meet and move the cursor to
    // the father.
    method Relink(f: Node, splice: bool, ghost k: int) returns (current: Node?)
      requires Linked() && 0 <= k < |nodes| && nodes[k] == f
      modifies `head, `last, `nodes, nodes`son, nodes`father
      ensures Spans()
      ensures splice || !old(InMiddle(k)) ==> Linked() && nodes == Remove(old(nodes), k)
      ensures splice || !old(InMiddle(k)) ==> current == if k == 0 then null else old(nodes)[k - 1]
      ensures !splice && old(InMiddle(k)) ==> nodes == old(nodes) && current == nodes[k + 1]
    {
      DistinctRemove(nodes, k);
      if f.son == null {
        assert k == |nodes| - 1;
        if f.father == null {
          head, last, current := null, null, null;
        } else {
          last := f.father;
          last.son := null;
          current := last;
        }
        nodes := Remove(nodes, k);
        assert Linked();
      } else {
        if f.father == null {
          assert k == 0;
          head := f.son;
          f.son.father := null;
          current := null;
          nodes := Remove(nodes, k);
          assert Linked();
        } else if splice {
          f.father.son := f.son;
          f.son.father := f.father;
          current := f.father;
          ChainSkips(nodes, k);
          nodes := Remove(nodes, k);
        } else {
          f.father := f.son;
          f.son := f.father;
          current := f.father;
          assert Spans();
        }
      }
    }

    // The bookkeeping inside removeFile: the freed bytes and the slot go back to
    // the budgets, then the node to the allocator.
    method Release(f: Node, ghost ns: seq<Node>, ghost k: int, ghost intact: bool)
      requires Mirror(ns, files) && Accounts() && Distinct(ns) && 0 <= k < |ns| && ns[k] == f
      requires Spans() && (intact ==> Linked() && nodes == Remove(ns, k))
      modifies `ramDispo, `nfileDispo, `files, f`freed
      ensures f.freed && files == Remove(old(files), k) && Accounts()
      ensures Spans() && (intact ==> Valid())
    {
      hide SonChain, FatherChain;
      BytesRemove(files, k);
      assert |f.View().data| == f.fileSz;
      ramDispo := ramDispo + f.fileSz;
      nfileDispo := nfileDispo + 1;
      files := Remove(files, k);
      f.freed := true;
      MirrorRemove(ns, old(files), k);
    }

    // Relinking touches links only: the nodes still hold their files.
    method Detach(f: Node, splice: bool, ghost k: int) returns (current: Node?)
      requires Linked() && Mirror(nodes, files) && 0 <= k < |nodes| && nodes[k] == f
      modifies `head, `last, `nodes, nodes`son, nodes`father
      ensures Spans() && Mirror(old(nodes), files)
      ensures splice || !old(InMiddle(k)) ==> Linked() && nodes == Remove(old(nodes), k)
      ensures splice || !old(InMiddle(k)) ==> current == if k == 0 then null else old(nodes)[k - 1]
      ensures !splice && old(InMiddle(k)) ==> nodes == old(nodes) && current == nodes[k + 1]
    {
      current := Relink(f, splice, k);
    }

    // Relinking and bookkeeping together.
    method TakeOut(f: Node, splice: bool, ghost k: int) returns (current: Node?)
      requires Valid() && 0 <= k < |nodes| && nodes[k] == f
      modifies this, nodes
      ensures ramTot == old(ramTot) && nfileTot == old(nfileTot) && repr == old(repr)
      ensures files == Remove(old(files), k) && Accounts()
      ensures splice || !old(InMiddle(k)) ==> Valid() && nodes == Remove(old(nodes), k)
      ensures splice || !old(InMiddle(k)) ==> current == if k == 0 then null else old(nodes)[k - 1]
      ensures !splice && old(InMiddle(k)) ==> BrokenAt(k) && nodes == old(nodes) && current == nodes[k + 1]
    {
      hide SonChain, FatherChain, Mirror, Bytes;
      current := Detach(f, splice, k);
      Release(f, old(nodes), k, splice || !old(InMiddle(k)));
    }

    // removeFile.  As written (`splice` false) the list survives exactly when the
    // removed file is its first or last; with the neighbours spliced, always.
    method RemoveFile(f: Node, rmPath: string, nRemoved: nat, splice: bool, ghost k: int)
      returns (removed: bool, rmPath': string, current: Node?, nRemoved': nat)
      requires Valid() && 0 <= k < |nodes| && nodes[k] == f
      modifies this, nodes
      ensures ramTot == old(ramTot) && nfileTot == old(nfileTot) && repr == old(repr) && Accounts()
      ensures removed == Evictable(old(files)[k])
      ensures !removed ==> unchanged(this) && unchanged(nodes)
      ensures !removed ==> rmPath' == rmPath && nRemoved' == nRemoved
      ensures removed ==> rmPath' == rmPath + ("," + old(files)[k].path) && nRemoved' == nRemoved + 1
      ensures removed ==> files == Remove(old(files), k)
      ensures Valid() <==> !(removed && !splice && old(InMiddle(k)))
      ensures removed && Valid() ==> nodes == Remove(old(nodes), k)
      ensures removed && Valid() ==> current == if k == 0 then null else old(nodes)[k - 1]
      ensures !Valid() ==> BrokenAt(k) && nodes == old(nodes) && current == nodes[k + 1]
    {
      removed := f.owner == CLOSED && f.modified == FILLED;
      rmPath', current, nRemoved' := rmPath, null, nRemoved;
      if removed {
        rmPath', nRemoved' := rmPath + ("," + f.pathname), nRemoved + 1;
        current := TakeOut(f, splice, k);
        assert !splice && old(InMiddle(k)) ==> |files| < |nodes|;
      }
    }

    // What the list is short of for `goal`; the guards of both eviction loops.
    predicate Lacks(goal: Goal)
      reads this
    {
      match goal
      case Slot => nfileDispo <= 0
      case Room(size) => ramDispo - size < 0
    }

    ghost function ShortNow(goal: Goal): int
      reads this
    {
      Short(goal, nfileTot, ramTot, files)
    }

    // `n` is a node of the list and holds `f`.
    ghost predicate Holds(n: Node, f: File)
      reads this
    {
      Pairs(nodes, files, n, f)
    }

    // What the sweep loops need of a proper store.
    lemma Ends()
      requires Valid()
      ensures Accounts() && |nodes| == |files|
      ensures last == if nodes == [] then null else nodes[|nodes| - 1]
      ensures head == if nodes == [] then null else nodes[0]
    {
    }

    lemma NodeAt(k: int)
      requires Valid() && 0 <= k < |nodes|
      ensures |nodes| == |files| && nodes[k] in repr && nodes[k].View() == files[k] && nodes[k].Sound()
      ensures nodes[k].son == if k + 1 < |nodes| then nodes[k + 1] else null
    {
    }

    // An eviction from `fs` has visited everything after index i.
    ghost predicate Swept(goal: Goal, fs: seq<File>, i: int, path0: string, path: string, n0: nat, n: nat)
      reads this
    {
      Visited(goal, nfileTot, ramTot, fs, i, files, path0, path, n0, n)
    }

    // One turn of the eviction loop: test the file under the cursor, move on.
    method Visit(cursor: Node, rmPath: string, nRemoved: nat, ghost goal: Goal, ghost fs: seq<File>,
                 ghost i: int, ghost path0: string, ghost n0: nat, ghost keep: Node, ghost kept: File)
      returns (rmPath': string, nRemoved': nat, next: Node?)
      requires Valid() && 0 <= i < |nodes| && nodes[i] == cursor && 0 < ShortNow(goal)
      requires Swept(goal, fs, i, path0, rmPath, n0, nRemoved)
      modifies this, nodes
      ensures Valid() && ramTot == old(ramTot) && nfileTot == old(nfileTot) && repr == old(repr)
      ensures Swept(goal, fs, i - 1, path0, rmPath', n0, nRemoved') && i <= |nodes|
      ensures next == if i == 0 then null else nodes[i - 1]
      ensures old(Holds(keep, kept)) && !Evictable(kept) ==> Holds(keep, kept)
    {
      VisitNext(goal, nfileTot, ramTot, fs, i, files, path0, rmPath, n0, nRemoved);
      var removed;
      removed, rmPath', next, nRemoved' := RemoveFile(cursor, rmPath, nRemoved, true, i);
      if !removed {
        next := cursor.father;
      } else {
        HoldsRemoved(old(nodes), old(files), i, keep, kept);
      }
    }

    // One round of eviction as the code means it: from `last` towards `head`,
    // stepping over what may not go.  A file that may not go stays.
    method Sweep(goal: Goal, rmPath: string, nRemoved: nat, ghost keep: Node, ghost kept: File)
      returns (rmPath': string, nRemoved': nat)
      requires Valid()
      modifies this, repr
      ensures Valid() && ramTot == old(ramTot) && nfileTot == old(nfileTot) && repr == old(repr)
      ensures Evicts(goal, old(files), old(ShortNow(goal)), files, rmPath, rmPath', nRemoved, nRemoved')
      ensures Stop(goal, old(files), old(ShortNow(goal))) == 0 || !Lacks(goal)
      ensures old(Holds(keep, kept)) && !Evictable(kept) ==> Holds(keep, kept)
    {
      hide Visited, Evicts, Stop, Pairs, Bytes;
      rmPath', nRemoved' := rmPath, nRemoved;
      ghost var i := |files| - 1;
      SweepStarts(goal, nfileTot, ramTot, files, rmPath, nRemoved);
      var cursor := last;
      while cursor != null && Lacks(goal)
        invariant Valid() && ramTot == old(ramTot) && nfileTot == old(nfileTot) && repr == old(repr)
        invariant Swept(goal, old(files), i, rmPath, rmPath', nRemoved, nRemoved')
        invariant -1 <= i < |nodes| && cursor == if i < 0 then null else nodes[i]
        invariant old(Holds(keep, kept)) && !Evictable(kept) ==> Holds(keep, kept)
        decreases i
      {
        rmPath', nRemoved', cursor :=
          Visit(cursor, rmPath', nRemoved', goal, old(files), i, rmPath, nRemoved, keep, kept);
        i := i - 1;
      }
      SweepEnds(goal, nfileTot, ramTot, old(files), i, files, rmPath, rmPath', nRemoved, nRemoved');
    }

    // The eviction as the code means it: rounds until there is enough, or TIMER
    // of them have not helped.
    method MakeRoom(goal: Goal, rmPath: string, nRemoved: nat, ghost keep: Node, ghost kept: File)
      returns (rmPath': string, nRemoved': nat)
      requires Valid()
      modifies this, repr
      ensures Valid() && ramTot == old(ramTot) && nfileTot == old(nfileTot) && repr == old(repr)
      ensures Evicts(goal, old(files), old(ShortNow(goal)), files, rmPath, rmPath', nRemoved, nRemoved')
      ensures old(Holds(keep, kept)) && !Evictable(kept) ==> Holds(keep, kept)
    {
      rmPath', nRemoved' := rmPath, nRemoved;
      ghost var fs, short := files, ShortNow(goal);
      if short <= 0 {
        SweepStarts(goal, nfileTot, ramTot, fs, rmPath, nRemoved);
        SweepEnds(goal, nfileTot, ramTot, fs, |fs| - 1, fs, rmPath, rmPath, nRemoved, nRemoved);
      }
      var cnt := 0;
      while Lacks(goal) && cnt < TIMER
        invariant 0 <= cnt <= TIMER
        invariant Valid() && ramTot == old(ramTot) && nfileTot == old(nfileTot) && repr == old(repr)
        invariant cnt == 0 ==> files == fs && rmPath' == rmPath && nRemoved' == nRemoved
        invariant 0 < cnt ==> Evicts(goal, fs, short, files, rmPath, rmPath', nRemoved, nRemoved')
        invariant 0 < cnt ==> (Stop(goal, fs, short) == 0 || !Lacks(goal))
        invariant old(Holds(keep, kept)) && !Evictable(kept) ==> Holds(keep, kept)
      {
        if 0 < cnt {
          assert fs[0..] == fs && files == Kept(fs);
          SecondRound(goal, fs, ShortNow(goal));
        }
        rmPath', nRemoved' := Sweep(goal, rmPath', nRemoved', keep, kept);
        cnt := cnt + 1;
      }
    }

    // Nothing has changed yet.
    ghost predicate Untouched(fs: seq<File>, ns: seq<Node>)
      reads this, nodes
    {
      Valid() && files == fs && nodes == ns
    }

    // As written, one file of `fs` is gone, from index j of the nodes `ns`, or
    // none is and j is past the end.  The list is whole or torn accordingly.
    ghost predicate GoneAt(j: int, fs: seq<File>, ns: seq<Node>)
      reads this, nodes
    {
      && (Valid() <==> !(0 < j < |fs| - 1))
      && (!Valid() ==> BrokenAt(j) && nodes == ns)
    }

    // One turn of the create's eviction loop, as written.
    method VisitAsWritten(cursor: Node, rmPath: string, nRemoved: nat, ghost fs: seq<File>,
                          ghost i: int, ghost path0: string, ghost n0: nat)
      returns (rmPath': string, nRemoved': nat, next: Node?)
      requires Untouched(fs, nodes) && 0 <= i < |nodes| && nodes[i] == cursor && 0 < ShortNow(Slot)
      requires Swept(Slot, fs, i, path0, rmPath, n0, nRemoved)
      modifies this, nodes
      ensures ramTot == old(ramTot) && nfileTot == old(nfileTot) && repr == old(repr) && Accounts()
      ensures Swept(Slot, fs, i - 1, path0, rmPath', n0, nRemoved')
      ensures Lacks(Slot) ==> Untouched(fs, old(nodes)) && next == if i == 0 then null else nodes[i - 1]
      ensures !Lacks(Slot) ==> GoneAt(i, fs, old(nodes))
    {
      VisitNext(Slot, nfileTot, ramTot, fs, i, files, path0, rmPath, n0, nRemoved);
      var removed;
      removed, rmPath', next, nRemoved' := RemoveFile(cursor, rmPath, nRemoved, false, i);
      if !removed {
        next := cursor.father;
      }
    }

    // A round of the create's eviction, as written.  One removal is enough, and
    // the store survives it exactly when the oldest evictable file is not in the
    // middle of the list.
    method SweepAsWritten(rmPath: string, nRemoved: nat) returns (rmPath': string, nRemoved': nat)
      requires Valid()
      modifies this, repr
      ensures ramTot == old(ramTot) && nfileTot == old(nfileTot) && repr == old(repr) && Accounts()
      ensures Evicts(Slot, old(files), old(ShortNow(Slot)), files, rmPath, rmPath', nRemoved, nRemoved')
      ensures GoneAt(Stop(Slot, old(files), old(ShortNow(Slot))), old(files), old(nodes))
      ensures Lacks(Slot) ==> Untouched(old(files), old(nodes))
    {
      hide Visited, Evicts, Stop, BrokenAt, Bytes;
      rmPath', nRemoved' := rmPath, nRemoved;
      ghost var i := |files| - 1;
      SweepStarts(Slot, nfileTot, ramTot, files, rmPath, nRemoved);
      var cursor := last;
      while cursor != null && Lacks(Slot)
        invariant ramTot == old(ramTot) && nfileTot == old(nfileTot) && repr == old(repr)
        invariant Untouched(old(files), old(nodes))
        invariant Swept(Slot, old(files), i, rmPath, rmPath', nRemoved, nRemoved')
        invariant -1 <= i < |nodes| && cursor == if i < 0 then null else nodes[i]
        invariant Lacks(Slot) || i == |nodes| - 1
        decreases i
      {
        rmPath', nRemoved', cursor := VisitAsWritten(cursor, rmPath', nRemoved', old(files), i, rmPath, nRemoved);
        i := i - 1;
        if !Lacks(Slot) {
          break;
        }
      }
      SweepEnds(Slot, nfileTot, ramTot, old(files), i, files, rmPath, rmPath', nRemoved, nRemoved');
    }

    // insertCreateFile's eviction, as written, with its TIMER rounds.
    method MakeRoomAsWritten(rmPath: string, nRemoved: nat) returns (rmPath': string, nRemoved': nat)
      requires Valid()
      modifies this, repr
      ensures ramTot == old(ramTot) && nfileTot == old(nfileTot) && repr == old(repr) && Accounts()
      ensures Evicts(Slot, old(files), old(ShortNow(Slot)), files, rmPath, rmPath', nRemoved, nRemoved')
      ensures GoneAt(Stop(Slot, old(files), old(ShortNow(Slot))), old(files), old(nodes))
    {
      Ends();
      hide Visited, Stop, BrokenAt, Bytes, Valid, Evict, Seen;
      rmPath', nRemoved' := rmPath, nRemoved;
      ghost var fs, short := files, ShortNow(Slot);
      SweepStarts(Slot, nfileTot, ramTot, fs, rmPath, nRemoved);
      if short <= 0 {
        SweepEnds(Slot, nfileTot, ramTot, fs, |fs| - 1, fs, rmPath, rmPath, nRemoved, nRemoved);
      }
      var cnt := 0;
      while Lacks(Slot) && cnt < TIMER
        invariant 0 <= cnt <= TIMER
        invariant ramTot == old(ramTot) && nfileTot == old(nfileTot) && repr == old(repr) && Accounts()
        invariant cnt == 0 || Lacks(Slot) ==> Untouched(fs, old(nodes)) && rmPath' == rmPath && nRemoved' == nRemoved
        invariant 0 < cnt || !Lacks(Slot) ==>
          Evicts(Slot, fs, short, files, rmPath, rmPath', nRemoved, nRemoved') && GoneAt(Stop(Slot, fs, short), fs, old(nodes))
      {
        rmPath', nRemoved' := SweepAsWritten(rmPath', nRemoved');
        if Lacks(Slot) {
          Fruitless(Slot, fs, short);
        }
        cnt := cnt + 1;
      }
    }

    // Links a new node in front of `head`, and takes its slot.
    method PushHead(node: Node)
      requires Spans() && node !in repr && node.son == null && node.father == null
      modifies `head, `last, `nodes, `repr, `nfileDispo, `files, node`son, nodes`father
      ensures Spans() && nodes == [node] + old(nodes) && repr == old(repr) + {node}
      ensures old(Linked()) ==> Linked()
      ensures nfileDispo == old(nfileDispo) - 1 && files == [old(node.View())] + old(files)
    {
      if head == null && last == null {
        head, last := node, node;
      } else {
        var oldHead := head;
        head := node;
        node.son := oldHead;
        oldHead.father := node;
      }
      nfileDispo := nfileDispo - 1;
      nodes, repr, files := [node] + nodes, repr + {node}, [node.View()] + files;
    }

    // On a proper store this keeps it proper, on a torn one it stays torn.
    method Insert(node: Node, ghost k: int)
      requires Valid() || BrokenAt(k)
      requires Accounts() && 0 < nfileDispo && |node.View().data| == 0 && node.Sound()
      requires node !in repr && node.son == null && node.father == null
      modifies `head, `last, `nodes, `repr, `nfileDispo, `files, node`son, repr`father
      ensures nodes == [node] + old(nodes) && repr == old(repr) + {node}
      ensures files == [old(node.View())] + old(files) && Accounts()
      ensures old(Valid()) ==> Valid()
      ensures !old(Valid()) ==> BrokenAt(k + 1)
    {
      PushHead(node);
    }

    // insertCreateFile.  It fails exactly when no slot is free and no file may be
    // evicted; as written it leaves a torn list exactly when the file it evicts has
    // neighbours on both sides.
    method InsertCreateFile(node: Node, rmPath: string, nRemoved: nat, splice: bool)
      returns (ok: bool, rmPath': string, nRemoved': nat)
      requires Valid() && node !in repr && node.Sound() && node.son == null && node.father == null
      requires |node.View().data| == 0
      modifies this, repr, node
      ensures ramTot == old(ramTot) && nfileTot == old(nfileTot) && Accounts()
      ensures ok <==> old(ShortNow(Slot)) <= Freed(Slot, old(files))
      ensures repr == old(repr) + if ok then {node} else {}
      ensures var kept := Evict(Slot, old(files), old(ShortNow(Slot)));
        files == if ok then [old(node.View())] + kept else kept
      ensures rmPath' == rmPath + Notice(Seen(Slot, old(files), old(ShortNow(Slot))))
      ensures nRemoved' == nRemoved + Victims(Seen(Slot, old(files), old(ShortNow(Slot))))
      ensures Valid() <==> splice || !Torn(old(files), old(ShortNow(Slot)))
      ensures Valid() && ok ==> nodes[0] == node
      ensures !Valid() && ok ==> BrokenAt(Stop(Slot, old(files), old(ShortNow(Slot))) + 1) && nodes == [node] + old(nodes)
    {
      EnoughOrNot(Slot, nfileTot, ramTot, files);
      hide Stop, BrokenAt, Bytes, Valid, Evict, Seen, Freed, Notice, Victims;
      ghost var f, k := node.View(), Stop(Slot, files, ShortNow(Slot));
      if splice {
        rmPath', nRemoved' := MakeRoom(Slot, rmPath, nRemoved, node, f);
      } else {
        rmPath', nRemoved' := MakeRoomAsWritten(rmPath, nRemoved);
      }
      if nfileDispo <= 0 {
        return false, rmPath', nRemoved';
      }
      Insert(node, k);
      ok := true;
    }

    // One turn of the append's eviction loop, as written, with the cursor at `last`.
    method VisitLast(cursor: Node, rmPath: string, nRemoved: nat, ghost b: Trim, ghost m: int,
                     ghost keep: Node, ghost kept: File)
      returns (removed: bool, rmPath': string, nRemoved': nat, next: Node?)
      requires Valid() && nodes != [] && nodes[|nodes| - 1] == cursor && 0 < ShortNow(Room(b.size))
      requires Swept(Room(b.size), b.fs, m - 1, b.path, rmPath, b.removed, nRemoved) && CutTo(m, b.fs, files)
      requires Holds(keep, kept) && !Evictable(kept)
      modifies this, nodes
      ensures Valid() && ramTot == old(ramTot) && nfileTot == old(nfileTot) && repr == old(repr)
      ensures removed == Evictable(b.fs[m - 1]) && Holds(keep, kept)
      ensures !removed ==> unchanged(this) && unchanged(nodes) && rmPath' == rmPath && nRemoved' == nRemoved
      ensures removed ==> Swept(Room(b.size), b.fs, m - 2, b.path, rmPath', b.removed, nRemoved') && CutTo(m - 1, b.fs, files)
      ensures removed ==> nodes != [] && next == nodes[|nodes| - 1]
    {
      VisitNext(Room(b.size), nfileTot, ramTot, b.fs, m - 1, files, b.path, rmPath, b.removed, nRemoved);
      assert |nodes| == |files| == m && files[m - 1] == b.fs[m - 1];
      hide Visited, Short, Linked, Mirror, Accounts, Pairs;
      removed, rmPath', next, nRemoved' := RemoveFile(cursor, rmPath, nRemoved, false, |nodes| - 1);
      if removed {
        HoldsRemoved(old(nodes), old(files), m - 1, keep, kept);
      }
    }

    // The append's eviction, as written, after some turns: the list has been cut
    // back to m files and the cursor is at its end.
    ghost predicate Trimmed(b: Trim, m: int, current: Cursor, left: nat, path: string, n: nat)
      reads this
    {
      && Swept(Room(b.size), b.fs, m - 1, b.path, path, b.removed, n) && CutTo(m, b.fs, files)
      && b.short == Short(Room(b.size), nfileTot, ramTot, b.fs)
      && nodes != [] && Counted(current, m, b.fs, b.turns, left)
      && (current == Unset || current == At(nodes[|nodes| - 1]))
    }

    // One turn of its loop.  Going on, it reports Enough.
    method Turn(last: Node, current: Cursor, left: nat, rmPath: string, nRemoved: nat,
                ghost b: Trim, ghost m: int, ghost keep: Node, ghost kept: File)
      returns (go: Ending, cursor: Node?, current': Cursor, left': nat, rmPath': string, nRemoved': nat, ghost m': int)
      requires Valid() && Holds(keep, kept) && !Evictable(kept) && 0 < ShortNow(Room(b.size))
      requires Trimmed(b, m, current, left, rmPath, nRemoved) && last == nodes[|nodes| - 1]
      modifies this, nodes
      ensures Valid() && ramTot == old(ramTot) && nfileTot == old(nfileTot) && repr == old(repr)
      ensures Holds(keep, kept)
      ensures go == Enough ==> left' < left && nodes != [] && cursor == this.last == nodes[|nodes| - 1]
      ensures go == Enough ==> Trimmed(b, m', current', left', rmPath', nRemoved')
      ensures go != Enough ==> Outcome(b.size, b.fs, b.short, b.turns, go)
    {
      hide FatherChain, Distinct, Mirror, Holds, Bytes, Kept, Evicts, Freed;
      NextToVisit(b.size, nfileTot, ramTot, b.fs, m, files);
      go, cursor, current', left', rmPath', nRemoved', m' := Enough, last, current, left, rmPath, nRemoved, m;
      if left == 0 {
        go := StillTurning;
        return;
      }
      left' := left - 1;
      var removed, path, n, next := VisitLast(last, rmPath, nRemoved, b, m, keep, kept);
      rmPath', nRemoved' := path, n;
      if removed {
        current', m' := At(next), m - 1;
      } else {
        cursor := cursor.father;
      }
      if current' == Unset {
        go := WildCursor;
        return;
      }
      cursor := current'.node;
    }

    lemma TrimEnds(b: Trim, m: int, current: Cursor, left: nat, path: string, n: nat)
      requires Trimmed(b, m, current, left, path, n) && ShortNow(Room(b.size)) <= 0
      ensures Outcome(b.size, b.fs, b.short, b.turns, Enough)
      ensures Evicts(Room(b.size), b.fs, b.short, files, b.path, path, b.removed, n)
    {
      SweepEnds(Room(b.size), nfileTot, ramTot, b.fs, m - 1, files, b.path, path, b.removed, n);
    }

    // The append's eviction, as written: whatever removeFile says, the cursor goes
    // to `current_file`, which is unset until a removal has set it.  So it never
    // steps over a file.  `turns` bounds how long we watch it.
    method TrimEnd(size: nat, rmPath: string, nRemoved: nat, turns: nat, ghost keep: Node, ghost kept: File)
      returns (ending: Ending, rmPath': string, nRemoved': nat)
      requires Valid() && Holds(keep, kept) && !Evictable(kept)
      modifies this, repr
      ensures Valid() && ramTot == old(ramTot) && nfileTot == old(nfileTot) && repr == old(repr)
      ensures Holds(keep, kept)
      ensures Outcome(size, old(files), old(ShortNow(Room(size))), turns, ending)
      ensures ending == Enough ==> !Lacks(Room(size))
      ensures ending == Enough ==>
        Evicts(Room(size), old(files), old(ShortNow(Room(size))), files, rmPath, rmPath', nRemoved, nRemoved')
    {
      rmPath', nRemoved' := rmPath, nRemoved;
      ghost var b, m := Trim(size, files, ShortNow(Room(size)), turns, rmPath, nRemoved), |files|;
      var current, left, cnt := Unset, turns, 0;
      SweepStarts(Room(size), nfileTot, ramTot, files, rmPath, nRemoved);
      assert Trimmed(b, m, current, left, rmPath', nRemoved');
      Ends();
      hide Trimmed, Holds, Outcome, Evicts, Bytes, Spans, Mirror, FatherChain;
      while Lacks(Room(size)) && cnt < TIMER
        invariant cnt == 0 || !Lacks(Room(size))
        invariant Valid() && ramTot == old(ramTot) && nfileTot == old(nfileTot) && repr == old(repr)
        invariant Holds(keep, kept) && nodes != [] && last == nodes[|nodes| - 1]
        invariant Trimmed(b, m, current, left, rmPath', nRemoved')
      {
        var cursor := last;
        while cursor != null && Lacks(Room(size))
          invariant Valid() && ramTot == old(ramTot) && nfileTot == old(nfileTot) && repr == old(repr)
          invariant Holds(keep, kept) && nodes != [] && cursor == last == nodes[|nodes| - 1]
          invariant Trimmed(b, m, current, left, rmPath', nRemoved')
          decreases left
        {
          ending, cursor, current, left, rmPath', nRemoved', m :=
            Turn(cursor, current, left, rmPath', nRemoved', b, m, keep, kept);
          if ending != Enough {
            return;
          }
        }
        cnt := cnt + 1;
      }
      TrimEnds(b, m, current, left, rmPath', nRemoved');
      ending := Enough;
    }

    // Opening and closing write fdClient_id only.
    method SetOwner(f: Node, fd: int, ghost pos: int)
      requires Valid() && 0 <= pos < |nodes| && nodes[pos] == f
      modifies `files, f`owner
      ensures Valid() && files == old(files)[pos := old(files)[pos].(owner := fd)]
    {
      hide SonChain, FatherChain, Bytes;
      BytesUpdate(files, pos, files[pos].(owner := fd));
      f.owner := fd;
      files := files[pos := files[pos].(owner := fd)];
    }

    method SetModified(f: Node, modified: int, ghost pos: int)
      requires Valid() && 0 <= pos < |nodes| && nodes[pos] == f
      modifies `files, f`modified
      ensures Valid() && files == old(files)[pos := old(files)[pos].(modified := modified)]
    {
      hide SonChain, FatherChain, Bytes;
      BytesUpdate(files, pos, files[pos].(modified := modified));
      f.modified := modified;
      files := files[pos := files[pos].(modified := modified)];
    }

    // The accepted end of UpdateFile.
    method Commit(f: Node, chunk: seq<Byte>, ghost pos: int)
      requires Valid() && 0 <= pos < |nodes| && nodes[pos] == f && |chunk| <= ramDispo
      modifies `files, `ramDispo, f`buffer, f`fileSz, f`modified
      ensures Valid() && files == old(files)[pos := Appended(old(files)[pos], chunk)]
      ensures ramDispo == old(ramDispo) - |chunk|
    {
      hide SonChain, FatherChain, Bytes;
      BytesUpdate(files, pos, Appended(files[pos], chunk));
      f.Grow(chunk);
      ramDispo := ramDispo - |chunk|;
      files := files[pos := Appended(files[pos], chunk)];
    }

    // A first append larger than the whole store costs the file itself.
    method DropTooBig(f: Node, rmPath: string, nRemoved: nat, splice: bool, ghost k: int)
      returns (rmPath': string, nRemoved': nat)
      requires Valid() && 0 <= k < |nodes| && nodes[k] == f
      modifies this, nodes
      ensures ramTot == old(ramTot) && nfileTot == old(nfileTot) && repr == old(repr) && Accounts()
      ensures files == Remove(old(files), k)
      ensures rmPath' == rmPath + ("," + old(files)[k].path) && nRemoved' == nRemoved + 1
      ensures Valid() <==> splice || !old(InMiddle(k))
    {
      SetOwner(f, CLOSED, k);
      SetModified(f, FILLED, k);
      var removed, next;
      removed, rmPath', next, nRemoved' := RemoveFile(f, rmPath, nRemoved, splice, k);
      assert files == Remove(old(files), k);
    }

    // UpdateFile.  Unless the chunk is too big, room is made, and it goes in if
    // there is enough and the file is still open by `fd`.  As written (`splice`
    // false) the call returns exactly when making room has nothing to step over.
    method UpdateFile(f: Node, rmPath: string, fd: int, chunk: seq<Byte>, nRemoved: nat,
                      splice: bool, turns: nat, ghost k: int)
      returns (outcome: Update, rmPath': string, nRemoved': nat)
      requires Valid() && 0 <= k < |nodes| && nodes[k] == f && !Evictable(files[k])
      modifies this, repr
      ensures ramTot == old(ramTot) && nfileTot == old(nfileTot) && repr == old(repr) && Accounts()
      ensures old(TooBig(ramTot, files[k], chunk)) ==> outcome == Refused && files == Remove(old(files), k)
      ensures old(TooBig(ramTot, files[k], chunk)) ==> rmPath' == rmPath + ("," + old(files)[k].path) && nRemoved' == nRemoved + 1
      ensures Valid() <==> splice || !(old(TooBig(ramTot, files[k], chunk)) && old(InMiddle(k)))
      ensures !old(TooBig(ramTot, files[k], chunk)) && !outcome.NeverReturns? ==>
        Updated(old(files), old(ShortNow(Room(|chunk|))), f, k, fd, chunk, outcome, rmPath, rmPath', nRemoved, nRemoved')
      ensures splice || old(TooBig(ramTot, files[k], chunk)) ==> !outcome.NeverReturns?
      ensures outcome.NeverReturns? ==> outcome.how != Enough
      ensures !splice && !old(TooBig(ramTot, files[k], chunk)) ==>
        Outcome(|chunk|, old(files), old(ShortNow(Room(|chunk|))), turns,
                if outcome.NeverReturns? then outcome.how else Enough)
    {
      ghost var kept := files[k];
      if ramTot - |chunk| < 0 && f.modified == EMPTY {
        rmPath', nRemoved' := DropTooBig(f, rmPath, nRemoved, splice, k);
        return Refused, rmPath', nRemoved';
      }
      outcome, rmPath', nRemoved' := Fill(f, rmPath, fd, chunk, nRemoved, splice, turns, k);
    }

    // The same for a chunk that is not too big.
    method Fill(f: Node, rmPath: string, fd: int, chunk: seq<Byte>, nRemoved: nat,
                splice: bool, turns: nat, ghost k: int)
      returns (outcome: Update, rmPath': string, nRemoved': nat)
      requires Valid() && 0 <= k < |nodes| && nodes[k] == f && !Evictable(files[k])
      modifies this, repr
      ensures Valid() && ramTot == old(ramTot) && nfileTot == old(nfileTot) && repr == old(repr)
      ensures !outcome.NeverReturns? ==>
        Updated(old(files), old(ShortNow(Room(|chunk|))), f, k, fd, chunk, outcome, rmPath, rmPath', nRemoved, nRemoved')
      ensures splice ==> !outcome.NeverReturns?
      ensures outcome.NeverReturns? ==> outcome.how != Enough
      ensures !splice ==>
        Outcome(|chunk|, old(files), old(ShortNow(Room(|chunk|))), turns,
                if outcome.NeverReturns? then outcome.how else Enough)
    {
      ghost var kept := files[k];
      assert Holds(f, kept);
      var ending := Enough;
      EnoughOrNot(Room(|chunk|), nfileTot, ramTot, files);
      hide Spans, FatherChain, Mirror, Bytes, Outcome, Holds, Evict, Seen, Freed, Grown;
      if splice {
        rmPath', nRemoved' := MakeRoom(Room(|chunk|), rmPath, nRemoved, f, kept);
      } else {
        ending, rmPath', nRemoved' := TrimEnd(|chunk|, rmPath, nRemoved, turns, f, kept);
      }
      if ending != Enough {
        return NeverReturns(ending), rmPath', nRemoved';
      }
      outcome := Finish(f, fd, chunk, kept);
    }

    // What UpdateFile does once room has been made.
    method Finish(f: Node, fd: int, chunk: seq<Byte>, ghost kept: File) returns (outcome: Update)
      requires Valid() && Holds(f, kept)
      modifies `files, `ramDispo, f`buffer, f`fileSz, f`modified
      ensures Valid()
      ensures outcome == (if old(Lacks(Room(|chunk|))) || fd != kept.owner then Refused else Stored)
      ensures outcome == Refused ==> files == old(files)
      ensures outcome == Stored ==> Grown(f, kept, chunk, old(files))
    {
      ghost var pos :| 0 <= pos < |nodes| && nodes[pos] == f && files[pos] == kept;
      assert f.View() == kept;
      if ramDispo - |chunk| < 0 {
        return Refused;
      }
      if fd != f.owner {
        return Refused;
      }
      Commit(f, chunk, pos);
      assert GrownAt(pos, f, kept, chunk, old(files));
      outcome := Stored;
    }

    // The file of node f was `kept` in `fs` and now has `chunk` appended; nothing
    // else differs.
    ghost predicate GrownAt(pos: int, f: Node, kept: File, chunk: seq<Byte>, fs: seq<File>)
      reads this
    {
      && 0 <= pos < |fs| && |fs| == |nodes| && nodes[pos] == f && fs[pos] == kept
      && files == fs[pos := Appended(kept, chunk)]
    }

    ghost predicate Grown(f: Node, kept: File, chunk: seq<Byte>, fs: seq<File>)
      reads this
    {
      exists pos :: GrownAt(pos, f, kept, chunk, fs)
    }

    // The effect of an append that was not too big and returned.
    ghost predicate Updated(fs: seq<File>, short: int, f: Node, k: int, fd: int, chunk: seq<Byte>, outcome: Update,
                            path0: string, path: string, n0: nat, n: nat)
      reads this
    {
      var goal := Room(|chunk|);
      && 0 <= k < |fs|
      && outcome == (if short <= Freed(goal, fs) && fd == fs[k].owner then Stored else Refused)
      && (outcome == Stored ==> Grown(f, fs[k], chunk, Evict(goal, fs, short)))
      && (outcome == Refused ==> files == Evict(goal, fs, short))
      && path == path0 + Notice(Seen(goal, fs, short)) && n == n0 + Victims(Seen(goal, fs, short))
    }

    // searchFileNode.  The walk is counted by the slots in use, so it needs the list
    // to be as long as the budget says; then it never steps past the last node, and
    // finds the newest file whose path starts with the query.
    method SearchFileNode(path: string) returns (found: Node?, ghost k: nat)
      requires Valid()
      ensures found == null <==> forall f :: f in files ==> !(path <= f.path)
      ensures found != null ==> found in nodes && path <= found.pathname
      ensures k <= |nodes| && (found == null <==> k == |nodes|)
      ensures k < |nodes| ==> nodes[k] == found && path <= files[k].path
      ensures forall i :: 0 <= i < k ==> !(path <= files[i].path)
    {
      var toCheck := nfileTot - nfileDispo;
      var current := head;
      k := 0;
      while toCheck != 0
        invariant 0 <= toCheck && k + toCheck == |nodes|
        invariant current == if k < |nodes| then nodes[k] else null
        invariant forall i :: 0 <= i < k ==> !(path <= files[i].path)
        decreases toCheck
      {
        assert current.View() == files[k];
        if path <= current.pathname {
          assert files[k] in files;
          return current, k;
        }
        current := current.son;
        toCheck := toCheck - 1;
        k := k + 1;
      }
      found := null;
    }
  }
}
