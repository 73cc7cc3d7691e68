// The stored files as values: what an eviction may take, how much it frees and
// where it has to stop.  A store is a sequence of files, newest first: index 0
// is the list's `head`, the last index its `last`.
module Files {

  type Byte = x: int | 0 <= x < 256

  const CLOSED: int := -1  // fdClient_id of a file nobody holds open
  const EMPTY: int := -1   // `modified` of a file created but never written
  const FILLED: int := 1   // `modified` of a file that has content

  datatype File = File(path: string, owner: int, modified: int, data: seq<Byte>)

  // Only a closed file that has been written may be evicted.
  predicate Evictable(f: File) {
    f.owner == CLOSED && f.modified == FILLED
  }

  // What an eviction is for: one free slot, or room for `size` more bytes.
  datatype Goal = Slot | Room(size: nat)

  function Gain(goal: Goal, f: File): nat {
    if goal.Slot? then 1 else |f.data|
  }

  // Bytes held by all files.
  function Bytes(files: seq<File>): nat {
    if files == [] then 0 else |files[0].data| + Bytes(files[1..])
  }

  // What evicting every evictable file of `files` would gain.
  function Freed(goal: Goal, files: seq<File>): nat {
    if files == [] then 0
    else (if Evictable(files[0]) then Gain(goal, files[0]) else 0) + Freed(goal, files[1..])
  }

  // The files that stay, in their order, when every evictable one goes.
  function Kept(files: seq<File>): seq<File> {
    if files == [] then []
    else (if Evictable(files[0]) then [] else [files[0]]) + Kept(files[1..])
  }

  // The reply's list of evicted paths: a comma before each, oldest file first.
  function Notice(files: seq<File>): string {
    if files == [] then ""
    else if Evictable(files[0]) then Notice(files[1..]) + ("," + files[0].path)
    else Notice(files[1..])
  }

  // How many files of `files` are evictable.
  function Victims(files: seq<File>): nat {
    if files == [] then 0 else (if Evictable(files[0]) then 1 else 0) + Victims(files[1..])
  }

  // The eviction stops at `cut`: every file from `cut` on has been visited, the
  // ones visited before the last step were not enough, and either they are
  // enough now or the whole list has been visited.
  ghost predicate StopsAt(goal: Goal, files: seq<File>, short: int, cut: int) {
    && 0 <= cut <= |files|
    && (cut < |files| ==> Freed(goal, files[cut + 1..]) < short)
    && (0 < cut ==> short <= Freed(goal, files[cut..]))
  }

  function Remove<T>(s: seq<T>, k: int): seq<T>
    requires 0 <= k < |s|
  {
    s[..k] + s[k + 1..]
  }

  lemma {:induction false} BytesConcat(a: seq<File>, b: seq<File>)
    ensures Bytes(a + b) == Bytes(a) + Bytes(b)
  {
    if a == [] {
      assert a + b == b;
    } else {
      assert (a + b)[1..] == a[1..] + b;
      BytesConcat(a[1..], b);
    }
  }

  lemma BytesRemove(files: seq<File>, k: int)
    requires 0 <= k < |files|
    ensures Bytes(Remove(files, k)) == Bytes(files) - |files[k].data|
  {
    assert files == files[..k] + ([files[k]] + files[k + 1..]);
    BytesConcat(files[..k], [files[k]] + files[k + 1..]);
    BytesConcat([files[k]], files[k + 1..]);
    BytesConcat(files[..k], files[k + 1..]);
    assert Bytes([files[k]]) == |files[k].data|;
  }

  lemma BytesUpdate(files: seq<File>, k: int, f: File)
    requires 0 <= k < |files|
    ensures Bytes(files[k := f]) == Bytes(files) - |files[k].data| + |f.data|
  {
    var g := files[k := f];
    BytesRemove(files, k);
    BytesRemove(g, k);
    assert Remove(files, k) == Remove(g, k);
  }

  // Visiting more files never frees less.
  lemma {:induction false} FreedMonotone(goal: Goal, files: seq<File>, i: int, j: int)
    requires 0 <= i <= j <= |files|
    ensures Freed(goal, files[j..]) <= Freed(goal, files[i..])
    decreases j - i
  {
    if i < j {
      FreedMonotone(goal, files, i + 1, j);
      assert files[i..][1..] == files[i + 1..];
    }
  }

  // The eviction stops at one place only, so the run it takes is determined.
  lemma StopIsUnique(goal: Goal, files: seq<File>, short: int, c: int, d: int)
    requires StopsAt(goal, files, short, c) && StopsAt(goal, files, short, d)
    ensures c == d
  {
    if c < d {
      FreedMonotone(goal, files, c + 1, d);
    } else if d < c {
      FreedMonotone(goal, files, d + 1, c);
    }
  }

  // The run taken is the shortest that frees enough: it is enough unless even
  // all evictable files are not, and no shorter run of oldest files would do.
  lemma StopIsShortest(goal: Goal, files: seq<File>, short: int, cut: int)
    requires StopsAt(goal, files, short, cut)
    ensures short <= Freed(goal, files[cut..]) <==> short <= Freed(goal, files)
    ensures forall c :: cut < c <= |files| ==> Freed(goal, files[c..]) < short
    ensures Freed(goal, files) < short ==> cut == 0
  {
    assert files[0..] == files;
    FreedMonotone(goal, files, 0, cut);
    forall c | cut < c <= |files| ensures Freed(goal, files[c..]) < short {
      FreedMonotone(goal, files, cut + 1, c);
    }
  }

  // Evicting conserves: what stays plus what went is what was there.
  lemma {:induction false} EvictionConserves(goal: Goal, files: seq<File>)
    ensures |Kept(files)| + Victims(files) == |files|
    ensures Bytes(Kept(files)) <= Bytes(files)
    ensures Freed(goal, files) == if goal.Slot? then Victims(files) else Bytes(files) - Bytes(Kept(files))
    ensures forall f :: f in Kept(files) <==> f in files && (f.owner != CLOSED || f.modified != FILLED)
  {
    if files != [] {
      EvictionConserves(goal, files[1..]);
      BytesConcat(if Evictable(files[0]) then [] else [files[0]], Kept(files[1..]));
      assert files == [files[0]] + files[1..];
      assert forall f :: f in files <==> f == files[0] || f in files[1..];
    }
  }

  // Where nothing is evictable, an eviction changes nothing.
  lemma {:induction false} NothingToEvict(goal: Goal, files: seq<File>)
    requires forall f :: f in files ==> !Evictable(f)
    ensures Kept(files) == files && Freed(goal, files) == 0 && Notice(files) == "" && Victims(files) == 0
  {
    if files != [] {
      NothingToEvict(goal, files[1..]);
    }
  }

  // A chunk that no eviction can make room for, as the first append to a file.
  predicate TooBig(ramTot: nat, f: File, chunk: seq<Byte>) {
    ramTot < |chunk| && f.modified == EMPTY
  }

  // How much a store that holds `files` is still short of for `goal`.
  function Short(goal: Goal, nfileTot: nat, ramTot: nat, files: seq<File>): int {
    match goal
    case Slot => 1 - (nfileTot - |files|)
    case Room(size) => size - (ramTot - Bytes(files))
  }

  // Where an eviction from `files` stands when its cursor is about to look at
  // index i: everything after i has been visited, and `now` is what is left.
  ghost predicate Sweeping(goal: Goal, nfileTot: nat, ramTot: nat, files: seq<File>, i: int, now: seq<File>) {
    var short := Short(goal, nfileTot, ramTot, files);
    && -1 <= i < |files|
    && now == files[..i + 1] + Kept(files[i + 1..])
    && Short(goal, nfileTot, ramTot, now) == short - Freed(goal, files[i + 1..])
    && (i + 1 < |files| ==> Freed(goal, files[i + 2..]) < short)
  }

  function After(now: seq<File>, i: int): seq<File>
    requires 0 <= i < |now|
  {
    if Evictable(now[i]) then Remove(now, i) else now
  }

  // The list of evicted paths after `f` has been visited.
  function Named(notice: string, f: File): string {
    if Evictable(f) then notice + ("," + f.path) else notice
  }

  lemma NamedAfter(earlier: string, notice: string, f: File)
    ensures earlier + Named(notice, f) == Named(earlier + notice, f)
  {
    assert earlier + (notice + ("," + f.path)) == (earlier + notice) + ("," + f.path);
  }

  // One more file visited.
  lemma VisitOne(goal: Goal, nfileTot: nat, ramTot: nat, files: seq<File>, i: int, now: seq<File>)
    requires Sweeping(goal, nfileTot, ramTot, files, i, now) && 0 <= i && 0 < Short(goal, nfileTot, ramTot, now)
    ensures now[i] == files[i] && Sweeping(goal, nfileTot, ramTot, files, i - 1, After(now, i))
    ensures Notice(files[i..]) == Named(Notice(files[i + 1..]), files[i])
    ensures Victims(files[i..]) == Victims(files[i + 1..]) + if Evictable(files[i]) then 1 else 0
  {
    assert files[i..][1..] == files[i + 1..];
    BytesRemove(now, i);
    assert files[..i + 1] == files[..i] + [files[i]];
  }

  // Where an eviction stops, computed from the files before it starts.
  function Stop(goal: Goal, files: seq<File>, short: int): (cut: nat)
    ensures cut <= |files|
  {
    if files == [] || Freed(goal, files[1..]) < short then 0 else 1 + Stop(goal, files[1..], short)
  }

  lemma {:induction false} StopStops(goal: Goal, files: seq<File>, short: int)
    ensures StopsAt(goal, files, short, Stop(goal, files, short))
  {
    if files != [] && short <= Freed(goal, files[1..]) {
      StopStops(goal, files[1..], short);
      var c := Stop(goal, files[1..], short);
      assert c < |files[1..]| ==> files[1..][c + 1..] == files[c + 2..];
      assert files[1..][c..] == files[c + 1..];
    }
  }

  // What an eviction leaves: the unvisited files, then the visited ones it may
  // not take.
  function Evict(goal: Goal, files: seq<File>, short: int): seq<File> {
    var cut := Stop(goal, files, short);
    files[..cut] + Kept(files[cut..])
  }

  // The files it visits.
  function Seen(goal: Goal, files: seq<File>, short: int): seq<File> {
    files[Stop(goal, files, short)..]
  }

  // The whole effect of an eviction: files, list of evicted paths, count.
  ghost predicate Evicts(goal: Goal, files: seq<File>, short: int, now: seq<File>,
                         path0: string, path: string, n0: nat, n: nat) {
    && now == Evict(goal, files, short)
    && path == path0 + Notice(Seen(goal, files, short))
    && n == n0 + Victims(Seen(goal, files, short))
  }

  // The same half way: everything after index i has been visited, adding to the
  // list of evicted paths and to the count.
  ghost predicate Visited(goal: Goal, nfileTot: nat, ramTot: nat, files: seq<File>, i: int, now: seq<File>,
                          path0: string, path: string, n0: nat, n: nat) {
    && Sweeping(goal, nfileTot, ramTot, files, i, now)
    && path == path0 + Notice(files[i + 1..]) && n == n0 + Victims(files[i + 1..])
  }

  lemma SweepStarts(goal: Goal, nfileTot: nat, ramTot: nat, files: seq<File>, path: string, n: nat)
    ensures Visited(goal, nfileTot, ramTot, files, |files| - 1, files, path, path, n, n)
  {
    assert files[..|files|] == files && files[|files|..] == [];
  }

  lemma VisitNext(goal: Goal, nfileTot: nat, ramTot: nat, files: seq<File>, i: int, now: seq<File>,
                  path0: string, path: string, n0: nat, n: nat)
    requires Visited(goal, nfileTot, ramTot, files, i, now, path0, path, n0, n)
    requires 0 <= i && 0 < Short(goal, nfileTot, ramTot, now)
    ensures |now| > i && now[i] == files[i]
    ensures Visited(goal, nfileTot, ramTot, files, i - 1, After(now, i), path0, Named(path, now[i]),
                    n0, n + if Evictable(now[i]) then 1 else 0)
  {
    VisitOne(goal, nfileTot, ramTot, files, i, now);
    NamedAfter(path0, Notice(files[i + 1..]), files[i]);
  }

  // A sweep that is over has done what `Evicts` says.
  lemma SweepEnds(goal: Goal, nfileTot: nat, ramTot: nat, files: seq<File>, i: int, now: seq<File>,
                  path0: string, path: string, n0: nat, n: nat)
    requires Visited(goal, nfileTot, ramTot, files, i, now, path0, path, n0, n)
    requires i == -1 || Short(goal, nfileTot, ramTot, now) <= 0
    ensures i + 1 == Stop(goal, files, Short(goal, nfileTot, ramTot, files))
    ensures Evicts(goal, files, Short(goal, nfileTot, ramTot, files), now, path0, path, n0, n)
  {
    var short := Short(goal, nfileTot, ramTot, files);
    StopStops(goal, files, short);
    StopIsUnique(goal, files, short, i + 1, Stop(goal, files, short));
  }

  // A round that comes after one which was not enough finds nothing to evict.
  lemma SecondRound(goal: Goal, files: seq<File>, short: int)
    requires 0 < short
    ensures Evict(goal, Kept(files), short) == Kept(files)
    ensures Notice(Seen(goal, Kept(files), short)) == "" && Victims(Seen(goal, Kept(files), short)) == 0
  {
    var kept := Kept(files);
    EvictionConserves(goal, files);
    NothingToEvict(goal, kept);
    StopStops(goal, kept, short);
    StopIsShortest(goal, kept, short, Stop(goal, kept, short));
    assert kept[0..] == kept;
  }

  // An eviction that gains nothing leaves the files as they are.
  lemma {:induction false} NoGain(files: seq<File>)
    requires Freed(Slot, files) == 0
    ensures Kept(files) == files && Notice(files) == "" && Victims(files) == 0
  {
    if files != [] {
      NoGain(files[1..]);
    }
  }

  // An eviction that leaves every file where it was took nothing.
  lemma Fruitless(goal: Goal, files: seq<File>, short: int)
    requires Evict(goal, files, short) == files
    ensures Notice(Seen(goal, files, short)) == "" && Victims(Seen(goal, files, short)) == 0
  {
    EvictionConserves(Slot, Seen(goal, files, short));
    NoGain(Seen(goal, files, short));
  }

  // What evicting from the files after `cut` leaves.
  lemma CutConserves(goal: Goal, nfileTot: nat, ramTot: nat, files: seq<File>, cut: nat)
    requires cut <= |files|
    ensures var now := files[..cut] + Kept(files[cut..]);
      && |now| + Victims(files[cut..]) == |files| && Bytes(now) <= Bytes(files)
      && Short(goal, nfileTot, ramTot, now) == Short(goal, nfileTot, ramTot, files) - Freed(goal, files[cut..])
  {
    hide Kept, Bytes, Freed, Victims;
    var left, seen := files[..cut], files[cut..];
    EvictionConserves(goal, seen);
    BytesConcat(left, Kept(seen));
    BytesConcat(left, seen);
    assert left + seen == files;
  }

  // An eviction succeeds exactly when all evictable files together are enough.
  lemma EnoughOrNot(goal: Goal, nfileTot: nat, ramTot: nat, files: seq<File>)
    ensures var short := Short(goal, nfileTot, ramTot, files);
      Short(goal, nfileTot, ramTot, Evict(goal, files, short)) <= 0 <==> short <= Freed(goal, files)
  {
    hide Kept, Bytes, Freed, Victims, Stop, Short;
    var short := Short(goal, nfileTot, ramTot, files);
    var cut := Stop(goal, files, short);
    StopStops(goal, files, short);
    StopIsShortest(goal, files, short, cut);
    CutConserves(goal, nfileTot, ramTot, files, cut);
  }

  // With nothing missing there is nothing to evict.
  lemma NothingMissing(goal: Goal, files: seq<File>, short: int, cut: nat)
    requires short <= 0 && cut == Stop(goal, files, short)
    ensures files[..cut] + Kept(files[cut..]) == files && Victims(files[cut..]) == 0
  {
    assert files[|files|..] == [] && StopsAt(goal, files, short, |files|);
    StopStops(goal, files, short);
    StopIsUnique(goal, files, short, cut, |files|);
    assert files[..|files|] == files;
  }

  // Nothing has to be stepped over: every file an eviction visits may go.
  predicate NoSkip(goal: Goal, files: seq<File>, short: int) {
    forall f :: f in Seen(goal, files, short) ==> Evictable(f)
  }

  // As written, the append's eviction has cut the list back to its first m files.
  ghost predicate CutTo(m: int, files: seq<File>, now: seq<File>) {
    0 < m <= |files| && now == files[..m] && forall j :: m <= j < |files| ==> Evictable(files[j])
  }

  // While it still lacks room, the file at the end is one of those to visit.
  lemma NextToVisit(size: nat, nfileTot: nat, ramTot: nat, files: seq<File>, m: int, now: seq<File>)
    requires Sweeping(Room(size), nfileTot, ramTot, files, m - 1, now) && CutTo(m, files, now)
    requires 0 < Short(Room(size), nfileTot, ramTot, now)
    ensures var short := Short(Room(size), nfileTot, ramTot, files);
      Stop(Room(size), files, short) < m && (NoSkip(Room(size), files, short) ==> Evictable(files[m - 1]))
  {
    var goal := Room(size);
    var short := Short(goal, nfileTot, ramTot, files);
    var cut := Stop(goal, files, short);
    StopStops(goal, files, short);
    if m <= cut {
      FreedMonotone(goal, files, m, cut);
    }
    assert Seen(goal, files, short)[m - 1 - cut] == files[m - 1];
  }

  // A file after an accepted append.
  function Appended(f: File, chunk: seq<Byte>): File {
    f.(data := f.data + chunk, modified := FILLED)
  }

  // realloc keeps what fits; memcpy overwrites from `at` on.
  function Realloc(buffer: seq<Byte>, size: nat): (r: seq<Byte>)
    ensures |r| == size
    ensures forall i :: 0 <= i < size && i < |buffer| ==> r[i] == buffer[i]
  {
    if size <= |buffer| then buffer[..size] else buffer + seq(size - |buffer|, _ => 0)
  }

  function Memcpy(buffer: seq<Byte>, at: nat, chunk: seq<Byte>): (r: seq<Byte>)
    requires at + |chunk| <= |buffer|
    ensures |r| == |buffer|
  {
    buffer[..at] + chunk + buffer[at + |chunk|..]
  }

  // Growing a buffer in place appends to the bytes in use.
  lemma GrowAppends(buffer: seq<Byte>, used: nat, chunk: seq<Byte>)
    requires used <= |buffer|
    ensures var grown := Memcpy(Realloc(buffer, |chunk| + used + 1), used, chunk);
      grown[..used + |chunk|] == buffer[..used] + chunk
  {
    var room := Realloc(buffer, |chunk| + used + 1);
    assert room[..used] == buffer[..used];
  }

  // As written, an eviction for `short` slots from `fs` tears the list: the file
  // it removes has both a newer and an older neighbour.
  predicate Torn(fs: seq<File>, short: int) {
    0 < Stop(Slot, fs, short) < |fs| - 1
  }

  // In a caller's terms: the oldest evictable file has neighbours on both sides.
  lemma TornExactly(fs: seq<File>)
    ensures Torn(fs, 1) <==>
      exists k :: 0 < k < |fs| - 1 && Evictable(fs[k]) && forall j :: k < j < |fs| ==> !Evictable(fs[j])
  {
    var cut := Stop(Slot, fs, 1);
    StopStops(Slot, fs, 1);
    if 0 < cut < |fs| {
      assert fs[cut..][1..] == fs[cut + 1..];
      forall j | cut < j < |fs| ensures !Evictable(fs[j]) {
        FreedMonotone(Slot, fs, cut + 1, j);
        assert fs[j..][1..] == fs[j + 1..];
      }
    }
    if k :| 0 < k < |fs| - 1 && Evictable(fs[k]) && forall j :: k < j < |fs| ==> !Evictable(fs[j]) {
      NothingToEvict(Slot, fs[k + 1..]);
      assert fs[k..][1..] == fs[k + 1..];
      assert StopsAt(Slot, fs, 1, k);
      StopIsUnique(Slot, fs, 1, k, cut);
    }
  }
}
