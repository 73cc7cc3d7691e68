// What a client is told of the files its request made the server remove: the paths are
// those of earlier requests, and the reply has room for them only if it succeeds.
module Reports {
  import opened Files
  import opened Service
  import M = Messages

  // ---------- stored paths are clean ----------

  // What a request read off the wire asks of the service.
  function Meant(m: M.Message, content: seq<Byte>): Request
    requires !m.Hangup?
  {
    match m
    case Open(path, create) => Open(path, if create then Create else OpenExisting)
    case Read(path) => Read(path)
    case ReadN(n) => ReadN(n)
    case Append(path, _) => Append(path, content)
    case Close(path) => Close(path)
  }

  // A request that came as a text, which ends at its first NUL.
  ghost predicate Spoken(r: Request) {
    exists text, content :: M.CString(text) && M.Parse(text).Request? && !M.Parse(text).m.Hangup? && r == Meant(M.Parse(text).m, content)
  }

  predicate Plain(path: string) { M.Clean(path) && M.CString(path) }

  lemma TokenIsPlain(s: string)
    requires M.CString(s) && M.Next(s).Token?
    ensures Plain(M.Next(s).text) && M.CString(M.Next(s).rest)
  {
    SkipIsTail(s);
    var u := M.SkipCommas(s);
    var t := M.Until(u, M.COMMA);
    assert forall c :: c in t ==> c in u;
    assert |t| < |u| ==> forall c :: c in u[|t| + 1..] ==> c in u;
  }

  lemma {:induction false} SkipIsTail(s: string)
    ensures forall c :: c in M.SkipCommas(s) ==> c in s
  {
    if s != "" && s[0] == M.COMMA { SkipIsTail(s[1..]); }
  }

  // The path of an open is a token of its request.
  lemma ParsedIsPlain(text: string)
    requires M.CString(text)
    ensures var h := M.Parse(text); h.Request? && h.m.Open? ==> Plain(h.m.path)
  {
    hide Plain, M.CString, M.Strtol, M.Clean;
    if M.Next(text).Token? {
      TokenIsPlain(text);
      var info := M.Next(text).rest;
      if M.Next(info).Token? { TokenIsPlain(info); }
    }
    hide M.Next;
  }

  lemma SpokenIsPlain(r: Request)
    requires Spoken(r) && r.Open?
    ensures Plain(r.path)
  {
    hide Plain, M.CString, M.Parse;
    var text, content :| M.CString(text) && M.Parse(text).Request? && !M.Parse(text).m.Hangup? && r == Meant(M.Parse(text).m, content);
    ParsedIsPlain(text);
  }

  ghost predicate AllPlain(files: seq<File>) {
    forall f :: f in files ==> Plain(f.path)
  }

  ghost predicate Has(files: seq<File>, path: string) {
    exists f :: f in files && f.path == path
  }

  lemma EvictedFrom(s: Store, goal: Goal)
    ensures forall f :: f in Evicting(s, goal).files ==> f in s.files
  {
    EvictionConserves(Slot, Seen(goal, s.files, ShortOf(s, goal)));
    hide Stop, Kept;
  }

  lemma OpenFrom(s: Store, fd: nat, path: string, flag: Flag, i: nat)
    requires i < |HandleOpen(s, fd, path, flag).0.files|
    ensures var g := HandleOpen(s, fd, path, flag).0.files[i]; Has(s.files, g.path) || g.path == path
  {
    EvictedFrom(s, Slot);
    hide Evict, Seen, Victims, Newest, Fits, Told;
    var k, e, t := Newest(s.files, path), Evicting(s, Slot), HandleOpen(s, fd, path, flag).0;
    if k == |s.files| && flag == Create {
      if Fits(s, Slot) {
        if 0 < i { assert t.files[i] == e.files[i - 1] && e.files[i - 1] in e.files; }
      } else {
        assert t.files[i] in e.files;
      }
    } else {
      assert s.files[i] in s.files && s.files[i].path == t.files[i].path;
    }
  }

  lemma AppendFrom(s: Store, fd: nat, path: string, chunk: seq<Byte>, i: nat)
    requires i < |HandleAppend(s, fd, path, chunk).0.files|
    ensures Has(s.files, HandleAppend(s, fd, path, chunk).0.files[i].path)
  {
    var k, goal := Newest(s.files, path), Room(|chunk|);
    EvictedFrom(s, goal);
    hide Evict, Seen, Victims, Newest, Fits, Told, Swap, Bytes, TooBig;
    var e, t := Evicting(s, goal), HandleAppend(s, fd, path, chunk).0;
    if k < |s.files| && s.files[k].owner == fd && !TooBig(s.ramTot, s.files[k], chunk) {
      assert e.files[i] in e.files && e.files[i].path == t.files[i].path;
    } else {
      assert t.files[i] in s.files;
    }
  }

  // A file's path is that of the open that created it.
  lemma PathsComeFromOpens(s: Store, fd: nat, r: Request)
    ensures forall g :: g in Answer(s, fd, r).0.files ==> Has(s.files, g.path) || (r.Open? && g.path == r.path)
  {
    if r.ReadN? { ShutKeeps(s.files, Wanted(s, r.n)); }
    hide HandleOpen, HandleAppend, Newest, Sent, Shut, Bytes, Has;
    var t := Answer(s, fd, r).0;
    forall g | g in t.files ensures Has(s.files, g.path) || (r.Open? && g.path == r.path) {
      var i :| 0 <= i < |t.files| && t.files[i] == g;
      match r {
        case Open(path, flag) => OpenFrom(s, fd, path, flag, i);
        case Append(path, chunk) => AppendFrom(s, fd, path, chunk, i);
        case _ => HasAt(s.files, i);
      }
    }
  }

  lemma HasAt(files: seq<File>, i: nat)
    requires i < |files|
    ensures Has(files, files[i].path)
  {
    assert files[i] in files;
  }

  // In every run of requests off the wire, no stored path is empty or has a comma.
  lemma {:induction false} RunIsPlain(ram: nat, nfile: nat, calls: seq<Call>)
    requires forall c :: c in calls ==> Spoken(c.request)
    ensures AllPlain(Run(Fresh(ram, nfile), calls).files)
  {
    if calls != [] {
      var before, c := calls[..|calls| - 1], calls[|calls| - 1];
      RunIsPlain(ram, nfile, before);
      var s := Run(Fresh(ram, nfile), before);
      PathsComeFromOpens(s, c.fd, c.request);
      assert c in calls;
      if c.request.Open? { SpokenIsPlain(c.request); }
      hide Answer, Spoken, Plain, Bytes;
    }
  }

  // ---------- what is reported ----------

  // The paths of the files that a request made the server remove, oldest first.
  function Lost(s: Store, fd: nat, r: Request): seq<string> {
    match r
    case Open(path, flag) =>
      if Newest(s.files, path) == |s.files| && flag == Create then M.Gone(Seen(Slot, s.files, ShortOf(s, Slot))) else []
    case Append(path, chunk) =>
      var k, goal := Newest(s.files, path), Room(|chunk|);
      if k == |s.files| || s.files[k].owner != fd then []
      else if TooBig(s.ramTot, s.files[k], chunk) then [s.files[k].path]
      else M.Gone(Seen(goal, s.files, ShortOf(s, goal)))
    case _ => []
  }

  // They are as many as the request has counted as removed ...
  lemma LostIsCounted(s: Store, fd: nat, r: Request)
    ensures Answer(s, fd, r).0.removed == s.removed + |Lost(s, fd, r)|
  {
    M.GonePaths(Seen(Slot, s.files, ShortOf(s, Slot)));
    if r.Append? { M.GonePaths(Seen(Room(|r.chunk|), s.files, ShortOf(s, Room(|r.chunk|)))); }
    hide Seen, Evict, Victims, M.Gone, Newest, Fits, Told, Swap, Sent, Shut, Bytes, TooBig;
  }

  // ... and stand for files of the store from the oldest on ...
  lemma LostOldestFirst(s: Store, fd: nat, r: Request) returns (at: seq<nat>)
    ensures M.OldestFirst(s.files, Lost(s, fd, r), at)
  {
    hide Newest, M.Gone, Stop;
    var goal := if r.Append? then Room(|r.chunk|) else Slot;
    var cut := Stop(goal, s.files, ShortOf(s, goal));
    var seen := M.GoneInOrder(s.files[cut..]);
    at := [];
    if Lost(s, fd, r) != [] {
      if Lost(s, fd, r) == M.Gone(s.files[cut..]) {
        at := seq(|seen|, i requires 0 <= i < |seen| => seen[i] + cut);
      } else {
        at := [Newest(s.files, r.path)];
      }
    }
    hide ShortOf;
  }

  // ... and, where paths are distinct, exactly those that are no longer stored.
  lemma GoneIsMissing(files: seq<File>, cut: nat, f: File)
    requires NoShadow(files) && cut <= |files| && f in files
    ensures f.path in M.Gone(files[cut..]) <==> !Has(files[..cut] + Kept(files[cut..]), f.path)
  {
    hide NoShadow, Kept, M.Gone;
    var seen, now := files[cut..], files[..cut] + Kept(files[cut..]);
    M.GonePaths(seen);
    EvictionConserves(Slot, seen);
    assert f in files[..cut] || f in seen by { assert files == files[..cut] + seen; }
    if g :| g in seen && Evictable(g) && g.path == f.path {
      OnePath(files, f, g);
      AtMostOnce(files, cut, f);
      if h :| h in now && h.path == f.path {
        assert h in files[..cut] || h in Kept(seen);
        assert h in files by { assert files == files[..cut] + seen; }
        OnePath(files, f, h);
      }
    } else {
      assert f in now;
    }
  }

  lemma OnePath(files: seq<File>, f: File, g: File)
    requires NoShadow(files) && f in files && g in files && f.path == g.path
    ensures f == g
  {
    hide NoShadow;
    var i :| 0 <= i < |files| && files[i] == f;
    var j :| 0 <= j < |files| && files[j] == g;
    if i < j { NoShadowAt(files, i, j); }
    if j < i { NoShadowAt(files, j, i); }
  }

  lemma AtMostOnce(files: seq<File>, cut: nat, f: File)
    requires NoShadow(files) && cut <= |files| && f in files[cut..]
    ensures f !in files[..cut]
  {
    hide NoShadow;
    var j :| cut <= j < |files| && files[j] == f;
    if f in files[..cut] {
      var i :| 0 <= i < cut && files[i] == f;
      NoShadowAt(files, i, j);
    }
  }

  lemma SwapPaths(files: seq<File>, f: File, chunk: seq<Byte>, path: string)
    ensures Has(Swap(files, f, Appended(f, chunk)), path) <==> Has(files, path)
  {
    var t := Swap(files, f, Appended(f, chunk));
    hide Swap;
    if h :| h in files && h.path == path {
      var i :| 0 <= i < |files| && files[i] == h;
      assert t[i] in t && t[i].path == path;
    }
    if h :| h in t && h.path == path {
      var i :| 0 <= i < |t| && t[i] == h;
      assert files[i] in files && files[i].path == path;
    }
  }

  lemma UpdateLoses(s: Store, k: nat, chunk: seq<Byte>, f: File)
    requires NoShadow(s.files) && f in s.files && k < |s.files|
    ensures var goal, t := Room(|chunk|), HandleUpdate(s, k, chunk).0;
      var lost := if TooBig(s.ramTot, s.files[k], chunk) then [s.files[k].path] else M.Gone(Seen(goal, s.files, ShortOf(s, goal)));
      f.path in lost <==> !Has(t.files, f.path)
  {
    var goal := Room(|chunk|);
    var e := Evicting(s, goal);
    GoneIsMissing(s.files, Stop(goal, s.files, ShortOf(s, goal)), f);
    SwapPaths(e.files, s.files[k], chunk, f.path);
    hide NoShadow, Fits, Stop, Kept, Notice, Victims, Swap, M.Gone, TooBig;
    if TooBig(s.ramTot, s.files[k], chunk) { RemovedIsMissing(s.files, k, f); }
    hide Has;
  }

  lemma RemovedIsMissing(files: seq<File>, k: nat, f: File)
    requires NoShadow(files) && k < |files| && f in files
    ensures f.path == files[k].path <==> !Has(Remove(files, k), f.path)
  {
    if f.path == files[k].path {
      NotElsewhere(files, k);
    } else {
      StillThere(files, k, f);
    }
    hide NoShadow, Remove;
  }

  lemma NotElsewhere(files: seq<File>, k: nat)
    requires NoShadow(files) && k < |files|
    ensures !Has(Remove(files, k), files[k].path)
  {
    hide NoShadow;
    if h :| h in files[..k] + files[k + 1..] && h.path == files[k].path {
      if h in files[..k] {
        var i :| 0 <= i < k && files[i] == h;
        NoShadowAt(files, i, k);
      } else {
        var i :| k < i < |files| && files[i] == h;
        NoShadowAt(files, k, i);
      }
    }
  }

  lemma StillThere(files: seq<File>, k: nat, f: File)
    requires k < |files| && f in files && f != files[k]
    ensures Has(Remove(files, k), f.path)
  {
    assert files == files[..k] + [files[k]] + files[k + 1..];
    assert f in files[..k] || f in files[k + 1..];
    assert f in Remove(files, k);
  }

  lemma CreateLoses(s: Store, fd: nat, path: string, f: File)
    requires NoShadow(s.files) && f in s.files && Newest(s.files, path) == |s.files|
    ensures f.path in M.Gone(Seen(Slot, s.files, ShortOf(s, Slot))) <==> !Has(HandleOpen(s, fd, path, Create).0.files, f.path)
  {
    var e, t := Evicting(s, Slot), HandleOpen(s, fd, path, Create).0;
    GoneIsMissing(s.files, Stop(Slot, s.files, ShortOf(s, Slot)), f);
    var i :| 0 <= i < |s.files| && s.files[i] == f;
    hide NoShadow, Fits, Stop, Kept, Notice, Victims, M.Gone, Newest;
    assert f.path != path;
    assert Fits(s, Slot) ==> t.files == [File(path, fd, EMPTY, [])] + e.files;
    assert Has(t.files, f.path) <==> Has(e.files, f.path) by {
      assert forall g :: g in t.files ==> g in e.files || g.path == path;
      assert forall g :: g in e.files ==> g in t.files;
    }
  }

  lemma LostIsMissing(s: Store, fd: nat, r: Request, f: File)
    requires NoShadow(s.files) && f in s.files
    ensures f.path in Lost(s, fd, r) <==> !Has(Answer(s, fd, r).0.files, f.path)
  {
    var i :| 0 <= i < |s.files| && s.files[i] == f;
    if r.ReadN? { ShutKeeps(s.files, Wanted(s, r.n)); }
    hide NoShadow, HandleUpdate, Newest, Sent, Shut, Bytes, M.Gone, Seen;
    var t := Answer(s, fd, r).0;
    if r.Open? && Newest(s.files, r.path) == |s.files| && r.flag == Create {
      CreateLoses(s, fd, r.path, f);
    } else if r.Append? && Newest(s.files, r.path) < |s.files| && s.files[Newest(s.files, r.path)].owner == fd {
      UpdateLoses(s, Newest(s.files, r.path), r.chunk, f);
    } else {
      HasAt(t.files, i);
    }
    hide Has;
  }

  // ---------- what the client reads of it ----------

  // The reply to an open or append; one that may have evicted ends in padding.
  function TextOf(reply: Reply, padded: bool): string {
    if !reply.Success? then "-1" else if padded then "0" + reply.evicted + [M.NUL, M.NUL] else "0"
  }

  predicate Padded(s: Store, r: Request) {
    r.Append? || (r.Open? && Newest(s.files, r.path) == |s.files|)
  }

  lemma NoListOf(ok: bool)
    ensures M.ParseReply(if ok then "0" else "-1") == (if ok then 0 else -1, [])
  {
    if ok {
      M.FlagField(0);
      M.NumberRoundTrip(0);
      assert [M.Digit(0)] == "0" && M.Dec(0) == "0";
      M.UntilPrefix("0", M.NUL, "");
      assert "0" + "" == "0";
    } else {
      assert M.Clean("-1") by { assert forall c :: c in "-1" ==> c == '-' || c == '1'; }
      M.NextField("-1", "");
      M.UntilPrefix("-1", M.NUL, "") by { assert forall c :: c in "-1" ==> c == '-' || c == '1'; }
      assert "-1" + "" == "-1" && "-1"[1..] == "1";
      assert M.Digits("1", 0) == 1 by { assert "1"[1..] == ""; }
    }
    M.NothingNext();
    hide M.Next, M.Until;
  }

  lemma GoneIsPlain(files: seq<File>, part: seq<File>)
    requires AllPlain(files) && forall f :: f in part ==> f in files
    ensures forall p :: p in M.Gone(part) ==> Plain(p)
  {
    M.GonePaths(part);
    hide Plain;
  }

  lemma SeenInFiles(goal: Goal, files: seq<File>, short: int)
    ensures forall f :: f in Seen(goal, files, short) ==> f in files
  {
    hide Stop;
  }

  // A successful reply lists what its request made the server remove, oldest first; any
  // other says nothing of it.
  lemma ReportTells(s: Store, fd: nat, r: Request)
    requires AllPlain(s.files) && (r.Open? || r.Append?)
    ensures var reply := Answer(s, fd, r).1;
      M.ParseReply(TextOf(reply, Padded(s, r))) == if reply.Success? then (0, Lost(s, fd, r)) else (-1, [])
  {
    var goal := if r.Append? then Room(|r.chunk|) else Slot;
    var seen := Seen(goal, s.files, ShortOf(s, goal));
    SeenInFiles(goal, s.files, ShortOf(s, goal));
    GoneIsPlain(s.files, seen);
    M.NoticeIsListing(seen);
    M.ReplyRoundTrip(M.Gone(seen)) by { assert forall p :: p in M.Gone(seen) ==> Plain(p); }
    NoListOf(true);
    NoListOf(false);
    ReplyTells(s, fd, r);
    hide Seen, M.Gone, Notice, M.ParseReply, Answer, M.Listing, Plain, Newest, ShortOf;
  }

  // What a reply of these says.
  lemma ReplyTells(s: Store, fd: nat, r: Request)
    requires r.Open? || r.Append?
    ensures var reply, goal := Answer(s, fd, r).1, if r.Append? then Room(|r.chunk|) else Slot;
      && (reply.Success? || reply.Failure?)
      && (reply.Success? && Padded(s, r) ==>
            reply.evicted == Notice(Seen(goal, s.files, ShortOf(s, goal))) && Lost(s, fd, r) == M.Gone(Seen(goal, s.files, ShortOf(s, goal))))
      && (reply.Success? && !Padded(s, r) ==> Lost(s, fd, r) == [])
  {
    hide Seen, M.Gone, Notice, Newest, Evict, Swap, Fits;
  }

  // ---------- when it is incomplete ----------

  // The requests that fail and still cost a file, told from the store before them: an
  // append by the file's holder that is too large for the store, or one for which all
  // that may be evicted is not enough, where something may.
  ghost predicate Silent(s: Store, fd: nat, r: Request) {
    r.Append? && Owns(s, fd, r.path) && Costs(s, s.files[Newest(s.files, r.path)], r.chunk)
  }

  predicate Owns(s: Store, fd: nat, path: string) {
    Newest(s.files, path) < |s.files| && s.files[Newest(s.files, path)].owner == fd
  }

  ghost predicate Costs(s: Store, f: File, chunk: seq<Byte>) {
    TooBig(s.ramTot, f, chunk) || (!Fits(s, Room(|chunk|)) && exists g :: g in s.files && Evictable(g))
  }

  // Where the goal is out of reach every evictable file goes.
  lemma AllGone(s: Store, goal: Goal)
    requires !Fits(s, goal)
    ensures Seen(goal, s.files, ShortOf(s, goal)) == s.files
    ensures M.Gone(s.files) == [] <==> forall f :: f in s.files ==> !Evictable(f)
  {
    hide Stop, Evictable, M.Gone, Freed;
    var short := ShortOf(s, goal);
    var cut := Stop(goal, s.files, short);
    StopStops(goal, s.files, short);
    FreedMonotone(goal, s.files, 0, cut);
    assert s.files[0..] == s.files;
    M.GonePaths(s.files);
    if f :| f in s.files && Evictable(f) { assert f.path in M.Gone(s.files); }
    if M.Gone(s.files) != [] { assert M.Gone(s.files)[0] in M.Gone(s.files); }
  }

  // A create without room finds no evictable file at all.
  lemma OpenLosesNothing(s: Store, fd: nat, r: Request)
    requires r.Open? && |s.files| <= s.nfileTot && !Answer(s, fd, r).1.Success?
    ensures Lost(s, fd, r) == []
  {
    hide Newest, Seen, M.Gone, Freed, Evict, Notice, Evictable;
    if Newest(s.files, r.path) == |s.files| && r.flag == Create {
      AllGone(s, Slot);
      NoVictims(s.files);
      assert Freed(Slot, s.files) == 0;
    }
  }

  lemma {:induction false} NoVictims(files: seq<File>)
    ensures Freed(Slot, files) <= 0 <==> forall f :: f in files ==> !Evictable(f)
  {
    hide Evictable;
    if files != [] {
      NoVictims(files[1..]);
      assert forall f :: f in files <==> f == files[0] || f in files[1..];
    }
  }

  lemma FailsSilently(s: Store, fd: nat, r: Request)
    requires (r.Open? || r.Append?) && |s.files| <= s.nfileTot
    ensures Answer(s, fd, r).1.Success? || Lost(s, fd, r) == [] <==> !Silent(s, fd, r)
  {
    if r.Open? {
      if !Answer(s, fd, r).1.Success? { OpenLosesNothing(s, fd, r); }
    } else {
      AppendFails(s, fd, r.path, r.chunk);
      if !Fits(s, Room(|r.chunk|)) { AllGone(s, Room(|r.chunk|)); }
      hide Answer, Fits, Newest, Seen, M.Gone, Evictable, TooBig;
    }
  }

  lemma AppendFails(s: Store, fd: nat, path: string, chunk: seq<Byte>)
    ensures Answer(s, fd, Append(path, chunk)).1.Success? <==>
      Owns(s, fd, path) && !TooBig(s.ramTot, s.files[Newest(s.files, path)], chunk) && Fits(s, Room(|chunk|))
  {
    hide Newest, Seen, Fits, Evict, Notice, Swap, TooBig;
  }

  // The client learns the status, and exactly the files its request made the server
  // remove, oldest first, unless the request is one of those.
  lemma ReportIsComplete(s: Store, fd: nat, r: Request)
    requires AllPlain(s.files) && |s.files| <= s.nfileTot && (r.Open? || r.Append?)
    ensures var reply := Answer(s, fd, r).1;
      var (status, paths) := M.ParseReply(TextOf(reply, Padded(s, r)));
      && status == (if reply.Success? then 0 else -1)
      && (paths == Lost(s, fd, r) <==> !Silent(s, fd, r))
  {
    hide AllPlain, Answer, M.ParseReply, TextOf, Padded, Lost, Silent;
    ReportTells(s, fd, r);
    FailsSilently(s, fd, r);
  }

  // The client's own file is among those that an eviction out of reach comes upon.
  lemma OwnIsSeen(s: Store, fd: nat, r: Request)
    requires r.Append? && Owns(s, fd, r.path) && !Fits(s, Room(|r.chunk|)) && !TooBig(s.ramTot, s.files[Newest(s.files, r.path)], r.chunk)
    ensures !Survives(s, fd, r)
  {
    AllGone(s, Room(|r.chunk|));
    hide Newest, Seen, Fits, TooBig;
    var k := Newest(s.files, r.path);
    assert s.files[k] in s.files && !Evictable(s.files[k]);
  }

  // The code as written never returns from the second kind, as its eviction comes upon
  // the client's own file: there a holder's append that returns succeeds unless it is
  // too large, and only the too large one is silent.
  lemma SilentAsWritten(s: Store, fd: nat, r: Request)
    requires r.Append? && Survives(s, fd, r)
    ensures Silent(s, fd, r) <==> Owns(s, fd, r.path) && TooBig(s.ramTot, s.files[Newest(s.files, r.path)], r.chunk)
    ensures Owns(s, fd, r.path) ==>
      (Answer(s, fd, r).1.Success? <==> !TooBig(s.ramTot, s.files[Newest(s.files, r.path)], r.chunk))
  {
    AppendFails(s, fd, r.path, r.chunk);
    var k := Newest(s.files, r.path);
    hide Newest, Seen, Fits, TooBig, Answer;
    if Owns(s, fd, r.path) && !Fits(s, Room(|r.chunk|)) && !TooBig(s.ramTot, s.files[k], r.chunk) { OwnIsSeen(s, fd, r); }
  }

  // In every run of requests off the wire: the client is told of all files its request
  // made the server remove unless the request is silent, and they are exactly those no
  // longer stored.
  lemma RunReports(ram: nat, nfile: nat, calls: seq<Call>, fd: nat, r: Request)
    requires (forall c :: c in calls ==> Spoken(c.request)) && (r.Open? || r.Append?)
    ensures var s := Run(Fresh(ram, nfile), calls);
      var (t, reply) := Answer(s, fd, r);
      && (M.ParseReply(TextOf(reply, Padded(s, r))).1 == Lost(s, fd, r) <==> !Silent(s, fd, r))
      && t.removed == s.removed + |Lost(s, fd, r)|
      && forall f :: f in s.files ==> (f.path in Lost(s, fd, r) <==> !Has(t.files, f.path))
  {
    var s := Run(Fresh(ram, nfile), calls);
    RunIsPlain(ram, nfile, calls);
    RunIsGood(ram, nfile, calls);
    hide Run, Fresh, Answer, AllPlain, Spoken, NoShadow, M.ParseReply, TextOf, Padded, Lost, Silent, Has, Bytes;
    ReportIsComplete(s, fd, r);
    LostIsCounted(s, fd, r);
    forall f | f in s.files ensures f.path in Lost(s, fd, r) <==> !Has(Answer(s, fd, r).0.files, f.path) {
      LostIsMissing(s, fd, r, f);
    }
  }

  // ---------- requests that lose a file without a word ----------

  lemma OpenIsSpoken(path: string)
    requires Plain(path)
    ensures Spoken(Open(path, Create))
  {
    var m := M.Open(path, true);
    M.RequestRoundTrip(m);
    hide M.Parse, M.Clean;
    assert M.CString(M.Print(m));
    assert Meant(M.Parse(M.Print(m)).m, []) == Open(path, Create);
  }

  // As written: a client creates a file and appends more than the store can hold.  The
  // file goes, and the client is told of a failure only.
  lemma TooLargeIsSilent(ram: nat, nfile: nat, fd: nat, path: string, chunk: seq<Byte>)
    requires 1 <= nfile && ram < |chunk| && Plain(path)
    ensures Spoken(Open(path, Create))
    ensures var s, r := Run(Fresh(ram, nfile), [Call(fd, Open(path, Create))]), Append(path, chunk);
      && Survives(s, fd, r) && Silent(s, fd, r) && Lost(s, fd, r) == [path]
      && M.ParseReply(TextOf(Answer(s, fd, r).1, Padded(s, r))) == (-1, [])
  {
    OpenIsSpoken(path);
    CreatedOne(ram, nfile, fd, path);
    var s, r := Run(Fresh(ram, nfile), [Call(fd, Open(path, Create))]), Append(path, chunk);
    hide Run, Fresh, Plain, Spoken, M.ParseReply, Evict, Swap, Bytes, Freed;
    NewestFirst(s.files, path);
    NoListOf(false);
  }

  // With the eviction repaired: one client has left an empty file p, another has filled
  // the store with its own and appends one byte more.  The eviction takes p, which is not
  // enough, and the client is told of a failure only.
  function Crowd(p: string, q: string, fd: nat, fill: seq<Byte>): seq<Call> {
    BuildOne(p) + [Call(fd, Open(q, Create))] + [Call(fd, Append(q, fill))]
  }

  lemma CrowdStores(ram: nat, nfile: nat, p: string, q: string, fd: nat, fill: seq<Byte>)
    requires 2 <= nfile && Apart(q, p) && |fill| == ram
    ensures var s := Run(Fresh(ram, nfile), Crowd(p, q, fd, fill));
      s.files == [File(q, fd, FILLED, fill), File(p, CLOSED, FILLED, [])] && s.ramTot == ram && s.nfileTot == nfile
  {
    var s0, c, d := Fresh(ram, nfile), Call(fd, Open(q, Create)), Call(fd, Append(q, fill));
    BuiltOne(ram, nfile, p);
    RunSnoc(s0, BuildOne(p), c);
    RunSnoc(s0, BuildOne(p) + [c], d);
    RunIsGood(ram, nfile, BuildOne(p) + [c]);
    hide Run, BuildOne, Handle, Apart, NoShadow, Fresh;
    var a := Run(s0, BuildOne(p));
    CrowdIn(a, fd, p, q);
    CrowdOut(Run(s0, BuildOne(p) + [c]), fd, p, q, fill);
  }

  lemma CrowdIn(s: Store, fd: nat, p: string, q: string)
    requires s.files == [File(p, CLOSED, FILLED, [])] && 1 < s.nfileTot && Apart(q, p)
    ensures var t := Handle(s, fd, Open(q, Create)).0;
      t.files == [File(q, fd, EMPTY, []), File(p, CLOSED, FILLED, [])] && t.ramTot == s.ramTot && t.nfileTot == s.nfileTot
  {
    ApartMeans(q, p);
    assert s.files[1..] == [] && Newest(s.files, q) == 1;
    hide Handle, Newest, Apart;
    CreateStores(s, fd, q);
    HandleKeepsTotals(s, fd, Open(q, Create));
    assert [File(q, fd, EMPTY, [])] + s.files == [File(q, fd, EMPTY, []), File(p, CLOSED, FILLED, [])];
  }

  lemma CrowdOut(s: Store, fd: nat, p: string, q: string, fill: seq<Byte>)
    requires s.files == [File(q, fd, EMPTY, []), File(p, CLOSED, FILLED, [])] && NoShadow(s.files) && |fill| == s.ramTot
    ensures var t := Handle(s, fd, Append(q, fill)).0;
      t.files == [File(q, fd, FILLED, fill), File(p, CLOSED, FILLED, [])] && t.ramTot == s.ramTot && t.nfileTot == s.nfileTot
  {
    assert s.files[1..] == [File(p, CLOSED, FILLED, [])] && s.files[1..][1..] == [] && Bytes(s.files[1..]) == 0;
    assert Bytes(s.files) == 0;
    NewestFirst(s.files, q);
    hide Handle, Newest, NoShadow, Bytes;
    AppendStores(s, fd, q, fill);
    HandleKeepsTotals(s, fd, Append(q, fill));
    assert [] + fill == fill;
  }

  lemma NoRoomIsSilent(ram: nat, nfile: nat, p: string, q: string, fd: nat, fill: seq<Byte>, x: Byte)
    requires 2 <= nfile && Apart(q, p) && |fill| == ram
    ensures var s, r := Run(Fresh(ram, nfile), Crowd(p, q, fd, fill)), Append(q, [x]);
      && Silent(s, fd, r) && !Survives(s, fd, r) && Lost(s, fd, r) == [p]
      && M.ParseReply(TextOf(Answer(s, fd, r).1, Padded(s, r))) == (-1, [])
  {
    CrowdStores(ram, nfile, p, q, fd, fill);
    var s, r := Run(Fresh(ram, nfile), Crowd(p, q, fd, fill)), Append(q, [x]);
    hide Run, Fresh, Crowd, Apart, M.ParseReply, Evict, Swap;
    NewestFirst(s.files, q);
    CrowdNumbers(s.files[0], s.files[1]);
    assert s.files == [s.files[0], s.files[1]] && s.files[1] in s.files;
    NoListOf(false);
    hide Newest, Seen, M.Gone, Freed, Bytes, Evictable;
    assert !Fits(s, Room(1));
    AllGone(s, Room(1));
    OwnIsSeen(s, fd, r);
  }

  lemma CrowdNumbers(g: File, f: File)
    requires !Evictable(g) && Evictable(f) && f.data == []
    ensures Freed(Room(1), [g, f]) == 0 && Bytes([g, f]) == |g.data| && M.Gone([g, f]) == [f.path]
  {
    assert [g, f][1..] == [f] && [f][1..] == [];
    assert Bytes([f]) == 0 && Freed(Room(1), [f]) == 0 && M.Gone([f]) == [f.path];
  }
}
