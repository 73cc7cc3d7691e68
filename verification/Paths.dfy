// Whether stored paths stay distinct when workers interleave: a create looks its path
// up in one locked section and inserts the file in another.
module Paths {
  import opened Files
  import opened Service
  import opened Workers
  import Ownership

  // Worker e.w is about to insert a file whose path has been taken since it looked.
  predicate Collides(s: State, e: Event) {
    && e.Advance? && e.w < |s.workers| && !s.fault && |s.files| == |s.ids| && s.workers[e.w].InsertNow?
    && Newest(s.files, Name(s.workers[e.w].job)) < |s.files|
  }

  lemma InsertShadows(s: State, w: nat, job: Job)
    requires NoShadow(s.files) && w < |s.workers|
    ensures NoShadow(Insert(s, w, job).files) <==> Newest(s.files, Name(job)) == |s.files|
  {
    var t, path := Insert(s, w, job), Name(job);
    assert t.files[1..] == s.files && t.files[0].path == path;
    hide Name;
    var k := Newest(s.files, path);
    if k < |s.files| { assert s.files[k] in t.files[1..]; }
  }

  lemma DropShadows(s: State, k: nat)
    requires NoShadow(s.files) && k < |s.files| == |s.ids|
    ensures NoShadow(Drop(s, k).files)
  {
    RemoveNoShadow(s.files, k);
  }

  // The other sections keep the paths as they are.
  lemma SamePaths(s: State, t: State)
    requires NoShadow(s.files) && |t.files| == |s.files|
    requires forall i :: 0 <= i < |s.files| ==> t.files[i].path == s.files[i].path
    ensures NoShadow(t.files)
  {
    ReplaceNoShadow(s.files, t.files);
  }

  lemma SectionShadows(s: State, w: nat)
    requires NoShadow(s.files) && !s.fault && |s.files| == |s.ids| && w < |s.workers| && !Dangling(s, w)
    ensures NoShadow(Section(s, w).files) <==> !Collides(s, Advance(w))
  {
    hide NoShadow, Newest, IndexOf, Insert, Drop, Chunk;
    match s.workers[w] {
      case InsertNow(job) => InsertShadows(s, w, job);
      case DropSelf(_, id) => DropShadows(s, IndexOf(s.ids, id));
      case _ => SamePaths(s, Section(s, w));
    }
  }

  // Step by step, an insertion shadows a path exactly when its lookup is out of date.
  lemma NextShadows(s: State, e: Event)
    requires NoShadow(s.files) && |s.files| == |s.ids|
    ensures NoShadow(Next(s, e).files) <==> !Collides(s, e)
  {
    hide NoShadow, Newest, Drop, Section, Dangling, Busy;
    if e.Advance? && e.w < |s.workers| && !s.fault && !Dangling(s, e.w) {
      SectionShadows(s, e.w);
    } else {
      OtherEvents(s, e);
      if Takes(s, e) { DropShadows(s, Aimed(s, e.w)); }
    }
    if e.Advance? && e.w < |s.workers| && Dangling(s, e.w) { InsertTouchesNothing(s, e.w); }
  }

  lemma InsertTouchesNothing(s: State, w: nat)
    requires w < |s.workers| && Dangling(s, w)
    ensures !s.workers[w].InsertNow?
  {
  }

  function Prefix(s: State, es: seq<Event>, i: nat): State
    requires i <= |es|
  {
    Workers.Run(s, es[..i])
  }

  // In every run, stored paths stay distinct, and none a prefix of an older one, after
  // every step if and only if no create finds its path taken when it inserts.
  lemma PathsStayDistinct(ram: nat, nfile: nat, threads: nat, es: seq<Event>)
    ensures var s := Init(ram, nfile, threads);
      (forall i :: 0 <= i <= |es| ==> NoShadow(Prefix(s, es, i).files)) <==>
      (forall i :: 0 <= i < |es| ==> !Collides(Prefix(s, es, i), es[i]))
  {
    hide Prefix, NoShadow, Collides, Init;
    DistinctFor(ram, nfile, threads, es, |es|);
  }

  lemma {:induction false} DistinctFor(ram: nat, nfile: nat, threads: nat, es: seq<Event>, n: nat)
    requires n <= |es|
    ensures var s := Init(ram, nfile, threads);
      (forall i :: 0 <= i <= n ==> NoShadow(Prefix(s, es, i).files)) <==>
      (forall i :: 0 <= i < n ==> !Collides(Prefix(s, es, i), es[i]))
  {
    hide Prefix, NoShadow, Collides, Init;
    if n == 0 {
      NothingStored(ram, nfile, threads, es);
    } else {
      DistinctFor(ram, nfile, threads, es, n - 1);
      if NoShadow(Prefix(Init(ram, nfile, threads), es, n - 1).files) {
        ShadowStep(ram, nfile, threads, es, n - 1);
      }
    }
  }

  lemma NothingStored(ram: nat, nfile: nat, threads: nat, es: seq<Event>)
    ensures NoShadow(Prefix(Init(ram, nfile, threads), es, 0).files)
  {
    hide Next;
    assert es[..0] == [];
  }

  lemma ShadowStep(ram: nat, nfile: nat, threads: nat, es: seq<Event>, i: nat)
    requires i < |es| && NoShadow(Prefix(Init(ram, nfile, threads), es, i).files)
    ensures var s := Init(ram, nfile, threads); NoShadow(Prefix(s, es, i + 1).files) <==> !Collides(Prefix(s, es, i), es[i])
  {
    hide NoShadow, Collides, Next, Init;
    var s := Init(ram, nfile, threads);
    assert es[..i + 1][..i] == es[..i] && es[..i + 1][i] == es[i];
    Ownership.RunContents(ram, nfile, threads, es[..i]);
    Ownership.Lengths(Prefix(s, es, i));
    hide Ownership.Contents;
    NextShadows(Prefix(s, es, i), es[i]);
  }
}
