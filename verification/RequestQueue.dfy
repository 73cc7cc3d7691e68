// The linked queue of requests: `push` inserts at the head, `pop` takes from the
// end.  Both run under the queue's lock.
module RequestQueue {

  class Request {
    const number: nat
    var son: Request?     // the request that came just before
    var father: Request?  // the request that came just after

    constructor (number: nat)
      ensures son == null && father == null && this.number == number
    {
      this.number := number;
      son, father := null, null;
    }
  }

  class Queue {
    var countRq: int
    var head: Request?
    var last: Request?
    ghost var waiting: seq<Request>  // oldest first: from `last` to `head`

    // A proper list in both directions, as long as the counter says.
    ghost predicate Valid()
      reads this, waiting
    {
      && countRq == |waiting|
      && head == (if waiting == [] then null else waiting[|waiting| - 1])
      && last == (if waiting == [] then null else waiting[0])
      && (forall i, j :: 0 <= i < j < |waiting| ==> waiting[i] != waiting[j])
      && (forall i {:trigger waiting[i].father} :: 0 <= i < |waiting| ==>
            waiting[i].father == if i + 1 < |waiting| then waiting[i + 1] else null)
      && (forall i {:trigger waiting[i].son} :: 0 <= i < |waiting| ==>
            waiting[i].son == if 0 < i then waiting[i - 1] else null)
    }

    // createQueue
    constructor ()
      ensures Valid() && waiting == []
    {
      countRq, head, last := 0, null, null;
      waiting := [];
    }

    // The new request waits behind all others.
    method Push(r: Request)
      requires Valid() && r !in waiting && r.son == null && r.father == null
      modifies this, r, waiting
      ensures Valid() && waiting == old(waiting) + [r]
    {
      if head == null && last == null {
        head, last := r, r;
      } else {
        var oldHead := head;
        head := r;
        r.son := oldHead;
        oldHead.father := r;
      }
      countRq := countRq + 1;
      waiting := waiting + [r];
    }

    // The oldest request, and it alone, is taken out.
    method Pop() returns (r: Request)
      requires Valid() && waiting != []
      modifies this, waiting
      ensures Valid() && r == old(waiting)[0] && waiting == old(waiting)[1..]
    {
      r := last;
      if r.father != null {
        var next := r.father;
        next.son := null;
        last := next;
      } else {
        head, last := null, null;
      }
      countRq := countRq - 1;
      waiting := waiting[1..];
    }
  }

  datatype Op = Pushed(number: nat) | Popped

  // Any run of pushes and pops, by the numbers of the requests: what waits, and
  // what has been served, in order.
  function Run(ops: seq<Op>): (seq<nat>, seq<nat>)
    decreases |ops|
  {
    if ops == [] then ([], []) else
    var (waiting, served) := Run(ops[..|ops| - 1]);
    match ops[|ops| - 1]
    case Pushed(n) => (waiting + [n], served)
    case Popped => if waiting == [] then (waiting, served) else (waiting[1..], served + [waiting[0]])
  }

  function Arrivals(ops: seq<Op>): seq<nat>
    decreases |ops|
  {
    if ops == [] then [] else
    Arrivals(ops[..|ops| - 1]) + match ops[|ops| - 1] case Pushed(n) => [n] case Popped => []
  }

  // First come, first served, nothing lost and nothing twice.
  lemma {:induction false} Fifo(ops: seq<Op>)
    ensures Run(ops).1 + Run(ops).0 == Arrivals(ops)
    decreases |ops|
  {
    if ops != [] { Fifo(ops[..|ops| - 1]); }
  }

  // A queue driven by a run holds what the run says, and hands out what it says.
  method Drive(q: Queue, ops: seq<Op>) returns (served: seq<nat>)
    requires q.Valid() && q.waiting == []
    modifies q
    ensures q.Valid() && served == Run(ops).1 && Numbers(q.waiting) == Run(ops).0
    ensures served + Numbers(q.waiting) == Arrivals(ops)
  {
    served := [];
    for i := 0 to |ops|
      invariant q.Valid() && forall j :: 0 <= j < |q.waiting| ==> fresh(q.waiting[j])
      invariant served == Run(ops[..i]).1 && Numbers(q.waiting) == Run(ops[..i]).0
    {
      assert ops[..i + 1][..i] == ops[..i];
      match ops[i] {
        case Pushed(n) =>
          var r := new Request(n);
          q.Push(r);
        case Popped =>
          if q.head != null {
            var r := q.Pop();
            served := served + [r.number];
          }
      }
    }
    assert ops[..|ops|] == ops;
    Fifo(ops);
  }

  function Numbers(s: seq<Request>): (n: seq<nat>)
    ensures |n| == |s| && forall i :: 0 <= i < |s| ==> n[i] == s[i].number
  {
    if s == [] then [] else Numbers(s[..|s| - 1]) + [s[|s| - 1].number]
  }
}
