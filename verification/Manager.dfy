// The manager's select loop: one pass over the ready descriptors, with `fd_max`
// kept by hand while the set changes under it.
module Manager {

  // Strictly increasing: in order, and nothing twice.
  ghost predicate Increasing(s: seq<nat>) {
    forall i, j :: 0 <= i < j < |s| ==> s[i] < s[j]
  }

  // The manager's state when a pass begins.
  datatype Before = Before(watched: set<nat>, hup: bool, quit: bool, nclient: int, pushed: seq<nat>)

  class Manager {
    var watched: set<nat>   // fd_set `set`
    var fdMax: nat
    const listener: nat     // fd_server
    const back: nat         // pipe_fd[0], where workers return descriptors
    const hupPipe: nat
    const quitPipe: nat
    var hup: bool
    var quit: bool
    var nclient: int
    var pushed: seq<nat>    // clients whose request has been queued, in order

    predicate Own(fd: nat) {
      fd == listener || fd == back || fd == hupPipe || fd == quitPipe
    }

    ghost predicate IsMax(m: nat)
      reads this
    {
      m in watched && forall x :: x in watched ==> x <= m
    }

    // The server's own descriptors stay in the set, and fd_max is its largest.
    ghost predicate Valid()
      reads this
    {
      && listener in watched && back in watched && hupPipe in watched && quitPipe in watched
      && Apart() && IsMax(fdMax)
    }

    constructor (listener: nat, back: nat, hupPipe: nat, quitPipe: nat)
      requires listener != back && listener != hupPipe && listener != quitPipe
      requires back != hupPipe && back != quitPipe && hupPipe != quitPipe
      ensures Valid() && !hup && !quit && nclient == 0 && pushed == []
      ensures watched == {listener, back, hupPipe, quitPipe}
    {
      this.listener, this.back, this.hupPipe, this.quitPipe := listener, back, hupPipe, quitPipe;
      watched := {listener, back, hupPipe, quitPipe};
      hup, quit, nclient, pushed := false, false, 0, [];
      var m := 0;
      if listener > m { m := listener; }
      if back > m { m := back; }
      if hupPipe > m { m := hupPipe; }
      if quitPipe > m { m := quitPipe; }
      fdMax := m;
    }

    // updatemax, called once fdmax has left the set.  The assertion at its end is
    // never reached.
    method UpdateMax(fdmax: nat) returns (m: nat)
      requires exists x :: x in watched && x < fdmax
      ensures m in watched && m < fdmax && forall x :: x in watched && x < fdmax ==> x <= m
    {
      m := 0;
      var i: int := fdmax - 1;
      while i >= 0
        invariant -1 <= i < fdmax
        invariant forall x :: x in watched && x < fdmax ==> x <= i
      {
        if i in watched {
          return i;
        }
        i := i - 1;
      }
      assert false;
    }

    // The clients among the first descriptors visited.
    function Requests(visited: seq<nat>): seq<nat> {
      if visited == [] then []
      else Requests(visited[..|visited| - 1])
           + (if Own(visited[|visited| - 1]) then [] else [visited[|visited| - 1]])
    }

    // FD_SET and the test that goes with it.
    method Watch(fd: nat)
      requires IsMax(fdMax)
      modifies `watched, `fdMax
      ensures watched == old(watched) + {fd} && IsMax(fdMax) && fdMax == if fd > old(fdMax) then fd else old(fdMax)
    {
      watched := watched + {fd};
      if fd > fdMax { fdMax := fd; }
    }

    // FD_CLR and the test that goes with it.
    method Unwatch(fd: nat)
      requires Valid() && fd in watched && !Own(fd)
      modifies `watched, `fdMax
      ensures watched == old(watched) - {fd} && Valid() && fdMax <= old(fdMax)
    {
      watched := watched - {fd};
      if fd == fdMax {
        assert back in watched && back < fdMax;
        fdMax := UpdateMax(fdMax);
      }
    }

    // SIGHUP is known by the time the listener is visited.
    predicate HupFirst(hupBefore: bool, ready: set<nat>) {
      hupBefore || (hupPipe in ready && hupPipe < listener)
    }

    // Membership in the set once a pass over `ready` has visited all below fd.
    predicate Watched(before: set<nat>, ready: set<nat>, newFd: nat, backFd: nat, fd: nat, x: nat) {
      || (x in before && !(x in ready && x < fd && !Own(x)))
      || (x == newFd && listener in ready && listener < fd)
      || (x == backFd && back in ready && back < fd)
    }

    // Visited so far: what is ready below fd, in order, the clients among them queued.
    ghost predicate Seen(ready: set<nat>, fd: nat, visited: seq<nat>, queued: seq<nat>) {
      Increasing(visited) && (forall x :: x in visited <==> x in ready && x < fd) && queued == Requests(visited)
    }

    lemma SeenNext(ready: set<nat>, fd: nat, visited: seq<nat>, queued: seq<nat>)
      requires Seen(ready, fd, visited, queued)
      ensures fd !in ready ==> Seen(ready, fd + 1, visited, queued)
      ensures fd in ready ==> Seen(ready, fd + 1, visited + [fd], queued + if Own(fd) then [] else [fd])
    {
      var now := visited + [fd];
      assert now[..|now| - 1] == visited;
      assert forall x :: x in now <==> x in visited || x == fd;
      assert forall i :: 0 <= i < |visited| ==> visited[i] in visited;
    }

    lemma WatchedNext(before: set<nat>, ready: set<nat>, newFd: nat, backFd: nat, fd: nat)
      requires ready <= before && newFd !in before && backFd !in before
      requires listener != back
      ensures fd !in ready ==> forall x ::
        Watched(before, ready, newFd, backFd, fd + 1, x) <==> Watched(before, ready, newFd, backFd, fd, x)
      ensures fd in ready ==> forall x ::
        Watched(before, ready, newFd, backFd, fd + 1, x) <==>
          if fd == listener then Watched(before, ready, newFd, backFd, fd, x) || x == newFd
          else if fd == back then Watched(before, ready, newFd, backFd, fd, x) || x == backFd
          else Watched(before, ready, newFd, backFd, fd, x) && (x == fd ==> Own(fd))
    {
    }

    // What the manager has now.
    ghost function Now(): Before
      reads this
    {
      Before(watched, hup, quit, nclient, pushed)
    }

    // Where a pass stands when everything below fd has been visited.
    ghost predicate Passing(b: Before, now: Before, ready: set<nat>, newFd: nat, backFd: nat, fd: nat, visited: seq<nat>) {
      && Holds(b, now.watched, ready, newFd, backFd, fd)
      && b.pushed <= now.pushed && Seen(ready, fd, visited, now.pushed[|b.pushed|..])
      && now.hup == (b.hup || (hupPipe in ready && hupPipe < fd))
      && now.quit == (b.quit || (quitPipe in ready && quitPipe < fd))
      && now.nclient == b.nclient + (if listener in ready && listener < fd then 1 else 0)
      && (listener in ready && listener < fd ==> !HupFirst(b.hup, ready))
    }

    // What one ready descriptor changes, where it does not end the server.
    ghost function Handled(now: Before, fd: nat, newFd: nat, backFd: nat): Before {
      if fd == listener then now.(watched := now.watched + {newFd}, nclient := now.nclient + 1)
      else if fd == back then now.(watched := now.watched + {backFd})
      else if fd == quitPipe then now.(quit := true)
      else if fd == hupPipe then now.(hup := true)
      else now.(watched := now.watched - {fd}, pushed := now.pushed + [fd])
    }

    ghost predicate Apart() {
      && listener != back && listener != hupPipe && listener != quitPipe
      && back != hupPipe && back != quitPipe && hupPipe != quitPipe
    }

    lemma HupKnown(b: Before, now: Before, ready: set<nat>, newFd: nat, backFd: nat, fd: nat, visited: seq<nat>)
      requires Passing(b, now, ready, newFd, backFd, fd, visited)
      ensures fd == listener ==> (now.hup <==> HupFirst(b.hup, ready))
      ensures fd in ready && ready <= b.watched ==> fd in now.watched
    {
      hide Seen;
      assert fd in b.watched ==> Watched(b.watched, ready, newFd, backFd, fd, fd);
    }

    lemma PassQueues(b: Before, now: Before, ready: set<nat>, fd: nat, visited: seq<nat>)
      requires b.pushed <= now.pushed && Seen(ready, fd, visited, now.pushed[|b.pushed|..])
      ensures fd !in ready ==> Seen(ready, fd + 1, visited, now.pushed[|b.pushed|..])
      ensures var queued := if Own(fd) then now.pushed else now.pushed + [fd];
        fd in ready ==> b.pushed <= queued && Seen(ready, fd + 1, visited + [fd], queued[|b.pushed|..])
    {
      var mine := now.pushed[|b.pushed|..];
      SeenNext(ready, fd, visited, mine);
      assert (now.pushed + [fd])[|b.pushed|..] == mine + [fd] && mine + [] == mine;
      hide Seen;
    }

    // The set holds what `Watched` says.
    ghost predicate Holds(b: Before, now: set<nat>, ready: set<nat>, newFd: nat, backFd: nat, fd: nat) {
      forall x :: x in now <==> Watched(b.watched, ready, newFd, backFd, fd, x)
    }

    lemma PassWatches(b: Before, now: Before, ready: set<nat>, newFd: nat, backFd: nat, fd: nat)
      requires Holds(b, now.watched, ready, newFd, backFd, fd) && ready <= b.watched && Apart()
      requires newFd !in b.watched && backFd !in b.watched && newFd != backFd
      ensures fd !in ready ==> Holds(b, now.watched, ready, newFd, backFd, fd + 1)
      ensures fd in ready ==> Holds(b, Handled(now, fd, newFd, backFd).watched, ready, newFd, backFd, fd + 1)
    {
      WatchedNext(b.watched, ready, newFd, backFd, fd);
      hide Watched;
    }

    lemma PassNext(b: Before, now: Before, ready: set<nat>, newFd: nat, backFd: nat, fd: nat, visited: seq<nat>)
      requires Passing(b, now, ready, newFd, backFd, fd, visited) && ready <= b.watched && Apart()
      requires newFd !in b.watched && backFd !in b.watched && newFd != backFd
      ensures fd !in ready ==> Passing(b, now, ready, newFd, backFd, fd + 1, visited)
      ensures fd in ready && !(fd == listener && now.hup) ==>
        Passing(b, Handled(now, fd, newFd, backFd), ready, newFd, backFd, fd + 1, visited + [fd])
    {
      HupKnown(b, now, ready, newFd, backFd, fd, visited);
      PassQueues(b, now, ready, fd, visited);
      PassWatches(b, now, ready, newFd, backFd, fd);
      hide Seen, HupFirst, Holds;
    }

    // One ready descriptor of the pass.
    method Visit(newFd: nat, backFd: nat, fd: nat) returns (exited: bool)
      requires Valid() && fd in watched
      modifies this
      ensures exited <==> fd == listener && old(hup)
      ensures !exited ==> Valid() && Now() == Handled(old(Now()), fd, newFd, backFd)
      ensures fdMax <= old(fdMax) || fdMax == newFd || fdMax == backFd
    {
      exited := false;
      if fd == listener && !hup {
        Watch(newFd);
        nclient := nclient + 1;
      } else if fd == back {
        Watch(backFd);
      } else if fd == quitPipe {
        quit := true;
      } else if fd == hupPipe {
        hup := true;
      } else if fd == listener {
        exited := true;  // recievedMsg on the listening socket fails: exit
      } else {
        Unwatch(fd);
        pushed := pushed + [fd];
      }
    }

    // One pass after select has returned `ready`.  `newFd` is what accept would
    // return, `backFd` what the pipe holds.  Every ready descriptor is visited
    // exactly once, in order, although fd_max moves while the pass goes on; each
    // ready client is taken out of the set and its request queued.  A connection
    // that waits once SIGHUP is known ends the server.
    method Pass(ready: set<nat>, newFd: nat, backFd: nat) returns (exited: bool, ghost visited: seq<nat>)
      requires Valid() && ready <= watched
      requires newFd !in watched && backFd !in watched && newFd != backFd
      modifies this
      ensures exited <==> listener in ready && HupFirst(old(hup), ready)
      ensures !exited ==> Valid() && Increasing(visited) && (forall x :: x in visited <==> x in ready)
      ensures !exited ==> pushed == old(pushed) + Requests(visited)
      ensures !exited ==> forall x :: x in watched <==>
        || (x in old(watched) && !(x in ready && !Own(x)))
        || (x == newFd && listener in ready)
        || (x == backFd && back in ready)
      ensures !exited ==> hup == (old(hup) || hupPipe in ready) && quit == (old(quit) || quitPipe in ready)
      ensures !exited ==> nclient == old(nclient) + if listener in ready then 1 else 0
    {
      visited := [];
      ghost var b := Now();
      ghost var bound := fdMax + newFd + backFd;
      var fd := 0;
      exited := false;
      hide Seen, HupFirst, Handled, Watched, Holds;
      assert Passing(b, Now(), ready, newFd, backFd, 0, []) by { PassStarts(b, ready, newFd, backFd); }
      while fd <= fdMax
        invariant Valid() && Passing(b, Now(), ready, newFd, backFd, fd, visited)
        invariant fdMax <= bound
        decreases bound - fd
      {
        HupKnown(b, Now(), ready, newFd, backFd, fd, visited);
        PassNext(b, Now(), ready, newFd, backFd, fd, visited);
        if fd in ready {
          exited := Visit(newFd, backFd, fd);
          if exited {
            return;
          }
          visited := visited + [fd];
        }
        fd := fd + 1;
      }
      PassEnds(b, Now(), ready, newFd, backFd, fd, visited, fdMax);
    }

    lemma PassStarts(b: Before, ready: set<nat>, newFd: nat, backFd: nat)
      ensures Passing(b, b, ready, newFd, backFd, 0, [])
    {
      assert b.pushed[|b.pushed|..] == [];
    }

    lemma PassEnds(b: Before, now: Before, ready: set<nat>, newFd: nat, backFd: nat, fd: nat, visited: seq<nat>, max: nat)
      requires Passing(b, now, ready, newFd, backFd, fd, visited) && ready <= b.watched && max < fd
      requires (forall x :: x in now.watched ==> x <= max) && {listener, back, hupPipe, quitPipe} <= now.watched
      ensures Increasing(visited) && (forall x :: x in visited <==> x in ready) && now.pushed == b.pushed + Requests(visited)
      ensures forall x :: x in now.watched <==>
        || (x in b.watched && !(x in ready && !Own(x)))
        || (x == newFd && listener in ready)
        || (x == backFd && back in ready)
      ensures now.hup == (b.hup || hupPipe in ready) && now.quit == (b.quit || quitPipe in ready)
      ensures now.nclient == b.nclient + if listener in ready then 1 else 0
      ensures !(listener in ready && HupFirst(b.hup, ready))
    {
      forall x | x in ready ensures x < fd {
        if fd <= x { assert Watched(b.watched, ready, newFd, backFd, fd, x); }
      }
      assert b.pushed + now.pushed[|b.pushed|..] == now.pushed;
    }
  }
}
