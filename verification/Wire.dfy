// Frames on a byte stream: a message goes out as its length in eight bytes, least
// significant first, and then its bytes.  `readn` and `writen` hide the system
// calls that move less than asked or are interrupted.
module Wire {
  import opened Files

  // What one read or write does: interrupted, failed, end of stream, or some bytes,
  // at least one and at most as many as asked.
  datatype Io = Interrupted | Broken | Closed | Some(count: nat)

  // How a loop ends; `Waiting` when the calls we watch run out first.
  datatype Result = Done | Eof | Failed | Waiting

  function Moved(count: nat, left: nat): nat
    requires 0 < left
  {
    if count == 0 then 1 else if count < left then count else left
  }

  // The bytes a list of calls can move before one of them ends the loop.
  function Capacity(calls: seq<Io>): nat {
    if calls == [] || calls[0].Broken? || calls[0].Closed? then 0
    else (if calls[0].Some? then 1 else 0) + Capacity(calls[1..])
  }

  // readn, from position `from` of what the peer sends.  What it has put in the
  // buffer is what the stream holds there, however the calls split it; it is done
  // exactly when the buffer is full.
  method ReadN(stream: seq<Byte>, from: nat, buf: array<Byte>, size: nat, calls: seq<Io>)
    returns (r: Result, got: nat, used: nat)
    requires from <= |stream| && size <= buf.Length
    modifies buf
    ensures got <= size && from + got <= |stream| && used <= |calls|
    ensures buf[..got] == stream[from..from + got] && buf[got..] == old(buf[got..])
    ensures r == Done <==> got == size
    ensures size <= Capacity(calls) && from + size <= |stream| ==> r == Done
    ensures r == Done ==> Capacity(calls) <= Capacity(calls[used..]) + size
    ensures r == Failed ==> 0 < used && calls[used - 1] == Broken
    ensures r == Eof ==> 0 < used && (calls[used - 1] == Closed || from + got == |stream|)
    ensures r == Waiting ==> used == |calls|
  {
    var left: nat, bufptr: nat := size, 0;
    used := 0;
    while left > 0
      invariant left + bufptr == size && from + bufptr <= |stream| && used <= |calls|
      invariant buf[..][..bufptr] == stream[from..from + bufptr] && buf[..][bufptr..] == old(buf[..])[bufptr..]
      invariant Capacity(calls) <= Capacity(calls[used..]) + bufptr
      decreases |calls| - used
    {
      if used == |calls| {
        return Waiting, bufptr, used;
      }
      var call := calls[used];
      assert calls[used..][1..] == calls[used + 1..];
      used := used + 1;
      if call == Interrupted {
        continue;
      }
      if call == Broken {
        return Failed, bufptr, used;
      }
      if call == Closed || from + bufptr == |stream| {
        return Eof, bufptr, used;
      }
      var n := Moved(call.count, if left < |stream| - from - bufptr then left else |stream| - from - bufptr);
      ghost var before := buf[..];
      Copy(stream, from + bufptr, buf, bufptr, n);
      Copied(stream, from, bufptr, n, old(buf[..]), before, buf[..]);
      left := left - n;
      bufptr := bufptr + n;
    }
    r, got := Done, bufptr;
  }

  // n more bytes behind the first `at`.
  lemma Copied(stream: seq<Byte>, from: nat, at: nat, n: nat, first: seq<Byte>, before: seq<Byte>, now: seq<Byte>)
    requires from + at + n <= |stream| && at + n <= |first| == |before| == |now|
    requires before[..at] == stream[from..from + at] && before[at..] == first[at..]
    requires now[..at] == before[..at] && now[at..at + n] == stream[from + at..from + at + n] && now[at + n..] == before[at + n..]
    ensures now[..at + n] == stream[from..from + at + n] && now[at + n..] == first[at + n..]
  {
    assert now[..at + n] == now[..at] + now[at..at + n];
    assert before[at..][n..] == before[at + n..] && first[at..][n..] == first[at + n..];
  }

  // The kernel's copy of n bytes to the buffer pointer.
  method Copy(stream: seq<Byte>, from: nat, buf: array<Byte>, at: nat, n: nat)
    requires from + n <= |stream| && at + n <= buf.Length
    modifies buf
    ensures buf[..][..at] == old(buf[..])[..at] && buf[..][at..at + n] == stream[from..from + n]
    ensures buf[..][at + n..] == old(buf[..])[at + n..]
  {
    forall i | 0 <= i < n {
      buf[at + i] := stream[from + i];
    }
  }

  // writen: the stream gets the buffer's bytes from the front, all of them exactly
  // when it is done.
  method WriteN(stream: seq<Byte>, buf: seq<Byte>, calls: seq<Io>)
    returns (r: Result, stream': seq<Byte>, used: nat)
    ensures stream <= stream' <= stream + buf && used <= |calls|
    ensures r == Done <==> stream' == stream + buf
    ensures |buf| <= Capacity(calls) ==> r == Done
    ensures r == Done ==> Capacity(calls) <= Capacity(calls[used..]) + |buf|
    ensures r == Failed ==> 0 < used && calls[used - 1] == Broken
    ensures r == Eof ==> 0 < used && calls[used - 1] == Closed
    ensures r == Waiting ==> used == |calls|
  {
    var left: nat, bufptr: nat := |buf|, 0;
    used, stream' := 0, stream;
    while left > 0
      invariant left + bufptr == |buf| && used <= |calls| && stream' == stream + buf[..bufptr]
      invariant Capacity(calls) <= Capacity(calls[used..]) + bufptr
      decreases |calls| - used
    {
      assert |stream'| < |stream + buf|;
      if used == |calls| {
        return Waiting, stream', used;
      }
      var call := calls[used];
      assert calls[used..][1..] == calls[used + 1..];
      used := used + 1;
      if call == Interrupted {
        continue;
      }
      if call == Broken {
        return Failed, stream', used;
      }
      if call == Closed {
        return Eof, stream', used;
      }
      var n := Moved(call.count, left);
      stream' := stream' + buf[bufptr..bufptr + n];
      assert buf[..bufptr] + buf[bufptr..bufptr + n] == buf[..bufptr + n];
      left := left - n;
      bufptr := bufptr + n;
    }
    assert buf[..bufptr] == buf;
    r := Done;
  }

  // ---------- lengths ----------

  const WORD := 8  // sizeof(size_t)
  const LIMIT := 0x1_0000_0000_0000_0000

  function Power(k: nat): nat { if k == 0 then 1 else 256 * Power(k - 1) }

  function Little(n: nat, k: nat): (b: seq<Byte>)
    ensures |b| == k
  {
    if k == 0 then [] else [n % 256] + Little(n / 256, k - 1)
  }

  function Value(b: seq<Byte>): nat {
    if b == [] then 0 else b[0] + 256 * Value(b[1..])
  }

  lemma {:induction false} LittleRoundTrip(n: nat, k: nat)
    requires n < Power(k)
    ensures Value(Little(n, k)) == n
  {
    if k != 0 {
      LittleRoundTrip(n / 256, k - 1);
      assert Little(n, k)[1..] == Little(n / 256, k - 1);
    }
  }

  // Byte j counts powers of 256 from the least: 256 to the i is a 1 in byte i alone.
  lemma {:induction false} LeastFirst(i: nat, k: nat, j: nat)
    requires i < k && j < k
    ensures Little(Power(i), k)[j] == if j == i then 1 else 0
  {
    if i == 0 {
      if 0 < j { NothingLeft(k - 1, j - 1); }
    } else {
      assert Power(i) == 256 * Power(i - 1) && Power(i) / 256 == Power(i - 1) && Power(i) % 256 == 0;
      if 0 < j { LeastFirst(i - 1, k - 1, j - 1); }
    }
  }

  lemma {:induction false} NothingLeft(k: nat, j: nat)
    requires j < k
    ensures Little(0, k)[j] == 0
  {
    if 0 < j { NothingLeft(k - 1, j - 1); }
  }

  lemma WordRange()
    ensures Power(WORD) == LIMIT
  {
    assert Power(2) == 0x1_0000;
    assert Power(4) == 0x1_0000_0000;
    assert Power(6) == 0x1_0000_0000_0000;
  }

  // ---------- frames ----------

  type Frame = f: seq<Byte> | |f| < LIMIT

  function Framed(f: Frame): seq<Byte> {
    Little(|f|, WORD) + f
  }

  function Sent(frames: seq<Frame>): seq<Byte> {
    if frames == [] then [] else Framed(frames[0]) + Sent(frames[1..])
  }

  // The first frame of a stream is where its length says, whatever follows.
  lemma FirstFrame(f: Frame, rest: seq<Byte>)
    ensures var s := Framed(f) + rest;
      Value(s[..WORD]) == |f| && s[WORD..WORD + |f|] == f && s[WORD + |f|..] == rest
  {
    WordRange();
    LittleRoundTrip(|f|, WORD);
    var s := Framed(f) + rest;
    assert s[..WORD] == Little(|f|, WORD);
  }

  // No stream can be read as two different lists of frames.
  lemma {:induction false} SentIsInjective(fs: seq<Frame>, gs: seq<Frame>)
    requires Sent(fs) == Sent(gs)
    ensures fs == gs
  {
    assert (fs != [] ==> |Sent(fs)| >= WORD) && (gs != [] ==> |Sent(gs)| >= WORD);
    if fs != [] && gs != [] {
      FirstFrame(fs[0], Sent(fs[1..]));
      FirstFrame(gs[0], Sent(gs[1..]));
      SentIsInjective(fs[1..], gs[1..]);
      assert fs == [fs[0]] + fs[1..] && gs == [gs[0]] + gs[1..];
    }
  }

  // recievedMsg, from position `from`, where the peer sends frame f next: it gets f
  // and stops right behind it, unless the stream or the calls end first.
  method ReceiveMsg(stream: seq<Byte>, from: nat, calls: seq<Io>, ghost f: Frame, ghost rest: seq<Byte>)
    returns (r: Result, msg: seq<Byte>, next: nat, used: nat)
    requires from <= |stream| && stream[from..] <= Framed(f) + rest
    ensures used <= |calls| && next <= |stream|
    ensures r == Done ==> msg == f && next == from + |Framed(f)|
    ensures r == Done ==> Capacity(calls) <= Capacity(calls[used..]) + |Framed(f)|
    ensures |Framed(f)| <= Capacity(calls) && from + |Framed(f)| <= |stream| ==> r == Done
  {
    FirstFrame(f, rest);
    var word := new Byte[WORD];
    var got;
    msg, next := [], from;
    r, got, used := ReadN(stream, from, word, WORD, calls);
    if r != Done {
      return;
    }
    assert word[..WORD] == stream[from..][..WORD] == (Framed(f) + rest)[..WORD];
    var len := Value(word[..WORD]);
    var body := new Byte[len + 1];
    var used2;
    r, got, used2 := ReadN(stream, from + WORD, body, len, calls[used..]);
    assert calls[used..][used2..] == calls[used + used2..];
    used := used + used2;
    if r != Done {
      return;
    }
    assert body[..len] == stream[from..][WORD..WORD + len] == (Framed(f) + rest)[WORD..WORD + len];
    msg, next := body[..len], from + WORD + len;
  }

  lemma {:induction false} SentSnoc(frames: seq<Frame>, f: Frame)
    ensures Sent(frames + [f]) == Sent(frames) + Framed(f)
  {
    if frames == [] {
      assert frames + [f] == [f] && [f][1..] == [];
    } else {
      assert (frames + [f])[1..] == frames[1..] + [f];
      SentSnoc(frames[1..], f);
    }
  }

  lemma {:induction false} SentConcat(fs: seq<Frame>, gs: seq<Frame>)
    ensures Sent(fs + gs) == Sent(fs) + Sent(gs)
  {
    if fs == [] {
      assert fs + gs == gs;
    } else {
      assert (fs + gs)[1..] == fs[1..] + gs;
      SentConcat(fs[1..], gs);
    }
  }

  // Frame i of a stream starts where the frames before it end.
  lemma Position(frames: seq<Frame>, i: nat, stream: seq<Byte>)
    requires i < |frames| && stream <= Sent(frames) && |Sent(frames[..i])| <= |stream|
    ensures stream[|Sent(frames[..i])|..] <= Framed(frames[i]) + Sent(frames[i + 1..])
    ensures Sent(frames[..i + 1]) == Sent(frames[..i]) + Framed(frames[i])
  {
    SentConcat(frames[..i], frames[i..]);
    assert frames[..i] + frames[i..] == frames && frames[i..][1..] == frames[i + 1..];
    SentSnoc(frames[..i], frames[i]);
    assert frames[..i] + [frames[i]] == frames[..i + 1];
    assert Sent(frames)[|Sent(frames[..i])|..] == Framed(frames[i]) + Sent(frames[i + 1..]);
  }

  // The receiving side, for n frames.  `stream` is as much of what the peer sends
  // as ever arrives.
  method Receive(stream: seq<Byte>, n: nat, calls: seq<Io>, ghost frames: seq<Frame>)
    returns (r: Result, msgs: seq<seq<Byte>>, next: nat)
    requires stream <= Sent(frames) && n <= |frames|
    ensures msgs <= frames[..n] && next <= |stream|
    ensures r == Done ==> msgs == frames[..n] && next == |Sent(frames[..n])|
    ensures |Sent(frames[..n])| <= Capacity(calls) && |Sent(frames[..n])| <= |stream| ==> r == Done
  {
    r, msgs, next := Done, [], 0;
    var used := 0;
    for i := 0 to n
      invariant used <= |calls| && msgs == frames[..i] && next == |Sent(frames[..i])| <= |stream|
      invariant Capacity(calls) <= Capacity(calls[used..]) + |Sent(frames[..i])|
      invariant r == Done
    {
      Position(frames, i, stream);
      SentConcat(frames[..i + 1], frames[i + 1..n]);
      assert frames[..i + 1] + frames[i + 1..n] == frames[..n];
      var msg, next', u;
      r, msg, next', u := ReceiveMsg(stream, next, calls[used..], frames[i], Sent(frames[i + 1..]));
      assert calls[used..][u..] == calls[used + u..];
      if r != Done {
        return;
      }
      msgs, next, used := msgs + [msg], next', used + u;
    }
  }

  // The two writes at the end of sendMsg.
  method SendMsg(stream: seq<Byte>, f: Frame, calls: seq<Io>) returns (r: Result, stream': seq<Byte>, used: nat)
    ensures stream <= stream' <= stream + Framed(f) && used <= |calls|
    ensures r == Done <==> stream' == stream + Framed(f)
    ensures |Framed(f)| <= Capacity(calls) ==> r == Done
    ensures r == Done ==> Capacity(calls) <= Capacity(calls[used..]) + |Framed(f)|
  {
    var word := Little(|f|, WORD);
    assert stream + Framed(f) == stream + word + f;
    r, stream', used := WriteN(stream, word, calls);
    if r != Done {
      assert |stream'| < |stream + word|;
      return;
    }

    var used2;
    r, stream', used2 := WriteN(stream', f, calls[used..]);
    assert calls[used..][used2..] == calls[used + used2..];
    used := used + used2;
  }

  // The sending side: each frame's length word, then its bytes.
  method Send(frames: seq<Frame>, calls: seq<Io>) returns (r: Result, stream: seq<Byte>)
    ensures stream <= Sent(frames)
    ensures r == Done <==> stream == Sent(frames)
    ensures |Sent(frames)| <= Capacity(calls) ==> r == Done
  {
    r, stream := Done, [];
    var used := 0;
    for i := 0 to |frames|
      invariant used <= |calls| && stream == Sent(frames[..i]) && r == Done
      invariant Capacity(calls) <= Capacity(calls[used..]) + |stream|
    {
      SentSnoc(frames[..i], frames[i]);
      assert frames[..i] + [frames[i]] == frames[..i + 1];
      SentConcat(frames[..i + 1], frames[i + 1..]);
      assert frames[..i + 1] + frames[i + 1..] == frames;
      var u;
      r, stream, u := SendMsg(stream, frames[i], calls[used..]);
      assert calls[used..][u..] == calls[used + u..];
      used := used + u;
      if r != Done {
        return;
      }
    }
    assert frames[..|frames|] == frames;
  }

  // Whatever the system calls on either side do, the receiver gets a prefix of the
  // frames sent; if both sides finish it gets them all, in order, with no byte left.
  method Exchange(frames: seq<Frame>, out: seq<Io>, in_: seq<Io>)
    returns (sent: Result, received: Result, msgs: seq<seq<Byte>>, left: nat)
    ensures msgs <= frames
    ensures sent == Done && received == Done ==> msgs == frames && left == 0
    ensures |Sent(frames)| <= Capacity(out) && |Sent(frames)| <= Capacity(in_) ==> sent == Done && received == Done
  {
    var stream, next;
    sent, stream := Send(frames, out);
    received, msgs, next := Receive(stream, |frames|, in_, frames);
    assert frames[..|frames|] == frames;
    left := |stream| - next;
  }
}
