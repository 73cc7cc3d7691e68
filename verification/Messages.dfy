// The text of requests and replies: fields separated by commas, taken apart by
// strtok_r, which skips empty fields and stops at a NUL.
module Messages {
  import opened Files
  import opened Wire

  const COMMA: char := ','
  const NUL: char := '\0'

  // A field strtok_r gives back as it is: not empty, and without a comma.
  predicate Clean(s: string) {
    s != "" && COMMA !in s
  }

  // A C string has no NUL inside.
  predicate CString(s: string) {
    NUL !in s
  }

  function Until(s: string, c: char): (t: string)
    ensures t <= s && c !in t
    ensures |t| < |s| ==> s[|t|] == c
  {
    if s == "" || s[0] == c then "" else [s[0]] + Until(s[1..], c)
  }

  function SkipCommas(s: string): string {
    if s != "" && s[0] == COMMA then SkipCommas(s[1..]) else s
  }

  // strtok_r(_, ",", _): a token and what is behind its comma, or NULL.
  datatype Strtok = Null | Token(text: string, rest: string)

  function Next(s: string): (t: Strtok)
    ensures t.Token? ==> Clean(t.text) && |t.rest| < |s|
  {
    var u := SkipCommas(s);
    SkipShortens(s);
    if u == "" then Null
    else Token(Until(u, COMMA), if |Until(u, COMMA)| < |u| then u[|Until(u, COMMA)| + 1..] else "")
  }

  lemma {:induction false} SkipShortens(s: string)
    ensures |SkipCommas(s)| <= |s| && (SkipCommas(s) != "" ==> SkipCommas(s)[0] != COMMA)
  {
    if s != "" && s[0] == COMMA { SkipShortens(s[1..]); }
  }

  // All tokens, as the client's loop takes them.
  function Tokens(s: string): (ts: seq<string>)
    ensures forall t :: t in ts ==> Clean(t)
    decreases |s|
  {
    var t := Next(s);
    if t.Null? then [] else [t.text] + Tokens(t.rest)
  }

  lemma {:induction false} UntilPrefix(p: string, c: char, rest: string)
    requires c !in p && (rest == "" || rest[0] == c)
    ensures Until(p + rest, c) == p
  {
    if p == "" {
      assert p + rest == rest;
    } else {
      assert (p + rest)[1..] == p[1..] + rest;
      UntilPrefix(p[1..], c, rest);
    }
  }

  // A clean field in front is the next token.
  lemma NextField(p: string, rest: string)
    requires Clean(p)
    ensures Next(p) == Token(p, "")
    ensures Next(p + [COMMA] + rest) == Token(p, rest)
  {
    UntilPrefix(p, COMMA, "");
    assert p + "" == p;
    UntilPrefix(p, COMMA, [COMMA] + rest);
    assert p + ([COMMA] + rest) == p + [COMMA] + rest;
    assert p[0] in p;
  }

  // ---------- numbers ----------

  function Digit(d: nat): char
    requires d < 10
  {
    ['0', '1', '2', '3', '4', '5', '6', '7', '8', '9'][d]
  }

  predicate IsDigit(c: char) { '0' <= c <= '9' }

  // sprintf of a size.
  function Dec(n: nat): string {
    if n < 10 then [Digit(n)] else Dec(n / 10) + [Digit(n % 10)]
  }

  function Digits(s: string, acc: nat): nat {
    if s != "" && IsDigit(s[0]) then Digits(s[1..], 10 * acc + (s[0] as int - '0' as int)) else acc
  }

  predicate IsSpace(c: char) { c == ' ' || '\t' <= c <= '\r' }

  // strtol, base 10.
  function Strtol(s: string): int {
    if s != "" && IsSpace(s[0]) then Strtol(s[1..])
    else if s != "" && s[0] == '-' then -(Digits(s[1..], 0) as int)
    else if s != "" && s[0] == '+' then Digits(s[1..], 0)
    else Digits(s, 0)
  }

  lemma OneDigit(d: nat, rest: string, acc: nat)
    requires d < 10
    ensures IsDigit(Digit(d)) && Digits([Digit(d)] + rest, acc) == Digits(rest, 10 * acc + d)
  {
    assert ([Digit(d)] + rest)[1..] == rest;
  }

  lemma {:induction false} DecDigits(n: nat, rest: string)
    ensures Digits(Dec(n) + rest, 0) == Digits(rest, n)
    ensures Dec(n) != "" && forall c :: c in Dec(n) ==> IsDigit(c)
  {
    hide Digits, Digit, IsDigit;
    var d := n % 10;
    if n < 10 {
      OneDigit(n, rest, 0);
    } else {
      DecDigits(n / 10, [Digit(d)] + rest);
      assert (Dec(n / 10) + [Digit(d)]) + rest == Dec(n / 10) + ([Digit(d)] + rest);
      OneDigit(d, rest, n / 10);
    }
  }

  lemma NumberRoundTrip(n: nat)
    ensures Strtol(Dec(n)) == n && Clean(Dec(n)) && CString(Dec(n))
  {
    DecDigits(n, "");
    assert Dec(n) + "" == Dec(n);
    assert Dec(n)[0] in Dec(n);
  }

  // ---------- requests ----------

  datatype Message =
    | Hangup(sockname: string)
    | Open(path: string, create: bool)
    | Read(path: string)
    | ReadN(n: nat)
    | Append(path: string, size: nat)
    | Close(path: string)

  // sendMsg: the api id with its comma, the first argument, and the second.
  function Print(m: Message): string {
    match m
    case Hangup(sockname) => "1" + [COMMA] + sockname
    case Open(path, create) => "2" + [COMMA] + (path + [COMMA] + (if create then "1" else "0"))
    case Read(path) => "3" + [COMMA] + path
    case ReadN(n) => "4" + [COMMA] + Dec(n)
    case Append(path, size) => "5" + [COMMA] + (path + [COMMA] + Dec(size))
    case Close(path) => "6" + [COMMA] + path
  }

  datatype Heard = Unreadable | Request(m: Message)

  // The manager takes the api id, and for an append path and size; the worker takes
  // the rest from what is left.
  function Parse(text: string): Heard {
    match Next(text)
    case Null => Unreadable
    case Token(api, info) =>
      var id, field := Strtol(api), Next(info);
      if id == 4 then (if Strtol(info) >= 0 then Request(ReadN(Strtol(info))) else Unreadable)
      else if id == 6 then Request(Close(info))
      else if field.Null? then Unreadable
      else if id == 1 then Request(Hangup(field.text))
      else if id == 2 then ParseFlag(field.text, Next(field.rest))
      else if id == 3 then Request(Read(field.text))
      else if id == 5 then
        (if Strtol(field.rest) >= 0 then Request(Append(field.text, Strtol(field.rest))) else Unreadable)
      else Unreadable
  }

  function ParseFlag(path: string, flag: Strtok): Heard {
    if flag.Token? && flag.text != "" && flag.text[0] == '1' then Request(Open(path, true))
    else if flag.Token? && flag.text != "" && flag.text[0] == '0' then Request(Open(path, false))
    else Unreadable
  }

  // The field of a request that strtok_r has to give back whole.
  predicate Fields(m: Message) {
    match m
    case Hangup(sockname) => Clean(sockname)
    case Open(path, _) => Clean(path)
    case Read(path) => Clean(path)
    case Append(path, _) => Clean(path)
    case ReadN(_) => true
    case Close(_) => true
  }

  lemma ApiId(id: nat, rest: string)
    requires id < 10
    ensures Next([Digit(id)] + [COMMA] + rest) == Token([Digit(id)], rest)
    ensures Strtol([Digit(id)]) == id
  {
    NumberRoundTrip(id);
    assert Dec(id) == [Digit(id)];
    NextField([Digit(id)], rest);
  }

  // The server understands a request as it was meant exactly when its path is not
  // empty and has no comma in it.  (A close is understood with any path.)
  lemma RequestRoundTrip(m: Message)
    ensures Parse(Print(m)) == Request(m) <==> Fields(m)
  {
    hide Next, Strtol, Dec, Clean;
    match m {
      case Hangup(sockname) =>
        ApiId(1, sockname);
        if Clean(sockname) { NextField(sockname, ""); }
      case Open(path, create) => OpenRoundTrip(path, create);
      case Read(path) =>
        ApiId(3, path);
        if Clean(path) { NextField(path, ""); }
      case ReadN(n) =>
        ApiId(4, Dec(n));
        NumberRoundTrip(n);
      case Append(path, size) =>
        ApiId(5, path + [COMMA] + Dec(size));
        NumberRoundTrip(size);
        if Clean(path) { NextField(path, Dec(size)); }
      case Close(path) => ApiId(6, path);
    }
  }

  lemma FlagField(d: nat)
    requires d < 10
    ensures Next([Digit(d)]) == Token([Digit(d)], "")
  {
    NumberRoundTrip(d);
    assert Dec(d) == [Digit(d)];
    NextField([Digit(d)], "");
  }

  lemma OpenRoundTrip(path: string, create: bool)
    ensures Parse(Print(Open(path, create))) == Request(Open(path, create)) <==> Clean(path)
  {
    hide Next, Strtol, Clean;
    var flag := [Digit(if create then 1 else 0)];
    assert flag == if create then "1" else "0";
    ApiId(2, path + [COMMA] + flag);
    FlagField(if create then 1 else 0);
    if Clean(path) { NextField(path, flag); }
  }

  // The texts themselves, of one request of each kind.
  lemma KnownRequests()
    ensures Print(Hangup("s")) == "1,s" && Print(Open("a", true)) == "2,a,1" && Print(Open("a", false)) == "2,a,0"
    ensures Print(Read("a")) == "3,a" && Print(ReadN(205)) == "4,205" && Print(Append("a", 38)) == "5,a,38" && Print(Close("a")) == "6,a"
  {
    assert Dec(2) == "2" && Dec(20) == "20" && Dec(205) == "205";
    assert Dec(3) == "3" && Dec(38) == "38";
  }

  // strtol skips spaces, takes a sign, and stops at what is no digit.
  lemma KnownNumbers()
    ensures Strtol(" 42,") == 42 && Strtol("+4x") == 4 && Strtol("-1") == -1 && Strtol("x") == 0
  {
    assert " 42,"[1..] == "42," && "42,"[1..] == "2," && "2,"[1..] == ",";
    assert Digits("2,", 4) == 42 && Digits("42,", 0) == 42;
    assert "+4x"[1..] == "4x" && "4x"[1..] == "x" && Digits("4x", 0) == 4;
    assert "-1"[1..] == "1" && "1"[1..] == "";
  }

  // ---------- replies ----------

  // The evicted paths as removeFile collects them.
  function Listing(paths: seq<string>): string {
    if paths == [] then "" else [COMMA] + paths[0] + Listing(paths[1..])
  }

  // A successful open or append: "0", the evicted paths, and two bytes of padding
  // that the length counts.
  function PrintReply(paths: seq<string>): string {
    "0" + Listing(paths) + [NUL, NUL]
  }

  // The client's view of it: the status, and the paths it prints.
  function ParseReply(text: string): (int, seq<string>) {
    var s := Until(text, NUL);
    match Next(s)
    case Null => (Strtol(s), [])
    case Token(status, rest) => (Strtol(status), Tokens(rest))
  }

  // What the client's loop does at the first of several listed paths.
  lemma ListingNext(paths: seq<string>)
    requires paths != [] && Clean(paths[0])
    ensures Next(Listing(paths)).Token? && Next(Listing(paths)).text == paths[0]
    ensures Tokens(Next(Listing(paths)).rest) == Tokens(Listing(paths[1..]))
  {
    hide Next, Clean, Tokens;
    var p, rest := paths[0], paths[1..];
    assert Listing(paths) == [COMMA] + (p + Listing(rest));
    SkipOne(p + Listing(rest));
    if rest == [] {
      assert p + "" == p;
      NextField(p, "");
    } else {
      var tail := rest[0] + Listing(rest[1..]);
      assert Listing(rest) == [COMMA] + tail;
      assert p + Listing(rest) == p + [COMMA] + tail;
      NextField(p, tail);
      SkipOne(tail);
    }
  }

  lemma {:induction false} ListingTokens(paths: seq<string>)
    requires forall p :: p in paths ==> Clean(p)
    ensures Tokens(Listing(paths)) == paths
  {
    if paths == [] {
      NothingNext();
    } else {
      hide Next, Clean, Listing;
      assert Clean(paths[0]) && forall q :: q in paths[1..] ==> Clean(q);
      ListingTokens(paths[1..]);
      ListingNext(paths);
    }
  }

  lemma NothingNext()
    ensures Next("") == Null
  {
  }

  // A comma in front of a token makes no difference.
  lemma SkipOne(s: string)
    ensures Next([COMMA] + s) == Next(s) && Tokens([COMMA] + s) == Tokens(s)
  {
    assert ([COMMA] + s)[1..] == s;
  }

  // For C strings, the client sees the status and exactly the evicted paths, in the
  // order they went, exactly when none of them is empty or has a comma.
  lemma ReplyRoundTrip(paths: seq<string>)
    requires forall p :: p in paths ==> CString(p)
    ensures ParseReply(PrintReply(paths)) == (0, paths) <==> forall p :: p in paths ==> Clean(p)
  {
    var text := "0" + Listing(paths);
    ListingCString(paths);
    assert CString(text) by { assert "0"[0] != NUL; }
    UntilPrefix(text, NUL, [NUL, NUL]);
    assert PrintReply(paths) == text + [NUL, NUL];
    StatusNext(paths);
    if forall p :: p in paths ==> Clean(p) { ListingTokens(paths); }
    hide Next, Until, Listing, Clean, Strtol;
  }

  lemma {:induction false} ListingCString(paths: seq<string>)
    requires forall p :: p in paths ==> CString(p)
    ensures CString(Listing(paths))
  {
    if paths != [] {
      assert CString(paths[0]);
      ListingCString(paths[1..]);
    }
  }

  lemma StatusNext(paths: seq<string>)
    ensures Next("0" + Listing(paths)).Token? && Strtol(Next("0" + Listing(paths)).text) == 0
    ensures Tokens(Next("0" + Listing(paths)).rest) == Tokens(Listing(paths))
  {
    FlagField(0);
    assert [Digit(0)] == "0" && Dec(0) == "0";
    NumberRoundTrip(0);
    if paths == [] {
      assert "0" + Listing(paths) == "0";
    } else {
      var tail := paths[0] + Listing(paths[1..]);
      assert Listing(paths) == [COMMA] + tail && "0" + Listing(paths) == "0" + [COMMA] + tail;
      ApiId(0, tail);
      SkipOne(tail);
    }
    hide Next, Strtol, Tokens;
  }

  // The paths an eviction reports, in the order it takes the files.
  function Gone(files: seq<File>): seq<string> {
    if files == [] then [] else Gone(files[1..]) + if Evictable(files[0]) then [files[0].path] else []
  }

  lemma {:induction false} NoticeIsListing(files: seq<File>)
    ensures Notice(files) == Listing(Gone(files))
  {
    if files != [] {
      NoticeIsListing(files[1..]);
      if Evictable(files[0]) {
        ListingSnoc(Gone(files[1..]), files[0].path);
        assert [COMMA] + files[0].path == "," + files[0].path;
      } else {
        assert Gone(files) == Gone(files[1..]);
      }
    }
  }

  lemma {:induction false} ListingSnoc(paths: seq<string>, p: string)
    ensures Listing(paths + [p]) == Listing(paths) + ([COMMA] + p)
  {
    if paths == [] {
      assert paths + [p] == [p] && [p][1..] == [];
      assert [COMMA] + p + "" == [COMMA] + p;
    } else {
      assert (paths + [p])[1..] == paths[1..] + [p];
      ListingSnoc(paths[1..], p);
    }
  }

  // They are the paths of the files that are closed and written, from the last in the
  // list, which is the oldest, to the first: `at` says where they stand.
  ghost predicate OldestFirst(files: seq<File>, paths: seq<string>, at: seq<nat>) {
    && |at| == |paths| && (forall i :: 0 <= i < |at| ==> at[i] < |files| && paths[i] == files[at[i]].path)
    && (forall i, j :: 0 <= i < j < |at| ==> at[j] < at[i])
  }

  ghost predicate ClosedAndWritten(files: seq<File>, at: seq<nat>) {
    forall k :: 0 <= k < |files| ==> (k in at <==> files[k].owner == CLOSED && files[k].modified == FILLED)
  }

  lemma {:induction false} GoneInOrder(files: seq<File>) returns (at: seq<nat>)
    ensures OldestFirst(files, Gone(files), at) && ClosedAndWritten(files, at)
  {
    at := [];
    if files != [] {
      var later := GoneInOrder(files[1..]);
      at := Shifted(later) + if Evictable(files[0]) then [0] else [];
      hide OldestFirst, ClosedAndWritten;
      OneMoreGone(files, later, at);
      OneMoreWritten(files, later, at);
    }
  }

  lemma OneMoreGone(files: seq<File>, later: seq<nat>, at: seq<nat>)
    requires files != [] && at == Shifted(later) + if Evictable(files[0]) then [0] else []
    requires OldestFirst(files[1..], Gone(files[1..]), later)
    ensures OldestFirst(files, Gone(files), at)
  {
    hide Shifted, Evictable;
  }

  lemma OneMoreWritten(files: seq<File>, later: seq<nat>, at: seq<nat>)
    requires files != [] && at == Shifted(later) + if Evictable(files[0]) then [0] else []
    requires ClosedAndWritten(files[1..], later)
    ensures ClosedAndWritten(files, at)
  {
    hide Shifted;
    forall k | 0 <= k < |files| ensures k in at <==> files[k].owner == CLOSED && files[k].modified == FILLED {
      if 0 < k {
        ShiftedIn(later, k);
        assert files[1..][k - 1] == files[k];
      }
    }
  }

  function Shifted(at: seq<nat>): (r: seq<nat>)
    ensures |r| == |at| && forall i :: 0 <= i < |at| ==> r[i] == at[i] + 1
  {
    if at == [] then [] else [at[0] + 1] + Shifted(at[1..])
  }

  lemma ShiftedIn(at: seq<nat>, k: nat)
    requires 0 < k
    ensures k in Shifted(at) <==> k - 1 in at
  {
    if k - 1 in at {
      var i :| 0 <= i < |at| && at[i] == k - 1;
      assert Shifted(at)[i] == k;
    }
    hide Shifted;
  }

  // They are the paths of the evictable files.
  lemma {:induction false} GonePaths(files: seq<File>)
    ensures forall p :: p in Gone(files) <==> exists f :: f in files && Evictable(f) && f.path == p
    ensures |Gone(files)| == Victims(files)
  {
    if files != [] {
      hide Evictable;
      GonePaths(files[1..]);
      assert files == [files[0]] + files[1..];
      forall p ensures p in Gone(files) <==> exists f :: f in files && Evictable(f) && f.path == p {
        if p in Gone(files[1..]) {
          var f :| f in files[1..] && Evictable(f) && f.path == p;
          assert f in files;
        }
        if Evictable(files[0]) && files[0].path == p { assert files[0] in files; }
        if f :| f in files && Evictable(f) && f.path == p {
          assert f == files[0] || f in files[1..];
        }
      }
    }
  }

  // ---------- files on the wire ----------

  // Characters are bytes.
  predicate Narrow(s: string) {
    forall c :: c in s ==> c as int < 256
  }

  function ToBytes(s: string): (b: seq<Byte>)
    ensures |b| == |s|
  {
    if s == "" then [] else [s[0] as int % 256] + ToBytes(s[1..])
  }

  function FromBytes(b: seq<Byte>): (s: string)
    ensures |s| == |b|
  {
    if b == [] then "" else [b[0] as char] + FromBytes(b[1..])
  }

  lemma {:induction false} BytesRoundTrip(s: string)
    requires Narrow(s)
    ensures FromBytes(ToBytes(s)) == s
  {
    if s != "" {
      assert s[0] in s && forall c :: c in s[1..] ==> c in s;
      BytesRoundTrip(s[1..]);
    }
  }

  // sendMsg_File_Content: a framed header, and the content behind it unframed.
  datatype Item = Item(path: string, data: seq<Byte>)

  function Header(i: Item): string {
    "1" + [COMMA] + (i.path + [COMMA] + Dec(|i.data|))
  }

  // An item that fits: its path a clean C string, its header a frame.
  predicate Fits(i: Item) {
    Clean(i.path) && CString(i.path) && Narrow(i.path) && |Header(i)| < LIMIT
  }

  // A list of items that fit.
  predicate AllFit(items: seq<Item>) {
    forall i :: i in items ==> Fits(i)
  }

  function Status(ok: bool): string { if ok then "0" else "-1" }

  // The answer to readNFiles: each file, then the status.
  function Batch(items: seq<Item>, ok: bool): seq<Byte>
    requires AllFit(items)
  {
    if items == [] then Framed(ToBytes(Status(ok)))
    else
      assert Fits(items[0]);
      Framed(ToBytes(Header(items[0]))) + (items[0].data + Batch(items[1..], ok))
  }

  // receivedMsg_File_Content on a message: the path and size of a file that
  // follows, or the end with its status.
  datatype News = FileFollows(path: string, size: nat) | NoMore | Wrong

  function ParseNews(text: string): News {
    match Next(Until(text, NUL))
    case Null => Wrong
    case Token(t, rest) =>
      if t != "" && t[0] == '1' then
        match Next(rest)
        case Null => Wrong
        case Token(path, more) =>
          (match Next(more)
           case Null => Wrong
           case Token(size, _) => if Strtol(size) < 0 then Wrong else FileFollows(path, Strtol(size)))
      else if t != "" && t[0] == '0' then NoMore
      else Wrong
  }

  lemma KnownReplies()
    ensures PrintReply(["a", "b"]) == "0,a,b\0\0" && PrintReply([]) == "0\0\0" && Status(true) == "0" && Status(false) == "-1"
    ensures Header(Item("a", [7, 7])) == "1,a,2"
  {
    assert ["a", "b"][1..] == ["b"] && ["b"][1..] == [];
    assert Listing(["b"]) == ",b" && Listing(["a", "b"]) == ",a,b";
    assert Dec(2) == "2";
  }

  lemma NewsOfHeader(i: Item)
    requires Fits(i)
    ensures ParseNews(Header(i)) == FileFollows(i.path, |i.data|)
  {
    var size := Dec(|i.data|);
    NumberRoundTrip(|i.data|);
    ApiId(1, i.path + [COMMA] + size);
    NextField(i.path, size);
    NextField(size, "");
    assert CString(Header(i)) by { assert "1"[0] != NUL && COMMA != NUL; }
    assert Header(i) + "" == Header(i);
    UntilPrefix(Header(i), NUL, "");
    assert "1" == [Digit(1)];
    hide Next, Until, Strtol, Dec, Clean;
  }

  lemma NewsOfStatus(ok: bool)
    ensures ParseNews(Status(ok)) == if ok then NoMore else Wrong
  {
    if ok {
      FlagField(0);
      assert Status(ok) == [Digit(0)];
    } else {
      assert Status(ok) == "-1" && "-1" + "" == "-1";
      assert Clean("-1") by { assert forall c :: c in "-1" ==> c == '-' || c == '1'; }
      NextField("-1", "");
    }
    assert CString(Status(ok)) by { assert forall c :: c in Status(ok) ==> c == '0' || c == '-' || c == '1'; }
    assert Status(ok) + "" == Status(ok);
    UntilPrefix(Status(ok), NUL, "");
    hide Next, Until;
  }

  lemma HeaderNarrow(i: Item)
    requires Fits(i)
    ensures Narrow(Header(i)) && |Header(i)| < LIMIT
  {
    DecDigits(|i.data|, "");
  }

  // What is left of a stream behind its first part, as far as it has come.
  lemma BehindFirst(left: seq<Byte>, first: seq<Byte>, behind: seq<Byte>)
    requires left <= first + behind && |first| <= |left|
    ensures left[..|first|] == first && left[|first|..] <= behind
  {
    assert left[..|first|] == (first + behind)[..|first|];
  }

  // recievedMsg on a stream of which `left` ever comes, whatever its reads do: the
  // message, and what is left of the stream and of the calls.
  method ReceiveText(left: seq<Byte>, calls: seq<Io>, ghost sent: string, ghost behind: seq<Byte>)
    returns (r: Result, text: string, left': seq<Byte>, calls': seq<Io>)
    requires Narrow(sent) && |sent| < LIMIT && left <= Framed(ToBytes(sent)) + behind
    ensures var n := |Framed(ToBytes(sent))|;
      && (r == Done ==> text == sent && left' <= behind && |left'| == |left| - n && Capacity(calls) <= Capacity(calls') + n)
      && (n <= Capacity(calls) && n <= |left| ==> r == Done)
  {
    BytesRoundTrip(sent);
    hide Framed, ToBytes, FromBytes, Value, Capacity, Narrow;
    var msg, next, used;
    assert left[0..] == left;
    r, msg, next, used := ReceiveMsg(left, 0, calls, ToBytes(sent), behind);
    text, left', calls' := FromBytes(msg), left[next..], calls[used..];
    if r == Done { BehindFirst(left, Framed(ToBytes(sent)), behind); }
  }

  // The readn of bytes that stand outside a frame.
  method ReceiveData(left: seq<Byte>, calls: seq<Io>, size: nat, ghost data: seq<Byte>, ghost behind: seq<Byte>)
    returns (r: Result, content: seq<Byte>, left': seq<Byte>, calls': seq<Io>)
    requires |data| == size && left <= data + behind
    ensures r == Done ==> content == data && left' <= behind && |left'| == |left| - size && Capacity(calls) <= Capacity(calls') + size
    ensures size <= Capacity(calls) && size <= |left| ==> r == Done
  {
    hide Capacity;
    var buf := new Byte[size + 1];
    var got, used;
    r, got, used := Wire.ReadN(left, 0, buf, size, calls);
    content, left', calls' := buf[..got], left[got..], calls[used..];
    if r == Done { BehindFirst(left, data, behind); }
  }

  // What the client's loop finds next, and what is behind it.
  function Text(items: seq<Item>, ok: bool): string {
    if items == [] then Status(ok) else Header(items[0])
  }

  function Behind(items: seq<Item>, ok: bool): seq<Byte>
    requires AllFit(items)
  {
    if items == [] then [] else items[0].data + Batch(items[1..], ok)
  }

  lemma TextIsFrame(items: seq<Item>, ok: bool)
    requires AllFit(items)
    ensures Narrow(Text(items, ok)) && |Text(items, ok)| < LIMIT
  {
    hide Header, Status, Narrow;
    if items == [] {
      StatusNarrow(ok);
    } else {
      HeaderNarrow(items[0]);
    }
  }

  lemma Regroup(a: seq<Byte>, b: seq<Byte>, c: seq<Byte>)
    ensures (a + b) + c == a + (b + c)
  {
  }

  lemma BatchFront(items: seq<Item>, ok: bool, rest: seq<Byte>)
    requires AllFit(items)
    ensures Narrow(Text(items, ok)) && |Text(items, ok)| < LIMIT
    ensures Batch(items, ok) + rest == Framed(ToBytes(Text(items, ok))) + (Behind(items, ok) + rest)
  {
    hide Framed, ToBytes, Header, Status, Narrow, Fits;
    TextIsFrame(items, ok);
    ghost var front := Framed(ToBytes(Text(items, ok)));
    assert Batch(items, ok) == front + Behind(items, ok);
    hide Batch, Behind, Text;
    Regroup(front, Behind(items, ok), rest);
  }

  lemma StatusNarrow(ok: bool)
    ensures Narrow(Status(ok)) && |Status(ok)| < LIMIT
  {
    assert forall c :: c in Status(ok) ==> c == '0' || c == '-' || c == '1';
  }

  lemma BehindFront(items: seq<Item>, ok: bool, rest: seq<Byte>)
    requires AllFit(items)
    ensures items == [] ==> Behind(items, ok) + rest == rest
    ensures items != [] ==> |items[0].data| <= |Behind(items, ok) + rest| && AllFit(items[1..])
    ensures items != [] ==> (Behind(items, ok) + rest)[..|items[0].data|] == items[0].data
    ensures items != [] ==> (Behind(items, ok) + rest)[|items[0].data|..] == Batch(items[1..], ok) + rest
  {
    hide Batch, Fits;
    assert items != [] ==> forall i :: i in items[1..] ==> i in items;
  }

  // What the client makes of the front of a batch.
  lemma NewsAtFront(items: seq<Item>, ok: bool)
    requires AllFit(items)
    ensures items == [] ==> ParseNews(Text(items, ok)) == (if ok then NoMore else Wrong)
    ensures items != [] ==> ParseNews(Text(items, ok)) == FileFollows(items[0].path, |items[0].data|)
    ensures items != [] ==> AllFit(items[1..])
  {
    hide Next, Strtol, ParseNews, Header, Status, Fits;
    if items == [] {
      NewsOfStatus(ok);
    } else {
      assert Fits(items[0]) && forall i :: i in items[1..] ==> i in items;
      NewsOfHeader(items[0]);
    }
  }

  // How long the batch is, and its first part.
  lemma BatchLength(items: seq<Item>, ok: bool)
    requires AllFit(items)
    ensures |Text(items, ok)| < LIMIT && |Batch(items, ok)| == |Framed(ToBytes(Text(items, ok)))| + |Behind(items, ok)|
    ensures items != [] ==> AllFit(items[1..]) && |Behind(items, ok)| == |items[0].data| + |Batch(items[1..], ok)|
    ensures items == [] ==> Behind(items, ok) == []
  {
    hide Framed, ToBytes, Fits;
    assert items != [] ==> forall i :: i in items[1..] ==> i in items;
    TextIsFrame(items, ok);
  }

  // The client's loop of readNFiles, whatever its reads do: it has a part of the files
  // sent, in order and byte for byte, and if its reads come to an end all of them and
  // the status, and stands right behind them.
  method ReadNFiles(stream: seq<Byte>, calls: seq<Io>, ghost items: seq<Item>, ghost ok: bool, ghost rest: seq<Byte>)
    returns (r: Result, got: seq<Item>, result: int, left: seq<Byte>)
    requires AllFit(items) && stream <= Batch(items, ok) + rest
    ensures got <= items
    ensures r == Done ==> got == items && result == (if ok then 0 else -1)
    ensures r == Done ==> left <= rest && |left| == |stream| - |Batch(items, ok)|
    ensures |Batch(items, ok)| <= Capacity(calls) && |Batch(items, ok)| <= |stream| ==> r == Done
  {
    hide *;
    got, left, result := [], stream, 0;
    var cs := calls;
    ghost var todo := items;
    while true
      invariant AllFit(todo) && got + todo == items && left <= Batch(todo, ok) + rest
      invariant |left| == |stream| - |Batch(items, ok)| + |Batch(todo, ok)|
      invariant |Batch(items, ok)| <= Capacity(calls) && |Batch(items, ok)| <= |stream| ==>
        |Batch(todo, ok)| <= Capacity(cs) && |Batch(todo, ok)| <= |left|
      decreases |todo|
    {
      BatchFront(todo, ok, rest);
      BatchLength(todo, ok);
      NewsAtFront(todo, ok);
      BehindFront(todo, ok, rest);
      var text;
      r, text, left, cs := ReceiveText(left, cs, Text(todo, ok), Behind(todo, ok) + rest);
      if r != Done {
        return;
      }
      match ParseNews(text) {
        case FileFollows(path, size) =>
          assert todo != [];
          var data;
          Front(Behind(todo, ok) + rest, todo[0].data);
          r, data, left, cs := ReceiveData(left, cs, size, todo[0].data, Batch(todo[1..], ok) + rest);
          if r != Done {
            return;
          }
          got := got + [Item(path, data)];
          assert got[|got| - 1] == todo[0] && [todo[0]] + todo[1..] == todo;
          todo := todo[1..];
        case NoMore =>
          result := 0;
          return;
        case Wrong =>
          result := -1;
          return;
      }
    }
  }

  lemma Front(s: seq<Byte>, first: seq<Byte>)
    requires first <= s
    ensures first + s[|first|..] == s
  {
  }

  // ---------- requests on the wire ----------

  // How many bytes follow a request outside its frame.
  function ContentSize(h: Heard): nat {
    if h.Request? && h.m.Append? then h.m.size else 0
  }

  // A request as the client sends it: an append's content goes behind the frame.
  predicate Sendable(m: Message, data: seq<Byte>) {
    && Fields(m) && CString(Print(m)) && Narrow(Print(m)) && |Print(m)| < LIMIT
    && |data| == if m.Append? then m.size else 0
  }

  // The manager reads one request, whatever its reads do: if they come to an end it has
  // what the client meant and the content that came with it, and stands right behind.
  method ReadRequest(stream: seq<Byte>, calls: seq<Io>, ghost m: Message, ghost data: seq<Byte>, ghost rest: seq<Byte>)
    returns (r: Result, heard: Heard, content: seq<Byte>, left: seq<Byte>)
    requires Sendable(m, data) && stream <= Framed(ToBytes(Print(m))) + (data + rest)
    ensures var n := |Framed(ToBytes(Print(m)))| + |data|;
      && (r == Done ==> heard == Request(m) && content == data && left <= rest && |left| == |stream| - n)
      && (n <= Capacity(calls) && n <= |stream| ==> r == Done)
  {
    RequestRoundTrip(m);
    UntilPrefix(Print(m), NUL, "");
    assert Print(m) + "" == Print(m);
    hide Parse, Print, Until, Framed, ToBytes, Narrow, CString, Fields, Capacity;
    var text, cs;
    heard, content := Unreadable, [];
    r, text, left, cs := ReceiveText(stream, calls, Print(m), data + rest);
    if r != Done {
      return;
    }
    heard := Parse(Until(text, NUL));
    r, content, left, cs := ReceiveData(left, cs, ContentSize(heard), data, rest);
  }
}
