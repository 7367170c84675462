// The accumulate-and-drain loop that feeds serial reads to the scanner
// (nibe/worker.go), and what it delivers for a stream of frames cut into reads.
module NibeWorker {
  import opened Bytes
  import opened Sequences
  import opened NibeProtocol

  // ---- draining a buffer ----------------------------------------------------

  // msgs: delivered in order. Panicked: the process dies in the scanner.
  datatype Drained =
    | Drained(msgs: seq<Message>, rest: seq<byte>)
    | Panicked(msgs: seq<Message>)

  function Before(ms: seq<Message>, d: Drained): Drained {
    match d
    case Drained(msgs, rest) => Drained(ms + msgs, rest)
    case Panicked(msgs) => Panicked(ms + msgs)
  }

  lemma OursAppend(h: seq<Message>, a: seq<Message>, b: seq<Message>)
    ensures h + Ours(a) + Ours(b) == h + Ours(a + b)
  {
    OursConcat(a, b);
  }

  lemma BeforeBefore(a: seq<Message>, b: seq<Message>, d: Drained)
    ensures Before(a, Before(b, d)) == Before(a + b, d)
  {
    assert a + (b + d.msgs) == a + b + d.msgs;
  }

  lemma BeforeOne(m: Message, d: Drained, c: seq<Message>, u: seq<byte>)
    ensures Before([m], d) == Drained([m] + c, u) <==> d == Drained(c, u)
  {
    assert ([m] + c)[1..] == c && ([m] + d.msgs)[1..] == d.msgs;
  }

  // Scan until the scanner returns no message.
  function Drain(buf: seq<byte>): Drained
    decreases |buf|
  {
    match Scan(buf, 0)
    case Crash => Panicked([])
    case Nothing(rest) => Drained([], rest)
    case Got(m, rest) => Before([m], Drain(rest))
  }

  // Successive reads: append to what the last drain left over, then drain.
  function Feed(acc: seq<byte>, chunks: seq<seq<byte>>): Drained
    decreases |chunks|
  {
    if chunks == [] then Drained([], acc)
    else
      match Drain(acc + chunks[0])
      case Panicked(ms) => Panicked(ms)
      case Drained(ms, rest) => Before(ms, Feed(rest, chunks[1..]))
  }

  const MODBUS40: byte := 0x20

  // The worker passes on only what is addressed to it.
  function Ours(ms: seq<Message>): seq<Message> {
    if ms == [] then []
    else (if ms[0].addr == MODBUS40 then [ms[0]] else []) + Ours(ms[1..])
  }

  lemma OursCons(m: Message, ms: seq<Message>)
    ensures Ours([m] + ms) == (if m.addr == MODBUS40 then [m] else []) + Ours(ms)
  {
    assert ([m] + ms)[1..] == ms;
  }

  lemma {:induction false} OursConcat(a: seq<Message>, b: seq<Message>)
    ensures Ours(a + b) == Ours(a) + Ours(b)
  {
    if a == [] {
      assert a + b == b;
    } else {
      var m, t := a[0], a[1..];
      OursCons(m, t);
      OursCons(m, t + b);
      assert a == [m] + t && a + b == [m] + (t + b);
      OursConcat(t, b);
    }
  }

  lemma FeedStep(acc: seq<byte>, chunks: seq<seq<byte>>, i: nat)
    requires i < |chunks|
    ensures Feed(acc, chunks[i..]) ==
      match Drain(acc + chunks[i])
      case Panicked(ms) => Panicked(ms)
      case Drained(ms, rest) => Before(ms, Feed(rest, chunks[i + 1..]))
  {
    assert chunks[i..][1..] == chunks[i + 1..];
  }

  lemma SessionStep(d: Drained, ms: seq<Message>, acc: seq<byte>, chunks: seq<seq<byte>>, i: nat, e: Drained)
    requires i < |chunks| && e == Drain(acc + chunks[i])
    requires d == Before(ms, Feed(acc, chunks[i..]))
    ensures if e.Panicked? then d == Panicked(ms + e.msgs)
            else d == Before(ms + e.msgs, Feed(e.rest, chunks[i + 1..]))
  {
    FeedStep(acc, chunks, i);
    if e.Drained? {
      BeforeBefore(ms, e.msgs, Feed(e.rest, chunks[i + 1..]));
    }
  }

  lemma FeedBegin(acc: seq<byte>, chunks: seq<seq<byte>>)
    ensures Feed(acc, chunks) == Before([], Feed(acc, chunks[0..]))
    ensures Ours([]) == []
  {
    assert chunks[0..] == chunks;
    assert [] + Feed(acc, chunks).msgs == Feed(acc, chunks).msgs;
  }

  lemma FeedEnd(ms: seq<Message>, acc: seq<byte>, chunks: seq<seq<byte>>)
    ensures Before(ms, Feed(acc, chunks[|chunks|..])) == Drained(ms, acc)
  {
    assert ms + [] == ms;
  }

  lemma GotOne(d: Drained, ms: seq<Message>, buf: seq<byte>, m: Message, rest: seq<byte>)
    requires d == Before(ms, Drain(buf)) && Scan(buf, 0) == Got(m, rest)
    ensures d == Before(ms + [m], Drain(rest))
  {
    BeforeBefore(ms, [m], Drain(rest));
  }

  lemma HandledOne(h: seq<Message>, ms: seq<Message>, m: Message)
    ensures h + Ours(ms) + (if m.addr == MODBUS40 then [m] else []) == h + Ours(ms + [m])
    ensures m.addr != MODBUS40 ==> h + Ours(ms) == h + Ours(ms + [m])
  {
    OursAppend(h, ms, [m]);
    assert Ours([m]) == if m.addr == MODBUS40 then [m] else [];
  }

  class Worker {
    var accumulated: seq<byte>
    var handled: seq<Message>
    var dead: bool

    constructor ()
      ensures accumulated == [] && handled == [] && !dead
    {
      accumulated, handled, dead := [], [], false;
    }

    // One iteration of the read loop. The scanner shortens the buffer with every
    // message, which is why the inner loop ends.
    method Receive(read: seq<byte>) returns (ghost d: Drained)
      requires !dead
      modifies this
      ensures d == Drain(old(accumulated) + read)
      ensures dead == d.Panicked?
      ensures d.Drained? ==> accumulated == d.rest
      ensures handled == old(handled) + Ours(d.msgs)
    {
      accumulated := accumulated + read;
      d := Drain(accumulated);
      ghost var delivered: seq<Message> := [];
      var more := true;
      while more
        invariant more ==> d == Before(delivered, Drain(accumulated)) && !dead
        invariant !more && !dead ==> d == Drained(delivered, accumulated)
        invariant dead ==> !more && d == Panicked(delivered)
        invariant handled == old(handled) + Ours(delivered)
        decreases more, |accumulated|
      {
        var o := DecodeMessage(accumulated);
        match o {
          case Crash =>
            dead, more := true, false;
          case Nothing(rest) =>
            accumulated, more := rest, false;
          case Got(message, rest) =>
            GotOne(d, delivered, accumulated, message, rest);
            HandledOne(old(handled), delivered, message);
            delivered := delivered + [message];
            accumulated := rest;
            if message.addr == MODBUS40 {
              handled := handled + [message];
            }
        }
      }
    }

    // The whole session over a list of reads.
    method Session(chunks: seq<seq<byte>>) returns (ghost d: Drained)
      requires !dead
      modifies this
      ensures d == Feed(old(accumulated), chunks)
      ensures dead == d.Panicked?
      ensures d.Drained? ==> accumulated == d.rest
      ensures handled == old(handled) + Ours(d.msgs)
    {
      ghost var msgs: seq<Message> := [];
      var i := 0;
      d := Feed(accumulated, chunks);
      FeedBegin(accumulated, chunks);
      while i < |chunks| && !dead
        invariant i <= |chunks|
        invariant if dead then d == Panicked(msgs) else d == Before(msgs, Feed(accumulated, chunks[i..]))
        invariant handled == old(handled) + Ours(msgs)
      {
        ghost var e := Drain(accumulated + chunks[i]);
        SessionStep(d, msgs, accumulated, chunks, i, e);
        ghost var h := handled;
        ghost var got := Receive(chunks[i]);
        assert handled == h + Ours(e.msgs);
        OursAppend(old(handled), msgs, e.msgs);
        msgs := msgs + e.msgs;
        assert handled == old(handled) + Ours(msgs);
        i := i + 1;
      }
      FeedEnd(msgs, accumulated, chunks);
    }
  }

  // The worker passes on the messages for address 32, all of them and as often as they came.
  lemma {:induction false} OursExactly(ms: seq<Message>, m: Message)
    ensures multiset(Ours(ms))[m] == if m.addr == 0x20 then multiset(ms)[m] else 0
  {
    if ms != [] {
      assert ms == [ms[0]] + ms[1..];
      OursExactly(ms[1..], m);
    }
  }

  // Once the scanner has panicked, later reads change nothing: the process is gone.
  lemma {:induction false} FeedAfterPanic(acc: seq<byte>, chunks: seq<seq<byte>>, more: seq<seq<byte>>)
    requires Feed(acc, chunks).Panicked?
    ensures Feed(acc, chunks + more) == Feed(acc, chunks)
    decreases |chunks|
  {
    assert chunks != [] && (chunks + more)[0] == chunks[0] && (chunks + more)[1..] == chunks[1..] + more;
    var d := Drain(acc + chunks[0]);
    if d.Drained? {
      FeedAfterPanic(d.rest, chunks[1..], more);
    }
  }

  // ---- frames ---------------------------------------------------------------

  // As much as the one length byte can announce.
  type payload = d: seq<byte> | |d| < 256

  // What the bus carries. A request's checksum is part of the frame so that a
  // damaged frame is a frame too; a response's checksum is never looked at.
  datatype Frame =
    | Request(addr: byte, cmd: byte, data: payload, chk: byte)
    | Response(cmd: byte, data: payload, chk: byte)
    | Ack
  {
    function Body(): seq<byte> {
      match this
      case Request(a, c, d, _) => [a, c, |d|] + d
      case Response(c, d, _) => [c, |d|] + d
      case Ack => []
    }

    function Size(): nat {
      match this
      case Request(_, _, d, _) => |d| + 6
      case Response(_, d, _) => |d| + 4
      case Ack => 1
    }

    function Wire(): (w: seq<byte>)
      ensures |w| == Size()
    {
      match this
      case Request(_, _, _, k) => [START, 0] + Body() + [k]
      case Response(_, _, k) => [RESPONSE] + Body() + [k]
      case Ack => [ACK]
    }

    // Requests whose checksum matches, responses that carry data, and acks.
    predicate Sound() {
      && (Request? ==> chk == Xor(Body()))
      && (Response? ==> |data| > 0)
    }

    // Sound, or a request that was damaged on its way.
    predicate Regular() {
      Response? ==> |data| > 0
    }

    function Carries(): Message {
      match this
      case Request(a, c, d, _) => Message(a, c, d)
      case Response(c, d, _) => Message(0, c, d)
      case Ack => Message(0, ACK, [])
    }

    // How many bytes must have arrived before the scanner recognises the frame.
    function HeaderSize(): nat {
      match this
      case Request(_, _, _, _) => 6
      case Response(_, _, _) => 5
      case Ack => 1
    }

    // A read may end n bytes into the frame without harm: nothing of the frame has
    // arrived, or its header is recognised, or the short piece holds no byte
    // that reads as an ack and does not end in 0x5C.
    predicate SafeCut(n: nat)
      requires n <= Size()
    {
      n == 0 || n >= HeaderSize() || (ACK !in Wire()[..n] && Wire()[n - 1] != START)
    }
  }

  lemma WholeFrame(f: Frame, rest: seq<byte>)
    requires f.Sound()
    ensures Scan(f.Wire() + rest, 0) == Got(f.Carries(), rest)
  {
    var s := f.Wire() + rest;
    assert s[0..] == s && s[f.Size()..] == rest;
    match f
    case Request(a, c, d, k) => RequestHead(f, rest);
    case Response(c, d, k) => ResponseHead(f, rest);
    case Ack =>
  }

  lemma RequestHead(f: Frame, rest: seq<byte>)
    requires f.Request?
    ensures Head(f.Wire() + rest) ==
      if f.Sound() then Deliver(f.Carries(), f.Size()) else Drop(f.Size())
  {
    var s := f.Wire() + rest;
    var n := |f.data|;
    RequestBytes(f, rest);
    assert s[0] == START && s[1] == 0 && s[4] == n && |s| >= 6 + n;
  }

  lemma RequestBytes(f: Frame, rest: seq<byte>)
    requires f.Request?
    ensures var s, n := f.Wire() + rest, |f.data|;
      && |s| >= 6 + n && s[0] == START && s[1] == 0 && s[2] == f.addr && s[3] == f.cmd && s[4] == n
      && s[2..5 + n] == f.Body() && s[5..5 + n] == f.data && s[5 + n] == f.chk
  {
  }

  lemma ResponseHead(f: Frame, rest: seq<byte>)
    requires f.Response? && f.Sound()
    ensures Head(f.Wire() + rest) == Deliver(f.Carries(), f.Size())
  {
    var s := f.Wire() + rest;
    assert s[0] == RESPONSE && s[1] == f.cmd && s[2] == |f.data|;
    assert s[3..3 + |f.data|] == f.data;
  }

  // A request with a wrong checksum is consumed whole and nothing is delivered.
  lemma DamagedFrame(f: Frame, rest: seq<byte>)
    requires f.Request? && !f.Sound()
    ensures Scan(f.Wire() + rest, 0) == Nothing(rest)
  {
    var s := f.Wire() + rest;
    assert s[0..] == s;
    assert s[f.Size()..] == rest;
    RequestHead(f, rest);
  }

  // The head of a frame that has not arrived completely: left alone exactly at a
  // safe cut; at any other cut an address, command or length byte is taken for
  // an ack, or the scanner reads past the end.
  lemma PartialFrame(f: Frame, n: nat)
    requires f.Regular() && n < f.Size()
    ensures Scan(f.Wire()[..n], 0) == Nothing(f.Wire()[..n]) <==> f.SafeCut(n)
  {
    var p := f.Wire()[..n];
    if n >= f.HeaderSize() {
      assert p[0..] == p;
      assert p[0] == f.Wire()[0] && p[1] == f.Wire()[1] && p[2] == f.Wire()[2] && p[4] == f.Wire()[4];
    } else if n > 0 {
      assert p[0] == f.Wire()[0] && (n > 1 ==> p[1] == f.Wire()[1]);
      ShortPiece(p, if f.Request? then START else RESPONSE);
    }
  }

  // Too short for any header, so each byte is judged alone.
  function ShortHead(p: seq<byte>, j: nat): Hit
    requires j < |p|
  {
    if p[j] == ACK then Deliver(Message(0, ACK, []), 1)
    else if j == |p| - 1 && p[j] == START then Panic
    else Skip
  }

  lemma ShortPiece(p: seq<byte>, first: byte)
    requires 0 < |p| < 6 && p[0] == first
    requires (first == RESPONSE && |p| < 5) || (first == START && (|p| > 1 ==> p[1] == 0))
    ensures Scan(p, 0) == Nothing(p) <==> ACK !in p && p[|p| - 1] != START
  {
    forall j | 0 <= j < |p|
      ensures Head(p[j..]) == ShortHead(p, j)
    {
      assert p[j..][0] == p[j];
    }
    ShortScan(p, 0);
  }

  lemma {:induction false} ShortScan(p: seq<byte>, i: nat)
    requires i <= |p|
    requires forall j :: 0 <= j < |p| ==> Head(p[j..]) == ShortHead(p, j)
    ensures Scan(p, i) == Nothing(p) <==> ACK !in p[i..] && (i < |p| ==> p[|p| - 1] != START)
    decreases |p| - i
  {
    if i < |p| {
      ShortScan(p, i + 1);
      assert p[i..] == [p[i]] + p[i + 1..];
    }
  }

  // ---- streams --------------------------------------------------------------

  type SoundFrame = f: Frame | f.Sound() witness Ack

  function Stream(fs: seq<Frame>): seq<byte> {
    if fs == [] then [] else fs[0].Wire() + Stream(fs[1..])
  }

  // Position n of the stream: no frame there is cut unsafely.
  predicate SafeAt(fs: seq<Frame>, n: nat) {
    if fs == [] then n == 0
    else if n < fs[0].Size() then fs[0].SafeCut(n)
    else SafeAt(fs[1..], n - fs[0].Size())
  }

  // Every read, the first starting at position n, ends at a safe position.
  predicate SafeReads(fs: seq<Frame>, n: nat, chunks: seq<seq<byte>>)
    decreases |chunks|
  {
    chunks == []
    || (SafeAt(fs, n + |chunks[0]|) && SafeReads(fs, n + |chunks[0]|, chunks[1..]))
  }

  // What should come out of the first |buf| bytes of a stream: the messages of the
  // frames that are complete, in order, and the unfinished tail.
  function Expect(fs: seq<SoundFrame>, buf: seq<byte>): (d: Drained)
    ensures d.Drained?
  {
    if fs == [] || |buf| < fs[0].Size() then Drained([], buf)
    else Before([fs[0].Carries()], Expect(fs[1..], buf[fs[0].Size()..]))
  }

  // The frames that are not complete in the first n bytes.
  function Left(fs: seq<SoundFrame>, n: nat): seq<SoundFrame> {
    if fs == [] || n < fs[0].Size() then fs
    else Left(fs[1..], n - fs[0].Size())
  }

  function AllCarried(fs: seq<SoundFrame>): seq<Message> {
    if fs == [] then [] else [fs[0].Carries()] + AllCarried(fs[1..])
  }

  lemma {:induction false} ExpectAll(fs: seq<SoundFrame>)
    ensures Expect(fs, Stream(fs)) == Drained(AllCarried(fs), [])
    ensures SafeAt(fs, |Stream(fs)|)
  {
    if fs != [] {
      var t := Stream(fs[1..]);
      assert Stream(fs)[fs[0].Size()..] == t;
      ExpectAll(fs[1..]);
    }
  }

  // One drain of the beginning of a stream delivers the complete frames and keeps
  // the unfinished tail exactly when the beginning ends at a safe position.
  lemma {:induction false} DrainStream(fs: seq<SoundFrame>, buf: seq<byte>)
    requires buf <= Stream(fs)
    ensures Drain(buf) == Expect(fs, buf) <==> SafeAt(fs, |buf|)
  {
    if fs == [] {
      assert buf == [];
    } else if |buf| < fs[0].Size() {
      PartialFrame(fs[0], |buf|);
      assert fs[0].Wire()[..|buf|] == buf;
      assert Scan(buf, 0) != Nothing(buf) ==> Drain(buf) != Drained([], buf) by {
        DrainNone(buf);
      }
    } else {
      var more := buf[fs[0].Size()..];
      PrefixBehind(fs[0].Wire(), Stream(fs[1..]), buf);
      WholeFrame(fs[0], more);
      DrainStream(fs[1..], more);
      var e := Expect(fs[1..], more);
      BeforeOne(fs[0].Carries(), Drain(more), e.msgs, e.rest);
    }
  }

  // Position n of the stream: the piece of the frame cut there is short, holds no byte that
  // reads as an ack, and ends in 0x5C.
  predicate CrashAt(fs: seq<Frame>, n: nat) {
    if fs == [] then false
    else if n < fs[0].Size() then
      0 < n < fs[0].HeaderSize() && ACK !in fs[0].Wire()[..n] && fs[0].Wire()[n - 1] == 0x5C
    else CrashAt(fs[1..], n - fs[0].Size())
  }

  // A read that ends there kills the process: the complete frames are delivered, and then
  // the scanner reads past the end.
  lemma {:induction false} DrainPanics(fs: seq<SoundFrame>, buf: seq<byte>)
    requires buf <= Stream(fs) && CrashAt(fs, |buf|)
    ensures Drain(buf) == Panicked(Expect(fs, buf).msgs)
  {
    if |buf| < fs[0].Size() {
      assert fs[0].Wire()[..|buf|] == buf;
      ShortPieceCrashes(fs[0], buf);
    } else {
      var more := buf[fs[0].Size()..];
      PrefixBehind(fs[0].Wire(), Stream(fs[1..]), buf);
      WholeFrame(fs[0], more);
      DrainPanics(fs[1..], more);
    }
  }

  lemma ShortPieceCrashes(f: Frame, p: seq<byte>)
    requires f.Regular() && 0 < |p| < f.HeaderSize() && |p| < f.Size() && p == f.Wire()[..|p|]
    requires ACK !in p && p[|p| - 1] == START
    ensures Scan(p, 0) == Crash
  {
    assert p[0] == f.Wire()[0] && (|p| > 1 ==> p[1] == f.Wire()[1]);
    forall j | 0 <= j < |p| - 1 ensures Head(p[j..]) == Skip {
      assert p[j..][0] == p[j] && (j + 1 < |p| ==> p[j..][1] == p[j + 1]);
    }
    CrashExactly(p, 0);
  }

  lemma DrainNone(buf: seq<byte>)
    ensures Drain(buf) == Drained([], buf) ==> Scan(buf, 0) == Nothing(buf)
  {
    match Scan(buf, 0)
    case Crash =>
    case Nothing(rest) =>
    case Got(m, rest) =>
      assert Drain(buf).Drained? ==> |Drain(buf).msgs| > 0;
  }

  lemma PrefixBehind(w: seq<byte>, t: seq<byte>, buf: seq<byte>)
    requires |w| <= |buf| && buf <= w + t
    ensures buf == w + buf[|w|..] && buf[|w|..] <= t
  {
    assert buf == (w + t)[..|buf|];
  }

  // Taking a then b out of a stream: the frames complete in a are gone, the tail
  // of a is continued by b.
  lemma {:induction false} ExpectSplit(fs: seq<SoundFrame>, a: seq<byte>, b: seq<byte>)
    ensures Expect(fs, a + b)
      == Before(Expect(fs, a).msgs, Expect(Left(fs, |a|), Expect(fs, a).rest + b))
  {
    if fs == [] || |a| < fs[0].Size() {
      assert Expect(fs, a + b).msgs == [] + Expect(fs, a + b).msgs;
    } else {
      var n := fs[0].Size();
      assert (a + b)[n..] == a[n..] + b;
      ExpectSplit(fs[1..], a[n..], b);
      var e := Expect(fs[1..], a[n..]);
      BeforeBefore([fs[0].Carries()], e.msgs, Expect(Left(fs, |a|), e.rest + b));
    }
  }

  lemma {:induction false} PrefixSplit(fs: seq<SoundFrame>, a: seq<byte>, b: seq<byte>)
    requires a + b <= Stream(fs)
    ensures Expect(fs, a).rest + b <= Stream(Left(fs, |a|))
  {
    if fs != [] && |a| >= fs[0].Size() {
      var n := fs[0].Size();
      PrefixBehind(fs[0].Wire(), Stream(fs[1..]), a + b);
      assert (a + b)[n..] == a[n..] + b;
      PrefixSplit(fs[1..], a[n..], b);
    }
  }

  lemma {:induction false} SafeSplit(fs: seq<SoundFrame>, a: seq<byte>, n: nat)
    requires n >= |a|
    ensures |Expect(fs, a).rest| <= |a|
    ensures SafeAt(fs, n) == SafeAt(Left(fs, |a|), |Expect(fs, a).rest| + (n - |a|))
  {
    if fs != [] && |a| >= fs[0].Size() {
      var size := fs[0].Size();
      var t := a[size..];
      assert |t| == |a| - size && Expect(fs, a).rest == Expect(fs[1..], t).rest;
      assert SafeAt(fs, n) == SafeAt(fs[1..], n - size) && Left(fs, |a|) == Left(fs[1..], |t|);
      SafeSplit(fs[1..], t, n - size);
    }
  }

  lemma {:induction false} SafeReadsSplit(fs: seq<SoundFrame>, a: seq<byte>, n: nat, m: nat, chunks: seq<seq<byte>>)
    requires n >= |a| && m == |Expect(fs, a).rest| + (n - |a|)
    ensures SafeReads(fs, n, chunks) == SafeReads(Left(fs, |a|), m, chunks)
    decreases |chunks|
  {
    if chunks != [] {
      var c := |chunks[0]|;
      SafeSplit(fs, a, n + c);
      SafeReadsSplit(fs, a, n + c, m + c, chunks[1..]);
    }
  }

  // From any buffer that holds no complete frame: what is still to come does not
  // depend on how it is cut, as long as each read ends at a safe position.
  lemma {:induction false} FeedFrom(fs: seq<SoundFrame>, acc: seq<byte>, chunks: seq<seq<byte>>)
    requires Expect(fs, acc) == Drained([], acc)
    requires acc + Flatten(chunks) <= Stream(fs)
    requires SafeReads(fs, |acc|, chunks)
    ensures Feed(acc, chunks) == Expect(fs, acc + Flatten(chunks))
    decreases |chunks|
  {
    if chunks == [] {
      assert acc + [] == acc;
    } else {
      var buf := acc + chunks[0];
      var t := Flatten(chunks[1..]);
      assert acc + Flatten(chunks) == buf + t;
      assert buf <= Stream(fs);
      DrainStream(fs, buf);
      var e := Expect(fs, buf);
      PrefixSplit(fs, buf, t);
      ExpectSplit(fs, buf, t);
      ExpectTail(fs, buf);
      SafeReadsSplit(fs, buf, |buf|, |e.rest|, chunks[1..]);
      FeedFrom(Left(fs, |buf|), e.rest, chunks[1..]);
    }
  }

  lemma {:induction false} ExpectTail(fs: seq<SoundFrame>, a: seq<byte>)
    ensures Expect(Left(fs, |a|), Expect(fs, a).rest) == Drained([], Expect(fs, a).rest)
  {
    if fs != [] && |a| >= fs[0].Size() {
      ExpectTail(fs[1..], a[fs[0].Size()..]);
    }
  }

  // Reads that end only at safe positions deliver, whatever their sizes, exactly
  // what one big read of the same bytes delivers: every complete frame once, in
  // order, with the unfinished tail left in the buffer.
  lemma ChunkingIndependence(fs: seq<SoundFrame>, chunks: seq<seq<byte>>)
    requires Flatten(chunks) <= Stream(fs)
    requires SafeReads(fs, 0, chunks)
    ensures Feed([], chunks) == Expect(fs, Flatten(chunks))
    ensures chunks != [] ==> Feed([], chunks) == Drain(Flatten(chunks))
  {
    assert [] + Flatten(chunks) == Flatten(chunks);
    FeedFrom(fs, [], chunks);
    if chunks != [] {
      SafeEnd(fs, 0, chunks);
      DrainStream(fs, Flatten(chunks));
    }
  }

  // After k reads the session stands where the frames that have arrived say.
  ghost predicate Right(fs: seq<SoundFrame>, acc: seq<byte>, chunks: seq<seq<byte>>, k: nat)
    requires k <= |chunks|
  {
    Feed(acc, chunks[..k]) == Expect(fs, acc + Flatten(chunks[..k]))
  }

  ghost predicate AlwaysRight(fs: seq<SoundFrame>, acc: seq<byte>, chunks: seq<seq<byte>>) {
    forall k :: 0 <= k <= |chunks| ==> Right(fs, acc, chunks, k)
  }

  // A session stands right after every read exactly when every read ends at a safe position.
  lemma ChunkingIff(fs: seq<SoundFrame>, chunks: seq<seq<byte>>)
    requires Flatten(chunks) <= Stream(fs)
    ensures (forall k :: 0 <= k <= |chunks| ==> Feed([], chunks[..k]) == Expect(fs, Flatten(chunks[..k])))
      <==> SafeReads(fs, 0, chunks)
  {
    forall k | 0 <= k <= |chunks|
      ensures Right(fs, [], chunks, k) <==> Feed([], chunks[..k]) == Expect(fs, Flatten(chunks[..k]))
    {
      assert [] + Flatten(chunks[..k]) == Flatten(chunks[..k]);
    }
    assert [] + Flatten(chunks) == Flatten(chunks);
    if SafeReads(fs, 0, chunks) {
      forall k | 0 <= k <= |chunks| ensures Right(fs, [], chunks, k) {
        SafeIsRight(fs, chunks, k);
      }
    } else if forall k :: 0 <= k <= |chunks| ==> Feed([], chunks[..k]) == Expect(fs, Flatten(chunks[..k])) {
      assert forall k :: 0 <= k <= |chunks| ==> Right(fs, [], chunks, k);
      RightIsSafe(fs, [], chunks);
    }
  }

  lemma SafeIsRight(fs: seq<SoundFrame>, chunks: seq<seq<byte>>, k: nat)
    requires k <= |chunks| && Flatten(chunks) <= Stream(fs) && SafeReads(fs, 0, chunks)
    ensures Right(fs, [], chunks, k)
  {
    var first := chunks[..k];
    FlattenPrefix(chunks, k);
    FirstReads(fs, 0, chunks, k);
    assert [] + Flatten(first) == Flatten(first);
    FeedFrom(fs, [], first);
  }

  lemma FlattenPrefix(chunks: seq<seq<byte>>, k: nat)
    requires k <= |chunks|
    ensures Flatten(chunks[..k]) <= Flatten(chunks)
  {
    FlattenConcat(chunks[..k], chunks[k..]);
    assert chunks[..k] + chunks[k..] == chunks;
  }

  lemma {:induction false} FirstReads(fs: seq<SoundFrame>, n: nat, chunks: seq<seq<byte>>, k: nat)
    requires k <= |chunks| && SafeReads(fs, n, chunks)
    ensures SafeReads(fs, n, chunks[..k])
    decreases k
  {
    if k > 0 {
      assert chunks[..k][1..] == chunks[1..][..k - 1];
      FirstReads(fs, n + |chunks[0]|, chunks[1..], k - 1);
    }
  }

  lemma {:induction false} RightIsSafe(fs: seq<SoundFrame>, acc: seq<byte>, chunks: seq<seq<byte>>)
    requires Expect(fs, acc) == Drained([], acc) && acc + Flatten(chunks) <= Stream(fs)
    requires AlwaysRight(fs, acc, chunks)
    ensures SafeReads(fs, |acc|, chunks)
    decreases |chunks|
  {
    if chunks != [] {
      var buf, more := acc + chunks[0], chunks[1..];
      Regroup(acc, chunks[0], Flatten(more));
      PrefixSplit(fs, buf, Flatten(more));
      ExpectTail(fs, buf);
      RightAfterOne(fs, acc, chunks);
      RightIsSafe(Left(fs, |buf|), Expect(fs, buf).rest, more);
      SafeReadsSplit(fs, buf, |buf|, |Expect(fs, buf).rest|, more);
    }
  }

  lemma RightAfterOne(fs: seq<SoundFrame>, acc: seq<byte>, chunks: seq<seq<byte>>)
    requires chunks != [] && AlwaysRight(fs, acc, chunks) && acc + chunks[0] <= Stream(fs)
    ensures var buf := acc + chunks[0];
      SafeAt(fs, |buf|) && AlwaysRight(Left(fs, |buf|), Expect(fs, buf).rest, chunks[1..])
  {
    assert Right(fs, acc, chunks, 1);
    FirstRead(fs, acc, chunks);
    DrainStream(fs, acc + chunks[0]);
    var buf, more := acc + chunks[0], chunks[1..];
    forall k | 0 <= k <= |more| ensures Right(Left(fs, |buf|), Expect(fs, buf).rest, more, k) {
      assert Right(fs, acc, chunks, k + 1);
      RightBehind(fs, acc, chunks, k);
    }
  }

  lemma OneRead(acc: seq<byte>, chunk: seq<byte>)
    ensures Feed(acc, [chunk]) == Drain(acc + chunk)
  {
    var d := Drain(acc + chunk);
    assert [chunk][1..] == [];
    assert d.msgs + [] == d.msgs;
  }

  lemma FirstRead(fs: seq<SoundFrame>, acc: seq<byte>, chunks: seq<seq<byte>>)
    requires chunks != [] && Right(fs, acc, chunks, 1)
    ensures Drain(acc + chunks[0]) == Expect(fs, acc + chunks[0])
  {
    var one := chunks[..1];
    OneRead(acc, chunks[0]);
    assert one == [chunks[0]] && one[1..] == [];
    assert Flatten(one) == chunks[0] + Flatten(one[1..]) == chunks[0];
  }

  lemma RightBehind(fs: seq<SoundFrame>, acc: seq<byte>, chunks: seq<seq<byte>>, k: nat)
    requires k < |chunks| && Right(fs, acc, chunks, k + 1)
    requires Drain(acc + chunks[0]) == Expect(fs, acc + chunks[0])
    ensures var buf := acc + chunks[0];
            Right(Left(fs, |buf|), Expect(fs, buf).rest, chunks[1..], k)
  {
    var buf, t := acc + chunks[0], chunks[1..][..k];
    var e := Expect(fs, buf);
    assert chunks[..k + 1][1..] == t;
    assert acc + Flatten(chunks[..k + 1]) == buf + Flatten(t);
    ExpectSplit(fs, buf, Flatten(t));
    SameBehind(e.msgs, Feed(e.rest, t), Expect(Left(fs, |buf|), e.rest + Flatten(t)));
  }

  lemma SameBehind(ms: seq<Message>, a: Drained, b: Drained)
    requires Before(ms, a) == Before(ms, b)
    ensures a == b
  {
    assert (ms + a.msgs)[|ms|..] == a.msgs && (ms + b.msgs)[|ms|..] == b.msgs;
  }

  lemma {:induction false} SafeEnd(fs: seq<SoundFrame>, n: nat, chunks: seq<seq<byte>>)
    requires chunks != [] && SafeReads(fs, n, chunks)
    ensures SafeAt(fs, n + |Flatten(chunks)|)
    decreases |chunks|
  {
    if chunks[1..] == [] {
      assert Flatten(chunks) == chunks[0] + [];
    } else {
      SafeEnd(fs, n + |chunks[0]|, chunks[1..]);
    }
  }

  // All of a stream, in reads of any size that end safely: all frames are delivered.
  lemma WholeStream(fs: seq<SoundFrame>, chunks: seq<seq<byte>>)
    requires Flatten(chunks) == Stream(fs) && SafeReads(fs, 0, chunks)
    ensures Feed([], chunks) == Drained(AllCarried(fs), [])
  {
    ChunkingIndependence(fs, chunks);
    ExpectAll(fs);
  }

  // A damaged request in the middle stops the drain right behind itself. The frames
  // after it wait in the buffer and come out with the next read, if and only if that ends
  // at a safe position. seen: what of them came with the damaged one.
  lemma ResyncAfterDamage(pre: seq<SoundFrame>, bad: Frame, post: seq<SoundFrame>, seen: seq<byte>, chunk: seq<byte>)
    requires bad.Request? && !bad.Sound() && seen + chunk <= Stream(post)
    ensures Drain(Stream(pre) + (bad.Wire() + seen)) == Drained(AllCarried(pre), seen)
    ensures Feed([], [Stream(pre) + (bad.Wire() + seen), chunk]) == Before(AllCarried(pre), Expect(post, seen + chunk))
      <==> SafeAt(post, |seen + chunk|)
  {
    var first := Stream(pre) + (bad.Wire() + seen);
    DamagedFrame(bad, seen);
    DrainBehind(pre, bad.Wire() + seen);
    DrainStream(post, seen + chunk);
    TwoReads(first, chunk, AllCarried(pre), seen);
    if Before(AllCarried(pre), Drain(seen + chunk)) == Before(AllCarried(pre), Expect(post, seen + chunk)) {
      SameBehind(AllCarried(pre), Drain(seen + chunk), Expect(post, seen + chunk));
    }
  }

  lemma TwoReads(one: seq<byte>, two: seq<byte>, ms: seq<Message>, left: seq<byte>)
    requires Drain(one) == Drained(ms, left)
    ensures Feed([], [one, two]) == Before(ms, Drain(left + two))
  {
    assert [one, two][1..] == [two];
    assert [] + one == one;
    OneRead(left, two);
  }

  lemma {:induction false} DrainBehind(fs: seq<SoundFrame>, rest: seq<byte>)
    requires Scan(rest, 0).Nothing?
    ensures Drain(Stream(fs) + rest) == Drained(AllCarried(fs), Scan(rest, 0).rest)
  {
    if fs == [] {
      assert Stream(fs) + rest == rest;
    } else {
      assert Stream(fs) + rest == fs[0].Wire() + (Stream(fs[1..]) + rest);
      WholeFrame(fs[0], Stream(fs[1..]) + rest);
      DrainBehind(fs[1..], rest);
    }
  }
}
