// Streams in which requests may be damaged (nibe/protocol.go, nibe/worker.go): which frames
// each read consumes, and how long a damaged one holds up those behind it.
module NibeDamage {
  import opened Bytes
  import opened Sequences
  import opened NibeProtocol
  import opened NibeWorker

  // Sound frames and damaged requests.
  ghost predicate Bus(fs: seq<Frame>) {
    forall i :: 0 <= i < |fs| ==> fs[i].Regular()
  }

  // Of the first p frames: where they end, the messages of the sound ones, each once and in
  // order, and how many are damaged.

  function End(fs: seq<Frame>, p: nat): nat
    requires p <= |fs|
  {
    if p == 0 then 0 else End(fs, p - 1) + fs[p - 1].Size()
  }

  function Messages(fs: seq<Frame>, p: nat): seq<Message>
    requires p <= |fs|
  {
    if p == 0 then []
    else Messages(fs, p - 1) + if fs[p - 1].Sound() then [fs[p - 1].Carries()] else []
  }

  function Damaged(fs: seq<Frame>, p: nat): nat
    requires p <= |fs|
  {
    if p == 0 then 0 else Damaged(fs, p - 1) + if fs[p - 1].Sound() then 0 else 1
  }

  // ---- where frames lie in the stream -----------------------------------------------

  lemma {:induction false} EndCons(fs: seq<Frame>, p: nat)
    requires 0 < p <= |fs|
    ensures End(fs, p) == fs[0].Size() + End(fs[1..], p - 1)
  {
    if p > 1 {
      EndCons(fs, p - 1);
    }
  }

  lemma {:induction false} StreamEnd(fs: seq<Frame>)
    ensures |Stream(fs)| == End(fs, |fs|)
  {
    if fs != [] {
      StreamEnd(fs[1..]);
      EndCons(fs, |fs|);
    }
  }

  // Frame p lies in s.
  ghost predicate LiesIn(s: seq<byte>, fs: seq<Frame>, p: nat) {
    p < |fs| && End(fs, p + 1) <= |s| && s[End(fs, p)..End(fs, p + 1)] == fs[p].Wire()
  }

  lemma {:induction false} StreamAt(fs: seq<Frame>, p: nat)
    requires p < |fs|
    ensures LiesIn(Stream(fs), fs, p)
  {
    if p == 0 {
      FirstLies(fs, Stream(fs[1..]));
    } else {
      StreamAt(fs[1..], p - 1);
      NextLies(fs, Stream(fs[1..]), p);
    }
  }

  lemma FirstLies(fs: seq<Frame>, t: seq<byte>)
    requires fs != []
    ensures LiesIn(fs[0].Wire() + t, fs, 0)
  {
    assert End(fs, 1) == End(fs, 0) + fs[0].Size();
  }

  lemma NextLies(fs: seq<Frame>, t: seq<byte>, p: nat)
    requires 0 < p < |fs| && LiesIn(t, fs[1..], p - 1)
    ensures LiesIn(fs[0].Wire() + t, fs, p)
  {
    EndCons(fs, p);
    EndCons(fs, p + 1);
    SliceBehind(fs[0].Wire(), t, End(fs[1..], p - 1), End(fs[1..], p));
  }

  lemma SliceBehind<T>(w: seq<T>, t: seq<T>, a: nat, b: nat)
    requires a <= b <= |t|
    ensures (w + t)[|w| + a..|w| + b] == t[a..b]
  {
  }

  // A safe position inside a frame is a safe cut of it.
  lemma {:induction false} SafeInside(fs: seq<Frame>, n: nat, p: nat)
    requires p < |fs| && End(fs, p) <= n < End(fs, p + 1) && SafeAt(fs, n)
    ensures fs[p].SafeCut(n - End(fs, p))
  {
    EndCons(fs, p + 1);
    if p > 0 {
      EndCons(fs, p);
      SafeInside(fs[1..], n - fs[0].Size(), p - 1);
    }
  }

  // The buffer that holds the bytes behind the first p frames, when n have arrived.
  lemma BufferAt(fs: seq<Frame>, all: seq<byte>, p: nat, n: nat)
    requires p < |fs| && End(fs, p) <= n <= |all| && all <= Stream(fs)
    ensures n < End(fs, p + 1) ==> all[End(fs, p)..n] == fs[p].Wire()[..n - End(fs, p)]
    ensures n >= End(fs, p + 1) ==> all[End(fs, p)..n] == fs[p].Wire() + all[End(fs, p + 1)..n]
  {
    StreamAt(fs, p);
    Cut(Stream(fs), all, End(fs, p), End(fs, p + 1), n);
  }

  lemma Cut<T>(s: seq<T>, all: seq<T>, a: nat, b: nat, n: nat)
    requires all <= s && a <= b <= |s| && a <= n <= |all|
    ensures n < b ==> all[a..n] == s[a..b][..n - a]
    ensures n >= b ==> all[a..n] == s[a..b] + all[b..n]
  {
    assert all == s[..|all|];
  }

  // ---- one drain ----------------------------------------------------------------------

  // How far a drain gets with n bytes: through the complete frames, or the first damaged.
  function Taken(fs: seq<Frame>, p: nat, n: nat): (q: nat)
    requires p <= |fs| && End(fs, p) <= n
    ensures p <= q <= |fs| && End(fs, q) <= n
    decreases |fs| - p
  {
    if p == |fs| || n < End(fs, p + 1) then p
    else if !fs[p].Sound() then p + 1
    else Taken(fs, p + 1, n)
  }

  // A drain of the buffer between a and n, after ms, ends at b with ns.
  ghost predicate Drains(all: seq<byte>, ms: seq<Message>, a: nat, n: nat, ns: seq<Message>, b: nat) {
    a <= n <= |all| && b <= n && Before(ms, Drain(all[a..n])) == Drained(ns, all[b..n])
  }

  // d(p, q): a drain of n bytes gets from the first p frames to the first q.
  ghost function Getting(fs: seq<Frame>, all: seq<byte>, n: nat): (nat, nat) -> bool {
    (p: nat, q: nat) =>
      p <= |fs| && q <= |fs| && Drains(all, Messages(fs, p), End(fs, p), n, Messages(fs, q), End(fs, q))
  }

  // What the frame behind the first p means for it: there is none, or it is delivered and
  // the drain goes on, or it is dropped and the drain stops.
  ghost predicate Step(fs: seq<Frame>, n: nat, d: (nat, nat) -> bool, p: nat)
    requires p <= |fs| && End(fs, p) <= n
  {
    if p == |fs| || n < End(fs, p + 1) then d(p, p)
    else if fs[p].Sound() then forall q :: d(p + 1, q) ==> d(p, q)
    else d(p, p + 1)
  }

  lemma {:induction false} TakenBySteps(fs: seq<Frame>, n: nat, d: (nat, nat) -> bool, p: nat)
    requires p <= |fs| && End(fs, p) <= n
    requires forall i :: 0 <= i <= |fs| && End(fs, i) <= n ==> Step(fs, n, d, i)
    ensures d(p, Taken(fs, p, n))
    decreases |fs| - p
  {
    assert Step(fs, n, d, p);
    if p < |fs| && End(fs, p + 1) <= n && fs[p].Sound() {
      TakenBySteps(fs, n, d, p + 1);
    }
  }

  lemma NoneSteps(fs: seq<Frame>, all: seq<byte>, n: nat, p: nat)
    requires Bus(fs) && all <= Stream(fs) && SafeAt(fs, n)
    requires p <= |fs| && End(fs, p) <= n <= |all| && (p == |fs| || n < End(fs, p + 1))
    ensures Getting(fs, all, n)(p, p)
  {
    NoFrame(fs, all, p, n);
  }

  lemma SoundSteps(fs: seq<Frame>, all: seq<byte>, n: nat, p: nat, q: nat)
    requires all <= Stream(fs) && p < |fs| && End(fs, p + 1) <= n <= |all| && fs[p].Sound()
    requires Getting(fs, all, n)(p + 1, q)
    ensures Getting(fs, all, n)(p, q)
  {
    SoundOne(fs, all, p, n, q);
  }

  lemma DamagedSteps(fs: seq<Frame>, all: seq<byte>, n: nat, p: nat)
    requires Bus(fs) && all <= Stream(fs) && p < |fs| && End(fs, p + 1) <= n <= |all| && !fs[p].Sound()
    ensures Getting(fs, all, n)(p, p + 1)
  {
    DamagedOne(fs, all, p, n);
  }

  lemma StepAt(fs: seq<Frame>, all: seq<byte>, n: nat, d: (nat, nat) -> bool, p: nat)
    requires Bus(fs) && all <= Stream(fs) && SafeAt(fs, n) && d == Getting(fs, all, n)
    requires p <= |fs| && End(fs, p) <= n <= |all|
    ensures Step(fs, n, d, p)
  {
    if p == |fs| || n < End(fs, p + 1) {
      NoneSteps(fs, all, n, p);
    } else if fs[p].Sound() {
      forall q | d(p + 1, q) ensures d(p, q) {
        SoundSteps(fs, all, n, p, q);
      }
    } else {
      DamagedSteps(fs, all, n, p);
    }
  }

  // Draining the buffer behind the first p frames.
  lemma DrainFrom(fs: seq<Frame>, all: seq<byte>, p: nat, n: nat)
    requires Bus(fs) && all <= Stream(fs) && SafeAt(fs, n)
    requires p <= |fs| && End(fs, p) <= n <= |all|
    ensures var q := Taken(fs, p, n);
      Drains(all, Messages(fs, p), End(fs, p), n, Messages(fs, q), End(fs, q))
  {
    var d := Getting(fs, all, n);
    forall i | 0 <= i <= |fs| && End(fs, i) <= n ensures Step(fs, n, d, i) {
      StepAt(fs, all, n, d, i);
    }
    TakenBySteps(fs, n, d, p);
  }

  lemma NoFrame(fs: seq<Frame>, all: seq<byte>, p: nat, n: nat)
    requires Bus(fs) && all <= Stream(fs) && SafeAt(fs, n)
    requires p <= |fs| && End(fs, p) <= n <= |all| && (p == |fs| || n < End(fs, p + 1))
    ensures Drains(all, Messages(fs, p), End(fs, p), n, Messages(fs, p), End(fs, p))
  {
    if p == |fs| {
      StreamEnd(fs);
      assert all[End(fs, p)..n] == [];
    } else {
      Unfinished(fs, all, p, n);
    }
    DrainNothing(Messages(fs, p), all[End(fs, p)..n]);
  }

  lemma Unfinished(fs: seq<Frame>, all: seq<byte>, p: nat, n: nat)
    requires Bus(fs) && all <= Stream(fs) && SafeAt(fs, n)
    requires p < |fs| && End(fs, p) <= n <= |all| && n < End(fs, p + 1)
    ensures Scan(all[End(fs, p)..n], 0) == Nothing(all[End(fs, p)..n])
  {
    var size := n - End(fs, p);
    BufferAt(fs, all, p, n);
    StreamAt(fs, p);
    SafeInside(fs, n, p);
    assert size < fs[p].Size();
    PartialFrame(fs[p], size);
  }

  lemma SoundOne(fs: seq<Frame>, all: seq<byte>, p: nat, n: nat, q: nat)
    requires all <= Stream(fs) && p < |fs| && End(fs, p + 1) <= n <= |all| && fs[p].Sound() && q <= |fs|
    requires Drains(all, Messages(fs, p + 1), End(fs, p + 1), n, Messages(fs, q), End(fs, q))
    ensures Drains(all, Messages(fs, p), End(fs, p), n, Messages(fs, q), End(fs, q))
  {
    BufferAt(fs, all, p, n);
    DrainSound(Messages(fs, p), fs[p], all[End(fs, p + 1)..n]);
  }

  lemma DamagedOne(fs: seq<Frame>, all: seq<byte>, p: nat, n: nat)
    requires Bus(fs) && all <= Stream(fs) && p < |fs| && End(fs, p + 1) <= n <= |all| && !fs[p].Sound()
    ensures Drains(all, Messages(fs, p), End(fs, p), n, Messages(fs, p + 1), End(fs, p + 1))
  {
    BufferAt(fs, all, p, n);
    DrainDamaged(Messages(fs, p), fs[p], all[End(fs, p + 1)..n]);
  }

  lemma DrainNothing(ms: seq<Message>, buf: seq<byte>)
    requires buf == [] || Scan(buf, 0) == Nothing(buf)
    ensures Before(ms, Drain(buf)) == Drained(ms, buf)
  {
    assert ms + [] == ms;
  }

  lemma DrainSound(ms: seq<Message>, f: Frame, more: seq<byte>)
    requires f.Sound()
    ensures Before(ms, Drain(f.Wire() + more)) == Before(ms + [f.Carries()], Drain(more))
  {
    WholeFrame(f, more);
    BeforeBefore(ms, [f.Carries()], Drain(more));
  }

  lemma DrainDamaged(ms: seq<Message>, f: Frame, more: seq<byte>)
    requires f.Request? && !f.Sound()
    ensures Before(ms, Drain(f.Wire() + more)) == Drained(ms + [], more)
  {
    DamagedFrame(f, more);
  }

  // ---- the session ----------------------------------------------------------------------

  // How many frames are consumed after reading chunks, with p consumed and n bytes read
  // before.
  function Consumed(fs: seq<Frame>, p: nat, n: nat, chunks: seq<seq<byte>>): (q: nat)
    requires p <= |fs| && End(fs, p) <= n
    ensures p <= q <= |fs|
    decreases |chunks|
  {
    if chunks == [] then p
    else
      var m := n + |chunks[0]|;
      Consumed(fs, Taken(fs, p, m), m, chunks[1..])
  }

  // What is still to be read of all, with n bytes read.
  ghost predicate ToRead(fs: seq<Frame>, all: seq<byte>, n: nat, chunks: seq<seq<byte>>) {
    n <= |all| && all[n..] == Flatten(chunks) && SafeReads(fs, n, chunks)
  }

  // Reading it, with p frames consumed, ends with q consumed.
  ghost predicate Reads(fs: seq<Frame>, all: seq<byte>, p: nat, n: nat, chunks: seq<seq<byte>>, q: nat)
    requires p <= |fs| && End(fs, p) <= n <= |all|
  {
    && q <= |fs| && End(fs, q) <= |all|
    && Before(Messages(fs, p), Feed(all[End(fs, p)..n], chunks)) == Drained(Messages(fs, q), all[End(fs, q)..])
  }

  // The same, as a relation that the induction over the reads need not look into.
  ghost function Reading(fs: seq<Frame>, all: seq<byte>): (nat, nat, seq<seq<byte>>, nat) -> bool {
    (p: nat, n: nat, chunks: seq<seq<byte>>, q: nat) =>
      p <= |fs| && End(fs, p) <= n <= |all| && (ToRead(fs, all, n, chunks) ==> Reads(fs, all, p, n, chunks, q))
  }

  ghost predicate ReadStep(fs: seq<Frame>, d: (nat, nat, seq<seq<byte>>, nat) -> bool, p: nat, n: nat,
      chunks: seq<seq<byte>>)
    requires p <= |fs| && End(fs, p) <= n
  {
    if chunks == [] then d(p, n, chunks, p)
    else
      var m := n + |chunks[0]|;
      forall q :: d(Taken(fs, p, m), m, chunks[1..], q) ==> d(p, n, chunks, q)
  }

  lemma {:induction false} ConsumedBySteps(fs: seq<Frame>, d: (nat, nat, seq<seq<byte>>, nat) -> bool, size: nat,
      p: nat, n: nat, chunks: seq<seq<byte>>)
    requires p <= |fs| && End(fs, p) <= n && n + |Flatten(chunks)| == size
    requires forall i: nat, k: nat, cs: seq<seq<byte>> ::
      i <= |fs| && End(fs, i) <= k && k + |Flatten(cs)| == size ==> ReadStep(fs, d, i, k, cs)
    ensures d(p, n, chunks, Consumed(fs, p, n, chunks))
    decreases |chunks|
  {
    assert ReadStep(fs, d, p, n, chunks);
    if chunks != [] {
      var m := n + |chunks[0]|;
      ConsumedBySteps(fs, d, size, Taken(fs, p, m), m, chunks[1..]);
    }
  }

  // Every drain of what has been read gets as far as Taken says.
  ghost predicate Drainable(fs: seq<Frame>, all: seq<byte>) {
    forall p: nat, m: nat ::
      p <= |fs| && End(fs, p) <= m <= |all| && SafeAt(fs, m) ==> DrainsFrom(fs, all, p, m)
  }

  ghost predicate DrainsFrom(fs: seq<Frame>, all: seq<byte>, p: nat, m: nat)
    requires p <= |fs| && End(fs, p) <= m
  {
    var t := Taken(fs, p, m);
    Drains(all, Messages(fs, p), End(fs, p), m, Messages(fs, t), End(fs, t))
  }

  lemma AllDrains(fs: seq<Frame>, all: seq<byte>)
    requires Bus(fs) && all <= Stream(fs)
    ensures Drainable(fs, all)
  {
    forall p: nat, m: nat | p <= |fs| && End(fs, p) <= m <= |all| && SafeAt(fs, m) ensures DrainsFrom(fs, all, p, m) {
      DrainFrom(fs, all, p, m);
    }
  }

  // The rest of a session of safe reads of all.
  lemma FeedFrom(fs: seq<Frame>, all: seq<byte>, p: nat, n: nat, chunks: seq<seq<byte>>)
    requires Bus(fs) && all <= Stream(fs) && p <= |fs| && End(fs, p) <= n && ToRead(fs, all, n, chunks)
    ensures Reads(fs, all, p, n, chunks, Consumed(fs, p, n, chunks))
  {
    var d := Reading(fs, all);
    AllDrains(fs, all);
    forall i: nat, k: nat, cs: seq<seq<byte>> |
      i <= |fs| && End(fs, i) <= k && k + |Flatten(cs)| == |all|
      ensures ReadStep(fs, d, i, k, cs)
    {
      ReadStepAt(fs, all, d, i, k, cs);
    }
    ConsumedBySteps(fs, d, |all|, p, n, chunks);
  }

  lemma ReadStepAt(fs: seq<Frame>, all: seq<byte>, d: (nat, nat, seq<seq<byte>>, nat) -> bool,
      p: nat, n: nat, chunks: seq<seq<byte>>)
    requires Drainable(fs, all) && d == Reading(fs, all)
    requires p <= |fs| && End(fs, p) <= n && n + |Flatten(chunks)| == |all|
    ensures ReadStep(fs, d, p, n, chunks)
  {
    if chunks == [] {
      NoReading(fs, all, p);
    } else {
      forall q | d(Taken(fs, p, n + |chunks[0]|), n + |chunks[0]|, chunks[1..], q) ensures d(p, n, chunks, q) {
        ReadingOn(fs, all, p, n, chunks, q);
      }
    }
  }

  lemma NoReading(fs: seq<Frame>, all: seq<byte>, p: nat)
    requires p <= |fs| && End(fs, p) <= |all|
    ensures Reading(fs, all)(p, |all|, [], p)
  {
    NothingRead(fs, all, p);
  }

  lemma ReadingOn(fs: seq<Frame>, all: seq<byte>, p: nat, n: nat, chunks: seq<seq<byte>>, q: nat)
    requires Drainable(fs, all) && p <= |fs| && End(fs, p) <= n <= |all| && chunks != []
    requires Reading(fs, all)(Taken(fs, p, n + |chunks[0]|), n + |chunks[0]|, chunks[1..], q)
    ensures Reading(fs, all)(p, n, chunks, q)
  {
    if ToRead(fs, all, n, chunks) {
      ReadFacts(fs, all, p, n, chunks);
      NextReads(fs, all, p, n, chunks, q);
    }
  }

  lemma ReadFacts(fs: seq<Frame>, all: seq<byte>, p: nat, n: nat, chunks: seq<seq<byte>>)
    requires Drainable(fs, all) && p <= |fs| && End(fs, p) <= n && chunks != [] && ToRead(fs, all, n, chunks)
    ensures var m := n + |chunks[0]|;
      && ToRead(fs, all, m, chunks[1..]) && DrainsFrom(fs, all, p, m)
      && all[End(fs, p)..n] + chunks[0] == all[End(fs, p)..m]
  {
    NextRead(all, End(fs, p), n, chunks);
    assert DrainsFrom(fs, all, p, n + |chunks[0]|);
  }

  lemma NothingRead(fs: seq<Frame>, all: seq<byte>, p: nat)
    requires p <= |fs| && End(fs, p) <= |all|
    ensures Reads(fs, all, p, |all|, [], p)
  {
    assert Messages(fs, p) + [] == Messages(fs, p);
  }

  lemma NextReads(fs: seq<Frame>, all: seq<byte>, p: nat, n: nat, chunks: seq<seq<byte>>, q: nat)
    requires p <= |fs| && End(fs, p) <= n && chunks != [] && n + |chunks[0]| <= |all|
    requires all[End(fs, p)..n] + chunks[0] == all[End(fs, p)..n + |chunks[0]|]
    requires DrainsFrom(fs, all, p, n + |chunks[0]|)
    requires Reads(fs, all, Taken(fs, p, n + |chunks[0]|), n + |chunks[0]|, chunks[1..], q)
    ensures Reads(fs, all, p, n, chunks, q)
  {
    var m := n + |chunks[0]|;
    var t := Taken(fs, p, m);
    FeedOn(Messages(fs, p), all[End(fs, p)..n], chunks, Messages(fs, t), all[End(fs, t)..m]);
  }

  lemma NextRead(all: seq<byte>, a: nat, n: nat, chunks: seq<seq<byte>>)
    requires a <= n <= |all| && chunks != [] && all[n..] == Flatten(chunks)
    ensures n + |chunks[0]| <= |all| && all[a..n] + chunks[0] == all[a..n + |chunks[0]|]
    ensures all[n + |chunks[0]|..] == Flatten(chunks[1..])
  {
    Take(all, a, n, chunks[0], Flatten(chunks[1..]));
  }

  lemma Take<T>(all: seq<T>, a: nat, n: nat, c: seq<T>, t: seq<T>)
    requires a <= n <= |all| && all[n..] == c + t
    ensures n + |c| <= |all| && all[a..n] + c == all[a..n + |c|] && all[n + |c|..] == t
  {
    assert all == all[..n] + (c + t);
  }

  lemma FeedOn(ms: seq<Message>, buf: seq<byte>, chunks: seq<seq<byte>>, ns: seq<Message>, rest: seq<byte>)
    requires chunks != [] && Before(ms, Drain(buf + chunks[0])) == Drained(ns, rest)
    ensures Before(ms, Feed(buf, chunks)) == Before(ns, Feed(rest, chunks[1..]))
  {
    BeforeBefore(ms, Drain(buf + chunks[0]).msgs, Feed(rest, chunks[1..]));
  }

  // It stops short of frames that have arrived only behind a damaged one.
  lemma {:induction false} TakenStops(fs: seq<Frame>, p: nat, n: nat, j: nat)
    requires p <= j <= |fs| && End(fs, p) <= n && End(fs, j) <= n && Taken(fs, p, n) < j
    ensures Damaged(fs, Taken(fs, p, n)) > Damaged(fs, p)
    decreases |fs| - p
  {
    EndGrows(fs, p + 1, j);
    if fs[p].Sound() {
      TakenStops(fs, p + 1, n, j);
    }
  }

  lemma {:induction false} EndGrows(fs: seq<Frame>, p: nat, j: nat)
    requires p <= j <= |fs|
    ensures End(fs, p) <= End(fs, j) && Damaged(fs, p) <= Damaged(fs, j)
  {
    if p < j {
      EndGrows(fs, p, j - 1);
    }
  }

  // j frames have arrived after k more reads, and there are as many reads behind them as
  // damaged frames that are not consumed yet among them.
  ghost predicate InTime(fs: seq<Frame>, p: nat, n: nat, chunks: seq<seq<byte>>, k: nat, j: nat) {
    && p < j <= |fs| && End(fs, p) <= n
    && 1 <= k <= |chunks| && End(fs, j) <= n + |Flatten(chunks[..k])|
    && k + (Damaged(fs, j) - Damaged(fs, p)) <= |chunks|
  }

  lemma {:induction false} ConsumedInTime(fs: seq<Frame>, p: nat, n: nat, chunks: seq<seq<byte>>, k: nat, j: nat)
    requires InTime(fs, p, n, chunks, k, j)
    ensures Consumed(fs, p, n, chunks) >= j
    decreases |chunks|
  {
    var m := n + |chunks[0]|;
    var q := Taken(fs, p, m);
    if q < j {
      NextInTime(fs, p, n, chunks, k, j);
      ConsumedInTime(fs, q, m, chunks[1..], if k > 1 then k - 1 else 1, j);
    }
  }

  lemma NextInTime(fs: seq<Frame>, p: nat, n: nat, chunks: seq<seq<byte>>, k: nat, j: nat)
    requires InTime(fs, p, n, chunks, k, j) && Taken(fs, p, n + |chunks[0]|) < j
    ensures var m := n + |chunks[0]|;
      InTime(fs, Taken(fs, p, m), m, chunks[1..], if k > 1 then k - 1 else 1, j)
  {
    var m := n + |chunks[0]|;
    var q := Taken(fs, p, m);
    FirstOf(chunks, k);
    EndGrows(fs, p, q);
    EndGrows(fs, q, j);
    if k == 1 {
      TakenStops(fs, p, m, j);
    }
  }

  lemma FirstOf(chunks: seq<seq<byte>>, k: nat)
    requires 1 <= k <= |chunks|
    ensures |Flatten(chunks[..k])| == |chunks[0]| + |Flatten(chunks[1..][..k - 1])|
  {
    assert chunks[..k][1..] == chunks[1..][..k - 1];
    assert chunks[1..][..0] == [];
  }

  lemma FeedConsumes(fs: seq<Frame>, chunks: seq<seq<byte>>)
    requires Bus(fs) && Flatten(chunks) <= Stream(fs) && SafeReads(fs, 0, chunks)
    ensures var all, q := Flatten(chunks), Consumed(fs, 0, 0, chunks);
      End(fs, q) <= |all| && Feed([], chunks) == Drained(Messages(fs, q), all[End(fs, q)..])
  {
    var all := Flatten(chunks);
    assert all[0..] == all && all[0..0] == [];
    FeedFrom(fs, all, 0, 0, chunks);
    assert Messages(fs, 0) == [] && End(fs, 0) == 0;
    assert [] + Feed([], chunks).msgs == Feed([], chunks).msgs;
  }

  // Over sound and damaged frames in safe reads, what has been delivered are the messages of
  // the sound ones among the first q frames, each once and in order, and what is kept are the
  // bytes behind those q. They are at least the j frames that had arrived k reads in, once
  // there was one more read for each damaged frame among them.
  lemma DamageDelays(fs: seq<Frame>, chunks: seq<seq<byte>>, k: nat, j: nat)
    requires Bus(fs) && Flatten(chunks) <= Stream(fs) && SafeReads(fs, 0, chunks)
    requires 1 <= k <= |chunks| && j <= |fs| && End(fs, j) <= |Flatten(chunks[..k])|
    requires k + Damaged(fs, j) <= |chunks|
    ensures var all, q := Flatten(chunks), Consumed(fs, 0, 0, chunks);
      && j <= q <= |fs| && End(fs, q) <= |all|
      && Feed([], chunks) == Drained(Messages(fs, q), all[End(fs, q)..])
  {
    FeedConsumes(fs, chunks);
    if j > 0 {
      ConsumedInTime(fs, 0, 0, chunks, k, j);
    }
  }
}
