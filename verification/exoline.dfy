// Exoline framing (exoline/exoline.go): escaping on the way out, and on the way in a
// decoder that compacts the frame in place and inverts recorded positions afterwards.
module Exoline {
  import opened Bytes
  import opened Sequences

  const CLIENT: byte := 0x3C
  const SERVER: byte := 0x3D
  const ESCAPE: byte := 0x1B
  const END: byte := 0x3E

  predicate Special(v: byte) {
    v == CLIENT || v == SERVER || v == ESCAPE || v == END
  }

  // ---- output ---------------------------------------------------------------

  function EscapeByte(a: byte): (r: seq<byte>)
    ensures |r| > 0
  {
    if Special(a) then [ESCAPE, Flip(a, 0xFF)] else [a]
  }

  function Escape(b: seq<byte>): seq<byte> {
    if b == [] then [] else EscapeByte(b[0]) + Escape(b[1..])
  }

  // A frame on the wire. Requests start with CLIENT, replies with SERVER.
  function Wire(start: byte, body: seq<byte>): seq<byte> {
    [start] + (Escape(body) + (EscapeByte(Xor(body)) + [END]))
  }

  // The same frame after decoding.
  function Plain(start: byte, body: seq<byte>): seq<byte> {
    [start] + (body + [Xor(body), END])
  }

  lemma {:induction false} EscapeConcat(a: seq<byte>, b: seq<byte>)
    ensures Escape(a + b) == Escape(a) + Escape(b)
  {
    if a == [] {
      assert a + b == b;
    } else {
      assert (a + b)[1..] == a[1..] + b;
      EscapeConcat(a[1..], b);
    }
  }

  lemma EscapeSnoc(a: seq<byte>, v: byte)
    ensures Escape(a + [v]) == Escape(a) + EscapeByte(v)
  {
    EscapeConcat(a, [v]);
    assert Escape([v]) == EscapeByte(v) + Escape([v][1..]);
  }

  method ShouldEscape(a: byte) returns (escape: bool)
    ensures escape == Special(a)
  {
    var shouldEscape := [CLIENT, SERVER, ESCAPE, END];
    escape := false;
    var i := 0;
    while i < |shouldEscape|
      invariant i <= |shouldEscape|
      invariant escape <==> a in shouldEscape[..i]
    {
      if a == shouldEscape[i] {
        escape := true;
      }
      i := i + 1;
    }
    assert shouldEscape[..i] == shouldEscape;
  }

  method CompileMsg(b: seq<byte>) returns (msg: seq<byte>)
    ensures msg == Wire(CLIENT, b)
  {
    var s := XorLoop(b);
    var escapeChecksum := ShouldEscape(s);
    msg := [CLIENT];
    var i := 0;
    while i < |b|
      invariant i <= |b|
      invariant msg == [CLIENT] + Escape(b[..i])
    {
      EscapeStep(msg, b, i);
      var escape := ShouldEscape(b[i]);
      if escape {
        msg := msg + [ESCAPE, Flip(b[i], 0xFF)];
      } else {
        msg := msg + [b[i]];
      }
      i := i + 1;
    }
    EscapeEnd(msg, b, s);
    if escapeChecksum {
      msg := msg + [ESCAPE, Flip(s, 0xFF), END];
      return;
    }
    msg := msg + [s, END];
  }

  lemma EscapeStep(msg: seq<byte>, b: seq<byte>, i: nat)
    requires i < |b| && msg == [CLIENT] + Escape(b[..i])
    ensures msg + (if Special(b[i]) then [ESCAPE, Flip(b[i], 0xFF)] else [b[i]]) == [CLIENT] + Escape(b[..i + 1])
  {
    EscapeSnoc(b[..i], b[i]);
    assert b[..i + 1] == b[..i] + [b[i]];
    Regroup([CLIENT], Escape(b[..i]), EscapeByte(b[i]));
  }

  lemma EscapeEnd(msg: seq<byte>, b: seq<byte>, s: byte)
    requires msg == [CLIENT] + Escape(b[..|b|]) && s == Xor(b)
    ensures msg + (if Special(s) then [ESCAPE, Flip(s, 0xFF), END] else [s, END]) == Wire(CLIENT, b)
  {
    assert b[..|b|] == b;
    var t := if Special(s) then [ESCAPE, Flip(s, 0xFF), END] else [s, END];
    assert EscapeByte(s) + [END] == t;
    Regroup([CLIENT], Escape(b), t);
  }

  // What protects the framing: apart from its start byte a frame holds none of the
  // two start bytes, and END only at its end.
  predicate Clean(s: seq<byte>) {
    CLIENT !in s && SERVER !in s && END !in s
  }

  lemma EscapeByteClean(a: byte)
    ensures Clean(EscapeByte(a))
  {
    FlipAll(a);
  }

  lemma {:induction false} EscapeClean(b: seq<byte>)
    ensures Clean(Escape(b))
  {
    if b != [] {
      EscapeByteClean(b[0]);
      EscapeClean(b[1..]);
    }
  }

  lemma FrameDelimiters(start: byte, body: seq<byte>)
    ensures var w := Wire(start, body);
            |w| >= 3 && w[0] == start && w[|w| - 1] == END && Clean(w[1..|w| - 1])
  {
    EscapeClean(body);
    EscapeByteClean(Xor(body));
    var w := Wire(start, body);
    assert w[1..|w| - 1] == Escape(body) + EscapeByte(Xor(body));
  }

  // ---- input: the reference decoder -----------------------------------------

  function FlipTimes(v: byte, k: nat): byte {
    if k == 0 then v else Flip(FlipTimes(v, k - 1), 0xFF)
  }

  // The byte after a run of escapes is inverted once per escape.
  function Unescape(raw: seq<byte>, k: nat): seq<byte> {
    if raw == [] then []
    else if raw[0] == ESCAPE then Unescape(raw[1..], k + 1)
    else [FlipTimes(raw[0], k)] + Unescape(raw[1..], 0)
  }

  lemma {:induction false} FlipTimesParity(v: byte, k: nat)
    ensures FlipTimes(v, k) == if k % 2 == 0 then v else 255 - v
  {
    if k > 0 {
      FlipTimesParity(v, k - 1);
      FlipAll(FlipTimes(v, k - 1));
    }
  }

  lemma UnescapeByte(a: byte, rest: seq<byte>)
    ensures Unescape(EscapeByte(a) + rest, 0) == [a] + Unescape(rest, 0)
  {
    var s := EscapeByte(a) + rest;
    if Special(a) {
      assert s == [ESCAPE] + ([Flip(a, 0xFF)] + rest);
      var t := [Flip(a, 0xFF)] + rest;
      assert s[1..] == t && t[1..] == rest;
      FlipAll(a);
      FlipTimesParity(Flip(a, 0xFF), 1);
    } else {
      assert s[1..] == rest;
    }
  }

  lemma {:induction false} UnescapeEscaped(b: seq<byte>, rest: seq<byte>)
    ensures Unescape(Escape(b) + rest, 0) == b + Unescape(rest, 0)
  {
    if b == [] {
      assert Escape(b) + rest == rest;
      assert b + Unescape(rest, 0) == Unescape(rest, 0);
    } else {
      assert Escape(b) + rest == EscapeByte(b[0]) + (Escape(b[1..]) + rest);
      UnescapeByte(b[0], Escape(b[1..]) + rest);
      UnescapeEscaped(b[1..], rest);
      assert [b[0]] + (b[1..] + Unescape(rest, 0)) == b + Unescape(rest, 0);
    }
  }

  lemma UnescapeWire(start: byte, body: seq<byte>)
    requires start != ESCAPE
    ensures Unescape(Wire(start, body), 0) == Plain(start, body)
  {
    var x := Xor(body);
    var t := EscapeByte(x) + [END];
    assert Wire(start, body)[1..] == Escape(body) + t;
    UnescapeEscaped(body, t);
    UnescapeByte(x, [END]);
    assert [END][1..] == [];
    assert Unescape([END], 0) == [END];
    assert Unescape(t, 0) == [x, END];
  }

  // ---- input: compact in place, then invert ---------------------------------

  function Compact(raw: seq<byte>): seq<byte> {
    if raw == [] then []
    else if raw[0] == ESCAPE then Compact(raw[1..])
    else [raw[0]] + Compact(raw[1..])
  }

  // For every escape, the position its successor gets; n bytes were kept before.
  function Marks(raw: seq<byte>, n: nat): seq<nat> {
    if raw == [] then []
    else if raw[0] == ESCAPE then [n] + Marks(raw[1..], n)
    else Marks(raw[1..], n + 1)
  }

  predicate InRange(marks: seq<nat>, n: nat) {
    forall i :: 0 <= i < |marks| ==> marks[i] < n
  }

  function Invert(s: seq<byte>, marks: seq<nat>): seq<byte>
    requires InRange(marks, |s|)
    decreases |marks|
  {
    if marks == [] then s
    else Invert(s[marks[0] := Flip(s[marks[0]], 0xFF)], marks[1..])
  }

  // No recorded index is out of range when the raw frame does not end in an escape.
  lemma {:induction false} MarksInRange(raw: seq<byte>, n: nat)
    ensures raw == [] || raw[|raw| - 1] != ESCAPE ==> InRange(Marks(raw, n), n + |Compact(raw)|)
  {
    if raw != [] {
      MarksInRange(raw[1..], n);
      MarksInRange(raw[1..], n + 1);
      if raw[0] == ESCAPE && |raw| > 1 && raw[|raw| - 1] != ESCAPE {
        KeepsLast(raw[1..]);
      }
    }
  }

  lemma {:induction false} KeepsLast(raw: seq<byte>)
    requires raw != [] && raw[|raw| - 1] != ESCAPE
    ensures |Compact(raw)| > 0
  {
    if |raw| > 1 {
      KeepsLast(raw[1..]);
    }
  }

  // The compacted rest of a frame behind done finished bytes, its first byte
  // inverted k times already.
  function Progress(done: seq<byte>, raw: seq<byte>, k: nat): seq<byte>
    requires |Compact(raw)| > 0
  {
    done + ([FlipTimes(Compact(raw)[0], k)] + Compact(raw)[1..])
  }

  lemma EscapeProgress(done: seq<byte>, raw: seq<byte>, k: nat)
    requires raw != [] && raw[0] == ESCAPE && |Compact(raw)| > 0
    ensures |Compact(raw[1..])| > 0
    ensures var s := Progress(done, raw, k);
            s[|done| := Flip(s[|done|], 0xFF)] == Progress(done, raw[1..], k + 1)
  {
    var c := Compact(raw);
    ReplaceBehind(done, FlipTimes(c[0], k), FlipTimes(c[0], k + 1), c[1..]);
  }

  lemma ReplaceBehind(d: seq<byte>, x: byte, y: byte, t: seq<byte>)
    ensures (d + ([x] + t))[|d|] == x
    ensures (d + ([x] + t))[|d| := y] == d + ([y] + t)
  {
  }

  lemma ByteProgress(done: seq<byte>, raw: seq<byte>, k: nat)
    requires raw != [] && raw[0] != ESCAPE && |Compact(raw[1..])| > 0
    ensures Progress(done, raw, k) == Progress(done + [FlipTimes(raw[0], k)], raw[1..], 0)
  {
    var c, t := FlipTimes(raw[0], k), Compact(raw[1..]);
    assert Compact(raw) == [raw[0]] + t && Compact(raw)[1..] == t;
    assert [FlipTimes(t[0], 0)] + t[1..] == t;
    Regroup(done, [c], t);
  }

  lemma ByteUnescape(done: seq<byte>, raw: seq<byte>, k: nat)
    requires raw != [] && raw[0] != ESCAPE
    ensures done + Unescape(raw, k) == done + [FlipTimes(raw[0], k)] + Unescape(raw[1..], 0)
    ensures Marks(raw, |done|) == Marks(raw[1..], |done + [FlipTimes(raw[0], k)]|)
  {
  }

  lemma InvertFirst(s: seq<byte>, m: nat, marks: seq<nat>)
    requires m < |s| && InRange(marks, |s|)
    ensures InRange([m] + marks, |s|)
    ensures Invert(s, [m] + marks) == Invert(s[m := Flip(s[m], 0xFF)], marks)
  {
    assert ([m] + marks)[1..] == marks;
  }

  lemma LastByte(done: seq<byte>, raw: seq<byte>, k: nat)
    requires |raw| == 1 && raw[0] != ESCAPE
    ensures Marks(raw, |done|) == [] && |Compact(raw)| == 1
    ensures Progress(done, raw, k) == done + Unescape(raw, k)
  {
    assert raw[1..] == [];
    assert Compact(raw) == [raw[0]] + [];
  }

  // What the marks mean, from some point of the frame on.
  ghost predicate Decodes(done: seq<byte>, raw: seq<byte>, k: nat) {
    && |Compact(raw)| > 0
    && InRange(Marks(raw, |done|), |done| + |Compact(raw)|)
    && Invert(Progress(done, raw, k), Marks(raw, |done|)) == done + Unescape(raw, k)
  }

  lemma EscapeDecodes(done: seq<byte>, raw: seq<byte>, k: nat)
    requires raw != [] && raw[0] == ESCAPE && Decodes(done, raw[1..], k + 1)
    ensures Decodes(done, raw, k)
  {
    EscapeProgress(done, raw, k);
    InvertFirst(Progress(done, raw, k), |done|, Marks(raw[1..], |done|));
  }

  lemma ByteDecodes(done: seq<byte>, raw: seq<byte>, k: nat)
    requires raw != [] && raw[0] != ESCAPE && Decodes(done + [FlipTimes(raw[0], k)], raw[1..], 0)
    ensures Decodes(done, raw, k)
  {
    ByteProgress(done, raw, k);
    ByteUnescape(done, raw, k);
  }

  // Inverting at the marks of a compacted frame is the reference decoding.
  lemma {:induction false} InvertIsUnescape(done: seq<byte>, raw: seq<byte>, k: nat)
    requires raw != [] && raw[|raw| - 1] != ESCAPE
    ensures Decodes(done, raw, k)
    decreases |raw|
  {
    if |raw| == 1 {
      LastByte(done, raw, k);
    } else if raw[0] == ESCAPE {
      InvertIsUnescape(done, raw[1..], k + 1);
      EscapeDecodes(done, raw, k);
    } else {
      InvertIsUnescape(done + [FlipTimes(raw[0], k)], raw[1..], 0);
      ByteDecodes(done, raw, k);
    }
  }

  // The whole in-place algorithm on values.
  lemma InPlaceIsUnescape(raw: seq<byte>)
    requires raw != [] && raw[|raw| - 1] != ESCAPE
    ensures InRange(Marks(raw, 0), |Compact(raw)|)
    ensures Invert(Compact(raw), Marks(raw, 0)) == Unescape(raw, 0)
  {
    MarksInRange(raw, 0);
    KeepsLast(raw);
    InvertIsUnescape([], raw, 0);
    assert Progress([], raw, 0) == Compact(raw);
    assert [] + Unescape(raw, 0) == Unescape(raw, 0);
  }

  lemma StepAt(raw: seq<byte>, i: nat, n: nat)
    requires i < |raw|
    ensures Compact(raw[i..]) ==
      if raw[i] == ESCAPE then Compact(raw[i + 1..]) else [raw[i]] + Compact(raw[i + 1..])
    ensures Marks(raw[i..], n) ==
      if raw[i] == ESCAPE then [n] + Marks(raw[i + 1..], n) else Marks(raw[i + 1..], n + 1)
  {
    assert raw[i..][1..] == raw[i + 1..];
  }

  lemma InvertAt(s: seq<byte>, marks: seq<nat>, j: nat)
    requires j < |marks| && InRange(marks, |s|)
    ensures Invert(s, marks[j..]) == Invert(s[marks[j] := Flip(s[marks[j]], 0xFF)], marks[j + 1..])
  {
    assert marks[j..][1..] == marks[j + 1..];
  }

  // The decoder as it runs. First pass: one array, a write index that trails the
  // read index, and the recorded positions.
  method CompactInPlace(msg: array<byte>) returns (n: nat, indexesToFlip: seq<nat>)
    modifies msg
    ensures n <= msg.Length
    ensures msg[..n] == Compact(old(msg[..]))
    ensures indexesToFlip == Marks(old(msg[..]), 0)
  {
    ghost var raw := msg[..];
    indexesToFlip, n := [], 0;
    var i := 0;
    while i < msg.Length
      invariant n <= i <= msg.Length
      invariant forall k :: i <= k < msg.Length ==> msg[k] == raw[k]
      invariant msg[..n] + Compact(raw[i..]) == Compact(raw)
      invariant indexesToFlip + Marks(raw[i..], n) == Marks(raw, 0)
    {
      var v := msg[i];
      StepAt(raw, i, n);
      if v == ESCAPE {
        indexesToFlip := indexesToFlip + [n];
      } else {
        ghost var kept := msg[..n];
        msg[n] := v;
        assert msg[..n + 1] == kept + [v];
        n := n + 1;
      }
      i := i + 1;
    }
  }

  // Second pass: invert at the recorded positions.
  method InvertInPlace(msg: array<byte>, n: nat, indexesToFlip: seq<nat>)
    requires n <= msg.Length && InRange(indexesToFlip, n)
    modifies msg
    ensures msg[..n] == Invert(old(msg[..n]), indexesToFlip)
  {
    ghost var goal := Invert(msg[..n], indexesToFlip);
    var j := 0;
    assert indexesToFlip[0..] == indexesToFlip;
    while j < |indexesToFlip|
      invariant j <= |indexesToFlip|
      invariant Invert(msg[..n], indexesToFlip[j..]) == goal
    {
      ghost var s := msg[..n];
      var k := indexesToFlip[j];
      InvertAt(s, indexesToFlip, j);
      msg[k] := Flip(msg[k], 0xFF);
      assert msg[..n] == s[k := Flip(s[k], 0xFF)];
      j := j + 1;
    }
  }

  method DecodeInPlace(msg: array<byte>) returns (n: nat)
    requires msg.Length > 0 && msg[msg.Length - 1] != ESCAPE
    modifies msg
    ensures n <= msg.Length
    ensures msg[..n] == Unescape(old(msg[..]), 0)
  {
    InPlaceIsUnescape(msg[..]);
    var indexesToFlip: seq<nat>;
    n, indexesToFlip := CompactInPlace(msg);
    InvertInPlace(msg, n, indexesToFlip);
  }

  // ---- reading from the connection ------------------------------------------

  function IndexOf(s: seq<byte>, v: byte): (i: nat)
    ensures i <= |s|
    ensures v !in s[..i] && (i < |s| ==> s[i] == v)
  {
    if s == [] || s[0] == v then 0 else 1 + IndexOf(s[1..], v)
  }

  // One read: the bytes through the next END, decoded; nothing when the
  // connection ends first.
  function ReadOne(stream: seq<byte>): (r: Option<(seq<byte>, seq<byte>)>)
    ensures r.None? <==> 0x3E !in stream
    ensures r.Some? ==> |r.value.1| < |stream|
  {
    var i := IndexOf(stream, END);
    if i == |stream| then None
    else Some((Unescape(stream[..i + 1], 0), stream[i + 1..]))
  }

  function ReadAll(stream: seq<byte>): seq<seq<byte>>
    decreases |stream|
  {
    match ReadOne(stream)
    case None => []
    case Some((m, rest)) => [m] + ReadAll(rest)
  }

  class Connection {
    var stream: seq<byte>

    // Through the first delim; at the end of the connection an error, and what was
    // left is consumed.
    method ReadBytes(delim: byte) returns (line: Option<seq<byte>>)
      modifies this
      ensures var i := IndexOf(old(stream), delim);
              if i == |old(stream)| then line == None && stream == []
              else line == Some(old(stream)[..i + 1]) && stream == old(stream)[i + 1..]
    {
      var i := 0;
      while i < |stream| && stream[i] != delim
        invariant i <= |stream| && stream == old(stream)
        invariant IndexOf(stream, delim) == i + IndexOf(stream[i..], delim)
      {
        assert stream[i..][1..] == stream[i + 1..];
        i := i + 1;
      }
      if i == |stream| {
        stream := [];
        return None;
      }
      line := Some(stream[..i + 1]);
      stream := stream[i + 1..];
    }

    method Read() returns (m: Option<seq<byte>>)
      modifies this
      ensures match ReadOne(old(stream))
              case None => m == None && stream == []
              case Some((frame, rest)) => m == Some(frame) && stream == rest
    {
      var raw := ReadBytes(END);
      if raw == None {
        return None;
      }
      var msg := new byte[|raw.value|](i requires 0 <= i < |raw.value| => raw.value[i]);
      assert msg[..] == raw.value;
      var n := DecodeInPlace(msg);
      m := Some(msg[..n]);
    }
  }

  lemma {:induction false} FirstEnd(w: seq<byte>, rest: seq<byte>)
    requires |w| > 0 && END !in w[..|w| - 1] && w[|w| - 1] == END
    ensures IndexOf(w + rest, END) == |w| - 1
  {
    if |w| > 1 {
      assert w[0] == w[..|w| - 1][0];
      assert w[1..][..|w| - 2] == w[..|w| - 1][1..];
      assert (w + rest)[1..] == w[1..] + rest;
      FirstEnd(w[1..], rest);
    }
  }

  lemma ReadFrame(start: byte, body: seq<byte>, rest: seq<byte>)
    requires start != ESCAPE && start != END
    ensures ReadOne(Wire(start, body) + rest) == Some((Plain(start, body), rest))
  {
    var w := Wire(start, body);
    var s := w + rest;
    FrameDelimiters(start, body);
    assert w[..|w| - 1] == [start] + w[1..|w| - 1];
    FirstEnd(w, rest);
    var i := |w| - 1;
    assert s[..i + 1] == w && s[i + 1..] == rest;
    UnescapeWire(start, body);
  }

  function WireAll(bodies: seq<seq<byte>>): seq<byte> {
    if bodies == [] then [] else Wire(CLIENT, bodies[0]) + WireAll(bodies[1..])
  }

  function PlainAll(bodies: seq<seq<byte>>): seq<seq<byte>> {
    if bodies == [] then [] else [Plain(CLIENT, bodies[0])] + PlainAll(bodies[1..])
  }

  // Any number of compiled messages back to back read back frame by frame.
  lemma {:induction false} RoundTrip(bodies: seq<seq<byte>>)
    ensures ReadAll(WireAll(bodies)) == PlainAll(bodies)
  {
    if bodies != [] {
      ReadFrame(CLIENT, bodies[0], WireAll(bodies[1..]));
      RoundTrip(bodies[1..]);
    }
  }

  // Different messages never share an encoding.
  lemma CompileInjective(a: seq<byte>, b: seq<byte>)
    ensures Wire(CLIENT, a) == Wire(CLIENT, b) ==> a == b
  {
    UnescapeWire(CLIENT, a);
    UnescapeWire(CLIENT, b);
    assert Plain(CLIENT, a)[1..|a| + 1] == a && Plain(CLIENT, b)[1..|b| + 1] == b;
    assert |Plain(CLIENT, a)| == |a| + 3;
  }

  // What lies between the header of a reply and its checksum; slicing a shorter
  // message panics.
  function Payload(m: seq<byte>): Option<seq<byte>> {
    if |m| < 5 then None else Some(m[3..|m| - 2])
  }

  // A reply carries its data back through escaping, decoding and slicing, and its
  // bytes between the delimiters cancel to zero.
  lemma ReplyPayload(length: byte, status: byte, data: seq<byte>, rest: seq<byte>)
    ensures var r := ReadOne(Wire(SERVER, [length, status] + data) + rest);
            r.Some? && r.value.1 == rest && Payload(r.value.0) == Some(data)
            && Xor(r.value.0[1..|r.value.0| - 1]) == 0
  {
    var body := [length, status] + data;
    ReadFrame(SERVER, body, rest);
    var m := Plain(SERVER, body);
    assert m[3..|m| - 2] == data;
    assert m[1..|m| - 1] == body + [Xor(body)];
    XorClosed(body);
  }

  // ---- exactly what is escaped, and how --------------------------------------------

  lemma EscapedIff(a: byte)
    ensures EscapeByte(a) ==
      if a == 0x3C || a == 0x3D || a == 0x1B || a == 0x3E then [0x1B, 255 - a] else [a]
  {
    FlipAll(a);
  }

  // A run of k escapes inverts the byte behind it k times.
  lemma {:induction false} EscapeRun(k: nat, n: nat, v: byte, rest: seq<byte>)
    requires v != 0x1B
    ensures Unescape(seq(k, _ => 0x1B) + [v] + rest, n) ==
      [if (k + n) % 2 == 0 then v else 255 - v] + Unescape(rest, 0)
    decreases k
  {
    var s := seq(k, _ => 0x1B) + [v] + rest;
    if k == 0 {
      assert s == [v] + rest && s[1..] == rest;
      FlipTimesParity(v, n);
    } else {
      assert s[0] == 0x1B && s[1..] == seq(k - 1, _ => 0x1B) + [v] + rest;
      EscapeRun(k - 1, n + 1, v, rest);
    }
  }
}
