// The scanner and the encoder of the heat pump's serial protocol (nibe/protocol.go).
module NibeProtocol {
  import opened Bytes

  datatype Message = Message(addr: byte, cmd: byte, data: seq<byte>)

  // What one call of the scanner returns. Crash is the index-out-of-range panic
  // of reading the byte after a final 0x5C.
  datatype Outcome =
    | Got(msg: Message, rest: seq<byte>)
    | Nothing(rest: seq<byte>)
    | Crash

  // What the scanner does with the bytes from one position to the end of the buffer.
  datatype Hit =
    | Skip
    | Panic
    | Incomplete
    | Deliver(msg: Message, size: nat)
    | Drop(size: nat)

  const START: byte := 0x5C
  const RESPONSE: byte := 0xC0
  const ACK: byte := 0x06

  function Head(s: seq<byte>): (h: Hit)
    requires |s| > 0
    ensures h.Deliver? ==> 0 < h.size <= |s|
    ensures h.Drop? ==> 0 < h.size <= |s|
  {
    if s[0] == START then
      if |s| == 1 then Panic
      else if s[1] != 0 || |s| < 6 then Skip
      else
        var n: nat := s[4];
        if |s| < 6 + n then Incomplete
        else if s[5 + n] == Xor(s[2..5 + n]) then Deliver(Message(s[2], s[3], s[5..5 + n]), 6 + n)
        else Drop(6 + n)
    else if s[0] == RESPONSE && |s| > 4 then
      var n: nat := s[2];
      if |s| < 4 + n then Incomplete
      else Deliver(Message(0, s[1], s[3..3 + n]), 4 + n)
    else if s[0] == ACK then Deliver(Message(0, ACK, []), 1)
    else Skip
  }

  // The scan from position i on: the first position that is not skipped decides.
  function Scan(data: seq<byte>, i: nat): (o: Outcome)
    requires i <= |data|
    ensures o.Got? ==> |o.rest| < |data|
    decreases |data| - i
  {
    if i == |data| then Nothing(data)
    else
      var h := Head(data[i..]);
      if h.Skip? then Scan(data, i + 1) else Resolve(data, i, h)
  }

  function Resolve(data: seq<byte>, i: nat, h: Hit): (o: Outcome)
    requires i < |data| && !h.Skip?
    requires h.Deliver? ==> 0 < h.size <= |data| - i
    requires h.Drop? ==> h.size <= |data| - i
    ensures o.Got? ==> |o.rest| < |data|
  {
    match h
    case Panic => Crash
    case Incomplete => Nothing(data)
    case Deliver(m, n) => Got(m, data[i + n..])
    case Drop(n) => Nothing(data[i + n..])
  }

  // Scanning only ever drops bytes from the front.
  lemma {:induction false} RestIsSuffix(data: seq<byte>, i: nat)
    requires i <= |data|
    ensures var o := Scan(data, i);
            o.Crash? || (|o.rest| <= |data| && o.rest == data[|data| - |o.rest|..])
    decreases |data| - i
  {
    if i < |data| {
      var h := Head(data[i..]);
      if h.Skip? {
        RestIsSuffix(data, i + 1);
      } else {
        ResolvedSuffix(data, i, h);
      }
    }
  }

  lemma ResolvedSuffix(data: seq<byte>, i: nat, h: Hit)
    requires i < |data| && !h.Skip?
    requires h.Deliver? ==> 0 < h.size <= |data| - i
    requires h.Drop? ==> h.size <= |data| - i
    ensures var o := Resolve(data, i, h);
            o.Crash? || (|o.rest| <= |data| && o.rest == data[|data| - |o.rest|..])
  {
  }

  // The same decision read through indices into the whole buffer.
  ghost function HeadAt(data: seq<byte>, i: nat): (h: Hit)
    requires i < |data|
    ensures h.Deliver? ==> 0 < h.size <= |data| - i
    ensures h.Drop? ==> h.size <= |data| - i
  {
    if data[i] == START && i + 1 == |data| then Panic
    else if data[i] == START && data[i + 1] == 0 && |data| > i + 5 then
      var n: nat := data[i + 4];
      if |data| < i + 6 + n then Incomplete
      else if data[i + 5 + n] == Xor(data[i + 2..i + 5 + n])
      then Deliver(Message(data[i + 2], data[i + 3], data[i + 5..i + 5 + n]), 6 + n)
      else Drop(6 + n)
    else if data[i] == RESPONSE && |data| > i + 4 then
      var n: nat := data[i + 2];
      if |data| < i + 4 + n then Incomplete
      else Deliver(Message(0, data[i + 1], data[i + 3..i + 3 + n]), 4 + n)
    else if data[i] == ACK then Deliver(Message(0, ACK, []), 1)
    else Skip
  }

  lemma FirstDecides(data: seq<byte>, i: nat)
    requires i < |data| && forall j :: 0 <= j < i ==> HeadAt(data, j) == Skip
    ensures !HeadAt(data, i).Skip? ==> Scan(data, 0) == Resolve(data, i, HeadAt(data, i))
  {
    forall j | 0 <= j <= i
      ensures Head(data[j..]) == HeadAt(data, j)
    {
      HeadByIndex(data, j);
    }
    ScanSkips(data, 0, i);
  }

  lemma AllSkipped(data: seq<byte>)
    requires forall j :: 0 <= j < |data| ==> HeadAt(data, j) == Skip
    ensures Scan(data, 0) == Nothing(data)
  {
    forall j | 0 <= j < |data|
      ensures Head(data[j..]) == HeadAt(data, j)
    {
      HeadByIndex(data, j);
    }
    ScanSkips(data, 0, |data|);
  }

  lemma HeadByIndex(data: seq<byte>, i: nat)
    requires i < |data|
    ensures Head(data[i..]) == HeadAt(data, i)
  {
    var s := data[i..];
    if data[i] == START && i + 5 < |data| && i + 6 + data[i + 4] <= |data| {
      var n: nat := data[i + 4];
      assert s[2..5 + n] == data[i + 2..i + 5 + n];
      assert s[5..5 + n] == data[i + 5..i + 5 + n];
    } else if data[i] == RESPONSE && i + 4 < |data| && i + 4 + data[i + 2] <= |data| {
      var n: nat := data[i + 2];
      assert s[3..3 + n] == data[i + 3..i + 3 + n];
    }
  }

  method DecodeMessage(data: seq<byte>) returns (o: Outcome)
    ensures o == Scan(data, 0)
  {
    var i := 0;
    while i < |data|
      invariant i <= |data|
      invariant forall j :: 0 <= j < i ==> HeadAt(data, j) == Skip
    {
      FirstDecides(data, i);
      var val := data[i];
      if val == START && i + 1 >= |data| {
        return Crash;
      }
      if val == START && data[i + 1] == 0x00 && |data| > i + 5 {
        var addr := data[i + 2];
        var cmd := data[i + 3];
        var length: nat := data[i + 4];
        if |data| < i + 6 + length {
          return Nothing(data);
        }
        var content := data[i + 5..i + 5 + length];
        var chk := data[i + 5 + length];
        var chk2 := XorLoop(data[i + 2..i + 5 + length]);
        if chk == chk2 {
          return Got(Message(addr, cmd, content), data[i + 6 + length..]);
        } else {
          return Nothing(data[i + 6 + length..]);
        }
      }
      if val == RESPONSE && |data| > i + 4 {
        var cmd := data[i + 1];
        var length: nat := data[i + 2];
        if |data| < i + 4 + length {
          return Nothing(data);
        }
        var content := data[i + 3..i + 3 + length];
        return Got(Message(0, cmd, content), data[i + 4 + length..]);
      }
      if val == ACK {
        return Got(Message(0, val, []), data[i + 1..]);
      }
      i := i + 1;
    }
    AllSkipped(data);
    return Nothing(data);
  }

  lemma PanicAtEnd(data: seq<byte>, i: nat)
    requires i < |data|
    ensures Head(data[i..]).Panic? <==> i == |data| - 1 && data[i] == START
  {
  }

  // Reading past the end happens for exactly one family of buffers: the last byte
  // is 0x5C and every position before it is skipped.
  lemma {:induction false} CrashExactly(data: seq<byte>, i: nat)
    requires i <= |data|
    ensures Scan(data, i) == Crash <==>
      i < |data| && data[|data| - 1] == START
      && forall j :: i <= j < |data| - 1 ==> Head(data[j..]) == Skip
    decreases |data| - i
  {
    if i < |data| {
      CrashExactly(data, i + 1);
      PanicAtEnd(data, i);
    }
  }

  lemma {:induction false} ScanSkips(data: seq<byte>, i: nat, k: nat)
    requires i <= k <= |data|
    requires forall j :: i <= j < k ==> Head(data[j..]) == Skip
    ensures Scan(data, i) == Scan(data, k)
    decreases k - i
  {
    if i < k {
      ScanSkips(data, i + 1, k);
    }
  }

  // Bytes that can neither open a frame nor acknowledge are passed over.
  lemma JunkSkipped(junk: seq<byte>, s: seq<byte>)
    requires START !in junk && RESPONSE !in junk && ACK !in junk
    ensures Scan(junk + s, 0) == Scan(junk + s, |junk|)
  {
    var data := junk + s;
    forall j | 0 <= j < |junk|
      ensures Head(data[j..]) == Skip
    {
      assert data[j..][0] == junk[j];
    }
    ScanSkips(data, 0, |junk|);
  }

  // ---- encoding -------------------------------------------------------------

  type word = x: int | 0 <= x < 0x1_0000

  function EncodeBody(cmd: byte, addr: word, data: seq<byte>): seq<byte> {
    [RESPONSE, cmd, LowByte(|data| + 2), LowByte(addr), LowByte(addr / 256)] + data
  }

  function Encode(cmd: byte, addr: word, data: seq<byte>): seq<byte> {
    EncodeBody(cmd, addr, data) + [Xor(EncodeBody(cmd, addr, data))]
  }

  method EncodeMessage(cmd: byte, addr: word, data: seq<byte>) returns (msg: seq<byte>)
    ensures msg == Encode(cmd, addr, data)
    ensures Xor(msg) == 0
  {
    msg := [RESPONSE] + [cmd, LowByte(|data| + 2), LowByte(addr), LowByte(addr / 256)];
    msg := msg + data;
    assert msg == EncodeBody(cmd, addr, data);
    XorClosed(msg);
    var chk := XorLoop(msg);
    msg := msg + [chk];
  }

  // What a receiver that keeps scanning should get out of an encoded message.
  function Sent(cmd: byte, addr: word, data: seq<byte>): Message {
    Message(0, cmd, [LowByte(addr), LowByte(addr / 256)] + data)
  }

  // The scanner trusts the length byte, which holds the length modulo 256.
  lemma EncodedHead(cmd: byte, addr: word, data: seq<byte>, tail: seq<byte>)
    ensures var n := (|data| + 2) % 256;
            var s := Encode(cmd, addr, data) + tail;
            |s| >= |data| + 6 && Head(s) == Deliver(Message(0, cmd, s[3..3 + n]), 4 + n)
    ensures |data| <= 253 ==>
      var s := Encode(cmd, addr, data) + tail;
      Head(s) == Deliver(Sent(cmd, addr, data), |data| + 6) && s[|data| + 6..] == tail
  {
    var s := Encode(cmd, addr, data) + tail;
    assert |Encode(cmd, addr, data)| == |data| + 6;
    assert s[0] == RESPONSE && s[1] == cmd && s[2] == (|data| + 2) % 256;
    if |data| <= 253 {
      assert s[3..5 + |data|] == Sent(cmd, addr, data).data;
    }
  }

  // Decoding undoes encoding, with junk in front and anything behind, exactly as
  // long as the length byte holds the real length.
  lemma RoundTrip(junk: seq<byte>, cmd: byte, addr: word, data: seq<byte>, tail: seq<byte>)
    requires START !in junk && RESPONSE !in junk && ACK !in junk
    ensures Scan(junk + (Encode(cmd, addr, data) + tail), 0) == Got(Sent(cmd, addr, data), tail)
      <==> |data| <= 253
  {
    var s := Encode(cmd, addr, data) + tail;
    var all := junk + s;
    JunkSkipped(junk, s);
    EncodedHead(cmd, addr, data, tail);
    assert all[|junk|..] == s;
    var h := Head(s);
    assert all[|junk| + h.size..] == s[h.size..];
    assert Scan(all, 0) == Got(h.msg, s[h.size..]);
    if |data| > 253 {
      assert |h.msg.data| == (|data| + 2) % 256 < |Sent(cmd, addr, data).data|;
    }
  }

  // Exactly which positions are passed over: all but a final 5C, a 5C 00 with a whole header,
  // a C0 with four bytes behind it, and an ack.
  lemma SkippedIff(s: seq<byte>)
    requires |s| > 0
    ensures Head(s) == Skip <==>
      && !(s[0] == 0x5C && |s| == 1)
      && !(s[0] == 0x5C && |s| >= 6 && s[1] == 0x00)
      && !(s[0] == 0xC0 && |s| >= 5)
      && s[0] != 0x06
  {
  }

  function Number(low: int, high: int): int {
    low + 256 * high
  }

  // The address goes out as two bytes that make it up again, the low one first.
  lemma AddressBytes(cmd: byte, addr: word, data: seq<byte>)
    ensures var sent := Sent(cmd, addr, data).data;
      |sent| == |data| + 2 && Number(sent[0], sent[1]) == addr && sent[2..] == data
  {
    var low: int, high: int := LowByte(addr), LowByte(addr / 256);
    assert low + 256 * high == addr;
  }
}
