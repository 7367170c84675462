// Commands to the controller and their replies (exoline/exoline.go): addresses packed
// into bytes, one frame out, one frame back.
module ExolineClient {
  import opened Bytes
  import opened Sequences
  import opened Exoline

  // Go's integer division and remainder round toward zero.
  function Quotient(x: int, d: nat): int
    requires d > 0
  {
    if x < 0 then -(-x / d) else x / d
  }

  function Remainder(x: int, d: nat): int
    requires d > 0
  {
    x - d * Quotient(x, d)
  }

  // The low byte of any integer, in two's complement.
  function Byte(x: int): byte {
    x % 256
  }

  const HEADER: seq<byte> := [0xFF, 0x1E, 0xC8]

  function Command(op: int, ln: int, cell: int, value: seq<byte>): seq<byte> {
    HEADER + [Byte(4 + |value|), Byte(op), Byte(ln), Byte(Quotient(cell, 60)), Byte(Remainder(cell, 60))] + value
  }

  method GenerateMsg(op: int, ln: int, cell: int) returns (addr: seq<byte>)
    ensures addr == Command(op, ln, cell, [])
  {
    addr := [0xFF, 0x1E, 0xC8, 0x04, Byte(op), 0x04, 0x08, 0x00];
    addr := addr[5 := Byte(ln)];
    addr := addr[6 := Byte(Quotient(cell, 60))];
    addr := addr[7 := Byte(Remainder(cell, 60))];
  }

  method GenerateWriteMsg(op: int, ln: int, cell: int, value: seq<byte>) returns (addr: seq<byte>)
    ensures addr == Command(op, ln, cell, value)
  {
    addr := [0xFF, 0x1E, 0xC8, Byte(4 + |value|), Byte(op), 0x04, 0x08, 0x00];
    addr := addr[5 := Byte(ln)];
    addr := addr[6 := Byte(Quotient(cell, 60))];
    addr := addr[7 := Byte(Remainder(cell, 60))];
    addr := addr + value;
  }

  // ---- which commands look alike ------------------------------------------------

  lemma SharedCell(x: int, y: int)
    ensures Byte(Quotient(x, 60)) == Byte(Quotient(y, 60)) && Byte(Remainder(x, 60)) == Byte(Remainder(y, 60))
      <==> Remainder(x, 60) == Remainder(y, 60) && (x - y) % (60 * 256) == 0
  {
    var p, q := Quotient(x, 60), Quotient(y, 60);
    assert x == 60 * p + Remainder(x, 60) && y == 60 * q + Remainder(y, 60);
    SharedByte(p, q);
    SharedByte(Remainder(x, 60), Remainder(y, 60));
    if Remainder(x, 60) == Remainder(y, 60) {
      assert x - y == 60 * (p - q);
    }
  }

  lemma SharedByte(p: int, q: int)
    ensures Byte(p) == Byte(q) <==> (p - q) % 256 == 0
  {
  }

  // Two commands have the same frame exactly when operation and line agree modulo 256,
  // the values are equal, and the cells agree modulo 15360 and in their remainder by 60,
  // which for a negative cell is negative.
  lemma SharedFrame(a: Request, b: Request)
    ensures Wire(CLIENT, Command(a.op, a.ln, a.cell, a.value)) == Wire(CLIENT, Command(b.op, b.ln, b.cell, b.value))
      <==> && (a.op - b.op) % 256 == 0 && (a.ln - b.ln) % 256 == 0 && a.value == b.value
           && Remainder(a.cell, 60) == Remainder(b.cell, 60) && (a.cell - b.cell) % (60 * 256) == 0
  {
    var x, y := Command(a.op, a.ln, a.cell, a.value), Command(b.op, b.ln, b.cell, b.value);
    CompileInjective(x, y);
    SameCommand(a, b);
    SharedByte(a.op, b.op);
    SharedByte(a.ln, b.ln);
    SharedCell(a.cell, b.cell);
  }

  lemma SameCommand(a: Request, b: Request)
    ensures Command(a.op, a.ln, a.cell, a.value) == Command(b.op, b.ln, b.cell, b.value)
      <==> && Byte(a.op) == Byte(b.op) && Byte(a.ln) == Byte(b.ln) && a.value == b.value
           && Byte(Quotient(a.cell, 60)) == Byte(Quotient(b.cell, 60))
           && Byte(Remainder(a.cell, 60)) == Byte(Remainder(b.cell, 60))
  {
    var x, y := Command(a.op, a.ln, a.cell, a.value), Command(b.op, b.ln, b.cell, b.value);
    assert x[4] == Byte(a.op) && x[5] == Byte(a.ln) && x[8..] == a.value;
    assert y[4] == Byte(b.op) && y[5] == Byte(b.ln) && y[8..] == b.value;
    assert x[6] == Byte(Quotient(a.cell, 60)) && x[7] == Byte(Remainder(a.cell, 60));
    assert y[6] == Byte(Quotient(b.cell, 60)) && y[7] == Byte(Remainder(b.cell, 60));
  }

  // ---- a reference receiver -------------------------------------------------------

  // The source only sends commands. This is how a controller would take one apart.

  datatype Request = Request(op: int, ln: int, cell: int, value: seq<byte>)

  // The length byte must count what follows it, up to the checksum.
  function Understood(m: seq<byte>): Option<Request> {
    if |m| < 11 || m[1..4] != HEADER || m[4] != |m| - 7 then None
    else
      var high: int, low: int := m[7], m[8];
      Some(Request(m[5], m[6], 60 * high + low, m[9..|m| - 2]))
  }

  // A byte's worth of line and operation, a cell below 60 * 256, and a value whose
  // length still fits beside the address.
  predicate Addressable(r: Request) {
    0 <= r.op < 256 && 0 <= r.ln < 256 && 0 <= r.cell < 60 * 256 && |r.value| <= 251
  }

  lemma CellBytes(cell: int)
    ensures 60 * Byte(Quotient(cell, 60)) + Byte(Remainder(cell, 60)) == cell <==> 0 <= cell < 60 * 256
  {
  }

  // A command reaches such a receiver as it was meant, through checksum, escaping and
  // decoding and whatever follows it, exactly when it is addressable.
  lemma CommandArrives(r: Request, rest: seq<byte>)
    ensures var got := ReadOne(Wire(CLIENT, Command(r.op, r.ln, r.cell, r.value)) + rest);
            got.Some? && got.value.1 == rest
            && (Understood(got.value.0) == Some(r) <==> Addressable(r))
  {
    ReadFrame(CLIENT, Command(r.op, r.ln, r.cell, r.value), rest);
    UnderstoodAs(r);
    CellBytes(r.cell);
  }

  // What the receiver makes of a command: its bytes, when the length byte is right.
  lemma UnderstoodAs(r: Request)
    ensures Understood(Plain(CLIENT, Command(r.op, r.ln, r.cell, r.value))) ==
      if 4 + |r.value| < 256 then Some(Request(r.op % 256, r.ln % 256,
        60 * (Quotient(r.cell, 60) % 256) + Remainder(r.cell, 60) % 256, r.value))
      else None
  {
    var body := Command(r.op, r.ln, r.cell, r.value);
    var m := Plain(CLIENT, body);
    PlainBytes(body);
    CommandBytes(r);
    assert m[1..4] == body[..3] && m[9..|m| - 2] == body[8..];
    assert body[6] == Byte(Quotient(r.cell, 60)) && body[7] == Byte(Remainder(r.cell, 60));
  }

  lemma PlainBytes(body: seq<byte>)
    ensures var m := Plain(CLIENT, body);
      |m| == |body| + 3 && m[1..|m| - 2] == body && forall i :: 0 <= i < |body| ==> m[i + 1] == body[i]
  {
  }

  // ---- one exchange ---------------------------------------------------------------

  const ACCEPTED: seq<byte> := [0x3D, 0x01, 0x00, 0x01, 0x3E]

  // A read: the single payload byte; an error; or the panic of slicing a short reply.
  datatype Reading = Value(v: byte) | Failed | Panicked

  function ReadingOf(stream: seq<byte>): Reading {
    match ReadOne(stream)
    case None => Failed
    case Some((m, _)) =>
      match Payload(m)
      case None => Panicked
      case Some(p) => if |p| == 1 then Value(p[0]) else Failed
  }

  class Client {
    const connection: Connection
    var written: seq<byte>

    constructor (connection: Connection)
      ensures this.connection == connection && written == []
    {
      this.connection, written := connection, [];
    }

    method Send(data: seq<byte>) returns (reply: Option<seq<byte>>)
      modifies this, connection
      ensures written == old(written) + Wire(CLIENT, data)
      ensures match ReadOne(old(connection.stream))
              case None => reply == None && connection.stream == []
              case Some((m, rest)) => reply == Some(m) && connection.stream == rest
    {
      var msg := CompileMsg(data);
      written := written + msg;
      reply := connection.Read();
    }

    // RXP: read an index segment variable.
    method ReadIndex(ln: int, cell: int) returns (r: Reading)
      modifies this, connection
      ensures written == old(written) + Wire(CLIENT, Command(0x34, ln, cell, []))
      ensures r == ReadingOf(old(connection.stream))
      ensures match ReadOne(old(connection.stream))
              case None => r == Failed && connection.stream == []
              case Some((m, rest)) =>
                && r == (if |m| < 5 then Panicked else if |m| == 6 then Value(m[3]) else Failed)
                && connection.stream == rest
    {
      var addr := GenerateMsg(0x34, ln, cell);
      var b := Send(addr);
      if b == None {
        return Failed;
      }
      var p := Payload(b.value);
      if p == None {
        return Panicked;
      }
      if |p.value| != 1 {
        return Failed;
      }
      return Value(p.value[0]);
    }

    // SXP: write an index segment variable; false for any other reply.
    method WriteIndex(ln: int, cell: int, val: int) returns (ok: bool)
      modifies this, connection
      ensures written == old(written) + Wire(CLIENT, Command(0xB0, ln, cell, [Byte(val)]))
      ensures ok <==>
        match ReadOne(old(connection.stream))
        case None => false
        case Some((m, _)) => m == ACCEPTED
      ensures match ReadOne(old(connection.stream))
              case None => connection.stream == []
              case Some((_, rest)) => connection.stream == rest
    {
      var addr := GenerateWriteMsg(0xB0, ln, cell, [Byte(val)]);
      var b := Send(addr);
      return b == Some(ACCEPTED);
    }
  }

  // Of the frames a controller can answer with, only the one that carries 01 00 is
  // taken for success.
  lemma OnlyAccepted(body: seq<byte>, rest: seq<byte>)
    ensures ReadOne(Wire(SERVER, body) + rest) == Some((ACCEPTED, rest)) <==> body == [0x01, 0x00]
  {
    ReadFrame(SERVER, body, rest);
    var m := Plain(SERVER, body);
    if body == [0x01, 0x00] {
      Xor2Zero(0x01);
      XorSnoc([0x01], 0x00);
      assert [0x01][1..] == [] && [0x01] + [0x00] == body;
      assert Xor(body) == 0x01;
      assert m == ACCEPTED;
    }
    assert |m| == |body| + 3 && m[1..|body| + 1] == body;
  }

  // A reply frame is read as a value exactly when it carries one byte of data behind
  // its length and status; one without length and status makes the slicing panic.
  lemma ReplyRead(body: seq<byte>, rest: seq<byte>)
    ensures ReadingOf(Wire(SERVER, body) + rest) ==
      if |body| < 2 then Panicked else if |body| == 3 then Value(body[2]) else Failed
  {
    ReadFrame(SERVER, body, rest);
    var m := Plain(SERVER, body);
    assert |m| == |body| + 3;
    if |body| == 3 {
      assert m[3..4] == [body[2]];
    }
  }

  // When the connection ends before the reply does, reading fails.
  lemma NoReply(stream: seq<byte>)
    requires 0x3E !in stream
    ensures ReadingOf(stream) == Failed
  {
  }

  // What a command looks like byte by byte.
  lemma CommandBytes(r: Request)
    ensures var m := Command(r.op, r.ln, r.cell, r.value);
      && |m| == 8 + |r.value| && m[..3] == [0xFF, 0x1E, 0xC8]
      && m[3] == (4 + |r.value|) % 256 && m[4] == r.op % 256 && m[5] == r.ln % 256 && m[8..] == r.value
  {
  }
}
