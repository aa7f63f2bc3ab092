/** Building and reading messages in a buffer, and the receive loop, step by step. */
module IpcNetwork {
  import opened Core
  import opened NetBuffer
  import opened Ipc

  // ---- Chains of outputs ----

  lemma {:induction false} WrittenAppend(x: seq<Val>, y: seq<Val>)
    ensures AllWritten(x + y) == AllWritten(x) + AllWritten(y)
  {
    if x == [] {
      assert x + y == y;
    } else {
      assert (x + y)[1..] == x[1..] + y;
      WrittenAppend(x[1..], y);
      assert Written(x[0]) + (AllWritten(x[1..]) + AllWritten(y)) == AllWritten(x) + AllWritten(y);
    }
  }

  /** One more value at the end of a chain. */
  lemma OneMore(before: seq<Byte>, x: seq<Val>, v: Val)
    ensures before + AllWritten(x + [v]) == (before + AllWritten(x)) + Written(v)
  {
    WrittenAppend(x, [v]);
    assert [v] == [v] + [];
    WrittenCons(v, []);
  }

  lemma Put1(before: seq<Byte>, a: Val)
    ensures before + AllWritten([a]) == before + Written(a)
  {
    OneMore(before, [], a);
    assert [] + [a] == [a];
  }

  lemma Put2(before: seq<Byte>, a: Val, b: Val)
    ensures before + AllWritten([a, b]) == before + Written(a) + Written(b)
  {
    hide AllWritten, Written;
    Put1(before, a);
    OneMore(before, [a], b);
    assert [a] + [b] == [a, b];
  }

  lemma Put3(before: seq<Byte>, a: Val, b: Val, c: Val)
    ensures before + AllWritten([a, b, c]) == before + Written(a) + Written(b) + Written(c)
  {
    hide AllWritten, Written;
    Put2(before, a, b);
    OneMore(before, [a, b], c);
    assert [a, b] + [c] == [a, b, c];
  }

  lemma Put5(before: seq<Byte>, a: Val, b: Val, c: Val, d: Val, e: Val)
    ensures before + AllWritten([a, b, c, d, e]) ==
      before + Written(a) + Written(b) + Written(c) + Written(d) + Written(e)
  {
    hide AllWritten, Written;
    Put3(before, a, b, c);
    OneMore(before, [a, b, c], d);
    assert [a, b, c] + [d] == [a, b, c, d];
    OneMore(before, [a, b, c, d], e);
    assert [a, b, c, d] + [e] == [a, b, c, d, e];
  }

  // ---- Chains of inputs ----

  /** One more value at the end of a chain. */
  lemma {:induction false} ReadOneMore(r: Reader, x: seq<Val>, v: Val)
    requires r.Ok()
    ensures var t := ReadAll(r, x);
      ReadAll(r, x + [v]) == (ReadOver(t.0, v).0, t.1 + [ReadOver(t.0, v).1])
    decreases |x|
  {
    hide ReadOver;
    if x == [] {
      var q := ReadOver(r, v).1;
      assert x + [v] == [v] && [v][1..] == [];
      assert [q] + [] == [q] && [] + [q] == [q];
    } else {
      assert (x + [v])[1..] == x[1..] + [v] && (x + [v])[0] == x[0];
      var first := ReadOver(r, x[0]);
      ReadOneMore(first.0, x[1..], v);
      var rest := ReadAll(first.0, x[1..]);
      assert ReadAll(r, x).1 == [first.1] + rest.1;
      var last := ReadOver(rest.0, v).1;
      assert [first.1] + (rest.1 + [last]) == ([first.1] + rest.1) + [last];
    }
  }

  lemma Get0(r: Reader)
    requires r.Ok()
    ensures ReadAll(r, []) == (r, [])
  {
  }

  lemma Get1(r: Reader, a: Val)
    requires r.Ok()
    ensures var x := ReadOver(r, a); ReadAll(r, [a]) == (x.0, [x.1])
  {
    hide ReadOver;
    Get0(r);
    ReadOneMore(r, [], a);
    assert [] + [a] == [a] && [] + [ReadOver(r, a).1] == [ReadOver(r, a).1];
  }

  lemma Get2(r: Reader, a: Val, b: Val)
    requires r.Ok()
    ensures var x := ReadOver(r, a); var y := ReadOver(x.0, b); ReadAll(r, [a, b]) == (y.0, [x.1, y.1])
  {
    hide ReadOver, ReadAll;
    Get1(r, a);
    ReadOneMore(r, [a], b);
    var x := ReadOver(r, a);
    var y := ReadOver(x.0, b);
    assert [a] + [b] == [a, b] && [x.1] + [y.1] == [x.1, y.1];
  }

  lemma Get3(r: Reader, a: Val, b: Val, c: Val)
    requires r.Ok()
    ensures var x := ReadOver(r, a); var y := ReadOver(x.0, b); var z := ReadOver(y.0, c);
      ReadAll(r, [a, b, c]) == (z.0, [x.1, y.1, z.1])
  {
    hide ReadOver, ReadAll;
    Get2(r, a, b);
    ReadOneMore(r, [a, b], c);
    var x := ReadOver(r, a);
    var y := ReadOver(x.0, b);
    var z := ReadOver(y.0, c);
    assert [a, b] + [c] == [a, b, c] && [x.1, y.1] + [z.1] == [x.1, y.1, z.1];
  }

  /** Two chains, one after the other. */
  lemma {:induction false} ReadAppend(r: Reader, x: seq<Val>, y: seq<Val>)
    requires r.Ok()
    ensures var t := ReadAll(r, x); var u := ReadAll(t.0, y); ReadAll(r, x + y) == (u.0, t.1 + u.1)
    decreases |y|
  {
    hide ReadOver;
    if y == [] {
      assert x + y == x && ReadAll(r, x).1 + [] == ReadAll(r, x).1;
    } else {
      var n := |y| - 1;
      var init, last := y[..n], y[n];
      assert y == init + [last] && x + y == (x + init) + [last];
      ReadAppend(r, x, init);
      ReadOneMore(r, x + init, last);
      ReadOneMore(ReadAll(r, x).0, init, last);
      var u := ReadAll(ReadAll(r, x).0, init);
      var w := ReadOver(u.0, last).1;
      assert (ReadAll(r, x).1 + u.1) + [w] == ReadAll(r, x).1 + (u.1 + [w]);
    }
  }

  // ---- Output ----

  method PutHeader(b: Buffer, m: Message)
    modifies b`data
    ensures b.data == old(b.data) + AllWritten(Header(m))
  {
    hide AllWritten, Written, BodySize, Tag;
    ghost var was := b.data;
    b.PutU8(Tag(m));
    b.PutU32(BodySize(m));
    Put2(was, U8(Tag(m)), U32(BodySize(m)));
  }

  method PutExecution(b: Buffer, e: Execution)
    modifies b`data
    ensures b.data == old(b.data) + AllWritten(ExecFields(e))
  {
    hide AllWritten, Written;
    ghost var was := b.data;
    b.PutStr(e.symbol);
    b.PutStr(e.orderId);
    b.PutStr(e.execId);
    b.PutF32(e.avgPrice);
    b.PutF32(e.price);
    Put5(was, Str(e.symbol), Str(e.orderId), Str(e.execId), F32(e.avgPrice), F32(e.price));
    ghost var five := [Str(e.symbol), Str(e.orderId), Str(e.execId), F32(e.avgPrice), F32(e.price)];
    b.PutU8(e.side);
    OneMore(was, five, U8(e.side));
    b.PutF32(e.quantity);
    OneMore(was, five + [U8(e.side)], F32(e.quantity));
    b.PutF32(e.remainQty);
    OneMore(was, five + [U8(e.side)] + [F32(e.quantity)], F32(e.remainQty));
    assert ExecFields(e) == five + [U8(e.side)] + [F32(e.quantity)] + [F32(e.remainQty)];
  }

  /** The output operators, one message type after the other. */
  method PutBody(b: Buffer, m: Message)
    modifies b`data
    ensures b.data == old(b.data) + Body(m)
  {
    hide AllWritten, Written, ExecFields;
    ghost var was := b.data;
    match m {
      case Reject(message) =>
        b.PutStr(message);
        Put1(was, Str(message));
      case AuthFrontToInitiator(apikey, name) =>
        b.PutStr(apikey);
        b.PutStr(name);
        Put2(was, Str(apikey), Str(name));
      case AuthInitiatorToFront(name) =>
        b.PutStr(name);
        Put1(was, Str(name));
      case AuthBackToInitiator(apikey, port) =>
        b.PutStr(apikey);
        b.PutU32(port);
        Put2(was, Str(apikey), U32(port));
      case AuthInitiatorToBack(token, apikey) =>
        b.PutStr(token);
        b.PutStr(apikey);
        Put2(was, Str(token), Str(apikey));
      case InitiatorToFrontValidToken(token, port) =>
        b.PutStr(token);
        b.PutU32(port);
        Put2(was, Str(token), U32(port));
      case FrontToBackValidToken(token) =>
        b.PutStr(token);
        Put1(was, Str(token));
      case BackToFrontValidToken(token) =>
        b.PutStr(token);
        Put1(was, Str(token));
      case HandShake =>
        Put0(was);
      case Status(status) =>
        b.PutU8(status);
        Put1(was, U8(status));
      case Logon(userId, seqNum, heartBeat) =>
        b.PutStr(userId);
        b.PutU32(seqNum);
        b.PutU32(heartBeat);
        Put3(was, Str(userId), U32(seqNum), U32(heartBeat));
      case OrderSingle(symbol, orderId, price, quantity, side) =>
        b.PutStr(symbol);
        b.PutStr(orderId);
        b.PutF32(price);
        b.PutF32(quantity);
        b.PutU8(side);
        Put5(was, Str(symbol), Str(orderId), F32(price), F32(quantity), U8(side));
      case ExecNew(exec) =>
        PutExecution(b, exec);
      case ExecEvent(exec) =>
        PutExecution(b, exec);
    }
  }

  lemma Put0(before: seq<Byte>)
    ensures before + AllWritten([]) == before
  {
  }

  /** A builder: header first, with the size it computes, then the body. */
  method Build(m: Message) returns (b: Buffer)
    ensures fresh(b) && b.Valid() && b.View() == Reader(Encode(m), 0, true)
  {
    hide AllWritten, Fields, BodySize, Tag;
    b := new Buffer();
    PutHeader(b, m);
    PutBody(b, m);
    assert [] + AllWritten(Header(m)) + Body(m) == Encode(m);
  }

  // ---- Input ----

  method GetHeader(b: Buffer) returns (tag: Byte, size: nat)
    requires b.Valid()
    modifies b`read, b`valid
    ensures b.Valid() && (b.View(), [U8(tag), U32(size)]) == ReadAll(old(b.View()), BLANK_HEADER)
  {
    hide ReadAll, ReadOver;
    ghost var was := b.View();
    tag := b.GetU8(0);
    size := b.GetU32(0);
    Get2(was, U8(0), U32(0));
  }

  /** Three strings and two prices, a side and two quantities, into the fields of an execution. */
  method GetExecution(b: Buffer) returns (e: Execution)
    requires b.Valid()
    modifies b`read, b`valid
    ensures b.Valid() && (b.View(), ExecFields(e)) == ReadAll(old(b.View()), Blank(12))
  {
    hide ReadAll, ReadOver;
    ghost var r0 := b.View();
    var symbol := b.GetStr([]);
    var orderId := b.GetStr([]);
    var execId := b.GetStr([]);
    Get3(r0, Str([]), Str([]), Str([]));
    ghost var r1 := b.View();
    var avgPrice := b.GetF32(ZERO);
    var price := b.GetF32(ZERO);
    var side := b.GetU8(0);
    Get3(r1, F32(ZERO), F32(ZERO), U8(0));
    ghost var r2 := b.View();
    var quantity := b.GetF32(ZERO);
    var remainQty := b.GetF32(ZERO);
    Get2(r2, F32(ZERO), F32(ZERO));
    e := Execution(symbol, orderId, execId, avgPrice, price, side, quantity, remainQty);
    ghost var y, z := [F32(ZERO), F32(ZERO), U8(0)], [F32(ZERO), F32(ZERO)];
    ReadAppend(r1, y, z);
    ReadAppend(r0, [Str([]), Str([]), Str([])], y + z);
    assert Blank(12) == [Str([]), Str([]), Str([])] + (y + z);
    assert ExecFields(e) == [Str(symbol), Str(orderId), Str(execId)]
                            + ([F32(avgPrice), F32(price), U8(side)] + [F32(quantity), F32(remainQty)]);
  }

  method GetOrder(b: Buffer) returns (m: Message)
    requires b.Valid()
    modifies b`read, b`valid
    ensures b.Valid() && m.OrderSingle? && (b.View(), Fields(m)) == ReadAll(old(b.View()), Blank(11))
  {
    hide ReadAll, ReadOver;
    ghost var r0 := b.View();
    var symbol := b.GetStr([]);
    var orderId := b.GetStr([]);
    Get2(r0, Str([]), Str([]));
    ghost var r1 := b.View();
    var price := b.GetF32(ZERO);
    var quantity := b.GetF32(ZERO);
    var side := b.GetU8(0);
    Get3(r1, F32(ZERO), F32(ZERO), U8(0));
    m := OrderSingle(symbol, orderId, price, quantity, side);
    ReadAppend(r0, [Str([]), Str([])], [F32(ZERO), F32(ZERO), U8(0)]);
    assert Blank(11) == [Str([]), Str([])] + [F32(ZERO), F32(ZERO), U8(0)];
    assert Fields(m) == [Str(symbol), Str(orderId)] + [F32(price), F32(quantity), U8(side)];
  }

  /** The input operators, one message type after the other. */
  method GetBody(b: Buffer, tag: Byte) returns (m: Message)
    requires b.Valid() && tag < TYPES
    modifies b`read, b`valid
    ensures b.Valid() && Tag(m) == tag && (b.View(), Fields(m)) == ReadAll(old(b.View()), Blank(tag))
  {
    hide ReadAll, ReadOver, ExecFields;
    ghost var was := b.View();
    if tag == 0 || tag == 2 || tag == 6 || tag == 7 {
      var s := b.GetStr([]);
      Get1(was, Str([]));
      m := if tag == 0 then Reject(s) else if tag == 2 then AuthInitiatorToFront(s)
           else if tag == 6 then FrontToBackValidToken(s) else BackToFrontValidToken(s);
    } else if tag == 1 || tag == 4 {
      var s := b.GetStr([]);
      var t := b.GetStr([]);
      Get2(was, Str([]), Str([]));
      m := if tag == 1 then AuthFrontToInitiator(s, t) else AuthInitiatorToBack(s, t);
    } else if tag == 3 || tag == 5 {
      var s := b.GetStr([]);
      var port := b.GetU32(0);
      Get2(was, Str([]), U32(0));
      m := if tag == 3 then AuthBackToInitiator(s, port) else InitiatorToFrontValidToken(s, port);
    } else if tag == 8 {
      Get0(was);
      m := HandShake;
    } else if tag == 9 {
      var status := b.GetU8(0);
      Get1(was, U8(0));
      m := Status(status);
    } else if tag == 10 {
      var userId := b.GetStr([]);
      var seqNum := b.GetU32(0);
      var heartBeat := b.GetU32(0);
      Get3(was, Str([]), U32(0), U32(0));
      m := Logon(userId, seqNum, heartBeat);
    } else if tag == 11 {
      m := GetOrder(b);
    } else {
      var exec := GetExecution(b);
      m := if tag == 12 then ExecNew(exec) else ExecEvent(exec);
    }
  }

  method GetMessage(b: Buffer) returns (m: Option<Message>)
    requires b.Valid()
    modifies b`read, b`valid
    ensures b.Valid() && (b.View(), m) == ReadMessage(old(b.View()))
  {
    hide ReadAll, Fields, Blank, Rebuild, Tag;
    var tag, size := GetHeader(b);
    m := None;
    if tag < TYPES {
      var body := GetBody(b, tag);
      RebuildFields(body);
      m := Some(body);
    }
  }

  /** The receive loop over a stream of bytes: a header, its body, and the buffer rewound for the handler. */
  method ReceiveLoop(stream: seq<Byte>) returns (out: seq<Option<Message>>)
    ensures out == Deliver(stream)
  {
    hide ReadMessage, ReadAll;
    out := [];
    var pos := 0;
    assert stream[0..] == stream;
    while |stream| - pos >= 5
      invariant 0 <= pos <= |stream|
      invariant Deliver(stream) == out + Deliver(stream[pos..])
    {
      var buffer := new Buffer();
      var rest := stream[pos..];
      buffer.Append(rest[..5]);
      assert [] + rest[..5] == rest[..5];
      var _, size := GetHeader(buffer);
      assert size == Announced(rest[..5]) by { AnnouncedRead(rest[..5]); }
      if |rest| - 5 < size || size >= 0x8000_0000 { return; }
      buffer.Append(rest[5..5 + size]);
      assert rest[..5] + rest[5..5 + size] == rest[..5 + size];
      HeaderKeepsValid(rest[..5]);
      buffer.Reset();
      var m := GetMessage(buffer);
      assert stream[pos..][5 + size..] == stream[pos + 5 + size..];
      out := out + [m];
      pos := pos + 5 + size;
    }
  }

  lemma AnnouncedRead(header: seq<Byte>)
    requires |header| == 5
    ensures var h := ReadAll(Reader(header, 0, true), BLANK_HEADER); |h.1| == 2 && h.1[1] == U32(Announced(header))
  {
    ReadAllKinds(Reader(header, 0, true), BLANK_HEADER);
  }

  /** Five bytes are enough for a header. */
  lemma HeaderKeepsValid(header: seq<Byte>)
    requires |header| == 5
    ensures ReadAll(Reader(header, 0, true), BLANK_HEADER).0 == Reader(header, 5, true)
  {
    Get2(Reader(header, 0, true), U8(0), U32(0));
  }
}
