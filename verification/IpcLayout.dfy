/** The messages between the client's processes, byte by byte. */
module IpcLayout {
  import opened Core
  import opened NetBuffer
  import opened Ipc
  import opened IpcNetwork

  /** A number as NetBuffer.WrittenMeans says it lies on the wire. */
  function Four(n: nat): seq<Byte> { Written(U32(n)) }

  function Text(s: seq<Byte>): seq<Byte> { Four(|s|) + s }

  function Run(e: Execution): seq<Byte> {
    Text(e.symbol) + Text(e.orderId) + Text(e.execId) + e.avgPrice + e.price + [e.side] + e.quantity + e.remainQty
  }

  /** The bytes of a body. */
  function BodyBytes(m: Message): seq<Byte> {
    match m
    case Reject(message) => Text(message)
    case AuthFrontToInitiator(apikey, name) => Text(apikey) + Text(name)
    case AuthInitiatorToFront(name) => Text(name)
    case AuthBackToInitiator(apikey, port) => Text(apikey) + Four(port)
    case AuthInitiatorToBack(token, apikey) => Text(token) + Text(apikey)
    case InitiatorToFrontValidToken(token, port) => Text(token) + Four(port)
    case FrontToBackValidToken(token) => Text(token)
    case BackToFrontValidToken(token) => Text(token)
    case HandShake => []
    case Status(status) => [status]
    case Logon(userId, seqNum, heartBeat) => Text(userId) + Four(seqNum) + Four(heartBeat)
    case OrderSingle(symbol, orderId, price, quantity, side) => Text(symbol) + Text(orderId) + price + quantity + [side]
    case ExecNew(exec) => Run(exec)
    case ExecEvent(exec) => Run(exec)
  }

  /** The number of a type is its place in the enumeration. */
  predicate IsType(m: Message, n: nat) {
    && (m.Reject? <==> n == 0) && (m.AuthFrontToInitiator? <==> n == 1) && (m.AuthInitiatorToFront? <==> n == 2)
    && (m.AuthBackToInitiator? <==> n == 3) && (m.AuthInitiatorToBack? <==> n == 4)
    && (m.InitiatorToFrontValidToken? <==> n == 5) && (m.FrontToBackValidToken? <==> n == 6)
    && (m.BackToFrontValidToken? <==> n == 7) && (m.HandShake? <==> n == 8) && (m.Status? <==> n == 9)
    && (m.Logon? <==> n == 10) && (m.OrderSingle? <==> n == 11) && (m.ExecNew? <==> n == 12) && (m.ExecEvent? <==> n == 13)
  }

  lemma Str1(s: seq<Byte>)
    requires |s| < W32
    ensures Written(Str(s)) == Text(s)
  {
    WrittenMeans(|s|, s, 0, []);
  }

  lemma Chain(vs: seq<Val>, v: Val)
    ensures AllWritten(vs + [v]) == AllWritten(vs) + Written(v)
  {
    OneMore([], vs, v);
    assert [] + AllWritten(vs + [v]) == AllWritten(vs + [v]) && [] + AllWritten(vs) == AllWritten(vs);
  }

  lemma Chain1(a: Val)
    ensures AllWritten([a]) == Written(a)
  {
    assert [a][1..] == [];
    assert Written(a) + [] == Written(a);
  }

  lemma Chain2(a: Val, b: Val)
    ensures AllWritten([a, b]) == Written(a) + Written(b)
  {
    hide AllWritten, Written;
    Chain1(a);
    Chain([a], b);
    assert [a] + [b] == [a, b];
  }

  lemma Chain3(a: Val, b: Val, c: Val)
    ensures AllWritten([a, b, c]) == Written(a) + Written(b) + Written(c)
  {
    hide AllWritten, Written;
    Chain2(a, b);
    Chain([a, b], c);
    assert [a, b] + [c] == [a, b, c];
  }

  lemma Chain5(a: Val, b: Val, c: Val, d: Val, e: Val)
    ensures AllWritten([a, b, c, d, e]) == Written(a) + Written(b) + Written(c) + Written(d) + Written(e)
  {
    hide AllWritten, Written;
    Chain3(a, b, c);
    Chain([a, b, c], d);
    assert [a, b, c] + [d] == [a, b, c, d];
    Chain([a, b, c, d], e);
    assert [a, b, c, d] + [e] == [a, b, c, d, e];
  }

  lemma ExecBytes(e: Execution)
    requires |e.symbol| < W32 && |e.orderId| < W32 && |e.execId| < W32
    ensures AllWritten(ExecFields(e)) == Run(e)
  {
    Str1(e.symbol);
    Str1(e.orderId);
    Str1(e.execId);
    RawBytes(e.avgPrice, e.side);
    RawBytes(e.price, e.side);
    RawBytes(e.quantity, e.side);
    RawBytes(e.remainQty, e.side);
    hide AllWritten, Written;
    var five := [Str(e.symbol), Str(e.orderId), Str(e.execId), F32(e.avgPrice), F32(e.price)];
    Chain5(five[0], five[1], five[2], five[3], five[4]);
    Chain(five, U8(e.side));
    Chain(five + [U8(e.side)], F32(e.quantity));
    Chain(five + [U8(e.side)] + [F32(e.quantity)], F32(e.remainQty));
    assert ExecFields(e) == five + [U8(e.side)] + [F32(e.quantity)] + [F32(e.remainQty)];
  }

  lemma RawBytes(raw: seq<Byte>, b: Byte)
    ensures Written(F32(raw)) == raw && Written(U8(b)) == [b]
  {
  }

  /** The strings of a message have lengths that fit the wire. */
  predicate TextsFit(m: Message) { AllFit(Fields(m)) }

  lemma BodyIs(m: Message)
    requires TextsFit(m)
    ensures Body(m) == BodyBytes(m)
  {
    hide AllWritten, Written;
    match m {
      case Reject(message) => FitText(m, 0); Chain1(Str(message));
      case AuthFrontToInitiator(apikey, name) => FitText(m, 0); FitText(m, 1); Chain2(Str(apikey), Str(name));
      case AuthInitiatorToFront(name) => FitText(m, 0); Chain1(Str(name));
      case AuthBackToInitiator(apikey, port) => FitText(m, 0); Chain2(Str(apikey), U32(port));
      case AuthInitiatorToBack(token, apikey) => FitText(m, 0); FitText(m, 1); Chain2(Str(token), Str(apikey));
      case InitiatorToFrontValidToken(token, port) => FitText(m, 0); Chain2(Str(token), U32(port));
      case FrontToBackValidToken(token) => FitText(m, 0); Chain1(Str(token));
      case BackToFrontValidToken(token) => FitText(m, 0); Chain1(Str(token));
      case HandShake => NoBytes();
      case Status(status) => Chain1(U8(status)); RawBytes([], status);
      case Logon(userId, seqNum, heartBeat) => FitText(m, 0); Chain3(Str(userId), U32(seqNum), U32(heartBeat));
      case OrderSingle(symbol, orderId, price, quantity, side) =>
        FitText(m, 0);
        FitText(m, 1);
        RawBytes(price, side);
        RawBytes(quantity, side);
        Chain5(Str(symbol), Str(orderId), F32(price), F32(quantity), U8(side));
      case ExecNew(exec) => FitExec(m, exec);
      case ExecEvent(exec) => FitExec(m, exec);
    }
  }

  lemma NoBytes()
    ensures AllWritten([]) == []
  {
  }

  lemma FitText(m: Message, i: nat)
    requires TextsFit(m) && i < |Fields(m)| && Fields(m)[i].Str?
    ensures Written(Fields(m)[i]) == Text(Fields(m)[i].s)
  {
    hide Fields;
    assert Fields(m)[i].Fits();
    Str1(Fields(m)[i].s);
  }

  lemma FitExec(m: Message, e: Execution)
    requires TextsFit(m) && (m == ExecNew(e) || m == ExecEvent(e))
    ensures Body(m) == Run(e)
  {
    assert Fields(m) == ExecFields(e);
    assert ExecFields(e)[0].Fits() && ExecFields(e)[1].Fits() && ExecFields(e)[2].Fits();
    hide AllWritten, Written, ExecFields;
    ExecBytes(e);
  }

  /** The whole message: one byte for the type, its number in the enumeration; four for the length of what follows; the
      body. */
  lemma EncodeLayout(m: Message)
    requires Sendable(m)
    ensures exists n: Byte :: IsType(m, n) && Encode(m) == [n] + Four(|BodyBytes(m)|) + BodyBytes(m)
  {
    hide AllWritten, Written, BodySize, Fields, Body, BodyBytes, Four;
    BodyIs(m);
    BodySizeExact(m);
    SendableSize(m);
    HeaderBytes(Tag(m), BodySize(m));
    assert IsType(m, Tag(m));
  }

  lemma HeaderBytes(tag: Byte, size: nat)
    ensures AllWritten([U8(tag), U32(size)]) == [tag] + Four(size)
  {
    Chain2(U8(tag), U32(size));
    hide AllWritten;
  }

  // ---- What is not a message ----

  /** A message of a type outside the enumeration is not read beyond its header. */
  lemma UnknownType(r: Reader)
    requires r.Ok() && r.valid && r.read + 5 <= |r.data| && r.read + 5 < W64 && r.data[r.read] > 13
    ensures ReadMessage(r) == (r.(read := r.read + 5), None)
  {
    CheckMeans(r, 1);
    var t := r.(read := r.read + 1);
    CheckMeans(t, 4);
    ReadHeader(r);
  }

  lemma ReadHeader(r: Reader)
    requires r.Ok()
    ensures var a := ReadOver(r, U8(0)); var b := ReadOver(a.0, U32(0)); ReadAll(r, BLANK_HEADER) == (b.0, [a.1, b.1])
  {
    Get2(r, U8(0), U32(0));
  }

  /** The receive loop ends where less than a header, or less than the body a header announces, has arrived, or where it
      announces 2^31 bytes or more. */
  lemma DeliverEnds(stream: seq<Byte>, size: nat)
    ensures |stream| < 5 ==> Deliver(stream) == []
    ensures |stream| >= 5 && InFour(stream[1..5], size) && (|stream| - 5 < size || size >= 0x8000_0000) ==> Deliver(stream) == []
    ensures |stream| >= 5 && InFour(stream[1..5], size) && |stream| - 5 >= size && size < 0x8000_0000 ==>
      Deliver(stream) == [ReadMessage(Reader(stream[..5 + size], 0, true)).1] + Deliver(stream[5 + size..])
  {
    hide ReadMessage;
    if |stream| >= 5 && InFour(stream[1..5], size) { AnnouncedIn(stream[..5], size); }
  }

  lemma AnnouncedIn(header: seq<Byte>, size: nat)
    requires |header| == 5 && InFour(header[1..5], size)
    ensures Announced(header) == size
  {
    var r := Reader(header, 0, true);
    ReadHeader(r);
    CheckMeans(r, 1);
    CheckMeans(r.(read := 1), 4);
  }
}
