/** The messages between the client's processes: a header of five bytes, the type and the size of the body, and the
    body. Every builder computes the size of its body by hand. */
module Ipc {
  import opened Core
  import opened NetBuffer
  import opened Modulo

  datatype Execution = Execution(
    symbol: seq<Byte>, orderId: seq<Byte>, execId: seq<Byte>, avgPrice: seq<Byte>, price: seq<Byte>, side: Byte,
    quantity: seq<Byte>, remainQty: seq<Byte>)

  datatype Message =
    | Reject(message: seq<Byte>)
    | AuthFrontToInitiator(apikey: seq<Byte>, name: seq<Byte>)
    | AuthInitiatorToFront(name: seq<Byte>)
    | AuthBackToInitiator(apikey: seq<Byte>, port: nat)
    | AuthInitiatorToBack(token: seq<Byte>, apikey: seq<Byte>)
    | InitiatorToFrontValidToken(token: seq<Byte>, port: nat)
    | FrontToBackValidToken(token: seq<Byte>)
    | BackToFrontValidToken(token: seq<Byte>)
    | HandShake
    | Status(status: Byte)
    | Logon(userId: seq<Byte>, seqNum: nat, heartBeat: nat)
    | OrderSingle(symbol: seq<Byte>, orderId: seq<Byte>, price: seq<Byte>, quantity: seq<Byte>, side: Byte)
    | ExecNew(exec: Execution)
    | ExecEvent(exec: Execution)

  /** The value of the type in the enumeration. */
  function Tag(m: Message): Byte {
    match m
    case Reject(_) => 0
    case AuthFrontToInitiator(_, _) => 1
    case AuthInitiatorToFront(_) => 2
    case AuthBackToInitiator(_, _) => 3
    case AuthInitiatorToBack(_, _) => 4
    case InitiatorToFrontValidToken(_, _) => 5
    case FrontToBackValidToken(_) => 6
    case BackToFrontValidToken(_) => 7
    case HandShake => 8
    case Status(_) => 9
    case Logon(_, _, _) => 10
    case OrderSingle(_, _, _, _, _) => 11
    case ExecNew(_) => 12
    case ExecEvent(_) => 13
  }

  function ExecFields(e: Execution): seq<Val> {
    [Str(e.symbol), Str(e.orderId), Str(e.execId), F32(e.avgPrice), F32(e.price), U8(e.side), F32(e.quantity),
     F32(e.remainQty)]
  }

  /** The values of a body, in the order of the output operators. */
  function Fields(m: Message): seq<Val> {
    match m
    case Reject(message) => [Str(message)]
    case AuthFrontToInitiator(apikey, name) => [Str(apikey), Str(name)]
    case AuthInitiatorToFront(name) => [Str(name)]
    case AuthBackToInitiator(apikey, port) => [Str(apikey), U32(port)]
    case AuthInitiatorToBack(token, apikey) => [Str(token), Str(apikey)]
    case InitiatorToFrontValidToken(token, port) => [Str(token), U32(port)]
    case FrontToBackValidToken(token) => [Str(token)]
    case BackToFrontValidToken(token) => [Str(token)]
    case HandShake => []
    case Status(status) => [U8(status)]
    case Logon(userId, seqNum, heartBeat) => [Str(userId), U32(seqNum), U32(heartBeat)]
    case OrderSingle(symbol, orderId, price, quantity, side) =>
      [Str(symbol), Str(orderId), F32(price), F32(quantity), U8(side)]
    case ExecNew(exec) => ExecFields(exec)
    case ExecEvent(exec) => ExecFields(exec)
  }

  function Body(m: Message): seq<Byte> { AllWritten(Fields(m)) }

  function ExecSize(e: Execution): nat {
    4 * 3 + |e.symbol| + |e.orderId| + |e.execId| + 4 * 2 + 1 + 4 * 2
  }

  /** The builders' expressions for BodySize, cast to 32 bits. */
  function BodySize(m: Message): nat {
    (match m
     case Reject(message) => 4 + |message|
     case AuthFrontToInitiator(apikey, name) => 4 * 2 + |apikey| + |name|
     case AuthInitiatorToFront(name) => 4 + |name|
     case AuthBackToInitiator(apikey, _) => 4 * 2 + |apikey|
     case AuthInitiatorToBack(token, apikey) => 4 * 2 + |apikey| + |token|
     case InitiatorToFrontValidToken(token, _) => 4 * 2 + |token|
     case FrontToBackValidToken(token) => 4 + |token|
     case BackToFrontValidToken(token) => 4 + |token|
     case HandShake => 0
     case Status(_) => 1
     case Logon(userId, _, _) => 4 * 2 + |userId| + 4
     case OrderSingle(symbol, orderId, _, _, _) => 4 * 2 + |symbol| + |orderId| + 4 + 4 + 1
     case ExecNew(exec) => ExecSize(exec)
     case ExecEvent(exec) => ExecSize(exec)) % W32
  }

  function Header(m: Message): seq<Val> { [U8(Tag(m)), U32(BodySize(m))] }

  function Encode(m: Message): seq<Byte> { AllWritten(Header(m)) + Body(m) }

  // ---- The hand-computed sizes ----

  lemma WrittenCons(v: Val, vs: seq<Val>)
    ensures AllWritten([v] + vs) == Written(v) + AllWritten(vs)
  {
    assert ([v] + vs)[1..] == vs;
  }

  /** The number of bytes a list of values takes. */
  function Length(vs: seq<Val>): (n: nat) {
    if vs == [] then 0 else |Written(vs[0])| + Length(vs[1..])
  }

  lemma {:induction false} LengthIs(vs: seq<Val>)
    ensures |AllWritten(vs)| == Length(vs)
  {
    hide Written;
    if vs != [] { LengthIs(vs[1..]); }
  }

  /** The size of a value is 4 and the bytes of a string, or 4, or 1. */
  function Size(v: Val): nat {
    match v
    case U8(_) => 1
    case U32(_) => 4
    case F32(_) => 4
    case Str(s) => 4 + |s|
  }

  function Sizes(vs: seq<Val>): nat { if vs == [] then 0 else Size(vs[0]) + Sizes(vs[1..]) }

  predicate FloatsFit(vs: seq<Val>) { forall i :: 0 <= i < |vs| && vs[i].F32? ==> vs[i].Fits() }

  /** Modulo 2^32 the bytes written are the sizes: cutting a string's length does not show there. */
  lemma {:induction false} LengthModulo(vs: seq<Val>)
    requires FloatsFit(vs)
    ensures Length(vs) % W32 == Sizes(vs) % W32
  {
    if vs != [] {
      LengthModulo(vs[1..]);
      var v := vs[0];
      SizeModulo(v);
      ModPlus(|Written(v)|, Size(v), Length(vs[1..]), Sizes(vs[1..]));
    }
  }

  lemma SizeModulo(v: Val)
    requires v.F32? ==> v.Fits()
    ensures |Written(v)| % W32 == Size(v) % W32
  {
    if v.Str? {
      var n := |v.s|;
      assert n == (n / W32) * W32 + n % W32;
      Shift(4 + n % W32, n / W32);
    }
  }

  lemma Sizes1(a: Val)
    ensures Sizes([a]) == Size(a)
  {
    assert [a][1..] == [];
  }

  lemma Sizes2(a: Val, b: Val)
    ensures Sizes([a, b]) == Size(a) + Size(b)
  {
    assert [a, b][1..] == [b];
    Sizes1(b);
  }

  lemma Sizes3(a: Val, b: Val, c: Val)
    ensures Sizes([a, b, c]) == Size(a) + Size(b) + Size(c)
  {
    assert [a, b, c][1..] == [b, c];
    Sizes2(b, c);
  }

  lemma {:induction false} SizesAppend(x: seq<Val>, y: seq<Val>)
    ensures Sizes(x + y) == Sizes(x) + Sizes(y)
  {
    if x == [] {
      assert x + y == y;
    } else {
      assert (x + y)[1..] == x[1..] + y;
      SizesAppend(x[1..], y);
    }
  }

  lemma ExecSizes(e: Execution)
    ensures Sizes(ExecFields(e)) == ExecSize(e)
  {
    hide Sizes;
    var x, y := [Str(e.symbol), Str(e.orderId), Str(e.execId)], [F32(e.avgPrice), F32(e.price), U8(e.side)];
    var z := [F32(e.quantity), F32(e.remainQty)];
    assert ExecFields(e) == x + (y + z);
    SizesAppend(x, y + z);
    SizesAppend(y, z);
    Sizes3(x[0], x[1], x[2]);
    Sizes3(y[0], y[1], y[2]);
    Sizes2(z[0], z[1]);
  }

  lemma OrderSizes(symbol: seq<Byte>, orderId: seq<Byte>, price: seq<Byte>, quantity: seq<Byte>, side: Byte)
    ensures Sizes([Str(symbol), Str(orderId), F32(price), F32(quantity), U8(side)]) == 4 * 2 + |symbol| + |orderId| + 9
  {
    hide Sizes;
    var x, y := [Str(symbol), Str(orderId)], [F32(price), F32(quantity), U8(side)];
    assert [Str(symbol), Str(orderId), F32(price), F32(quantity), U8(side)] == x + y;
    SizesAppend(x, y);
    Sizes2(x[0], x[1]);
    Sizes3(y[0], y[1], y[2]);
  }

  /** What a builder computes is the sum of the sizes of the values, in 32 bits. */
  lemma FieldSizes(m: Message)
    ensures BodySize(m) == Sizes(Fields(m)) % W32
  {
    hide Sizes;
    match m {
      case Reject(message) => Sizes1(Str(message));
      case AuthFrontToInitiator(apikey, name) => Sizes2(Str(apikey), Str(name));
      case AuthInitiatorToFront(name) => Sizes1(Str(name));
      case AuthBackToInitiator(apikey, port) => Sizes2(Str(apikey), U32(port));
      case AuthInitiatorToBack(token, apikey) => Sizes2(Str(token), Str(apikey));
      case InitiatorToFrontValidToken(token, port) => Sizes2(Str(token), U32(port));
      case FrontToBackValidToken(token) => Sizes1(Str(token));
      case BackToFrontValidToken(token) => Sizes1(Str(token));
      case HandShake => SizesNone();
      case Status(status) => Sizes1(U8(status));
      case Logon(userId, seqNum, heartBeat) => Sizes3(Str(userId), U32(seqNum), U32(heartBeat));
      case OrderSingle(symbol, orderId, price, quantity, side) => OrderSizes(symbol, orderId, price, quantity, side);
      case ExecNew(exec) => ExecSizes(exec);
      case ExecEvent(exec) => ExecSizes(exec);
    }
  }

  lemma SizesNone()
    ensures Sizes([]) == 0
  {
  }

  /** Every builder's BodySize is the number of bytes it writes after the header if and only if that number fits 32
      bits, for all strings. */
  lemma BodySizeExact(m: Message)
    requires FloatsFit(Fields(m))
    ensures BodySize(m) == |Body(m)| <==> |Body(m)| < W32
    ensures BodySize(m) == |Body(m)| % W32
  {
    hide Sizes, Fields, BodySize, AllWritten;
    FieldSizes(m);
    LengthIs(Fields(m));
    LengthModulo(Fields(m));
  }

  // ---- Reading a message ----

  const TYPES := 14

  const ZERO: seq<Byte> := [0, 0, 0, 0]

  /** What the fields of a message of a type hold before they are read. */
  function Blank(tag: Byte): seq<Val> {
    if tag == 1 || tag == 4 then [Str([]), Str([])]
    else if tag == 3 || tag == 5 then [Str([]), U32(0)]
    else if tag == 8 then []
    else if tag == 9 then [U8(0)]
    else if tag == 10 then [Str([]), U32(0), U32(0)]
    else if tag == 11 then [Str([]), Str([]), F32(ZERO), F32(ZERO), U8(0)]
    else if tag == 12 || tag == 13 then
      [Str([]), Str([]), Str([]), F32(ZERO), F32(ZERO), U8(0), F32(ZERO), F32(ZERO)]
    else [Str([])]
  }

  function ExecOf(vs: seq<Val>): Execution
    requires SameKinds(vs, Blank(12))
  {
    Execution(vs[0].s, vs[1].s, vs[2].s, vs[3].raw, vs[4].raw, vs[5].b, vs[6].raw, vs[7].raw)
  }

  /** The message of a type with some values. */
  function Rebuild(tag: Byte, vs: seq<Val>): Message
    requires tag < TYPES && SameKinds(vs, Blank(tag))
  {
    if tag == 0 then Reject(vs[0].s)
    else if tag == 1 then AuthFrontToInitiator(vs[0].s, vs[1].s)
    else if tag == 2 then AuthInitiatorToFront(vs[0].s)
    else if tag == 3 then AuthBackToInitiator(vs[0].s, vs[1].n)
    else if tag == 4 then AuthInitiatorToBack(vs[0].s, vs[1].s)
    else if tag == 5 then InitiatorToFrontValidToken(vs[0].s, vs[1].n)
    else if tag == 6 then FrontToBackValidToken(vs[0].s)
    else if tag == 7 then BackToFrontValidToken(vs[0].s)
    else if tag == 8 then HandShake
    else if tag == 9 then Status(vs[0].b)
    else if tag == 10 then Logon(vs[0].s, vs[1].n, vs[2].n)
    else if tag == 11 then OrderSingle(vs[0].s, vs[1].s, vs[2].raw, vs[3].raw, vs[4].b)
    else if tag == 12 then ExecNew(ExecOf(vs))
    else ExecEvent(ExecOf(vs))
  }

  lemma {:induction false} ReadAllKinds(r: Reader, olds: seq<Val>)
    requires r.Ok()
    ensures SameKinds(ReadAll(r, olds).1, olds)
    decreases |olds|
  {
    if olds != [] { ReadAllKinds(ReadOver(r, olds[0]).0, olds[1..]); }
  }

  const BLANK_HEADER := [U8(0), U32(0)]

  /** The header, then the body its type calls for; a type outside the enumeration is left unread. */
  function ReadMessage(r: Reader): (res: (Reader, Option<Message>))
    requires r.Ok()
    ensures res.0.Ok()
  {
    var h := ReadAll(r, BLANK_HEADER);
    ReadAllKinds(r, BLANK_HEADER);
    var tag := h.1[0].b;
    if tag >= TYPES then (h.0, None)
    else
      var b := ReadAll(h.0, Blank(tag));
      ReadAllKinds(h.0, Blank(tag));
      (b.0, Some(Rebuild(tag, b.1)))
  }

  /** Reading a message from any bytes: the cursor stays inside, a failure stays, and a failed reader does not move. */
  lemma ReadMessageSafe(r: Reader)
    requires r.Ok()
    ensures Safe(r, ReadMessage(r).0)
  {
    hide ReadAll, Blank, Rebuild;
    var h := ReadAll(r, BLANK_HEADER);
    ReadAllKinds(r, BLANK_HEADER);
    ReadAllSafe(r, BLANK_HEADER);
    if h.1[0].b < TYPES { ReadAllSafe(h.0, Blank(h.1[0].b)); }
  }

  /** The fields of a message are what its type calls for, and rebuild it. */
  lemma RebuildFields(m: Message)
    ensures Tag(m) < TYPES && SameKinds(Fields(m), Blank(Tag(m)))
    ensures Rebuild(Tag(m), Fields(m)) == m
  {
  }

  // ---- The stream ----

  /** What can be sent: its values fit their types, and a receive can return its body (the count is an int). */
  predicate Sendable(m: Message) { AllFit(Fields(m)) && |Body(m)| < 0x8000_0000 }

  lemma ReadBack(m: Message, rest: seq<Byte>)
    requires Sendable(m)
    ensures ReadMessage(Reader(Encode(m) + rest, 0, true)) == (Reader(Encode(m) + rest, |Encode(m)|, true), Some(m))
    ensures BodySize(m) == |Body(m)|
  {
    hide Fields, Blank, Rebuild, AllWritten, ReadAll, BodySize, Next, Tag;
    BodySizeExact(m);
    RebuildFields(m);
    HeaderFits(m);
    var r := Reader(Encode(m) + rest, 0, true);
    NextStart(Encode(m), rest);
    NextSplit(r, AllWritten(Header(m)), Body(m));
    ReadAllBack(r, Header(m), BLANK_HEADER);
    ReadAllBack(r.(read := |AllWritten(Header(m))|), Fields(m), Blank(Tag(m)));
  }

  lemma HeaderFits(m: Message)
    ensures AllFit(Header(m)) && SameKinds(Header(m), BLANK_HEADER) && |AllWritten(Header(m))| == 5
  {
    hide BodySize, Tag, Written;
    BodySizeBound(m);
    HeaderLength(Tag(m), BodySize(m));
  }

  lemma BodySizeBound(m: Message)
    ensures BodySize(m) < W32
  {
  }

  lemma HeaderLength(tag: Byte, size: nat)
    ensures |AllWritten([U8(tag), U32(size)])| == 5
  {
    assert [U8(tag), U32(size)] == [U8(tag)] + ([U32(size)] + []);
    WrittenCons(U8(tag), [U32(size)] + []);
    WrittenCons(U32(size), []);
  }

  lemma NextStart(bytes: seq<Byte>, rest: seq<Byte>)
    requires |bytes| < W64
    ensures Next(Reader(bytes + rest, 0, true), bytes)
  {
    assert (bytes + rest)[0..] == bytes + rest;
  }

  /** The body size announced by the first five bytes. */
  function Announced(header: seq<Byte>): (n: nat)
    requires |header| == 5
  {
    var h := ReadAll(Reader(header, 0, true), BLANK_HEADER);
    ReadAllKinds(Reader(header, 0, true), BLANK_HEADER);
    h.1[1].n
  }

  /** The receive loop over the bytes that arrive: five for the header, as many as it announces for the body, and the
      whole to the reader. It ends when not enough bytes are left. */
  function Deliver(stream: seq<Byte>): seq<Option<Message>>
    decreases |stream|
  {
    if |stream| < 5 then []
    else
      var size := 5 + Announced(stream[..5]);
      if |stream| < size || size >= 5 + 0x8000_0000 then []
      else [ReadMessage(Reader(stream[..size], 0, true)).1] + Deliver(stream[size..])
  }

  function EncodeAll(ms: seq<Message>): seq<Byte> { if ms == [] then [] else Encode(ms[0]) + EncodeAll(ms[1..]) }

  function Somes(ms: seq<Message>): seq<Option<Message>> { if ms == [] then [] else [Some(ms[0])] + Somes(ms[1..]) }

  lemma AnnouncedIs(m: Message, header: seq<Byte>)
    requires header == AllWritten(Header(m)) && |header| == 5
    ensures Announced(header) == BodySize(m)
  {
    hide AllWritten, ReadAll, BodySize, Next, Tag;
    HeaderFits(m);
    NextStart(header, []);
    assert header + [] == header;
    ReadAllBack(Reader(header, 0, true), Header(m), BLANK_HEADER);
  }

  lemma DeliverOne(m: Message, tail: seq<Byte>)
    requires Sendable(m)
    ensures Deliver(Encode(m) + tail) == [Some(m)] + Deliver(tail)
  {
    hide Fields, ReadMessage, AllWritten, BodySize, Announced, Body, Sendable;
    var e := Encode(m);
    var stream := e + tail;
    ReadBack(m, []);
    HeaderFits(m);
    assert stream[..5] == AllWritten(Header(m));
    AnnouncedIs(m, stream[..5]);
    assert |e| == 5 + BodySize(m);
    SendableSize(m);
    assert stream[..|e|] == e && stream[|e|..] == tail && e + [] == e;
  }

  lemma SendableSize(m: Message)
    requires Sendable(m)
    ensures |Body(m)| < 0x8000_0000
  {
  }

  /** Round trip: any list of messages built and sent one after the other comes out as the same list of messages,
      whatever follows it. */
  lemma {:induction false} StreamRoundTrip(ms: seq<Message>, tail: seq<Byte>)
    requires forall i :: 0 <= i < |ms| ==> Sendable(ms[i])
    ensures Deliver(EncodeAll(ms) + tail) == Somes(ms) + Deliver(tail)
    decreases |ms|
  {
    hide Deliver, Encode, Sendable;
    if ms == [] {
      assert EncodeAll(ms) + tail == tail;
      assert Somes(ms) + Deliver(tail) == Deliver(tail);
    } else {
      var rest := EncodeAll(ms[1..]) + tail;
      StreamRoundTrip(ms[1..], tail);
      DeliverOne(ms[0], rest);
      assert EncodeAll(ms) + tail == Encode(ms[0]) + rest;
      assert [Some(ms[0])] + (Somes(ms[1..]) + Deliver(tail)) == Somes(ms) + Deliver(tail);
    }
  }
}
