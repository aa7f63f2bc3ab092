/** The receiver of FIX text: cutting the bytes into fields, filling the header, and the checksum at the end. What the
    header makes of a field is decided by the FIX-Message library, which is not part of this model. */
module Receiver {
  import opened Core
  import opened FixText
  import opened CheckSum
  import opened Modulo

  datatype Insertion = Refused | InHeader | NotInHeader

  /** The library's header: what it makes of one more field, and whether it is complete. */
  datatype Codec = Codec(insert: (seq<Field>, Field) -> Insertion, verify: seq<Field> -> bool)

  datatype Reason = NoSeparator | BadTag | BadHeader | NoCheckSum | UnreadableCheckSum | WrongCheckSum

  datatype Reply = Delivered(header: seq<Field>, body: seq<Field>) | Rejected(reason: Reason)

  datatype Parsing = Parsing(header: seq<Field>, body: seq<Field>, complete: bool, checksum: nat, last: nat)

  datatype Progress = Going(p: Parsing) | Stopped(reason: Reason)

  const EMPTY := Parsing([], [], false, 0, 0)

  /** One turn of the loop over the tokens. */
  function Step(c: Codec, p: Parsing, token: seq<Byte>): Progress {
    var last := (Sum(token) + 1) % W32;
    var q := p.(checksum := (p.checksum + last) % W32, last := last);
    match KeyValue(token)
    case None => Stopped(NoSeparator)
    case Some(f) =>
      if p.complete then Going(q.(body := p.body + [f]))
      else
        match c.insert(p.header, f)
        case Refused => Stopped(BadTag)
        case InHeader => Going(q.(header := p.header + [f]))
        case NotInHeader =>
          if c.verify(p.header) then Going(q.(complete := true, body := p.body + [f])) else Stopped(BadHeader)
  }

  function Steps(c: Codec, p: Parsing, tokens: seq<seq<Byte>>): Progress
    decreases |tokens|
  {
    if tokens == [] then Going(p)
    else
      match Step(c, p, tokens[0])
      case Stopped(r) => Stopped(r)
      case Going(q) => Steps(c, q, tokens[1..])
  }

  function VerifyCheckSum(checksum: nat, body: seq<Field>): Option<Reason> {
    if body == [] || body[|body| - 1].key != TEN then Some(NoCheckSum)
    else
      match FromChars(body[|body| - 1].value)
      case Value(n) => if n == checksum % 256 then None else Some(WrongCheckSum)
      case _ => Some(UnreadableCheckSum)
  }

  function Finish(p: Parsing): Reply {
    match VerifyCheckSum((p.checksum - p.last) % W32, p.body)
    case Some(r) => Rejected(r)
    case None => Delivered(p.header, if p.body == [] then [] else p.body[..|p.body| - 1])
  }

  function Receive(c: Codec, data: seq<Byte>): Reply {
    match Steps(c, EMPTY, Split(data, SOH))
    case Stopped(r) => Rejected(r)
    case Going(p) => Finish(p)
  }

  /** buildHeader */
  method BuildHeader(c: Codec, data: seq<Byte>) returns (r: Reply)
    ensures r == Receive(c, data)
  {
    hide Split, KeyValue, Sum, FromChars;
    var split := SplitText(data, SOH);
    var p := EMPTY;
    assert split[0..] == split;
    for i := 0 to |split|
      invariant Steps(c, EMPTY, split) == Steps(c, p, split[i..])
    {
      var token := split[i];
      assert split[i..][0] == token && split[i..][1..] == split[i + 1..];
      var kv := SplitText(token, EQ);
      var last := CountCheckSum(token);
      var f := KeyValueOf(token, kv);
      if f.None? { return Rejected(NoSeparator); }
      var q := p.(checksum := (p.checksum + last) % W32, last := last);
      if !p.complete {
        match c.insert(p.header, f.value) {
          case Refused => return Rejected(BadTag);
          case NotInHeader =>
            if !c.verify(p.header) { return Rejected(BadHeader); }
            p := q.(complete := true, body := p.body + [f.value]);
          case InHeader => p := q.(header := p.header + [f.value]);
        }
      } else {
        p := q.(body := p.body + [f.value]);
      }
    }
    r := Finish(p);
  }

  function KeyValueOf(token: seq<Byte>, kv: seq<seq<Byte>>): (r: Option<Field>)
    requires kv == Split(token, EQ)
    ensures r == KeyValue(token)
  {
    if |kv| != 2 then None else Some(Field(kv[0], kv[1]))
  }

  // ---- What a delivered message is ----

  lemma {:induction false} StepsLast(c: Codec, p: Parsing, tokens: seq<seq<Byte>>)
    requires tokens != [] && Steps(c, p, tokens).Going?
    ensures var n := |tokens| - 1;
      && Steps(c, p, tokens[..n]).Going?
      && Step(c, Steps(c, p, tokens[..n]).p, tokens[n]) == Steps(c, p, tokens)
    decreases |tokens|
  {
    hide Step;
    var n := |tokens| - 1;
    if n == 0 {
      assert tokens[..0] == [] && tokens[1..] == [];
    } else {
      var q := Step(c, p, tokens[0]).p;
      StepsLast(c, q, tokens[1..]);
      assert tokens[1..][..n - 1] == tokens[..n][1..];
      assert tokens[..n][0] == tokens[0] && tokens[1..][n - 1] == tokens[n];
    }
  }

  lemma {:induction false} StepsSum(c: Codec, p: Parsing, tokens: seq<seq<Byte>>)
    requires Steps(c, p, tokens).Going? && p.checksum < W32
    requires p.complete <==> p.body != []
    ensures var q := Steps(c, p, tokens).p;
      && q.checksum == (p.checksum + Sum(Terminated(tokens, SOH))) % W32
      && (q.complete <==> q.body != [])
    decreases |tokens|
  {
    hide Sum, KeyValue;
    if tokens == [] {
      assert Sum(Terminated(tokens, SOH)) == 0 by { SumEmpty(); }
    } else {
      var q := Step(c, p, tokens[0]).p;
      StepsSum(c, q, tokens[1..]);
      SumToken(tokens);
      Accumulate(p.checksum + Sum(tokens[0]) + 1, Sum(Terminated(tokens[1..], SOH)));
      AccumulateMod(p.checksum, Sum(tokens[0]) + 1);
    }
  }

  lemma SumEmpty()
    ensures Sum([]) == 0
  {
  }

  lemma SumToken(tokens: seq<seq<Byte>>)
    requires tokens != []
    ensures Sum(Terminated(tokens, SOH)) == Sum(tokens[0]) + 1 + Sum(Terminated(tokens[1..], SOH))
  {
    var t := tokens[0];
    SumAppend(t + [SOH], Terminated(tokens[1..], SOH));
    SumAppend(t, [SOH]);
    SumOne(SOH);
  }

  lemma AccumulateMod(a: int, b: int)
    ensures (a + b % W32) % W32 == (a + b) % W32
  {
    Accumulate(b, a);
  }

  /** The bytes before the last token, and the last token. */
  function Body(data: seq<Byte>): seq<Byte> {
    var tokens := Split(data, SOH);
    if tokens == [] then [] else Terminated(tokens[..|tokens| - 1], SOH)
  }

  function LastToken(data: seq<Byte>): seq<Byte> {
    var tokens := Split(data, SOH);
    if tokens == [] then [] else tokens[|tokens| - 1]
  }

  /** The last field is a checksum, and its value is the sum, modulo 256, of every byte before it. */
  predicate CheckSumRight(data: seq<Byte>) {
    match KeyValue(LastToken(data))
    case Some(f) => f.key == TEN && FromChars(f.value) == Value(Sum(Body(data)) % 256)
    case None => false
  }

  /** Checksum apart, the message is in order: every token a field, the header full before the body begins. */
  predicate InOrder(c: Codec, data: seq<Byte>) {
    var s := Steps(c, EMPTY, Split(data, SOH));
    s.Going? && s.p.complete
  }

  lemma {:induction false} BodyAndLast(tokens: seq<seq<Byte>>)
    requires tokens != []
    ensures var n := |tokens| - 1;
      Terminated(tokens, SOH) == Terminated(tokens[..n], SOH) + (tokens[n] + [SOH])
    decreases |tokens|
  {
    var n := |tokens| - 1;
    if n == 0 {
      assert tokens[..0] == [] && tokens[1..] == [];
    } else {
      BodyAndLast(tokens[1..]);
      assert tokens[1..][..n - 1] == tokens[..n][1..];
    }
  }

  /** Body and LastToken are what their names say. */
  lemma DataIs(data: seq<Byte>)
    requires data != []
    ensures Closed(data, SOH) == Body(data) + (LastToken(data) + [SOH])
    ensures Free(LastToken(data), SOH)
  {
    hide Terminated, Free;
    TerminatedSplit(data, SOH);
    assert Split(data, SOH) != [];
    BodyAndLast(Split(data, SOH));
  }

  /** The exact condition for a message to reach the output queue: it is in order and its checksum is right, although
      the sum wraps at 32 bits on both sides and counts chars as signed. The bytes summed and the token that carries
      the sum make up the data, the last separator given or not. */
  lemma DeliveredExactly(c: Codec, data: seq<Byte>)
    ensures Receive(c, data).Delivered? <==> InOrder(c, data) && CheckSumRight(data)
    ensures data != [] ==>
              Closed(data, SOH) == Body(data) + (LastToken(data) + [SOH]) && Free(LastToken(data), SOH)
  {
    hide Receive, InOrder, CheckSumRight, Closed, Free, Body, LastToken;
    DeliveredIff(c, data);
    if data != [] { DataIs(data); }
  }

  lemma DeliveredIff(c: Codec, data: seq<Byte>)
    ensures Receive(c, data).Delivered? <==> InOrder(c, data) && CheckSumRight(data)
  {
    hide Sum, FromChars, KeyValue, Split, Terminated;
    var tokens := Split(data, SOH);
    var s := Steps(c, EMPTY, tokens);
    if s.Going? && tokens != [] {
      var n := |tokens| - 1;
      StepsLast(c, EMPTY, tokens);
      StepsSum(c, EMPTY, tokens[..n]);
      var p := Steps(c, EMPTY, tokens[..n]).p;
      var sum := Sum(Terminated(tokens[..n], SOH));
      TakeBack(p.checksum, s.p.last);
      Byte32(sum);
      assert ((s.p.checksum - s.p.last) % W32) % 256 == sum % 256;
    }
  }

  lemma TakeBack(x: nat, y: int)
    requires x < W32
    ensures ((x + y) % W32 - y) % W32 == x
  {
    Accumulate(x + y, -y);
  }

  // ---- Round trip ----

  function Texts(fs: seq<Field>): seq<seq<Byte>> {
    if fs == [] then [] else [fs[0].Text()] + Texts(fs[1..])
  }

  /** The wire form of a list of fields. */
  function Encode(fs: seq<Field>): seq<Byte> { Terminated(Texts(fs), SOH) }

  /** What the header makes of a list of fields, with no checksum in sight: it takes fields until one is not its own,
      and that one and the rest are the body. */
  function Deliver(c: Codec, header: seq<Field>, fs: seq<Field>): Reply
    decreases |fs|
  {
    if fs == [] then
      if c.verify(header) then Delivered(header, []) else Rejected(BadHeader)
    else
      match c.insert(header, fs[0])
      case Refused => Rejected(BadTag)
      case InHeader => Deliver(c, header + [fs[0]], fs[1..])
      case NotInHeader => if c.verify(header) then Delivered(header, fs) else Rejected(BadHeader)
  }

  /** No header has a CheckSum tag. */
  ghost predicate TenIsNotHeader(c: Codec) {
    forall h: seq<Field>, v: seq<Byte> :: c.insert(h, Field(TEN, v)) == NotInHeader
  }

  /** The loop over fields followed by a checksum field, seen from the reference. */
  ghost predicate Agrees(c: Codec, s: Progress, r: Reply, v: seq<Byte>) {
    match r
    case Rejected(reason) => s == Stopped(reason)
    case Delivered(header, body) =>
      s.Going? && s.p.complete && s.p.header == header && s.p.body == body + [Field(TEN, v)]
  }

  predicate AllPlain(fs: seq<Field>) { forall i :: 0 <= i < |fs| ==> fs[i].Plain() }

  lemma TextsCons(fs: seq<Field>, last: seq<Byte>)
    requires fs != []
    ensures Texts(fs) + [last] == [fs[0].Text()] + (Texts(fs[1..]) + [last])
  {
  }

  lemma StepsCons(c: Codec, p: Parsing, token: seq<Byte>, rest: seq<seq<Byte>>)
    ensures var s := Step(c, p, token); Steps(c, p, [token] + rest) == if s.Going? then Steps(c, s.p, rest) else s
  {
    assert ([token] + rest)[1..] == rest;
  }

  lemma StepsOne(c: Codec, p: Parsing, token: seq<Byte>)
    ensures Steps(c, p, Texts([]) + [token]) == Step(c, p, token)
  {
    assert Texts([]) + [token] == [token] + [];
    StepsCons(c, p, token, []);
  }

  lemma {:induction false} StepsBody(c: Codec, p: Parsing, fs: seq<Field>, v: seq<Byte>)
    requires p.complete && AllPlain(fs) && Field(TEN, v).Plain()
    ensures Agrees(c, Steps(c, p, Texts(fs) + [Field(TEN, v).Text()]), Delivered(p.header, p.body + fs), v)
    decreases |fs|
  {
    hide KeyValue, Sum, Texts, Steps;
    var ten := Field(TEN, v);
    if fs == [] {
      KeyValueOfText(ten);
      StepsOne(c, p, ten.Text());
      assert p.body + [] == p.body;
    } else {
      KeyValueOfText(fs[0]);
      TextsCons(fs, ten.Text());
      StepsCons(c, p, fs[0].Text(), Texts(fs[1..]) + [ten.Text()]);
      var q := Step(c, p, fs[0].Text()).p;
      StepsBody(c, q, fs[1..], v);
      assert p.body + [fs[0]] + fs[1..] == p.body + fs;
    }
  }

  lemma {:induction false} StepsAgree(c: Codec, p: Parsing, fs: seq<Field>, v: seq<Byte>)
    requires TenIsNotHeader(c) && !p.complete && p.body == []
    requires AllPlain(fs) && Field(TEN, v).Plain()
    ensures Agrees(c, Steps(c, p, Texts(fs) + [Field(TEN, v).Text()]), Deliver(c, p.header, fs), v)
    decreases |fs|
  {
    hide KeyValue, Sum, Texts, Steps;
    var ten := Field(TEN, v);
    if fs == [] {
      KeyValueOfText(ten);
      StepsOne(c, p, ten.Text());
      assert c.insert(p.header, ten) == NotInHeader;
    } else {
      var f := fs[0];
      KeyValueOfText(f);
      TextsCons(fs, ten.Text());
      StepsCons(c, p, f.Text(), Texts(fs[1..]) + [ten.Text()]);
      var s := Step(c, p, f.Text());
      if s.Going? && s.p.complete {
        StepsBody(c, s.p, fs[1..], v);
        assert [f] + fs[1..] == fs;
      } else if s.Going? {
        StepsAgree(c, s.p, fs[1..], v);
      }
    }
  }

  // ---- The theorems ----

  lemma TrailerField(msg: seq<Byte>)
    ensures var f := Field(TEN, Decimal(Sum(msg) % 256));
      f.Plain() && Trailer(msg) == f.Text() + [SOH] && FromChars(f.value) == Value(Sum(msg) % 256)
  {
    var n := Sum(msg) % 256;
    DecimalDigits(n);
    FromDecimal(n);
    assert TEN + [EQ] + Decimal(n) + [SOH] == (TEN + [EQ] + Decimal(n)) + [SOH];
  }

  /** The tokens of a closed text with a trailer behind it. */
  lemma SplitTrailer(body: seq<Byte>, msg: seq<Byte>)
    requires Closed(body, SOH) == body
    ensures Split(body + Trailer(msg), SOH) == Split(body, SOH) + [Field(TEN, Decimal(Sum(msg) % 256)).Text()]
    ensures Body(body + Trailer(msg)) == body
  {
    hide Split, Sum, Terminated, Closed, FromChars, Free;
    var token := Field(TEN, Decimal(Sum(msg) % 256)).Text();
    TrailerField(msg);
    TextFree(Field(TEN, Decimal(Sum(msg) % 256)));
    TerminatedSplit(body, SOH);
    SplitTerminated(Split(body, SOH), token + [SOH], SOH);
    SplitToken(token);
    var tokens := Split(body, SOH) + [token];
    assert tokens[..|tokens| - 1] == Split(body, SOH);
  }

  lemma TextFree(f: Field)
    requires f.Plain()
    ensures Free(f.Text(), SOH)
  {
  }

  lemma SplitToken(token: seq<Byte>)
    requires Free(token, SOH)
    ensures Split(token + [SOH], SOH) == [token]
  {
    SplitPiece(token, SOH, []);
    assert token + [SOH] + [] == token + [SOH];
  }

  lemma LastOf(data: seq<Byte>, tokens: seq<seq<Byte>>, token: seq<Byte>)
    requires Split(data, SOH) == tokens + [token]
    ensures LastToken(data) == token
  {
  }

  lemma {:induction false} EncodeClosed(fs: seq<Field>)
    requires AllPlain(fs)
    ensures Split(Encode(fs), SOH) == Texts(fs) && Closed(Encode(fs), SOH) == Encode(fs)
  {
    hide Split, Closed, Terminated;
    TextsFree(fs);
    SplitTerminated(Texts(fs), [], SOH);
    assert Terminated(Texts(fs), SOH) + [] == Encode(fs);
    assert Split([], SOH) == [] && Texts(fs) + [] == Texts(fs) by { SplitEmpty(); }
    TerminatedSplit(Encode(fs), SOH);
  }

  lemma SplitEmpty()
    ensures Split([], SOH) == []
  {
  }

  lemma {:induction false} TextsFree(fs: seq<Field>)
    requires AllPlain(fs)
    ensures forall t :: t in Texts(fs) ==> Free(t, SOH)
    decreases |fs|
  {
    hide Free;
    if fs != [] {
      TextFree(fs[0]);
      TextsFree(fs[1..]);
    }
  }

  /** Round trip: for any list of fields without separators, what the sender appends is accepted, and the receiver
      delivers exactly what the header makes of the fields, or rejects for the header's reasons and no other. */
  lemma RoundTrip(c: Codec, fs: seq<Field>)
    requires AllPlain(fs) && TenIsNotHeader(c)
    ensures Receive(c, Encode(fs) + Trailer(Encode(fs))) == Deliver(c, [], fs)
  {
    hide Split, Sum, Terminated, Closed, FromChars, AllPlain, Deliver, TenIsNotHeader, Trailer, Encode;
    var msg := Encode(fs);
    var v := Decimal(Sum(msg) % 256);
    var data := msg + Trailer(msg);
    TrailerField(msg);
    EncodeClosed(fs);
    SplitTrailer(msg, msg);
    LastOf(data, Texts(fs), Field(TEN, v).Text());
    KeyValueOfText(Field(TEN, v));
    StepsAgree(c, EMPTY, fs, v);
    DeliveredExactly(c, data);
    if Deliver(c, [], fs).Delivered? { Dropped(Steps(c, EMPTY, Split(data, SOH)), Deliver(c, [], fs), c, v); }
  }

  /** Once the checksum field is dropped, header and body are the reference's. */
  lemma Dropped(s: Progress, r: Reply, c: Codec, v: seq<Byte>)
    requires Agrees(c, s, r, v) && r.Delivered?
    ensures s.p.header == r.header && s.p.body != [] && s.p.body[..|s.p.body| - 1] == r.body
  {
  }

  // ---- Detection ----

  /** Two different bytes count differently modulo 256. */
  lemma SignedDiffers(a: Byte, b: Byte, rest: int)
    requires a != b
    ensures (rest + Signed(a)) % 256 != (rest + Signed(b)) % 256
  {
  }

  lemma SumAround(s: seq<Byte>, p: nat, b: Byte)
    requires p < |s|
    ensures Sum(s[p := b]) == Sum(s[..p]) + Signed(b) + Sum(s[p + 1..])
  {
    assert s[p := b] == s[..p] + ([b] + s[p + 1..]);
    SumAppend(s[..p], [b] + s[p + 1..]);
    SumAppend([b], s[p + 1..]);
    SumOne(b);
  }

  lemma ChangeShows(s: seq<Byte>, p: nat, b: Byte)
    requires p < |s| && s[p] != b
    ensures Sum(s[p := b]) % 256 != Sum(s) % 256
  {
    SumAround(s, p, b);
    SumAround(s, p, s[p]);
    assert s[p := s[p]] == s;
    SignedDiffers(s[p], b, Sum(s[..p]) + Sum(s[p + 1..]));
  }

  /** A text is some closed pieces and a piece that is not. */
  lemma {:induction false} Decompose(s: seq<Byte>) returns (pieces: seq<seq<Byte>>, u: seq<Byte>)
    ensures s == Terminated(pieces, SOH) + u && Free(u, SOH)
    ensures forall p :: p in pieces ==> Free(p, SOH)
    decreases |s|
  {
    var n := Find(s, SOH);
    if n == |s| {
      pieces, u := [], s;
    } else {
      var ps, last := Decompose(s[n + 1..]);
      pieces, u := [s[..n]] + ps, last;
      TerminatedCons(s[..n], ps, SOH);
      Around(s, n);
      Regroup(s[..n], [SOH], Terminated(ps, SOH), last);
    }
  }

  /** With the separator before it overwritten, the checksum field is the tail of a longer token: no field with key
      10, if a field at all. */
  lemma SwallowedTen(u: seq<Byte>, b: Byte, v: seq<Byte>)
    requires Field(TEN, v).Plain()
    ensures var token := u + [b] + Field(TEN, v).Text();
      KeyValue(token).Some? ==> KeyValue(token).value.key != TEN
  {
    hide Split;
    var token := u + [b] + Field(TEN, v).Text();
    var e := |u| + 3;
    assert token[e] == EQ && 2 < e < |token| - 1;
    assert token[|token| - 1] == v[|v| - 1];
    if KeyValue(token).Some? { KeyValueMeans(token, KeyValue(token).value); }
  }

  lemma SeparatorLost(c: Codec, msg: seq<Byte>, b: Byte)
    requires msg != [] && b != SOH
    ensures Receive(c, (msg[..|msg| - 1] + [b]) + Trailer(msg)).Rejected?
  {
    hide Split, Sum, Terminated, Closed, FromChars, Free, Trailer, KeyValue;
    var f := Field(TEN, Decimal(Sum(msg) % 256));
    TrailerField(msg);
    var pieces, u := Decompose(msg[..|msg| - 1]);
    var data := (msg[..|msg| - 1] + [b]) + Trailer(msg);
    var token := u + [b] + f.Text();
    assert data == Terminated(pieces, SOH) + (token + [SOH]);
    SplitTerminated(pieces, token + [SOH], SOH);
    TokenFree(u, b, f);
    SplitToken(token);
    LastOf(data, pieces, token);
    SwallowedTen(u, b, f.value);
    DeliveredExactly(c, data);
  }

  lemma TokenFree(u: seq<Byte>, b: Byte, f: Field)
    requires Free(u, SOH) && b != SOH && f.Plain()
    ensures Free(u + [b] + f.Text(), SOH)
  {
  }

  /** Detection: whatever the message, if one byte before its checksum field is changed on the way, it never reaches
      the output queue. */
  lemma SingleByteDetected(c: Codec, msg: seq<Byte>, p: nat, b: Byte)
    requires msg != [] && msg[|msg| - 1] == SOH
    requires p < |msg| && b != msg[p]
    ensures Receive(c, (msg + Trailer(msg))[p := b]).Rejected?
  {
    hide Split, Sum, Terminated, Closed, FromChars, Free, Trailer, KeyValue;
    var changed := msg[p := b];
    var data := changed + Trailer(msg);
    assert (msg + Trailer(msg))[p := b] == data;
    if p == |msg| - 1 {
      assert changed == msg[..p] + [b];
      SeparatorLost(c, msg, b);
    } else {
      var f := Field(TEN, Decimal(Sum(msg) % 256));
      TrailerField(msg);
      StillClosed(changed);
      SplitTrailer(changed, msg);
      LastOf(data, Split(changed, SOH), f.Text());
      KeyValueOfText(f);
      ChangeShows(msg, p, b);
      DeliveredExactly(c, data);
    }
  }

  lemma StillClosed(s: seq<Byte>)
    requires s != [] && s[|s| - 1] == SOH
    ensures Closed(s, SOH) == s
  {
  }
}
