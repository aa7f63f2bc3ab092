/** net::Buffer: bytes with a read cursor, and the typed values written to and read from it. */
module NetBuffer {
  import opened Core

  // ---- Values ----

  /** What the operators write: an unsigned byte, an unsigned 32-bit number, the four bytes of a float as they lie in
      memory, a string. */
  datatype Val = U8(b: Byte) | U32(n: nat) | F32(raw: seq<Byte>) | Str(s: seq<Byte>)
  {
    predicate Fits() {
      match this
      case U8(_) => true
      case U32(n) => n < W32
      case F32(raw) => |raw| == 4
      case Str(s) => |s| < W32
    }
  }

  /** htonl on a little-endian machine: most significant byte first. */
  function BigEndian(n: nat): (r: seq<Byte>)
    ensures |r| == 4
  {
    [n / 0x100_0000 % 256, n / 0x1_0000 % 256, n / 0x100 % 256, n % 256]
  }

  function FromBigEndian(s: seq<Byte>): (n: nat)
    requires |s| == 4
    ensures n < W32
  {
    s[0] as int * 0x100_0000 + s[1] as int * 0x1_0000 + s[2] as int * 0x100 + s[3] as int
  }

  /** The length of a string is cut to 32 bits, and so is what follows it. */
  function Written(v: Val): seq<Byte> {
    match v
    case U8(b) => [b]
    case U32(n) => BigEndian(n)
    case F32(raw) => raw
    case Str(s) => BigEndian(|s| % W32) + s[..|s| % W32]
  }

  function AllWritten(vs: seq<Val>): seq<Byte> {
    if vs == [] then [] else Written(vs[0]) + AllWritten(vs[1..])
  }

  /** A number in four bytes, the most significant first. */
  predicate InFour(s: seq<Byte>, n: nat) {
    |s| == 4 && n == ((s[0] as int * 256 + s[1]) * 256 + s[2]) * 256 + s[3]
  }

  /** What lies on the wire for each kind of value; a string has its length in front. */
  lemma WrittenMeans(n: nat, s: seq<Byte>, b: Byte, raw: seq<Byte>)
    requires n < W32 && |s| < W32
    ensures InFour(Written(U32(n)), n) && Written(U8(b)) == [b] && Written(F32(raw)) == raw
    ensures Written(Str(s)) == Written(U32(|s|)) + s
  {
    BigEndianBack(n);
    assert s[..|s| % W32] == s;
  }

  lemma BigEndianBack(n: nat)
    requires n < W32
    ensures FromBigEndian(BigEndian(n)) == n
  {
    var a, b, c := n / 0x100_0000, n / 0x1_0000, n / 0x100;
    assert a == b / 256 && b == c / 256;
    assert n == c * 256 + n % 256 && c == b * 256 + c % 256 && b == a * 256 + b % 256;
  }

  // ---- Reading ----

  datatype Reader = Reader(data: seq<Byte>, read: nat, valid: bool)
  {
    predicate Ok() { read <= |data| && read < W64 }
  }

  /** checkSize, with the wrap-around of size_t. */
  function Check(r: Reader, size: nat): Reader {
    var end := (r.read + size) % W64;
    r.(valid := r.valid && end <= |r.data| && !(end < r.read))
  }

  /** The guard against overflow makes the check mean what it should. */
  lemma CheckMeans(r: Reader, size: nat)
    requires r.Ok() && size < W64
    ensures Check(r, size).valid <==> r.valid && r.read + size <= |r.data| && r.read + size < W64
  {
  }

  /** So many bytes from the cursor on, or nothing. */
  function Take(r: Reader, size: nat): (res: (Reader, Option<seq<Byte>>))
    requires r.Ok() && size < W64
    ensures res.1.Some? ==> |res.1.value| == size
  {
    var c := Check(r, size);
    CheckMeans(r, size);
    if c.valid then (c.(read := r.read + size), Some(r.data[r.read..r.read + size])) else (c, None)
  }

  /** Reading over an old value: a failed read leaves it, but a string is cleared first. */
  function ReadOver(r: Reader, old_: Val): (res: (Reader, Val))
    requires r.Ok()
    ensures res.0.Ok()
  {
    match old_
    case U8(_) =>
      var t := Take(r, 1);
      (t.0, if t.1.Some? then U8(t.1.value[0]) else old_)
    case U32(_) =>
      var t := Take(r, 4);
      (t.0, if t.1.Some? then U32(FromBigEndian(t.1.value)) else old_)
    case F32(_) =>
      var t := Take(r, 4);
      (t.0, if t.1.Some? then F32(t.1.value) else old_)
    case Str(_) =>
      var l := Take(r, 4);
      var length := if l.1.Some? then FromBigEndian(l.1.value) else 0;
      if length == 0 then (l.0, Str([]))
      else
        var t := Take(l.0, length);
        (t.0, Str(if t.1.Some? then t.1.value else []))
  }

  /** The bytes are there to be read. */
  predicate Room(r: Reader, size: nat) { r.valid && r.read + size <= |r.data| && r.read + size < W64 }

  /** A value of fixed size is taken from the next bytes if they are there; if not, the reader fails where it stands and
      the old value is left. */
  lemma ReadFixed(r: Reader, b: Byte, n: nat, raw: seq<Byte>)
    requires r.Ok()
    ensures ReadOver(r, U8(b)) ==
      if Room(r, 1) then (r.(read := r.read + 1), U8(r.data[r.read])) else (r.(valid := false), U8(b))
    ensures var t := ReadOver(r, U32(n));
      if Room(r, 4) then t.0 == r.(read := r.read + 4) && t.1.U32? && InFour(r.data[r.read..r.read + 4], t.1.n)
      else t == (r.(valid := false), U32(n))
    ensures ReadOver(r, F32(raw)) ==
      if Room(r, 4) then (r.(read := r.read + 4), F32(r.data[r.read..r.read + 4])) else (r.(valid := false), F32(raw))
  {
    CheckMeans(r, 1);
    CheckMeans(r, 4);
  }

  /** A string is as long as the number in front of it says; if the number or so many bytes are not there it comes out
      empty, whatever it was, and the reader stands behind what it could read. */
  lemma ReadString(r: Reader, s: seq<Byte>, n: nat)
    requires r.Ok()
    ensures !Room(r, 4) ==> ReadOver(r, Str(s)) == (r.(valid := false), Str([]))
    ensures Room(r, 4) && InFour(r.data[r.read..r.read + 4], n) ==>
      ReadOver(r, Str(s)) ==
        if Room(r, 4 + n) then (r.(read := r.read + 4 + n), Str(r.data[r.read + 4..r.read + 4 + n]))
        else (r.(read := r.read + 4, valid := false), Str([]))
  {
    hide Take, InFour, FromBigEndian;
    TakeMeans(r, 4);
    if Room(r, 4) && InFour(r.data[r.read..r.read + 4], n) {
      FourIs(r.data[r.read..r.read + 4], n);
      var t := r.(read := r.read + 4);
      TakeMeans(t, n);
      assert r.data[t.read..t.read] == [];
    }
  }

  lemma TakeMeans(r: Reader, size: nat)
    requires r.Ok() && size < W64
    ensures Take(r, size) ==
      if Room(r, size) then (r.(read := r.read + size), Some(r.data[r.read..r.read + size])) else (r.(valid := false), None)
  {
    CheckMeans(r, size);
  }

  lemma FourIs(s: seq<Byte>, n: nat)
    requires InFour(s, n)
    ensures FromBigEndian(s) == n && n < W32
  {
  }

  function ReadAll(r: Reader, olds: seq<Val>): (res: (Reader, seq<Val>))
    requires r.Ok()
    ensures res.0.Ok()
    decreases |olds|
  {
    if olds == [] then (r, [])
    else
      var first := ReadOver(r, olds[0]);
      var rest := ReadAll(first.0, olds[1..]);
      (rest.0, [first.1] + rest.1)
  }

  /** Nothing a reader does changes the bytes, moves the cursor back, or makes it valid again; once it has failed it
      does not move at all. */
  predicate Safe(r: Reader, t: Reader) {
    && t.data == r.data && r.read <= t.read <= |t.data|
    && (t.valid ==> r.valid)
    && (!r.valid ==> t == r)
  }

  lemma ReadOverSafe(r: Reader, v: Val)
    requires r.Ok()
    ensures Safe(r, ReadOver(r, v).0)
  {
  }

  /** On any bytes whatsoever, whatever is read from them. */
  lemma {:induction false} ReadAllSafe(r: Reader, olds: seq<Val>)
    requires r.Ok()
    ensures Safe(r, ReadAll(r, olds).0)
    decreases |olds|
  {
    hide ReadOver;
    if olds != [] {
      ReadOverSafe(r, olds[0]);
      ReadAllSafe(ReadOver(r, olds[0]).0, olds[1..]);
    }
  }

  // ---- What was written is read ----

  predicate SameKind(v: Val, w: Val) {
    (v.U8? <==> w.U8?) && (v.U32? <==> w.U32?) && (v.F32? <==> w.F32?) && (v.Str? <==> w.Str?)
  }

  /** The bytes from the cursor on begin with some bytes. */
  predicate Next(r: Reader, bytes: seq<Byte>) {
    r.Ok() && r.valid && r.read + |bytes| < W64 && bytes <= r.data[r.read..]
  }

  lemma TakeNext(r: Reader, bytes: seq<Byte>)
    requires Next(r, bytes)
    ensures Take(r, |bytes|) == (r.(read := r.read + |bytes|), Some(bytes))
  {
    CheckMeans(r, |bytes|);
    assert bytes == r.data[r.read..][..|bytes|] == r.data[r.read..r.read + |bytes|];
  }

  lemma NextSplit(r: Reader, a: seq<Byte>, b: seq<Byte>)
    requires Next(r, a + b)
    ensures Next(r, a) && Next(r.(read := r.read + |a|), b)
  {
    var d := r.data[r.read..];
    assert d[..|a + b|] == a + b;
    assert d[..|a|] == (a + b)[..|a|] == a;
    assert r.data[r.read + |a|..] == d[|a|..];
    assert d[|a|..][..|b|] == d[|a|..|a| + |b|] == (a + b)[|a|..] == b;
  }

  lemma ReadBack(r: Reader, v: Val, w: Val)
    requires v.Fits() && SameKind(v, w) && Next(r, Written(v))
    ensures ReadOver(r, w) == (r.(read := r.read + |Written(v)|), v)
  {
    hide Take, Next;
    match v {
      case U8(b) => TakeNext(r, [b]);
      case U32(n) =>
        BigEndianBack(n);
        TakeNext(r, BigEndian(n));
      case F32(raw) => TakeNext(r, raw);
      case Str(s) => ReadBackString(r, s, w);
    }
  }

  lemma ReadBackString(r: Reader, s: seq<Byte>, w: Val)
    requires |s| < W32 && w.Str? && Next(r, Written(Str(s)))
    ensures ReadOver(r, w) == (r.(read := r.read + |Written(Str(s))|), Str(s))
  {
    hide Take, Next, BigEndian, FromBigEndian;
    assert s[..|s| % W32] == s && |s| % W32 == |s|;
    NextSplit(r, BigEndian(|s|), s);
    NextOk(r, Written(Str(s)));
    TakeNext(r, BigEndian(|s|));
    BigEndianBack(|s|);
    var mid := r.(read := r.read + 4);
    NextOk(mid, s);
    TakeNext(mid, s);
  }

  lemma NextOk(r: Reader, bytes: seq<Byte>)
    requires Next(r, bytes)
    ensures r.Ok() && r.valid
  {
  }

  predicate SameKinds(vs: seq<Val>, ws: seq<Val>) {
    |vs| == |ws| && forall i :: 0 <= i < |vs| ==> SameKind(vs[i], ws[i])
  }

  predicate AllFit(vs: seq<Val>) { forall i :: 0 <= i < |vs| ==> vs[i].Fits() }

  /** Reading back any list of values, from the middle of any bytes. */
  lemma {:induction false} ReadAllBack(r: Reader, vs: seq<Val>, ws: seq<Val>)
    requires AllFit(vs) && SameKinds(vs, ws) && Next(r, AllWritten(vs))
    ensures r.Ok() && ReadAll(r, ws) == (r.(read := r.read + |AllWritten(vs)|), vs)
    decreases |vs|
  {
    hide Written, ReadOver, Next;
    NextOk(r, AllWritten(vs));
    if vs != [] {
      var v := vs[0];
      NextSplit(r, Written(v), AllWritten(vs[1..]));
      ReadBack(r, v, ws[0]);
      ReadAllBack(r.(read := r.read + |Written(v)|), vs[1..], ws[1..]);
      assert vs == [v] + vs[1..];
    }
  }

  // ---- The object ----

  class Buffer {
    var data: seq<Byte>
    var read: nat
    var valid: bool

    ghost predicate Valid()
      reads this
    {
      View().Ok()
    }

    function View(): Reader
      reads this
    {
      Reader(data, read, valid)
    }

    constructor ()
      ensures View() == Reader([], 0, true) && Valid()
    {
      data, read, valid := [], 0, true;
    }

    method Append(bytes: seq<Byte>)
      modifies this`data
      ensures data == old(data) + bytes
    {
      if |bytes| > 0 { data := data + bytes; }
    }

    method PutU8(b: Byte)
      modifies this`data
      ensures data == old(data) + Written(U8(b))
    {
      Append([b]);
    }

    method PutU32(n: nat)
      modifies this`data
      ensures data == old(data) + Written(U32(n))
    {
      Append(BigEndian(n));
    }

    method PutF32(raw: seq<Byte>)
      modifies this`data
      ensures data == old(data) + Written(F32(raw))
    {
      Append(raw);
    }

    method PutStr(s: seq<Byte>)
      modifies this`data
      ensures data == old(data) + Written(Str(s))
    {
      var length := |s| % W32;
      PutU32(length);
      if length > 0 { Append(s[..length]); }
    }

    /** checkSize */
    method CheckSize(size: nat) returns (ok: bool)
      requires Valid() && size < W64
      modifies this`valid
      ensures View() == Check(old(View()), size) && ok == valid
      ensures valid <==> old(valid) && read + size <= |data| && read + size < W64
    {
      var end := (read + size) % W64;
      var overflow := end < read;
      CheckMeans(View(), size);
      valid := valid && end <= |data| && !overflow;
      ok := valid;
    }

    method GetU8(old_: Byte) returns (b: Byte)
      requires Valid()
      modifies this`read, this`valid
      ensures Valid() && (View(), U8(b)) == ReadOver(old(View()), U8(old_))
    {
      b := old_;
      var ok := CheckSize(1);
      if ok {
        b := data[read];
        read := read + 1;
      }
    }

    method GetU32(old_: nat) returns (n: nat)
      requires Valid()
      modifies this`read, this`valid
      ensures Valid() && (View(), U32(n)) == ReadOver(old(View()), U32(old_))
    {
      n := old_;
      var ok := CheckSize(4);
      if ok {
        n := FromBigEndian(data[read..read + 4]);
        read := read + 4;
      }
    }

    method GetF32(old_: seq<Byte>) returns (raw: seq<Byte>)
      requires Valid()
      modifies this`read, this`valid
      ensures Valid() && (View(), F32(raw)) == ReadOver(old(View()), F32(old_))
    {
      raw := old_;
      var ok := CheckSize(4);
      if ok {
        raw := data[read..read + 4];
        read := read + 4;
      }
    }

    method GetStr(old_: seq<Byte>) returns (s: seq<Byte>)
      requires Valid()
      modifies this`read, this`valid
      ensures Valid() && (View(), Str(s)) == ReadOver(old(View()), Str(old_))
    {
      var length := GetU32(0);
      s := [];
      if length > 0 {
        var ok := CheckSize(length);
        if ok {
          s := data[read..read + length];
          read := read + length;
        }
      }
    }

    /** Back to the first byte; a failure is not forgotten. */
    method Reset()
      modifies this`read
      ensures View() == old(View()).(read := 0) && Valid()
    {
      read := 0;
    }

    /** Empties the buffer; a failure is not forgotten here either. */
    method Clear()
      modifies this
      ensures View() == Reader([], 0, old(valid)) && Valid()
    {
      Reset();
      data := [];
    }
  }
}
