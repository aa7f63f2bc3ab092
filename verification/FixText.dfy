/** FIX text: bytes, fields, splitting with getline, and sums of signed chars. */
module FixText {
  import opened Core

  const SOH: Byte := 1
  const EQ: Byte := 61

  // ---- split ----

  function Find(s: seq<Byte>, sep: Byte): (n: nat)
    ensures n <= |s|
    ensures forall i :: 0 <= i < n ==> s[i] != sep
    ensures n < |s| ==> s[n] == sep
  {
    if s == [] || s[0] == sep then 0 else 1 + Find(s[1..], sep)
  }

  /** The pieces between separators; nothing after a last separator is no piece. */
  function Split(s: seq<Byte>, sep: Byte): seq<seq<Byte>> {
    if s == [] then []
    else
      var n := Find(s, sep);
      if n == |s| then [s] else [s[..n]] + Split(s[n + 1..], sep)
  }

  /** Every piece followed by a separator. */
  function Terminated(pieces: seq<seq<Byte>>, sep: Byte): seq<Byte> {
    if pieces == [] then [] else pieces[0] + [sep] + Terminated(pieces[1..], sep)
  }

  predicate Free(s: seq<Byte>, sep: Byte) { forall i :: 0 <= i < |s| ==> s[i] != sep }

  lemma FindIs(s: seq<Byte>, sep: Byte, n: nat)
    requires n <= |s| && Free(s[..n], sep) && (n < |s| ==> s[n] == sep)
    ensures Find(s, sep) == n
  {
    assert forall i :: 0 <= i < n ==> s[i] == s[..n][i];
  }

  lemma SplitPiece(a: seq<Byte>, sep: Byte, b: seq<Byte>)
    requires Free(a, sep)
    ensures Split(a + [sep] + b, sep) == [a] + Split(b, sep)
  {
    var s := a + [sep] + b;
    assert s[..|a|] == a && s[|a| + 1..] == b;
    FindIs(s, sep, |a|);
  }

  lemma SplitLast(a: seq<Byte>, sep: Byte)
    requires Free(a, sep) && a != []
    ensures Split(a, sep) == [a]
  {
    assert a[..|a|] == a;
    FindIs(a, sep, |a|);
  }

  lemma TerminatedCons(p: seq<Byte>, ps: seq<seq<Byte>>, sep: Byte)
    ensures Terminated([p] + ps, sep) == p + [sep] + Terminated(ps, sep)
  {
    assert ([p] + ps)[1..] == ps;
  }

  lemma Regroup(a: seq<Byte>, b: seq<Byte>, c: seq<Byte>, d: seq<Byte>)
    ensures (a + b + c) + d == a + b + (c + d)
  {
  }

  lemma Prepend(p: seq<Byte>, ps: seq<seq<Byte>>, qs: seq<seq<Byte>>)
    ensures [p] + (ps + qs) == ([p] + ps) + qs
  {
  }

  /** Splitting undoes terminating, for any pieces without the separator. */
  lemma {:induction false} SplitTerminated(pieces: seq<seq<Byte>>, rest: seq<Byte>, sep: Byte)
    requires forall p :: p in pieces ==> Free(p, sep)
    ensures Split(Terminated(pieces, sep) + rest, sep) == pieces + Split(rest, sep)
    decreases |pieces|
  {
    hide Split, Free;
    if pieces == [] {
      assert Terminated(pieces, sep) + rest == rest;
      assert pieces + Split(rest, sep) == Split(rest, sep);
    } else {
      hide Terminated;
      var p, ps := pieces[0], pieces[1..];
      assert pieces == [p] + ps;
      TerminatedCons(p, ps, sep);
      Regroup(p, [sep], Terminated(ps, sep), rest);
      SplitPiece(p, sep, Terminated(ps, sep) + rest);
      SplitTerminated(ps, rest, sep);
      Prepend(p, ps, Split(rest, sep));
    }
  }

  /** s with a separator at its end. */
  function Closed(s: seq<Byte>, sep: Byte): seq<Byte> {
    if s == [] || s[|s| - 1] == sep then s else s + [sep]
  }

  lemma ClosedCons(a: seq<Byte>, b: seq<Byte>, sep: Byte)
    ensures Closed(a + [sep] + b, sep) == a + [sep] + Closed(b, sep)
  {
    var s := a + [sep] + b;
    if b == [] {
      assert s == a + [sep];
    } else {
      assert s[|s| - 1] == b[|b| - 1];
      assert s + [sep] == a + [sep] + (b + [sep]);
    }
  }

  lemma Around(s: seq<Byte>, n: nat)
    requires n < |s|
    ensures s == s[..n] + [s[n]] + s[n + 1..]
  {
  }

  /** And terminating undoes splitting, up to the last separator. */
  lemma {:induction false} TerminatedSplit(s: seq<Byte>, sep: Byte)
    ensures Terminated(Split(s, sep), sep) == Closed(s, sep)
    ensures forall p :: p in Split(s, sep) ==> Free(p, sep)
    decreases |s|
  {
    hide Terminated, Closed;
    var n := Find(s, sep);
    if n == |s| {
      TerminatedFree(s, sep);
    } else {
      TerminatedSplit(s[n + 1..], sep);
      TerminatedCons(s[..n], Split(s[n + 1..], sep), sep);
      Around(s, n);
      ClosedCons(s[..n], s[n + 1..], sep);
    }
  }

  lemma TerminatedFree(s: seq<Byte>, sep: Byte)
    requires Find(s, sep) == |s|
    ensures Terminated(Split(s, sep), sep) == Closed(s, sep)
  {
    if s != [] {
      assert [s] == [s] + [];
      TerminatedCons(s, [], sep);
    }
  }

  /** What is left to split at a position, if the next separator is at n or there is none. */
  lemma SplitNext(s: seq<Byte>, sep: Byte, pos: nat, n: nat)
    requires pos < |s| && pos <= n <= |s| && Free(s[pos..n], sep) && (n < |s| ==> s[n] == sep)
    ensures Rest(s, sep, pos) == [s[pos..n]] + Rest(s, sep, n + 1)
  {
    hide Split, Free;
    var piece := s[pos..n];
    if n < |s| {
      assert s[pos..] == piece + [sep] + s[n + 1..];
      SplitPiece(piece, sep, s[n + 1..]);
      RestAfter(s, sep, n + 1);
    } else {
      assert s[pos..] == piece;
      SplitLast(piece, sep);
    }
  }

  lemma RestAfter(s: seq<Byte>, sep: Byte, pos: nat)
    requires pos <= |s|
    ensures Rest(s, sep, pos) == Split(s[pos..], sep)
  {
  }

  /** The pieces from a position on; past the end there are none. */
  function Rest(s: seq<Byte>, sep: Byte, pos: nat): seq<seq<Byte>> {
    if pos >= |s| then [] else Split(s[pos..], sep)
  }

  /** split with std::getline: read up to the next separator until the stream is at its end. */
  method SplitText(s: seq<Byte>, sep: Byte) returns (pieces: seq<seq<Byte>>)
    ensures pieces == Split(s, sep)
  {
    hide *;
    pieces := [];
    var pos := 0;
    assert Split(s, sep) == Rest(s, sep, 0) by { SplitStart(s, sep); }
    while pos < |s|
      invariant 0 <= pos <= |s| + 1
      invariant Split(s, sep) == pieces + Rest(s, sep, pos)
    {
      var n := pos;
      FreeEmpty(s, sep, pos);
      while n < |s| && s[n] != sep
        invariant pos <= n <= |s|
        invariant Free(s[pos..n], sep)
      {
        FreeLonger(s, sep, pos, n);
        n := n + 1;
      }
      SplitNext(s, sep, pos, n);
      Join(pieces, s[pos..n], Rest(s, sep, n + 1));
      pieces := pieces + [s[pos..n]];
      pos := n + 1;
    }
    RestEnds(s, sep, pos);
  }

  lemma Join(ps: seq<seq<Byte>>, p: seq<Byte>, qs: seq<seq<Byte>>)
    ensures ps + ([p] + qs) == (ps + [p]) + qs
  {
  }

  lemma RestEnds(s: seq<Byte>, sep: Byte, pos: nat)
    requires pos >= |s|
    ensures Rest(s, sep, pos) == []
  {
  }

  lemma SplitStart(s: seq<Byte>, sep: Byte)
    ensures Split(s, sep) == Rest(s, sep, 0)
  {
    assert s[0..] == s;
  }

  lemma FreeEmpty(s: seq<Byte>, sep: Byte, pos: nat)
    requires pos <= |s|
    ensures Free(s[pos..pos], sep)
  {
  }

  lemma FreeLonger(s: seq<Byte>, sep: Byte, pos: nat, n: nat)
    requires pos <= n < |s| && Free(s[pos..n], sep) && s[n] != sep
    ensures Free(s[pos..n + 1], sep)
  {
    assert s[pos..n + 1] == s[pos..n] + [s[n]];
  }

  // ---- Fields ----

  datatype Field = Field(key: seq<Byte>, value: seq<Byte>)
  {
    /** A field that comes through the splitting by SOH and by '='. */
    predicate Plain() { Free(key, SOH) && Free(key, EQ) && Free(value, SOH) && Free(value, EQ) && value != [] }

    function Text(): seq<Byte> { key + [EQ] + value }
  }

  /** A token that splits into exactly two at '='. */
  function KeyValue(token: seq<Byte>): Option<Field> {
    var kv := Split(token, EQ);
    if |kv| == 2 then Some(Field(kv[0], kv[1])) else None
  }

  lemma KeyValueOfText(f: Field)
    requires Free(f.key, EQ) && Free(f.value, EQ) && f.value != []
    ensures KeyValue(f.Text()) == Some(f)
  {
    SplitPiece(f.key, EQ, f.value);
    SplitLast(f.value, EQ);
  }

  predicate KeyValueForm(token: seq<Byte>, f: Field) {
    && Free(f.key, EQ) && Free(f.value, EQ)
    && ((token == f.Text() && f.value != []) || token == f.Text() + [EQ])
  }

  /** Exactly the tokens k=v, with v not empty, and k=v= are fields, k and v free of '='. */
  lemma KeyValueMeans(token: seq<Byte>, f: Field)
    ensures KeyValue(token) == Some(f) <==> KeyValueForm(token, f)
  {
    if KeyValue(token) == Some(f) {
      KeyValueIs(token);
    } else if KeyValueForm(token, f) {
      if token == f.Text() + [EQ] { KeyValueClosed(f); } else { KeyValueOfText(f); }
    }
  }

  lemma KeyValueClosed(f: Field)
    requires Free(f.key, EQ) && Free(f.value, EQ)
    ensures KeyValue(f.Text() + [EQ]) == Some(f)
  {
    SplitPiece(f.value, EQ, []);
    assert f.value + [EQ] + [] == f.value + [EQ];
    SplitPiece(f.key, EQ, f.value + [EQ]);
    assert f.Text() + [EQ] == f.key + [EQ] + (f.value + [EQ]);
  }

  lemma KeyValueIs(token: seq<Byte>)
    requires KeyValue(token).Some?
    ensures KeyValueForm(token, KeyValue(token).value)
  {
    var kv := Split(token, EQ);
    var f := KeyValue(token).value;
    assert kv == [f.key, f.value];
    TerminatedSplit(token, EQ);
    hide Split, Terminated, Free, Closed;
    TerminatedPair(f.key, f.value, EQ);
    Unclose(token, f.Text());
    if f.value == [] { NoLonePiece(f.key); }
  }

  lemma Unclose(token: seq<Byte>, text: seq<Byte>)
    requires Closed(token, EQ) == text + [EQ]
    ensures token == text || token == text + [EQ]
  {
    assert (text + [EQ])[..|text|] == text;
    assert (token + [EQ])[..|token|] == token;
  }

  lemma NoLonePiece(key: seq<Byte>)
    requires Free(key, EQ)
    ensures |Split(key + [EQ] + [], EQ)| == 1
    ensures key + [EQ] + [] == key + [EQ]
  {
    SplitPiece(key, EQ, []);
  }

  lemma TerminatedPair(a: seq<Byte>, b: seq<Byte>, sep: Byte)
    ensures Terminated([a, b], sep) == (a + [sep] + b) + [sep]
  {
    assert [a, b][1..] == [b];
    assert Terminated([b], sep) == b + [sep];
  }
}
