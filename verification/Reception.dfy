/** What the receiver makes of any bytes whatsoever: the decision of the loop over the tokens and of the check at its
    end, told by the fields, by where the header ends, and by the last field. */
module Reception {
  import opened Core
  import opened FixText
  import opened CheckSum
  import opened Receiver
  import opened Modulo

  /** The first n tokens are fields, and these are they. */
  ghost predicate AreFields(tokens: seq<seq<Byte>>, n: nat, fs: seq<Field>) {
    n <= |tokens| && |fs| == n && forall i :: 0 <= i < n ==> KeyValueForm(tokens[i], fs[i])
  }

  /** The header takes the first k of some fields and no more. */
  ghost predicate HeaderEnds(c: Codec, fs: seq<Field>, k: nat) {
    && k <= |fs|
    && (forall i :: 0 <= i < k ==> c.insert(fs[..i], fs[i]) == InHeader)
    && (k < |fs| ==> c.insert(fs[..k], fs[k]) != InHeader)
  }

  /** Where the loop is after so many fields. */
  ghost predicate After(c: Codec, fs: seq<Field>, k: nat, s: Progress) {
    if |fs| <= k then
      s.Going? && s.p.header == fs && s.p.body == [] && !s.p.complete
    else if k < |fs| && c.insert(fs[..k], fs[k]) == Refused then s == Stopped(BadTag)
    else if !c.verify(fs[..k]) then s == Stopped(BadHeader)
    else s.Going? && s.p.header == fs[..k] && s.p.body == fs[k..] && s.p.complete
  }

  lemma {:induction false} StepsSnoc(c: Codec, p: Parsing, tokens: seq<seq<Byte>>, last: seq<Byte>)
    ensures var s := Steps(c, p, tokens);
      Steps(c, p, tokens + [last]) == if s.Going? then Step(c, s.p, last) else s
    decreases |tokens|
  {
    hide Step;
    if tokens == [] {
      assert tokens + [last] == [last] && [last][1..] == [];
    } else {
      assert (tokens + [last])[1..] == tokens[1..] + [last];
      var s := Step(c, p, tokens[0]);
      if s.Going? { StepsSnoc(c, s.p, tokens[1..], last); }
    }
  }

  lemma {:induction false} StepsAfter(c: Codec, tokens: seq<seq<Byte>>, fs: seq<Field>, k: nat, n: nat)
    requires AreFields(tokens, |fs|, fs) && n <= |fs| && HeaderEnds(c, fs, k)
    ensures After(c, fs[..n], k, Steps(c, EMPTY, tokens[..n]))
    decreases n
  {
    hide KeyValue, KeyValueForm, Sum, Step;
    if n > 0 {
      StepsAfter(c, tokens, fs, k, n - 1);
      assert tokens[..n] == tokens[..n - 1] + [tokens[n - 1]];
      StepsSnoc(c, EMPTY, tokens[..n - 1], tokens[n - 1]);
      KeyValueMeans(tokens[n - 1], fs[n - 1]);
      OneMoreField(c, fs, k, n - 1, Steps(c, EMPTY, tokens[..n - 1]), tokens[n - 1]);
    }
  }

  lemma OneMoreField(c: Codec, fs: seq<Field>, k: nat, n: nat, s: Progress, token: seq<Byte>)
    requires n < |fs| && HeaderEnds(c, fs, k) && After(c, fs[..n], k, s) && KeyValue(token) == Some(fs[n])
    ensures After(c, fs[..n + 1], k, if s.Going? then Step(c, s.p, token) else s)
  {
    hide KeyValue, Sum;
    assert fs[..n + 1] == fs[..n] + [fs[n]];
    if n < k {
      assert fs[..n + 1][..n] == fs[..n];
    } else {
      assert fs[..n + 1][..k] == fs[..k] && fs[..n + 1][k] == fs[k];
      assert fs[..n + 1][k..] == fs[k..n + 1];
      if n > k { assert fs[..n][..k] == fs[..k] && fs[..n][k] == fs[k] && fs[..n][k..] + [fs[n]] == fs[k..n + 1]; }
    }
  }

  lemma {:induction false} HeaderHasEnd(c: Codec, fs: seq<Field>, from: nat) returns (k: nat)
    requires from <= |fs| && forall i :: 0 <= i < from ==> c.insert(fs[..i], fs[i]) == InHeader
    ensures HeaderEnds(c, fs, k)
    decreases |fs| - from
  {
    if from < |fs| && c.insert(fs[..from], fs[from]) == InHeader { k := HeaderHasEnd(c, fs, from + 1); } else { k := from; }
  }

  /** The fields up to the first token that is none. */
  lemma {:induction false} LeadingFields(tokens: seq<seq<Byte>>) returns (fs: seq<Field>)
    ensures AreFields(tokens, |fs|, fs)
    ensures |fs| < |tokens| ==> KeyValue(tokens[|fs|]).None?
    decreases |tokens|
  {
    hide KeyValue, KeyValueForm;
    fs := [];
    if tokens != [] && KeyValue(tokens[0]).Some? {
      var f := KeyValue(tokens[0]).value;
      KeyValueMeans(tokens[0], f);
      var rest := LeadingFields(tokens[1..]);
      fs := [f] + rest;
      assert forall i :: 0 <= i < |rest| ==> tokens[1..][i] == tokens[i + 1] && fs[i + 1] == rest[i];
    }
  }

  lemma NoForm(token: seq<Byte>)
    requires KeyValue(token).None?
    ensures forall f :: !KeyValueForm(token, f)
  {
    hide KeyValue, KeyValueForm;
    forall f ensures !KeyValueForm(token, f) { KeyValueMeans(token, f); }
  }

  /** The reply to fields of which the header takes k, followed by a token that is none or by nothing; sum is that of
      the bytes before the last token. */
  function Answer(c: Codec, fs: seq<Field>, k: nat, cut: bool, sum: nat): Reply
    requires k <= |fs|
  {
    if k < |fs| && c.insert(fs[..k], fs[k]) == Refused then Rejected(BadTag)
    else if k < |fs| && !c.verify(fs[..k]) then Rejected(BadHeader)
    else if cut then Rejected(NoSeparator)
    else if k == |fs| || fs[|fs| - 1].key != [49, 48] then Rejected(NoCheckSum)
    else if Writes(fs[|fs| - 1].value, sum) then Delivered(fs[..k], fs[k..|fs| - 1])
    else if IsByteText(fs[|fs| - 1].value) then Rejected(WrongCheckSum)
    else Rejected(UnreadableCheckSum)
  }

  /** The value of a field that can be read as a number below 256. */
  predicate IsByteText(v: seq<Byte>) {
    v != [] && (forall i :: 0 <= i < |v| ==> 48 <= v[i] <= 57) && ValueOf(v) < 256
  }

  lemma NumberRead(v: seq<Byte>)
    ensures IsByteText(v) <==> FromChars(v).Value?
    ensures IsByteText(v) ==> FromChars(v) == Value(ValueOf(v)) && forall n :: Writes(v, n) <==> n == ValueOf(v)
    ensures !IsByteText(v) ==> forall n: nat :: n < 256 ==> !Writes(v, n)
  {
    if IsByteText(v) { FromCharsMeans(v, ValueOf(v)); }
    if FromChars(v).Value? { FromCharsMeans(v, FromChars(v).n); }
  }

  /** The sum the loop leaves behind, less that of the last token. */
  lemma SumLeft(c: Codec, data: seq<Byte>)
    requires var tokens := Split(data, SOH); tokens != [] && Steps(c, EMPTY, tokens).Going?
    ensures var p := Steps(c, EMPTY, Split(data, SOH)).p;
      (p.checksum - p.last) % W32 % 256 == Plain(Body(data)) % 256
  {
    hide Sum, KeyValue, Split, Terminated;
    var tokens := Split(data, SOH);
    var n := |tokens| - 1;
    StepsLast(c, EMPTY, tokens);
    StepsSum(c, EMPTY, tokens[..n]);
    var p := Steps(c, EMPTY, tokens[..n]).p;
    var sum := Sum(Terminated(tokens[..n], SOH));
    TakeBack(p.checksum, Steps(c, EMPTY, tokens).p.last);
    Byte32(sum);
    SumIsPlain(Body(data));
  }

  lemma VerdictIs(c: Codec, p: Parsing, fs: seq<Field>, k: nat, sum: nat)
    requires k < |fs| && p.header == fs[..k] && p.body == fs[k..] && sum < 256
    requires (p.checksum - p.last) % W32 % 256 == sum
    requires c.insert(fs[..k], fs[k]) != Refused && c.verify(fs[..k])
    ensures Finish(p) == Answer(c, fs, k, false, sum)
  {
    hide FromChars, ValueOf, IsByteText, Writes;
    var last := fs[|fs| - 1];
    assert p.body[|p.body| - 1] == last;
    assert p.body[..|p.body| - 1] == fs[k..|fs| - 1];
    NumberRead(last.value);
  }

  /** The receiver's decision about any bytes, exactly. */
  lemma ReceiveExactly(c: Codec, data: seq<Byte>) returns (fs: seq<Field>, k: nat)
    ensures var tokens := Split(data, SOH);
      && AreFields(tokens, |fs|, fs) && (|fs| < |tokens| ==> forall f :: !KeyValueForm(tokens[|fs|], f))
      && HeaderEnds(c, fs, k)
      && Receive(c, data) == Answer(c, fs, k, |fs| < |tokens|, Plain(Body(data)) % 256)
  {
    hide KeyValue, KeyValueForm, Split, Plain, Body, Finish, Answer, HeaderEnds, Step;
    var tokens := Split(data, SOH);
    fs := LeadingFields(tokens);
    k := HeaderHasEnd(c, fs, 0);
    StepsAfter(c, tokens, fs, k, |fs|);
    assert fs[..|fs|] == fs;
    if |fs| < |tokens| {
      NoForm(tokens[|fs|]);
      CutShort(c, tokens, fs, k, Plain(Body(data)) % 256);
    } else {
      assert tokens[..|fs|] == tokens;
      Whole(c, data, fs, k);
    }
  }

  lemma {:induction false} StepsStop(c: Codec, p: Parsing, tokens: seq<seq<Byte>>, n: nat)
    requires n <= |tokens| && Steps(c, p, tokens[..n]).Stopped?
    ensures Steps(c, p, tokens) == Steps(c, p, tokens[..n])
    decreases |tokens|
  {
    hide Step;
    if n > 0 {
      assert tokens[..n][1..] == tokens[1..][..n - 1] && tokens[..n][0] == tokens[0];
      var s := Step(c, p, tokens[0]);
      if s.Going? { StepsStop(c, s.p, tokens[1..], n - 1); }
    }
  }

  lemma CutShort(c: Codec, tokens: seq<seq<Byte>>, fs: seq<Field>, k: nat, sum: nat)
    requires |fs| < |tokens| && KeyValue(tokens[|fs|]).None? && HeaderEnds(c, fs, k)
    requires After(c, fs, k, Steps(c, EMPTY, tokens[..|fs|]))
    ensures Steps(c, EMPTY, tokens).Stopped?
    ensures Answer(c, fs, k, true, sum) == Rejected(Steps(c, EMPTY, tokens).reason)
  {
    hide KeyValue, Sum, Writes, IsByteText;
    var n := |fs|;
    var s := Steps(c, EMPTY, tokens[..n]);
    StepsSnoc(c, EMPTY, tokens[..n], tokens[n]);
    assert tokens[..n + 1] == tokens[..n] + [tokens[n]];
    StepsStop(c, EMPTY, tokens, n + 1);
  }

  lemma Whole(c: Codec, data: seq<Byte>, fs: seq<Field>, k: nat)
    requires |fs| == |Split(data, SOH)| && HeaderEnds(c, fs, k)
    requires After(c, fs, k, Steps(c, EMPTY, Split(data, SOH)))
    ensures Receive(c, data) == Answer(c, fs, k, false, Plain(Body(data)) % 256)
  {
    hide KeyValue, Sum, Writes, IsByteText, Split, Steps, FromChars, Plain, Body;
    var s := Steps(c, EMPTY, Split(data, SOH));
    if k < |fs| && s.Going? {
      SumLeft(c, data);
      VerdictIs(c, s.p, fs, k, Plain(Body(data)) % 256);
    }
  }
}
