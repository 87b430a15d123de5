/** `generateCacheKey` (packages/client/lib/client/cache.ts:465-483) tells any two argument lists apart. */
module CacheKey {
  import opened Decimal
  import opened Encoder

  type Units = seq<Unit>

  const SEPARATOR: Unit := 95
  const BUFFER_MARK: Unit := 98

  // A Buffer as latin1: every byte is its own character.
  function Content(arg: Arg): Units {
    match arg
    case Str(s) => s
    case Buf(bytes) => bytes
    case Other => []
  }

  function LengthToken(arg: Arg): (t: Units)
    ensures t != [] && SEPARATOR !in t
  {
    (if arg.Buf? then [BUFFER_MARK] else []) + PrintNat(|Content(arg)|)
  }

  // `Array.join('_')`
  function Join(parts: seq<Units>): Units {
    if parts == [] then []
    else if |parts| == 1 then parts[0]
    else parts[0] + [SEPARATOR] + Join(parts[1..])
  }

  function Tokens(args: seq<Arg>): seq<Units> { seq(|args|, i requires 0 <= i < |args| => LengthToken(args[i])) }

  function Contents(args: seq<Arg>): seq<Units> { seq(|args|, i requires 0 <= i < |args| => Content(args[i])) }

  function KeyOf(args: seq<Arg>): Units { Join(Tokens(args) + Contents(args)) }

  method GenerateCacheKey(redisArgs: seq<Arg>) returns (key: Units)
    requires Other !in redisArgs
    ensures key == KeyOf(redisArgs)
  {
    var n := |redisArgs|;
    var tmp := new Units[n * 2](_ => []);
    var i := 0;
    while i < n
      invariant 0 <= i <= n
      invariant forall j :: 0 <= j < i ==>
        tmp[j] == LengthToken(redisArgs[j]) && tmp[j + n] == Content(redisArgs[j])
    {
      var arg := redisArgs[i];
      if arg.Str? {
        tmp[i] := PrintNat(|arg.s|);
        tmp[i + n] := arg.s;
      } else {
        tmp[i] := [BUFFER_MARK] + PrintNat(|arg.bytes|);
        tmp[i + n] := arg.bytes;
      }
      i := i + 1;
    }
    assert tmp[..] == Tokens(redisArgs) + Contents(redisArgs);
    key := Join(tmp[..]);
  }

  function Total(parts: seq<Units>): nat { if parts == [] then 0 else |parts[0]| + Total(parts[1..]) }

  lemma {:induction false} JoinLength(parts: seq<Units>)
    ensures |Join(parts)| == Total(parts) + if parts == [] then 0 else |parts| - 1
  {
    if |parts| > 1 { JoinLength(parts[1..]); } else if |parts| == 1 { assert parts[1..] == []; }
  }

  lemma {:induction false} TotalAppend(a: seq<Units>, b: seq<Units>)
    ensures Total(a + b) == Total(a) + Total(b)
  {
    if a == [] {
      assert a + b == b;
    } else {
      assert (a + b)[1..] == a[1..] + b;
      TotalAppend(a[1..], b);
    }
  }

  lemma FirstSeparator(t: Units, rest: Units)
    requires SEPARATOR !in t
    ensures var whole := t + [SEPARATOR] + rest;
            && whole[|t|] == SEPARATOR && (forall i :: 0 <= i < |t| ==> whole[i] != SEPARATOR)
            && whole[..|t|] == t && whole[|t| + 1..] == rest
  {
  }

  // A token ends at the first separator.
  lemma TokenEnds(t: Units, rest: Units, t': Units, rest': Units)
    requires SEPARATOR !in t && SEPARATOR !in t'
    requires t + [SEPARATOR] + rest == t' + [SEPARATOR] + rest'
    ensures t == t' && rest == rest'
  {
    FirstSeparator(t, rest);
    FirstSeparator(t', rest');
  }

  lemma LengthTokenIsExact(a: Arg, b: Arg)
    requires LengthToken(a) == LengthToken(b)
    ensures a.Buf? == b.Buf? && |Content(a)| == |Content(b)|
  {
    ReadPrintedNat(|Content(a)|);
    ReadPrintedNat(|Content(b)|);
    var digits, digits' := PrintNat(|Content(a)|), PrintNat(|Content(b)|);
    assert digits[0] != BUFFER_MARK && digits'[0] != BUFFER_MARK;
    assert a.Buf? == b.Buf? by { assert LengthToken(a)[0] == LengthToken(b)[0]; }
    assert [] + digits == digits && [] + digits' == digits';
    if a.Buf? {
      assert digits == LengthToken(a)[1..] == LengthToken(b)[1..] == digits';
    }
  }

  // The first `k` tokens of two equal keys are equal, and what follows them is.
  lemma {:induction false} TokensAgree(a: seq<Arg>, b: seq<Arg>, k: nat)
    requires KeyOf(a) == KeyOf(b) && k <= |a| && k <= |b|
    ensures Tokens(a)[..k] == Tokens(b)[..k]
    ensures Join(Tokens(a)[k..] + Contents(a)) == Join(Tokens(b)[k..] + Contents(b))
  {
    hide Join, LengthToken, Content;
    if k == 0 {
      assert Tokens(a)[0..] == Tokens(a) && Tokens(b)[0..] == Tokens(b);
    } else {
      TokensAgree(a, b, k - 1);
      PeelToken(a, k - 1);
      PeelToken(b, k - 1);
      TokenEnds(LengthToken(a[k - 1]), Join(Tokens(a)[k..] + Contents(a)),
                LengthToken(b[k - 1]), Join(Tokens(b)[k..] + Contents(b)));
      assert Tokens(a)[..k] == Tokens(a)[..k - 1] + [LengthToken(a[k - 1])];
      assert Tokens(b)[..k] == Tokens(b)[..k - 1] + [LengthToken(b[k - 1])];
    }
  }

  lemma PeelToken(a: seq<Arg>, k: nat)
    requires k < |a|
    ensures Join(Tokens(a)[k..] + Contents(a)) ==
            LengthToken(a[k]) + [SEPARATOR] + Join(Tokens(a)[k + 1..] + Contents(a))
  {
    var parts := Tokens(a)[k..] + Contents(a);
    assert parts[0] == LengthToken(a[k]) && parts[1..] == Tokens(a)[k + 1..] + Contents(a);
  }

  // Contents of known lengths are told apart, separators or not.
  lemma {:induction false} ContentsAgree(a: seq<Units>, b: seq<Units>)
    requires |a| == |b| && Join(a) == Join(b)
    requires forall i :: 0 <= i < |a| ==> |a[i]| == |b[i]|
    ensures a == b
  {
    if |a| > 1 {
      assert a[0] == Join(a)[..|a[0]|] == Join(b)[..|b[0]|] == b[0];
      assert Join(a[1..]) == Join(a)[|a[0]| + 1..] == Join(b)[|b[0]| + 1..] == Join(b[1..]);
      ContentsAgree(a[1..], b[1..]);
      assert a == [a[0]] + a[1..] && b == [b[0]] + b[1..];
    }
  }

  lemma {:induction false} TotalAgrees(a: seq<Units>, b: seq<Units>)
    requires |a| == |b| && forall i :: 0 <= i < |a| ==> |a[i]| == |b[i]|
    ensures Total(a) == Total(b)
  {
    if a != [] { TotalAgrees(a[1..], b[1..]); }
  }

  // The number of arguments is not in the key, but a longer list has a longer key.
  lemma NoLonger(a: seq<Arg>, b: seq<Arg>)
    requires KeyOf(a) == KeyOf(b) && |a| <= |b|
    ensures |a| == |b|
  {
    var n := |a|;
    TokensAgree(a, b, n);
    forall i | 0 <= i < n ensures |Contents(a)[i]| == |Contents(b)[..n][i]| {
      assert Tokens(a)[..n][i] == Tokens(b)[..n][i];
      LengthTokenIsExact(a[i], b[i]);
    }
    TotalAgrees(Contents(a), Contents(b)[..n]);
    assert Contents(b) == Contents(b)[..n] + Contents(b)[n..];
    TotalAppend(Contents(b)[..n], Contents(b)[n..]);
    TotalAppend(Tokens(b)[n..], Contents(b));
    assert Tokens(a)[n..] + Contents(a) == Contents(a);
    JoinLength(Contents(a));
    JoinLength(Tokens(b)[n..] + Contents(b));
  }

  /** Different argument lists, of any lengths, have different keys. */
  lemma KeysTellArgumentsApart(a: seq<Arg>, b: seq<Arg>)
    requires Other !in a && Other !in b
    ensures KeyOf(a) == KeyOf(b) <==> a == b
  {
    if KeyOf(a) == KeyOf(b) {
      if |a| <= |b| { NoLonger(a, b); } else { NoLonger(b, a); }
      TokensAgree(a, b, |a|);
      assert Tokens(a)[|a|..] + Contents(a) == Contents(a) && Tokens(b)[|a|..] + Contents(b) == Contents(b);
      forall i | 0 <= i < |a| ensures a[i].Buf? == b[i].Buf? && |Content(a[i])| == |Content(b[i])| {
        assert Tokens(a)[..|a|][i] == Tokens(b)[..|a|][i];
        LengthTokenIsExact(a[i], b[i]);
      }
      ContentsAgree(Contents(a), Contents(b));
      forall i | 0 <= i < |a| ensures a[i] == b[i] {
        assert Contents(a)[i] == Contents(b)[i];
        assert a[i] in a && b[i] in b;
      }
    }
  }
}
