/** Decoding UTF-8 as `Buffer.toString` does: what is no part of a character becomes U+FFFD, one for each longest
    beginning of a character. Decoded strings are sequences of code points. */
module Utf8 {
  import opened Seqs

  type byte = n: int | 0 <= n < 0x100

  /** How many bytes the character has that starts with `b`; 0 when none does. */
  function Needed(b: byte): nat {
    if b < 0x80 then 1
    else if 0xC2 <= b < 0xE0 then 2
    else if 0xE0 <= b < 0xF0 then 3
    else if 0xF0 <= b < 0xF5 then 4
    else 0
  }

  predicate Trails(b: byte) {
    0x80 <= b < 0xC0
  }

  /** `b` may stand at place `i` of a character that starts with `lead`. */
  predicate Continues(lead: byte, i: nat, b: byte) {
    && Trails(b)
    && (i == 1 ==>
          && (lead == 0xE0 ==> b >= 0xA0) && (lead == 0xED ==> b < 0xA0)
          && (lead == 0xF0 ==> b >= 0x90) && (lead == 0xF4 ==> b < 0x90))
  }

  function TakenFrom(bs: seq<byte>, i: nat, n: nat): (k: nat)
    requires 0 < i <= |bs| && i <= n
    ensures i <= k <= n && k <= |bs|
    ensures forall j :: i <= j < k ==> Continues(bs[0], j, bs[j])
    ensures k == n || k == |bs| || !Continues(bs[0], k, bs[k])
    decreases n - i
  {
    if i == n || i == |bs| || !Continues(bs[0], i, bs[i]) then i else TakenFrom(bs, i + 1, n)
  }

  /** The length of the longest beginning of a character at the start; at least one byte is taken. */
  function Taken(bs: seq<byte>): (k: nat)
    requires bs != []
    ensures 1 <= k <= |bs|
  {
    if Needed(bs[0]) <= 1 then 1 else TakenFrom(bs, 1, Needed(bs[0]))
  }

  predicate Complete(bs: seq<byte>)
    requires bs != []
  {
    Needed(bs[0]) == Taken(bs)
  }

  function Symbol(bs: seq<byte>): char
    requires bs != []
  {
    if !Complete(bs) then '\U{FFFD}'
    else
      TakenContinues(bs);
      Code(bs[..Taken(bs)]) as char
  }

  lemma {:induction false} TakenContinues(bs: seq<byte>)
    requires bs != []
    ensures forall j :: 1 <= j < Taken(bs) ==> Continues(bs[0], j, bs[j])
  {
  }

  /** The code point of the bytes of a character. */
  function Code(bs: seq<byte>): (c: int)
    requires bs != [] && Needed(bs[0]) == |bs| && forall j :: 1 <= j < |bs| ==> Continues(bs[0], j, bs[j])
    ensures 0 <= c < 0xD800 || 0xE000 <= c < 0x11_0000
  {
    var lead: int := bs[0];
    if |bs| == 1 then lead
    else
      assert Continues(bs[0], 1, bs[1]);
      var b1: int := bs[1];
      if |bs| == 2 then (lead - 0xC0) * 64 + b1 - 0x80
      else
        assert Continues(bs[0], 2, bs[2]);
        var b2: int := bs[2];
        if |bs| == 3 then ((lead - 0xE0) * 64 + b1 - 0x80) * 64 + b2 - 0x80
        else
          assert Continues(bs[0], 3, bs[3]);
          var b3: int := bs[3];
          (((lead - 0xF0) * 64 + b1 - 0x80) * 64 + b2 - 0x80) * 64 + b3 - 0x80
  }

  function Decode(bs: seq<byte>): string {
    if bs == [] then "" else [Symbol(bs)] + Decode(bs[Taken(bs)..])
  }

  /** `k` is between two characters of `bs`, or two beginnings of them. */
  predicate Boundary(bs: seq<byte>, k: nat)
    requires k <= |bs|
    decreases |bs|
  {
    k == 0 || (Taken(bs) <= k && Boundary(bs[Taken(bs)..], k - Taken(bs)))
  }

  // ---------------------------------------------------------------- cutting a stream in two

  lemma {:induction false} TakenFromPart(a: seq<byte>, b: seq<byte>, i: nat, n: nat)
    requires 0 < i <= |a| && i <= n
    ensures var k := TakenFrom(a + b, i, n); TakenFrom(a, i, n) == if k <= |a| then k else |a|
    decreases n - i
  {
    var s := a + b;
    if i < n && i < |a| {
      assert s[0] == a[0] && s[i] == a[i];
      if Continues(a[0], i, a[i]) {
        TakenFromPart(a, b, i + 1, n);
      }
    }
  }

  /** The first character of `a + b` is that of `a`, unless it goes on into `b`. */
  lemma {:induction false} TakenPart(a: seq<byte>, b: seq<byte>)
    requires a != []
    ensures var k := Taken(a + b);
            && Taken(a) == (if k <= |a| then k else |a|)
            && (k <= |a| ==> Symbol(a) == Symbol(a + b))
            && (k > |a| ==> !Complete(a))
  {
    var s := a + b;
    assert s[0] == a[0];
    if Needed(a[0]) > 1 {
      TakenFromPart(a, b, 1, Needed(a[0]));
    }
    if Taken(s) <= |a| {
      assert s[..Taken(s)] == a[..Taken(s)];
    }
  }

  /** Trailing bytes that no character takes are a symbol each. */
  lemma {:induction false} StraySymbols(bs: seq<byte>, m: nat)
    requires m <= |bs| && forall i :: 0 <= i < m ==> Trails(bs[i])
    ensures |Decode(bs)| == m + |Decode(bs[m..])|
  {
    if m > 0 {
      assert Trails(bs[0]) && Taken(bs) == 1;
      assert forall i :: 0 <= i < m - 1 ==> bs[1..][i] == bs[i + 1];
      StraySymbols(bs[1..], m - 1);
      assert bs[1..][m - 1..] == bs[m..];
    }
  }

  /** A character that goes on from `a` into `b` comes apart into at least two symbols. */
  lemma {:induction false} CutInside(a: seq<byte>, b: seq<byte>)
    requires a != [] && Taken(a + b) > |a|
    ensures |Decode(a)| + |Decode(b)| > |Decode(a + b)|
  {
    var k := Taken(a + b);
    var m := k - |a|;
    TrailsInto(a, b);
    StraySymbols(b, m);
    assert (a + b)[k..] == b[m..];
    DecodeLength(a + b);
    DecodeLength(a);
  }

  lemma {:induction false} DecodeLength(bs: seq<byte>)
    requires bs != []
    ensures |Decode(bs)| == 1 + |Decode(bs[Taken(bs)..])|
  {
  }

  lemma {:induction false} TrailsInto(a: seq<byte>, b: seq<byte>)
    requires a != [] && Taken(a + b) > |a|
    ensures forall i :: 0 <= i < Taken(a + b) - |a| ==> Trails(b[i])
  {
    var s := a + b;
    TakenContinues(s);
    forall i | 0 <= i < Taken(s) - |a| ensures Trails(b[i]) {
      assert b[i] == s[|a| + i] && Continues(s[0], |a| + i, s[|a| + i]);
    }
  }

  /** Two parts decode to what the whole does exactly when the cut is at a boundary, and to more symbols otherwise. */
  lemma {:induction false} DecodeCut(a: seq<byte>, b: seq<byte>)
    ensures Decode(a) + Decode(b) == Decode(a + b) <==> Boundary(a + b, |a|)
    ensures !Boundary(a + b, |a|) ==> |Decode(a)| + |Decode(b)| > |Decode(a + b)|
    decreases |a|
  {
    if a == [] {
      assert a + b == b && Decode(a) + Decode(b) == Decode(b);
    } else if Taken(a + b) > |a| {
      CutInside(a, b);
    } else {
      var k := Taken(a + b);
      DecodeCut(a[k..], b);
      FirstSymbol(a, b);
      SameTail([Symbol(a)], Decode(a[k..]) + Decode(b), Decode(a[k..] + b));
      Regroup([Symbol(a)], Decode(a[k..]), Decode(b));
    }
  }

  lemma {:induction false} FirstSymbol(a: seq<byte>, b: seq<byte>)
    requires a != [] && Taken(a + b) <= |a|
    ensures var k := Taken(a + b);
            && Decode(a) == [Symbol(a)] + Decode(a[k..])
            && Decode(a + b) == [Symbol(a)] + Decode(a[k..] + b)
            && (Boundary(a + b, |a|) <==> Boundary(a[k..] + b, |a[k..]|))
  {
    TakenPart(a, b);
    assert (a + b)[Taken(a + b)..] == a[Taken(a + b)..] + b;
  }

  lemma {:induction false} SameTail(x: string, a: string, b: string)
    ensures x + a == x + b <==> a == b
  {
    assert (x + a)[|x|..] == a && (x + b)[|x|..] == b;
  }

  /** Boundaries of a part that ends at one are those of the whole. */
  lemma {:induction false} BoundaryOfPart(a: seq<byte>, b: seq<byte>, k: nat)
    requires Boundary(a + b, |a|) && k <= |a|
    ensures Boundary(a + b, k) <==> Boundary(a, k)
    decreases |a|
  {
    if a != [] {
      var n := Taken(a + b);
      TakenPart(a, b);
      if k >= n {
        assert (a + b)[n..] == a[n..] + b;
        BoundaryOfPart(a[n..], b, k - n);
      }
    }
  }

  // ---------------------------------------------------------------- any number of fragments

  /** Every fragment decoded by itself. */
  function DecodeEach(fragments: seq<seq<byte>>): seq<string> {
    seq(|fragments|, i requires 0 <= i < |fragments| => Decode(fragments[i]))
  }

  /** Where the `k`-th fragment starts. */
  function CutAfter(fragments: seq<seq<byte>>, k: nat): nat
    requires k <= |fragments|
  {
    |Concat(fragments[..k])|
  }

  lemma {:induction false} CutWithin(fragments: seq<seq<byte>>, k: nat)
    requires k <= |fragments|
    ensures CutAfter(fragments, k) <= |Concat(fragments)|
  {
    if k < |fragments| {
      var earlier := fragments[..|fragments| - 1];
      CutWithin(earlier, k);
      assert earlier[..k] == fragments[..k];
    } else {
      assert fragments[..k] == fragments;
    }
  }

  /** Every fragment starts between two characters of the stream. */
  ghost predicate CutsBetween(fragments: seq<seq<byte>>) {
    forall k :: 0 <= k <= |fragments| ==>
                  CutAfter(fragments, k) <= |Concat(fragments)| && Boundary(Concat(fragments), CutAfter(fragments, k))
  }

  lemma {:induction false} WholeIsBoundary(bs: seq<byte>)
    ensures Boundary(bs, |bs|)
  {
    if bs != [] {
      WholeIsBoundary(bs[Taken(bs)..]);
    }
  }

  lemma {:induction false} CutsBetweenNext(fragments: seq<seq<byte>>)
    requires fragments != []
    ensures var earlier := fragments[..|fragments| - 1];
            CutsBetween(fragments) <==> CutsBetween(earlier) && Boundary(Concat(fragments), |Concat(earlier)|)
  {
    var n := |fragments| - 1;
    var earlier, whole := fragments[..n], Concat(fragments);
    assert fragments[..n + 1] == fragments;
    WholeIsBoundary(whole);
    forall k | 0 <= k <= n
      ensures CutAfter(earlier, k) == CutAfter(fragments, k) <= |Concat(earlier)|
      ensures Boundary(whole, |Concat(earlier)|) ==>
                (Boundary(whole, CutAfter(fragments, k)) <==> Boundary(Concat(earlier), CutAfter(fragments, k)))
    {
      assert earlier[..k] == fragments[..k];
      CutWithin(earlier, k);
      if Boundary(whole, |Concat(earlier)|) {
        BoundaryOfPart(Concat(earlier), fragments[n], CutAfter(earlier, k));
      }
    }
    if CutsBetween(fragments) {
      assert CutAfter(fragments, n) == |Concat(earlier)|;
      forall k | 0 <= k <= n ensures Boundary(Concat(earlier), CutAfter(earlier, k)) {
        assert Boundary(whole, CutAfter(fragments, k));
      }
    }
  }

  /** Decoding each fragment by itself gives the decoded stream exactly when no fragment starts inside a character; else
      it gives more symbols. */
  lemma {:induction false} DecodeEachIff(fragments: seq<seq<byte>>)
    ensures Concat(DecodeEach(fragments)) == Decode(Concat(fragments)) <==> CutsBetween(fragments)
    ensures |Concat(DecodeEach(fragments))| >= |Decode(Concat(fragments))|
    ensures !CutsBetween(fragments) ==> |Concat(DecodeEach(fragments))| > |Decode(Concat(fragments))|
  {
    if fragments == [] {
      assert CutAfter(fragments, 0) == 0;
    } else {
      var n := |fragments| - 1;
      var earlier, last := fragments[..n], fragments[n];
      DecodeEachIff(earlier);
      CutsBetweenNext(fragments);
      DecodeCut(Concat(earlier), last);
      assert DecodeEach(fragments)[..n] == DecodeEach(earlier) && DecodeEach(fragments)[n] == Decode(last);
    }
  }
}
