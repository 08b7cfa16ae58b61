/** Russian numerals: the printer `num_to_words`, and a reader that knows the grammar of numerals. Each Russian word
    is a token; joining with spaces is concatenation. */
module Numerals {
  import opened Common

  type Digit = d: nat | 1 <= d <= 9 witness 1

  /** The three forms of a scale word, as after 1, after 2-4 and after the rest. */
  datatype Form = One | Few | Many

  /** `Unit` is masculine, `UnitF` the feminine forms of 1 and 2; `Teen(d)` is 10 + d; `Scale(k, _)` is 1000^k. */
  datatype Word =
    | Zero | Minus
    | Unit(d: Digit) | UnitF(d: Digit) | Teen(t: nat) | Ten(d: Digit) | Hundred(d: Digit)
    | Scale(k: nat, form: Form)

  const LIMIT := 1_000_000_000_000

  function Power(k: nat): nat {
    if k == 0 then 1 else if k == 1 then 1000 else if k == 2 then 1_000_000 else if k == 3 then 1_000_000_000 else LIMIT
  }

  // ---------------------------------------------------------------- the printer

  function BelowHundredWords(n: nat, feminine: bool): seq<Word>
    requires n < 100
  {
    if 10 <= n <= 19 then [Teen(n - 10)]
    else
      (if n >= 10 then [Ten(n / 10)] else [])
      + (if n % 10 == 0 then [] else if feminine && n % 10 <= 2 then [UnitF(n % 10)] else [Unit(n % 10)])
  }

  function GroupWords(n: nat, feminine: bool): seq<Word>
    requires n < 1000
  {
    if n >= 100 then [Hundred(n / 100)] + BelowHundredWords(n % 100, feminine) else BelowHundredWords(n, feminine)
  }

  function Decline(n: nat): Form {
    var m := n % 100;
    if 11 <= m <= 19 then Many
    else if m % 10 == 1 then One
    else if 2 <= m % 10 <= 4 then Few
    else Many
  }

  /** The words of a positive `n` whose scale words are at most 1000^k; only thousands are feminine. */
  function ScaledWords(n: nat, k: nat): seq<Word>
    requires k <= 3 && n < Power(k + 1)
  {
    if k == 0 then GroupWords(n, false)
    else if n >= Power(k) then
      GroupWords(n / Power(k), k == 1) + [Scale(k, Decline(n / Power(k)))] + ScaledWords(n % Power(k), k - 1)
    else ScaledWords(n, k - 1)
  }

  function NumeralWords(n: int): seq<Word>
    requires -LIMIT < n < LIMIT
  {
    if n == 0 then [Zero] else if n < 0 then [Minus] + ScaledWords(-n, 3) else ScaledWords(n, 3)
  }

  /** `None` stands for the IndexError of looking up a hundreds word past nine hundred. */
  method NumGroup(n0: nat, feminine: bool) returns (r: Option<seq<Word>>)
    ensures r == if n0 < 1000 then Some(GroupWords(n0, feminine)) else None
  {
    var n := n0;
    if n == 0 {
      return Some([]);
    }
    var parts: seq<Word> := [];
    if n >= 100 {
      if n / 100 > 9 {
        return None;
      }
      parts := parts + [Hundred(n / 100)];
      n := n % 100;
    }
    if 10 <= n <= 19 {
      parts := parts + [Teen(n - 10)];
      assert parts == GroupWords(n0, feminine);
      return Some(parts);
    }
    if n >= 10 {
      parts := parts + [Ten(n / 10)];
      n := n % 10;
    }
    if n > 0 {
      if feminine && n <= 2 {
        parts := parts + [UnitF(n)];
      } else {
        parts := parts + [Unit(n)];
      }
    }
    assert parts == GroupWords(n0, feminine);
    return Some(parts);
  }

  /** One scale step of the printer, with what was printed before. */
  lemma {:induction false} ScaledUnfold(parts: seq<Word>, n: nat, k: nat)
    requires 0 < k <= 3 && n < Power(k + 1)
    ensures n / Power(k) < 1000 && n % Power(k) < Power(k)
    ensures parts + ScaledWords(n, k) ==
            if n >= Power(k) then
              (parts + GroupWords(n / Power(k), k == 1) + [Scale(k, Decline(n / Power(k)))])
              + ScaledWords(n % Power(k), k - 1)
            else parts + ScaledWords(n, k - 1)
  {
  }

  /** Total exactly below 10^12 in absolute value, and read back to `n` by the reader below. */
  method NumToWords(n: int) returns (r: Option<seq<Word>>)
    ensures r.Some? <==> -LIMIT < n < LIMIT
    ensures r.Some? ==> r.value == NumeralWords(n) && ReadNumeral(r.value) == Some(n)
    decreases n < 0
  {
    if -LIMIT < n < LIMIT {
      ReadsBack(n);
    }
    if n == 0 {
      return Some([Zero]);
    }
    if n < 0 {
      var positive := NumToWords(-n);
      if positive.None? {
        return None;
      }
      return Some([Minus] + positive.value);
    }
    r := PositiveToWords(n);
  }

  method PositiveToWords(n0: nat) returns (r: Option<seq<Word>>)
    ensures r == if n0 < LIMIT then Some(ScaledWords(n0, 3)) else None
  {
    var parts, n := TakeScale([], n0, 3);
    if parts.None? {
      return None;
    }
    parts, n := TakeScale(parts.value, n, 2);
    parts, n := TakeScale(parts.value, n, 1);
    var remainder := NumGroup(n, false);
    if remainder.value != [] {
      parts := Some(parts.value + remainder.value);
    }
    assert [] + ScaledWords(n0, 3) == ScaledWords(n0, 3) && ScaledWords(n, 0) == GroupWords(n, false);
    assert remainder.value == [] ==> parts.value + remainder.value == parts.value;
    return parts;
  }

  /** The thousands, millions or milliards of `n0`, when there are any; `None` when there are too many of them. */
  method TakeScale(parts0: seq<Word>, n0: nat, k: nat) returns (parts: Option<seq<Word>>, n: nat)
    requires 0 < k <= 3
    ensures parts.None? <==> n0 >= Power(k + 1)
    ensures parts.Some? ==> n < Power(k) && parts0 + ScaledWords(n0, k) == parts.value + ScaledWords(n, k - 1)
  {
    ScaleCount(n0, k);
    if n0 < Power(k) {
      ScaledUnfold(parts0, n0, k);
      return Some(parts0), n0;
    }
    var count := n0 / Power(k);
    var words := NumGroup(count, k == 1);
    if words.None? {
      return None, 0;
    }
    ScaledUnfold(parts0, n0, k);
    return Some(parts0 + words.value + [Scale(k, Decline(count))]), n0 % Power(k);
  }

  lemma {:induction false} ScaleCount(n: nat, k: nat)
    requires 0 < k <= 3
    ensures n / Power(k) < 1000 <==> n < Power(k + 1)
  {
    if k == 1 {
    } else if k == 2 {
    } else {
    }
  }

  // ---------------------------------------------------------------- the reader

  function Face(w: Word): nat
    requires w.Unit? || w.UnitF? || w.Ten? || w.Hundred?
  {
    w.d
  }

  /** A unit in the gender asked for; nothing reads as 0. */
  function ReadUnit(ws: seq<Word>, feminine: bool): Option<nat> {
    if ws == [] then Some(0)
    else if |ws| == 1 && ws[0].Unit? && !(feminine && ws[0].d <= 2) then Some(Face(ws[0]))
    else if |ws| == 1 && ws[0].UnitF? && feminine && ws[0].d <= 2 then Some(Face(ws[0]))
    else None
  }

  function ReadBelowHundred(ws: seq<Word>, feminine: bool): Option<nat> {
    if ws != [] && ws[0].Teen? then (if |ws| == 1 && ws[0].t <= 9 then Some(10 + ws[0].t) else None)
    else if ws != [] && ws[0].Ten? then
      var u := ReadUnit(ws[1..], feminine);
      if u.Some? && ws[0].d >= 2 then Some(10 * Face(ws[0]) + u.value) else None
    else ReadUnit(ws, feminine)
  }

  function ReadGroup(ws: seq<Word>, feminine: bool): (r: Option<nat>)
    ensures r.Some? ==> r.value < 1000
  {
    if ws != [] && ws[0].Hundred? then
      var u := ReadBelowHundred(ws[1..], feminine);
      if u.Some? then Some(100 * Face(ws[0]) + u.value) else None
    else ReadBelowHundred(ws, feminine)
  }

  /** Where the first scale word for 1000^k stands; `|ws|` when there is none. */
  function FindScale(ws: seq<Word>, k: nat): (i: nat)
    ensures i <= |ws|
    ensures i < |ws| ==> ws[i].Scale? && ws[i].k == k
    ensures forall j :: 0 <= j < i ==> !(ws[j].Scale? && ws[j].k == k)
  {
    if ws == [] || (ws[0].Scale? && ws[0].k == k) then 0 else 1 + FindScale(ws[1..], k)
  }

  /** The grammar: the last word counted decides the form of the scale word. */
  function FormAfter(last: Word): Form {
    if (last.Unit? || last.UnitF?) && last.d == 1 then One
    else if (last.Unit? || last.UnitF?) && last.d <= 4 then Few
    else Many
  }

  /** A numeral whose scale words are at most 1000^k, in falling order, each after a positive group in its gender
      and in the form its last word asks for. */
  function ReadScaled(ws: seq<Word>, k: nat): (r: Option<nat>)
    requires k <= 3
    ensures r.Some? ==> r.value < Power(k + 1)
  {
    if k == 0 then ReadGroup(ws, false)
    else
      var i := FindScale(ws, k);
      if i == |ws| then ReadScaled(ws, k - 1)
      else
        var group := ReadGroup(ws[..i], k == 1);
        var rest := ReadScaled(ws[i + 1..], k - 1);
        if group.Some? && group.value > 0 && i > 0 && ws[i].form == FormAfter(ws[i - 1]) && rest.Some? then
          Some(group.value * Power(k) + rest.value)
        else None
  }

  function ReadPositive(ws: seq<Word>): Option<nat> {
    var n := ReadScaled(ws, 3);
    if n == Some(0) then None else n
  }

  function ReadNumeral(ws: seq<Word>): Option<int> {
    if ws == [Zero] then Some(0)
    else if ws != [] && ws[0] == Minus then
      var n := ReadPositive(ws[1..]);
      if n.Some? then var m: int := n.value; Some(-m) else None
    else
      var n := ReadPositive(ws);
      if n.Some? then var m: int := n.value; Some(m) else None
  }

  // ---------------------------------------------------------------- printing and reading are inverse

  lemma {:induction false} GroupReadsBack(n: nat, feminine: bool)
    requires n < 1000
    ensures ReadGroup(GroupWords(n, feminine), feminine) == Some(n)
    ensures forall w :: w in GroupWords(n, feminine) ==> !w.Scale? && w != Minus && w != Zero
    ensures n > 0 ==> GroupWords(n, feminine) != []
                      && FormAfter(GroupWords(n, feminine)[|GroupWords(n, feminine)| - 1]) == Decline(n)
  {
    BelowHundredReadsBack(n % 100, feminine);
    assert Decline(n) == Decline(n % 100);
    if n >= 100 {
      HundredReadsBack(n / 100, n % 100, BelowHundredWords(n % 100, feminine), feminine);
    } else {
      assert n % 100 == n;
      BelowHasNoHundred(BelowHundredWords(n, feminine), feminine);
    }
  }

  lemma {:induction false} BelowHasNoHundred(ws: seq<Word>, feminine: bool)
    requires forall w :: w in ws ==> !w.Hundred?
    ensures ReadGroup(ws, feminine) == ReadBelowHundred(ws, feminine)
  {
  }

  lemma {:induction false} HundredReadsBack(h: Digit, n: nat, ws: seq<Word>, feminine: bool)
    requires n < 100 && ReadBelowHundred(ws, feminine) == Some(n) && (n > 0 ==> ws != [])
    requires ws == [] || FormAfter(ws[|ws| - 1]) == Decline(n)
    ensures ReadGroup([Hundred(h)] + ws, feminine) == Some(100 * h + n)
    ensures var all := [Hundred(h)] + ws; FormAfter(all[|all| - 1]) == Decline(n)
  {
  }

  lemma {:induction false} BelowHundredReadsBack(n: nat, feminine: bool)
    requires n < 100
    ensures var ws := BelowHundredWords(n, feminine);
            && ReadBelowHundred(ws, feminine) == Some(n)
            && (forall w :: w in ws ==> !w.Scale? && w != Minus && w != Zero && !w.Hundred?)
            && (n > 0 <==> ws != []) && (ws != [] ==> FormAfter(ws[|ws| - 1]) == Decline(n))
  {
    if n < 20 {
      BelowTwentyReadsBack(n, feminine);
    } else {
      BelowTwentyReadsBack(n % 10, feminine);
      TensReadBack(n, feminine);
    }
  }

  lemma {:induction false} BelowTwentyReadsBack(n: nat, feminine: bool)
    requires n < 20
    ensures var ws := BelowHundredWords(n, feminine);
            && ReadBelowHundred(ws, feminine) == Some(n) && (n < 10 ==> ReadUnit(ws, feminine) == Some(n))
            && (forall w :: w in ws ==> !w.Scale? && w != Minus && w != Zero && !w.Hundred?)
            && (n > 0 <==> ws != []) && (ws != [] ==> FormAfter(ws[|ws| - 1]) == Decline(n))
  {
    var ws := BelowHundredWords(n, feminine);
    if n >= 10 {
      assert ws == [Teen(n - 10)];
    } else if n > 0 {
      assert ws == [if feminine && n <= 2 then UnitF(n) else Unit(n)];
    } else {
      assert ws == [];
    }
  }

  lemma {:induction false} TensReadBack(n: nat, feminine: bool)
    requires 20 <= n < 100 && ReadUnit(BelowHundredWords(n % 10, feminine), feminine) == Some(n % 10)
    ensures var ws := BelowHundredWords(n, feminine);
            && ws == [Ten(n / 10)] + BelowHundredWords(n % 10, feminine) && ReadBelowHundred(ws, feminine) == Some(n)
            && FormAfter(ws[|ws| - 1]) == Decline(n)
  {
    var ws := BelowHundredWords(n, feminine);
    assert ws[1..] == BelowHundredWords(n % 10, feminine);
  }

  lemma {:induction false} FindScaleAfter(ws: seq<Word>, k: nat, form: Form, rest: seq<Word>)
    requires forall w :: w in ws ==> !w.Scale?
    ensures FindScale(ws + [Scale(k, form)] + rest, k) == |ws|
  {
    var all := ws + [Scale(k, form)] + rest;
    assert all[|ws|] == Scale(k, form);
    assert forall j :: 0 <= j < |ws| ==> all[j] in ws;
  }

  lemma {:induction false} ScaleStepReads(g: seq<Word>, form: Form, rest: seq<Word>, k: nat, v: nat, r: nat)
    requires 0 < k <= 3 && g != [] && forall w :: w in g ==> !w.Scale?
    requires ReadGroup(g, k == 1) == Some(v) && v > 0 && FormAfter(g[|g| - 1]) == form
    requires ReadScaled(rest, k - 1) == Some(r)
    ensures ReadScaled(g + [Scale(k, form)] + rest, k) == Some(v * Power(k) + r)
  {
    FindScaleAfter(g, k, form, rest);
    AroundScale(g, Scale(k, form), rest);
    ReadAtScale(g + [Scale(k, form)] + rest, |g|, k, v, r);
  }

  lemma {:induction false} ReadAtScale(ws: seq<Word>, i: nat, k: nat, v: nat, r: nat)
    requires 0 < k <= 3 && 0 < i < |ws| && FindScale(ws, k) == i
    requires ReadGroup(ws[..i], k == 1) == Some(v) && v > 0 && ws[i].form == FormAfter(ws[i - 1])
    requires ReadScaled(ws[i + 1..], k - 1) == Some(r)
    ensures ReadScaled(ws, k) == Some(v * Power(k) + r)
  {
  }

  lemma {:induction false} AroundScale(g: seq<Word>, scale: Word, rest: seq<Word>)
    requires g != []
    ensures var ws := g + [scale] + rest;
            ws[..|g|] == g && ws[|g| + 1..] == rest && ws[|g|] == scale && ws[|g| - 1] == g[|g| - 1]
  {
  }

  lemma {:induction false} FindScaleNone(ws: seq<Word>, k: nat)
    requires forall w :: w in ws ==> (w.Scale? ==> w.k < k)
    ensures FindScale(ws, k) == |ws|
  {
  }

  predicate SmallerScales(ws: seq<Word>, k: nat) {
    forall w :: w in ws ==> (w.Scale? ==> w.k <= k) && w != Minus && w != Zero
  }

  /** Without its scale word, level `k` reads as the level below. */
  lemma {:induction false} ReadWithout(ws: seq<Word>, k: nat)
    requires 0 < k <= 3 && FindScale(ws, k) == |ws|
    ensures ReadScaled(ws, k) == ReadScaled(ws, k - 1)
  {
  }

  lemma {:induction false} PrintsSmallerScales(n: nat, k: nat)
    requires k <= 3 && n < Power(k + 1)
    ensures SmallerScales(ScaledWords(n, k), k)
  {
    if k == 0 {
      GroupReadsBack(n, false);
    } else {
      Quotient(n, k);
      if n >= Power(k) {
        GroupReadsBack(n / Power(k), k == 1);
        PrintsSmallerScales(n % Power(k), k - 1);
      } else {
        PrintsSmallerScales(n, k - 1);
      }
    }
  }

  lemma {:induction false} ScaledReadsBack(n: nat, k: nat)
    requires k <= 3 && n < Power(k + 1)
    ensures ReadScaled(ScaledWords(n, k), k) == Some(n)
  {
    if k == 0 {
      GroupReadsBack(n, false);
    } else if n >= Power(k) {
      var b, rest := n / Power(k), n % Power(k);
      Quotient(n, k);
      GroupReadsBack(b, k == 1);
      ScaledReadsBack(rest, k - 1);
      ScaleStepReads(GroupWords(b, k == 1), Decline(b), ScaledWords(rest, k - 1), k, b, rest);
    } else {
      var ws := ScaledWords(n, k - 1);
      ScaledReadsBack(n, k - 1);
      PrintsSmallerScales(n, k - 1);
      FindScaleNone(ws, k);
      ReadWithout(ws, k);
    }
  }

  /** Reading a printed numeral gives back the number. */
  lemma {:induction false} ReadsBack(n: int)
    requires -LIMIT < n < LIMIT
    ensures ReadNumeral(NumeralWords(n)) == Some(n)
  {
    if n > 0 {
      PositiveReadsBack(n);
      SignReads(ScaledWords(n, 3), n);
    } else if n < 0 {
      PositiveReadsBack(-n);
      SignReads(ScaledWords(-n, 3), -n);
    }
  }

  lemma {:induction false} SignReads(ws: seq<Word>, n: nat)
    requires ReadPositive(ws) == Some(n) && ws != [Zero] && (ws != [] ==> ws[0] != Minus)
    ensures var m: int := n; ReadNumeral(ws) == Some(m) && ReadNumeral([Minus] + ws) == Some(-m)
  {
    var signed := [Minus] + ws;
    assert signed[0] == Minus && signed[1..] == ws && signed != [Zero];
  }

  lemma {:induction false} PositiveReadsBack(n: nat)
    requires 0 < n < LIMIT
    ensures var ws := ScaledWords(n, 3);
            ReadPositive(ws) == Some(n) && ws != [Zero] && (ws != [] ==> ws[0] != Minus)
  {
    var ws := ScaledWords(n, 3);
    ScaledReadsBack(n, 3);
    PrintsSmallerScales(n, 3);
    if ws != [] {
      assert ws[0] in ws;
    }
  }

  lemma {:induction false} GroupUnique(a: seq<Word>, b: seq<Word>, feminine: bool)
    requires ReadGroup(a, feminine).Some? && ReadGroup(a, feminine) == ReadGroup(b, feminine)
    ensures a == b
  {
    ReadGroupParts(a, feminine);
    ReadGroupParts(b, feminine);
    var x, y := Hundreds(a), Hundreds(b);
    BelowHundredUnique(a[|x|..], b[|y|..], feminine);
    assert a == x + a[|x|..] && b == y + b[|y|..];
  }

  /** The word for the hundreds, if there is one. */
  function Hundreds(ws: seq<Word>): seq<Word> {
    if ws != [] && ws[0].Hundred? then [ws[0]] else []
  }

  lemma {:induction false} ReadGroupParts(ws: seq<Word>, feminine: bool)
    requires ReadGroup(ws, feminine).Some?
    ensures var x, n := Hundreds(ws), ReadGroup(ws, feminine).value;
            && ws == x + ws[|x|..] && ReadBelowHundred(ws[|x|..], feminine) == Some(n % 100)
            && (if x == [] then n < 100 else x[0] == Hundred(n / 100) && n >= 100)
  {
    if Hundreds(ws) != [] {
      HundredParts(ws, feminine);
    } else {
      ReadBelowHundredBound(ws, feminine);
      assert ws[0..] == ws;
    }
  }

  lemma {:induction false} HundredParts(ws: seq<Word>, feminine: bool)
    requires ws != [] && ws[0].Hundred? && ReadGroup(ws, feminine).Some?
    ensures var n := ReadGroup(ws, feminine).value;
            ws == [ws[0]] + ws[1..] && ReadBelowHundred(ws[1..], feminine) == Some(n % 100)
            && ws[0] == Hundred(n / 100) && n >= 100
  {
    ReadBelowHundredBound(ws[1..], feminine);
    var u := ReadBelowHundred(ws[1..], feminine).value;
    assert ReadGroup(ws, feminine).value == 100 * ws[0].d + u;
  }

  lemma {:induction false} ReadBelowHundredBound(ws: seq<Word>, feminine: bool)
    ensures ReadBelowHundred(ws, feminine).Some? ==> ReadBelowHundred(ws, feminine).value < 100
  {
  }

  lemma {:induction false} BelowHundredUnique(a: seq<Word>, b: seq<Word>, feminine: bool)
    requires ReadBelowHundred(a, feminine).Some? && ReadBelowHundred(a, feminine) == ReadBelowHundred(b, feminine)
    ensures a == b
  {
  }

  lemma {:induction false} QuotientUnique(k: nat, v1: nat, r1: nat, v2: nat, r2: nat)
    requires 0 < k <= 3 && r1 < Power(k) && r2 < Power(k) && v1 * Power(k) + r1 == v2 * Power(k) + r2
    ensures v1 == v2 && r1 == r2
  {
  }

  lemma {:induction false} Quotient(n: nat, k: nat)
    requires 0 < k <= 3 && n < Power(k + 1)
    ensures n / Power(k) < 1000 && n % Power(k) < Power(k)
    ensures (n / Power(k)) * Power(k) + n % Power(k) == n
    ensures n >= Power(k) ==> n / Power(k) > 0
  {
  }

  lemma {:induction false} SplitUnique(a: seq<Word>, i: nat, b: seq<Word>, j: nat, k: nat)
    requires 0 < k <= 3 && i == FindScale(a, k) < |a| && j == FindScale(b, k) < |b|
    requires ReadScaled(a, k).Some? && ReadScaled(a, k) == ReadScaled(b, k)
    ensures a[..i] == b[..j] && a[i] == b[j]
    ensures ReadScaled(a[i + 1..], k - 1).Some? && ReadScaled(a[i + 1..], k - 1) == ReadScaled(b[j + 1..], k - 1)
  {
    var va, ra := ReadGroup(a[..i], k == 1).value, ReadScaled(a[i + 1..], k - 1).value;
    var vb, rb := ReadGroup(b[..j], k == 1).value, ReadScaled(b[j + 1..], k - 1).value;
    QuotientUnique(k, va, ra, vb, rb);
    GroupUnique(a[..i], b[..j], k == 1);
    LastOfTake(a, i);
    LastOfTake(b, j);
  }

  lemma {:induction false} LastOfTake(a: seq<Word>, i: nat)
    requires 0 < i < |a|
    ensures a[..i][|a[..i]| - 1] == a[i - 1]
  {
  }

  lemma {:induction false} EqualPieces(a: seq<Word>, i: nat, b: seq<Word>, j: nat)
    requires i < |a| && j < |b| && a[..i] == b[..j] && a[i] == b[j] && a[i + 1..] == b[j + 1..]
    ensures a == b
  {
  }

  lemma {:induction false} ScaledUnique(a: seq<Word>, b: seq<Word>, k: nat)
    requires k <= 3
    requires ReadScaled(a, k).Some? && ReadScaled(a, k) == ReadScaled(b, k)
    ensures a == b
  {
    if k == 0 {
      GroupUnique(a, b, false);
    } else {
      var i, j := FindScale(a, k), FindScale(b, k);
      ScaledNeedsScale(a, k);
      ScaledNeedsScale(b, k);
      if i < |a| {
        SplitUnique(a, i, b, j, k);
        ScaledUnique(a[i + 1..], b[j + 1..], k - 1);
        EqualPieces(a, i, b, j);
      } else {
        ReadWithout(a, k);
        ReadWithout(b, k);
        ScaledUnique(a, b, k - 1);
      }
    }
  }

  /** Only a numeral with the scale word for 1000^k reaches 1000^k. */
  lemma {:induction false} ScaledNeedsScale(ws: seq<Word>, k: nat)
    requires 0 < k <= 3 && ReadScaled(ws, k).Some?
    ensures FindScale(ws, k) < |ws| <==> ReadScaled(ws, k).value >= Power(k)
  {
  }

  /** Only one sequence of words reads as a given number: the reader accepts what the printer prints, and no more. */
  lemma {:induction false} ReaderAcceptsOnlyPrinted(ws: seq<Word>)
    requires ReadNumeral(ws).Some?
    ensures -LIMIT < ReadNumeral(ws).value < LIMIT && ws == NumeralWords(ReadNumeral(ws).value)
  {
    if ws != [] && ws[0] == Minus {
      NegativeUnique(ws);
    } else if ws != [Zero] {
      PositiveUnique(ws, ReadNumeral(ws).value);
    }
  }

  lemma {:induction false} NegativeUnique(ws: seq<Word>)
    requires ws != [] && ws[0] == Minus && ReadPositive(ws[1..]).Some?
    ensures var n := ReadPositive(ws[1..]).value; 0 < n < LIMIT && ws == [Minus] + ScaledWords(n, 3)
  {
    PositiveUnique(ws[1..], ReadPositive(ws[1..]).value);
    assert ws == [ws[0]] + ws[1..];
  }

  lemma {:induction false} PositiveUnique(ws: seq<Word>, n: nat)
    requires ReadPositive(ws) == Some(n)
    ensures 0 < n < LIMIT && ws == ScaledWords(n, 3)
  {
    ScaledReadsBack(n, 3);
    ScaledUnique(ws, ScaledWords(n, 3), 3);
  }
}
