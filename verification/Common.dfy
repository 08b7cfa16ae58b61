/** Vocabulary shared by the models: optional values, and the string operations that several components call. */
module Common {

  datatype Option<+T> = None | Some(value: T)

  /** The first position of `c` in `s`, or `|s|` when it does not occur. */
  function Find(s: string, c: char): (i: nat)
    ensures i <= |s|
    ensures forall j :: 0 <= j < i ==> s[j] != c
    ensures i < |s| ==> s[i] == c
  {
    if s == "" || s[0] == c then 0 else 1 + Find(s[1..], c)
  }

  predicate AllOf(s: string, p: char -> bool) {
    forall i :: 0 <= i < |s| ==> p(s[i])
  }

  /** `s` without its leading characters of class `ws`. */
  function TrimStart(s: string, ws: char -> bool): (r: string)
    ensures |r| <= |s| && r == s[|s| - |r|..]
    ensures AllOf(s[..|s| - |r|], ws)
    ensures r != "" ==> !ws(r[0])
  {
    if s != "" && ws(s[0]) then
      var r := TrimStart(s[1..], ws);
      assert s[..|s| - |r|] == [s[0]] + s[1..][..|s| - 1 - |r|];
      r
    else s
  }

  /** `s` without its trailing characters of class `ws`. */
  function TrimEnd(s: string, ws: char -> bool): (r: string)
    ensures |r| <= |s| && r == s[..|r|]
    ensures AllOf(s[|r|..], ws)
    ensures r != "" ==> !ws(r[|r| - 1])
  {
    if s != "" && ws(s[|s| - 1]) then TrimEnd(s[..|s| - 1], ws) else s
  }

  function Trim(s: string, ws: char -> bool): (r: string)
    ensures |r| <= |s|
    ensures r != "" ==> !ws(r[0]) && !ws(r[|r| - 1])
  {
    TrimEnd(TrimStart(s, ws), ws)
  }

  /** A string that neither starts nor ends with `ws` is its own trimming. */
  lemma {:induction false} TrimIsIdentity(s: string, ws: char -> bool)
    requires s != "" ==> !ws(s[0]) && !ws(s[|s| - 1])
    ensures Trim(s, ws) == s
  {
  }

  lemma {:induction false} TrimShrinks(s: string, ws: char -> bool)
    requires s != "" && ws(s[|s| - 1])
    ensures |Trim(s, ws)| < |s|
  {
  }

  /** Trimming the end stops at any character outside `ws`. */
  lemma {:induction false} TrimEndKeeps(s: string, ws: char -> bool, k: nat)
    requires k < |s| && !ws(s[k])
    ensures |TrimEnd(s, ws)| > k
  {
  }

  function LowerChar(c: char): char {
    if 'A' <= c <= 'Z' then c + ('a' - 'A') else c
  }

  /** ASCII lowercase, letter by letter. */
  function Lower(s: string): (r: string)
    ensures |r| == |s|
    ensures forall i :: 0 <= i < |s| ==> r[i] == LowerChar(s[i])
  {
    seq(|s|, i requires 0 <= i < |s| => LowerChar(s[i]))
  }

  lemma {:induction false} LowerFixed(t: string, k: nat)
    requires k <= |t|
    ensures Lower(Lower(t)[..k]) == Lower(t)[..k]
  {
  }
}
