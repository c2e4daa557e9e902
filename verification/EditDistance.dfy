/** The Levenshtein distance of name screening: the dynamic-programming table
    computes the length of the shortest edit script, and that length is a metric. */
module EditDistance {
  import opened Prelude

  /** Cost of aligning two characters. */
  function Cost(a: char, b: char): nat { if a == b then 0 else 1 }

  /** The cheapest of deleting `x`, inserting `y`, and aligning the two, after what came before. */
  function Cheapest(deleted: nat, inserted: nat, aligned: nat, x: char, y: char): nat {
    MinOf(MinOf(deleted + 1, inserted + 1), aligned + Cost(x, y))
  }

  /** All but the last character. */
  function Init(s: string): string
    requires |s| > 0
  {
    s[..|s| - 1]
  }

  function Last(s: string): char
    requires |s| > 0
  {
    s[|s| - 1]
  }

  /** The recurrence that the table follows, on whole strings. */
  function Distance(s: string, t: string): nat
    decreases |s| + |t|
  {
    if s == [] then |t|
    else if t == [] then |s|
    else
      Cheapest(Distance(Init(s), t), Distance(s, Init(t)), Distance(Init(s), Init(t)), Last(s), Last(t))
  }

  // ----- Edit scripts: what the distance is supposed to measure -----

  /** One edit of a string, at a position. */
  datatype Edit =
    | Insert(pos: nat, c: char)
    | Delete(pos: nat)
    | Substitute(pos: nat, c: char)

  predicate Applicable(e: Edit, s: string) {
    if e.Insert? then e.pos <= |s| else e.pos < |s|
  }

  function Apply(e: Edit, s: string): string
    requires Applicable(e, s)
  {
    match e
    case Insert(p, c) => s[..p] + [c] + s[p..]
    case Delete(p) => s[..p] + s[p + 1..]
    case Substitute(p, c) => s[..p] + [c] + s[p + 1..]
  }

  /** A list of edits, each applied to the result of the one before it. */
  datatype Script = Done | Then(first: Edit, rest: Script) {
    function Length(): nat {
      if Done? then 0 else 1 + rest.Length()
    }

    function Append(e: Edit): Script {
      if Done? then Then(e, Done) else Then(first, rest.Append(e))
    }
  }

  /** `script` turns `s` into `t`. */
  predicate Transforms(script: Script, s: string, t: string) {
    match script
    case Done => s == t
    case Then(e, rest) => Applicable(e, s) && Transforms(rest, Apply(e, s), t)
  }

  lemma {:induction false} TransformsAppend(script: Script, e: Edit, s: string, t: string)
    requires Transforms(script, s, t) && Applicable(e, t)
    ensures Transforms(script.Append(e), s, Apply(e, t))
    ensures script.Append(e).Length() == script.Length() + 1
  {
    if script.Then? {
      TransformsAppend(script.rest, e, Apply(script.first, s), t);
    }
  }

  /** A script never needs to look at a common last character. */
  lemma {:induction false} TransformsUnderSuffix(script: Script, s: string, t: string, c: char)
    requires Transforms(script, s, t)
    ensures Transforms(script, s + [c], t + [c])
  {
    if script.Then? {
      assert Apply(script.first, s + [c]) == Apply(script.first, s) + [c];
      TransformsUnderSuffix(script.rest, Apply(script.first, s), t, c);
    }
  }

  lemma {:induction false} AlignLast(rest: Script, s: string, t: string) returns (script: Script)
    requires s != [] && t != [] && Transforms(rest, Init(s), Init(t))
    ensures Transforms(script, s, t) && script.Length() == rest.Length() + Cost(Last(s), Last(t))
  {
    TransformsUnderSuffix(rest, Init(s), Init(t), Last(t));
    assert Init(t) + [Last(t)] == t;
    if Last(s) == Last(t) {
      assert Init(s) + [Last(t)] == s;
      script := rest;
    } else {
      script := Then(Substitute(|s| - 1, Last(t)), rest);
      assert Apply(script.first, s) == Init(s) + [Last(t)];
    }
  }

  lemma DeleteLast(rest: Script, s: string, t: string) returns (script: Script)
    requires s != [] && Transforms(rest, Init(s), t)
    ensures Transforms(script, s, t) && script.Length() == rest.Length() + 1
  {
    script := Then(Delete(|s| - 1), rest);
    assert Apply(script.first, s) == Init(s);
  }

  lemma InsertLast(rest: Script, s: string, t: string) returns (script: Script)
    requires t != [] && Transforms(rest, s, Init(t))
    ensures Transforms(script, s, t) && script.Length() == rest.Length() + 1
  {
    var e := Insert(|t| - 1, Last(t));
    assert Apply(e, Init(t)) == t;
    TransformsAppend(rest, e, s, Init(t));
    script := rest.Append(e);
  }

  /** Upper half of optimality: a script as long as the distance exists. */
  lemma {:induction false} ShortestScript(s: string, t: string) returns (script: Script)
    ensures Transforms(script, s, t) && script.Length() == Distance(s, t)
    decreases |s| + |t|
  {
    if s == [] && t == [] {
      script := Done;
    } else if t == [] || (s != [] && Distance(s, t) == Distance(Init(s), t) + 1) {
      var rest := ShortestScript(Init(s), t);
      script := DeleteLast(rest, s, t);
    } else if s == [] || Distance(s, t) == Distance(s, Init(t)) + 1 {
      var rest := ShortestScript(s, Init(t));
      script := InsertLast(rest, s, t);
    } else {
      var rest := ShortestScript(Init(s), Init(t));
      script := AlignLast(rest, s, t);
    }
  }

  // ----- The distance is a metric -----

  lemma {:induction false} DistanceBounds(s: string, t: string)
    ensures |s| - |t| <= Distance(s, t) && |t| - |s| <= Distance(s, t)
    ensures Distance(s, t) <= MaxOf(|s|, |t|)
    decreases |s| + |t|
  {
    if s != [] && t != [] {
      DistanceBounds(Init(s), t);
      DistanceBounds(s, Init(t));
      DistanceBounds(Init(s), Init(t));
    }
  }

  lemma {:induction false} DistanceZero(s: string, t: string)
    ensures Distance(s, t) == 0 <==> s == t
    decreases |s| + |t|
  {
    if s != [] && t != [] {
      DistanceZero(Init(s), Init(t));
      assert s == Init(s) + [Last(s)] && t == Init(t) + [Last(t)];
    }
  }

  lemma {:induction false} DistanceSymmetric(s: string, t: string)
    ensures Distance(s, t) == Distance(t, s)
    decreases |s| + |t|
  {
    if s != [] && t != [] {
      DistanceSymmetric(Init(s), t);
      DistanceSymmetric(s, Init(t));
      DistanceSymmetric(Init(s), Init(t));
    }
  }

  /** Editing through an intermediate string is never cheaper. */
  lemma {:induction false} TriangleInequality(a: string, b: string, c: string)
    ensures Distance(a, c) <= Distance(a, b) + Distance(b, c)
    decreases |a| + |b| + |c|
  {
    DistanceBounds(a, b);
    DistanceBounds(b, c);
    DistanceBounds(a, c);
    if a != [] && b != [] && c != [] {
      if Distance(a, b) == Distance(Init(a), b) + 1 {
        TriangleInequality(Init(a), b, c);
      } else if Distance(b, c) == Distance(b, Init(c)) + 1 {
        TriangleInequality(a, b, Init(c));
      } else if Distance(a, b) == Distance(a, Init(b)) + 1 {
        if Distance(b, c) == Distance(Init(b), c) + 1 {
          TriangleInequality(a, Init(b), c);
        } else {
          TriangleInequality(a, Init(b), Init(c));
        }
      } else if Distance(b, c) == Distance(Init(b), c) + 1 {
        TriangleInequality(Init(a), Init(b), c);
      } else {
        TriangleInequality(Init(a), Init(b), Init(c));
      }
    }
  }

  lemma {:induction false} DistanceUnderSuffix(s: string, t: string, q: string)
    ensures Distance(s + q, t + q) <= Distance(s, t)
    decreases |q|
  {
    if q == [] {
      assert s + q == s && t + q == t;
    } else {
      DistanceUnderSuffix(s, t, Init(q));
      assert Init(s + q) == s + Init(q) && Init(t + q) == t + Init(q);
      assert Last(s + q) == Last(q) == Last(t + q);
    }
  }

  lemma OneMoreCharacter(p: string, c: char)
    ensures Distance(p + [c], p) <= 1
  {
    if p != [] {
      DistanceZero(p, p);
      assert Init(p + [c]) == p;
    }
  }

  lemma OtherLastCharacter(p: string, x: char, c: char)
    ensures Distance(p + [x], p + [c]) <= 1
  {
    DistanceZero(p, p);
    assert Init(p + [x]) == p && Init(p + [c]) == p;
  }

  /** One edit moves a string by at most one. */
  lemma OneEditDistance(e: Edit, s: string)
    requires Applicable(e, s)
    ensures Distance(s, Apply(e, s)) <= 1
  {
    var p := s[..e.pos];
    if e.Insert? {
      assert s == p + s[e.pos..];
      OneMoreCharacter(p, e.c);
      DistanceSymmetric(p, p + [e.c]);
      DistanceUnderSuffix(p, p + [e.c], s[e.pos..]);
    } else {
      var x, q := s[e.pos], s[e.pos + 1..];
      assert s == p + [x] + q;
      if e.Delete? {
        OneMoreCharacter(p, x);
        DistanceUnderSuffix(p + [x], p, q);
      } else {
        OtherLastCharacter(p, x, e.c);
        DistanceUnderSuffix(p + [x], p + [e.c], q);
      }
    }
  }

  /** Lower half of optimality: no script is shorter than the distance. */
  lemma {:induction false} NoShorterScript(script: Script, s: string, t: string)
    requires Transforms(script, s, t)
    ensures Distance(s, t) <= script.Length()
  {
    match script
    case Done =>
      DistanceZero(s, t);
    case Then(e, rest) =>
      OneEditDistance(e, s);
      NoShorterScript(rest, Apply(e, s), t);
      TriangleInequality(s, Apply(e, s), t);
  }

  /** The distance is the length of the shortest edit script. */
  lemma DistanceIsOptimal(s: string, t: string)
    ensures exists script :: Transforms(script, s, t) && script.Length() == Distance(s, t)
    ensures forall script :: Transforms(script, s, t) ==> Distance(s, t) <= script.Length()
  {
    var best := ShortestScript(s, t);
    forall script | Transforms(script, s, t)
      ensures Distance(s, t) <= script.Length()
    {
      NoShorterScript(script, s, t);
    }
  }

  // ----- The table -----

  ghost predicate Recurrence(D: (int, int) -> nat, s: string, t: string, i: int, j: int)
    requires 1 <= i <= |s| && 1 <= j <= |t|
  {
    D(i, j) == Cheapest(D(i - 1, j), D(i, j - 1), D(i - 1, j - 1), s[i - 1], t[j - 1])
  }

  /** `D` obeys the boundary conditions and the recurrence that the loops fill in. */
  ghost predicate IsTable(D: (int, int) -> nat, s: string, t: string) {
    && (forall i :: 0 <= i <= |s| ==> D(i, 0) == i)
    && (forall j :: 0 <= j <= |t| ==> D(0, j) == j)
    && (forall i, j :: 1 <= i <= |s| && 1 <= j <= |t| ==> Recurrence(D, s, t, i, j))
  }

  lemma {:induction false} DistanceStep(s: string, t: string, s': string, t': string, x: char, y: char)
    requires s == s' + [x] && t == t' + [y]
    ensures Distance(s, t) == Cheapest(Distance(s', t), Distance(s, t'), Distance(s', t'), x, y)
  {
    assert Init(s) == s' && Init(t) == t' && Last(s) == x && Last(t) == y;
  }

  /** The distances of all pairs of prefixes. */
  function PrefixTable(s: string, t: string): (int, int) -> nat {
    (i, j) => if 0 <= i <= |s| && 0 <= j <= |t| then Distance(s[..i], t[..j]) else 0
  }

  lemma {:induction false} PrefixRecurrence(s: string, t: string, i: nat, j: nat)
    requires 1 <= i <= |s| && 1 <= j <= |t|
    ensures Recurrence(PrefixTable(s, t), s, t, i, j)
  {
    DistanceStep(s[..i], t[..j], s[..i - 1], t[..j - 1], s[i - 1], t[j - 1]);
  }

  lemma {:induction false} PrefixBorders(s: string, t: string, i: nat)
    ensures i <= |s| ==> PrefixTable(s, t)(i, 0) == i
    ensures i <= |t| ==> PrefixTable(s, t)(0, i) == i
  {
    assert s[..0] == [] && t[..0] == [];
  }

  /** They form such a table. */
  lemma {:induction false} PrefixDistances(s: string, t: string) returns (D: (int, int) -> nat)
    ensures IsTable(D, s, t) && D(|s|, |t|) == Distance(s, t)
  {
    D := PrefixTable(s, t);
    assert D(|s|, |t|) == Distance(s, t) by {
      assert s[..|s|] == s && t[..|t|] == t;
    }
    forall i: nat
      ensures (i <= |s| ==> D(i, 0) == i) && (i <= |t| ==> D(0, i) == i)
    {
      PrefixBorders(s, t, i);
    }
    forall i, j | 1 <= i <= |s| && 1 <= j <= |t|
      ensures Recurrence(D, s, t, i, j)
    {
      PrefixRecurrence(s, t, i, j);
    }
  }

  /** First column and first row of the table. */
  method FillBorders(dp: array2<nat>)
    requires dp.Length0 > 0 && dp.Length1 > 0
    modifies dp
    ensures forall a :: 0 <= a < dp.Length0 ==> dp[a, 0] == a
    ensures forall b :: 0 <= b < dp.Length1 ==> dp[0, b] == b
  {
    for i := 0 to dp.Length0
      invariant forall a :: 0 <= a < i ==> dp[a, 0] == a
    {
      dp[i, 0] := i;
    }
    for j := 0 to dp.Length1
      invariant forall a :: 0 <= a < dp.Length0 ==> dp[a, 0] == a
      invariant forall b :: 0 <= b < j ==> dp[0, b] == b
    {
      dp[0, j] := j;
    }
  }

  /** The nested loops, on a table whose borders are filled. */
  method FillInterior(dp: array2<nat>, s1: string, s2: string, ghost D: (int, int) -> nat)
    requires dp.Length0 == |s1| + 1 && dp.Length1 == |s2| + 1
    requires IsTable(D, s1, s2)
    requires forall a :: 0 <= a <= |s1| ==> dp[a, 0] == a
    requires forall b :: 0 <= b <= |s2| ==> dp[0, b] == b
    modifies dp
    ensures forall a, b :: 0 <= a <= |s1| && 0 <= b <= |s2| ==> dp[a, b] == D(a, b)
  {
    for i := 1 to |s1| + 1
      invariant forall a :: i <= a <= |s1| ==> dp[a, 0] == D(a, 0)
      invariant forall a, b :: 0 <= a < i && 0 <= b <= |s2| ==> dp[a, b] == D(a, b)
    {
      for j := 1 to |s2| + 1
        invariant forall a :: i <= a <= |s1| ==> dp[a, 0] == D(a, 0)
        invariant forall a, b :: 0 <= a < i && 0 <= b <= |s2| ==> dp[a, b] == D(a, b)
        invariant forall b :: 0 <= b < j ==> dp[i, b] == D(i, b)
      {
        assert Recurrence(D, s1, s2, i, j);
        var cost := if s1[i - 1] == s2[j - 1] then 0 else 1;
        dp[i, j] := MinOf(MinOf(dp[i - 1, j] + 1, dp[i, j - 1] + 1), dp[i - 1, j - 1] + cost);
      }
    }
  }

  /** Fills the whole table in place. The result is the length of the shortest edit
      script from `s1` to `s2`. */
  method LevenshteinDistance(s1: string, s2: string) returns (d: nat)
    ensures d == Distance(s1, s2)
    ensures exists script :: Transforms(script, s1, s2) && script.Length() == d
    ensures forall script :: Transforms(script, s1, s2) ==> d <= script.Length()
  {
    ghost var D := PrefixDistances(s1, s2);
    var dp := new nat[|s1| + 1, |s2| + 1]((_, _) => 0);
    FillBorders(dp);
    FillInterior(dp, s1, s2, D);
    d := dp[|s1|, |s2|];
    DistanceIsOptimal(s1, s2);
  }
}
