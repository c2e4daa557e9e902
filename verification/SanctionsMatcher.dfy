/** Fuzzy screening of a customer name against a sanctions list. Scores are integers in
    units of 1/10000, which is what rounding to four decimals leaves. */
module SanctionsMatcher {
  import opened Prelude
  import EditDistance

  // ----- Splitting on single spaces, sorting, joining -----

  function Split(s: string): (ts: seq<string>)
    ensures |ts| >= 1
    ensures forall i :: 0 <= i < |ts| ==> ' ' !in ts[i]
  {
    if s == "" then [""]
    else
      var rest := Split(s[1..]);
      if s[0] == ' ' then [""] + rest else [[s[0]] + rest[0]] + rest[1..]
  }

  lemma {:induction false} JoinSplit(s: string)
    ensures Join(Split(s)) == s
  {
    if s != "" {
      JoinSplit(s[1..]);
      var rest := Split(s[1..]);
      assert s == [s[0]] + s[1..];
      if s[0] == ' ' {
        assert ([""] + rest)[1..] == rest;
      } else {
        var head := [s[0]] + rest[0];
        assert ([head] + rest[1..])[1..] == rest[1..];
        if |rest| > 1 {
          assert Join(Split(s)) == head + " " + Join(rest[1..]);
        }
      }
    }
  }

  lemma {:induction false} SplitToken(t: string)
    requires ' ' !in t
    ensures Split(t) == [t]
  {
    if t != "" {
      SplitToken(t[1..]);
      assert [t[0]] + t[1..] == t;
    }
  }

  lemma {:induction false} SplitFirstToken(t: string, s: string)
    requires ' ' !in t
    ensures Split(t + " " + s) == [t] + Split(s)
  {
    var whole := t + " " + s;
    if t == "" {
      assert whole[1..] == s;
    } else {
      SplitFirstToken(t[1..], s);
      assert whole[1..] == t[1..] + " " + s;
      assert [t[0]] + t[1..] == t;
    }
  }

  lemma {:induction false} SplitJoin(ts: seq<string>)
    requires |ts| >= 1
    requires forall i :: 0 <= i < |ts| ==> ' ' !in ts[i]
    ensures Split(Join(ts)) == ts
  {
    if |ts| == 1 {
      SplitToken(ts[0]);
      assert ts == [ts[0]];
    } else {
      SplitJoin(ts[1..]);
      SplitFirstToken(ts[0], Join(ts[1..]));
      assert ts == [ts[0]] + ts[1..];
    }
  }

  /** Order of strings by character code. */
  predicate LexLe(a: string, b: string) {
    if a == "" then true
    else if b == "" then false
    else if a[0] != b[0] then a[0] < b[0]
    else LexLe(a[1..], b[1..])
  }

  lemma {:induction false} LexTotal(a: string, b: string)
    ensures LexLe(a, b) || LexLe(b, a)
  {
    if a != "" && b != "" && a[0] == b[0] {
      LexTotal(a[1..], b[1..]);
    }
  }

  lemma {:induction false} LexAntisymmetric(a: string, b: string)
    requires LexLe(a, b) && LexLe(b, a)
    ensures a == b
  {
    if a != "" && b != "" {
      LexAntisymmetric(a[1..], b[1..]);
      assert a == [a[0]] + a[1..] && b == [b[0]] + b[1..];
    }
  }

  lemma {:induction false} LexTransitive(a: string, b: string, c: string)
    requires LexLe(a, b) && LexLe(b, c)
    ensures LexLe(a, c)
  {
    if a != "" && c != "" && a[0] == b[0] == c[0] {
      LexTransitive(a[1..], b[1..], c[1..]);
    }
  }

  predicate Sorted(ts: seq<string>) {
    forall i, j :: 0 <= i < j < |ts| ==> LexLe(ts[i], ts[j])
  }

  function Insert(t: string, ts: seq<string>): seq<string> {
    if ts == [] || LexLe(t, ts[0]) then [t] + ts else [ts[0]] + Insert(t, ts[1..])
  }

  /** The order that JavaScript's `sort` without comparator leaves. */
  function Sort(ts: seq<string>): seq<string> {
    if ts == [] then [] else Insert(ts[0], Sort(ts[1..]))
  }

  lemma {:induction false} InsertMultiset(t: string, ts: seq<string>)
    ensures multiset(Insert(t, ts)) == multiset(ts) + multiset{t}
  {
    if ts != [] && !LexLe(t, ts[0]) {
      InsertMultiset(t, ts[1..]);
      assert ts == [ts[0]] + ts[1..];
    }
  }

  lemma {:induction false} InsertSorted(t: string, ts: seq<string>)
    requires Sorted(ts)
    ensures Sorted(Insert(t, ts))
  {
    if ts == [] {
    } else if LexLe(t, ts[0]) {
      forall j | 0 <= j < |ts|
        ensures LexLe(t, ts[j])
      {
        if j > 0 {
          LexTransitive(t, ts[0], ts[j]);
        }
      }
    } else {
      LexTotal(t, ts[0]);
      InsertSorted(t, ts[1..]);
      InsertMultiset(t, ts[1..]);
      forall u | u in Insert(t, ts[1..])
        ensures LexLe(ts[0], u)
      {
        assert u in multiset(Insert(t, ts[1..]));
        assert u == t || u in ts[1..];
      }
    }
  }

  lemma HeadMultiset(q: seq<string>)
    requires q != []
    ensures multiset(q) == multiset(q[1..]) + multiset{q[0]}
  {
    assert q == [q[0]] + q[1..];
  }

  lemma {:induction false} SortCorrect(ts: seq<string>)
    ensures Sorted(Sort(ts)) && multiset(Sort(ts)) == multiset(ts)
  {
    if ts == [] {
    } else {
      var rest := Sort(ts[1..]);
      SortCorrect(ts[1..]);
      InsertSorted(ts[0], rest);
      InsertMultiset(ts[0], rest);
      HeadMultiset(ts);
    }
  }

  lemma SortedHead(a: seq<string>, b: seq<string>)
    requires Sorted(a) && Sorted(b) && a != [] && b != []
    requires multiset(a) == multiset(b)
    ensures a[0] == b[0]
  {
    assert a[0] in multiset(b) && b[0] in multiset(a);
    var i :| 0 <= i < |b| && b[i] == a[0];
    var j :| 0 <= j < |a| && a[j] == b[0];
    if i != 0 && j != 0 {
      assert LexLe(b[0], b[i]) && LexLe(a[0], a[j]);
      LexAntisymmetric(a[0], b[0]);
    }
  }

  /** Two sorted lists with the same tokens are the same list. */
  lemma SortedTail(q: seq<string>)
    requires Sorted(q) && q != []
    ensures Sorted(q[1..])
  {
  }

  lemma SameTails(a: seq<string>, b: seq<string>)
    requires a != [] && b != [] && a[0] == b[0] && multiset(a) == multiset(b)
    ensures multiset(a[1..]) == multiset(b[1..])
  {
    HeadMultiset(a);
    HeadMultiset(b);
    assert multiset(a[1..]) == multiset(a) - multiset{a[0]};
    assert multiset(b[1..]) == multiset(b) - multiset{b[0]};
  }

  lemma {:induction false} SortedUnique(a: seq<string>, b: seq<string>)
    requires Sorted(a) && Sorted(b) && multiset(a) == multiset(b)
    ensures a == b
  {
    assert |multiset(a)| == |a| && |multiset(b)| == |b|;
    if a == [] {
    } else {
      SortedHead(a, b);
      SameTails(a, b);
      SortedTail(a);
      SortedTail(b);
      SortedUnique(a[1..], b[1..]);
      assert a == [a[0]] + a[1..] && b == [b[0]] + b[1..];
    }
  }

  function TokenSorted(s: string): string {
    Join(Sort(Split(s)))
  }

  function Tokens(s: string): multiset<string> {
    multiset(Split(s))
  }

  lemma SplitSort(ts: seq<string>)
    requires |ts| >= 1
    requires forall i :: 0 <= i < |ts| ==> ' ' !in ts[i]
    ensures Split(Join(Sort(ts))) == Sort(ts)
  {
    SortCorrect(ts);
    assert |Sort(ts)| == |multiset(Sort(ts))| == |ts|;
    forall i | 0 <= i < |Sort(ts)|
      ensures ' ' !in Sort(ts)[i]
    {
      assert Sort(ts)[i] in multiset(ts);
    }
    SplitJoin(Sort(ts));
  }

  /** Token sorting is a canonical form of the bag of tokens. */
  lemma TokenSortedCanonical(a: string, b: string)
    ensures TokenSorted(a) == TokenSorted(b) <==> Tokens(a) == Tokens(b)
  {
    var s, t := Split(a), Split(b);
    SortCorrect(s);
    SortCorrect(t);
    SplitSort(s);
    SplitSort(t);
    if Tokens(a) == Tokens(b) {
      SortedUnique(Sort(s), Sort(t));
    }
  }

  lemma {:induction false} InsertLength(t: string, ts: seq<string>)
    ensures Insert(t, ts) != []
    ensures |Join(Insert(t, ts))| == if ts == [] then |t| else |t| + 1 + |Join(ts)|
  {
    if ts == [] {
    } else if LexLe(t, ts[0]) {
      assert ([t] + ts)[1..] == ts;
    } else {
      InsertLength(t, ts[1..]);
      assert ([ts[0]] + Insert(t, ts[1..]))[1..] == Insert(t, ts[1..]);
    }
  }

  lemma {:induction false} SortLength(ts: seq<string>)
    ensures |Join(Sort(ts))| == |Join(ts)|
    ensures Sort(ts) == [] <==> ts == []
  {
    if ts == [] {
    } else {
      SortLength(ts[1..]);
      InsertLength(ts[0], Sort(ts[1..]));
    }
  }

  /** Token sorting only moves characters around. */
  lemma TokenSortedLength(s: string)
    ensures |TokenSorted(s)| == |s|
  {
    SortLength(Split(s));
    JoinSplit(s);
  }

  // ----- Similarity -----

  /** An exact score, before rounding. */
  datatype Ratio = Ratio(num: int, den: nat) {
    predicate AtLeast(r: Ratio) { num * r.den >= r.num * den }
  }

  /** One minus the distance relative to the length. */
  function Score(distance: nat, length: nat): Ratio { Ratio(length - distance, length) }

  /** Rounding to four decimals, ties upwards, in units of 1/10000. */
  function ToFixed4(r: Ratio): int
    requires r.den > 0
  {
    (20000 * r.num + r.den) / (2 * r.den)
  }

  /** The score of two names under the normaliser `norm`. */
  function Similarity(norm: string -> string, name1: string, name2: string): int {
    var a, b := norm(name1), norm(name2);
    if a == "" || b == "" then 0
    else if a == b then 10000
    else
      var lev := Score(EditDistance.Distance(a, b), MaxOf(|a|, |b|));
      var ta, tb := TokenSorted(a), TokenSorted(b);
      TokenSortedLength(a);
      var tok := Score(EditDistance.Distance(ta, tb), MaxOf(|ta|, |tb|));
      ToFixed4(if lev.AtLeast(tok) then lev else tok)
  }

  /** The smaller of the plain and the token-sorted edit distance. */
  function NameDistance(a: string, b: string): nat {
    MinOf(EditDistance.Distance(a, b), EditDistance.Distance(TokenSorted(a), TokenSorted(b)))
  }

  lemma MulMonotone(a: int, b: int, m: int)
    requires m > 0
    ensures a <= b <==> a * m <= b * m
  {
  }

  lemma QuotientAtLeast(a: int, m: int, k: int)
    requires m > 0
    ensures a / m >= k <==> a >= k * m
  {
    var q := a / m;
    assert q * m <= a < (q + 1) * m;
    MulMonotone(k, q, m);
    MulMonotone(q + 1, k, m);
  }

  lemma ScoreAntitone(d: nat, t: nat, n: nat)
    requires n > 0
    ensures Score(d, n).AtLeast(Score(t, n)) <==> d <= t
  {
  }

  lemma NameDistanceBounds(a: string, b: string)
    ensures NameDistance(a, b) <= MaxOf(|a|, |b|)
    ensures NameDistance(a, b) == NameDistance(b, a)
    ensures NameDistance(a, b) == 0 <==> Tokens(a) == Tokens(b)
  {
    EditDistance.DistanceBounds(a, b);
    EditDistance.DistanceSymmetric(a, b);
    EditDistance.DistanceSymmetric(TokenSorted(a), TokenSorted(b));
    EditDistance.DistanceZero(a, b);
    EditDistance.DistanceZero(TokenSorted(a), TokenSorted(b));
    TokenSortedCanonical(a, b);
  }

  lemma ToFixed4Range(d: nat, n: nat)
    requires d <= n && n > 0
    ensures 0 <= ToFixed4(Score(d, n)) <= 10000
    ensures ToFixed4(Score(d, n)) == 10000 <==> 20000 * d <= n
  {
    var a, m := 20000 * (n - d) + n, 2 * n;
    QuotientAtLeast(a, m, 0);
    QuotientAtLeast(a, m, 10000);
    QuotientAtLeast(a, m, 10001);
  }

  lemma SimilaritySymmetric(norm: string -> string, name1: string, name2: string)
    ensures Similarity(norm, name1, name2) == Similarity(norm, name2, name1)
  {
    var a, b := norm(name1), norm(name2);
    EditDistance.DistanceSymmetric(a, b);
    EditDistance.DistanceSymmetric(TokenSorted(a), TokenSorted(b));
  }

  /** The best of the two scores is the score of the smaller distance. */
  lemma SimilarityOfDistance(norm: string -> string, name1: string, name2: string)
    requires norm(name1) != "" && norm(name2) != ""
    ensures var a, b := norm(name1), norm(name2);
            Similarity(norm, name1, name2) == ToFixed4(Score(NameDistance(a, b), MaxOf(|a|, |b|)))
  {
    var a, b := norm(name1), norm(name2);
    var n := MaxOf(|a|, |b|);
    var d, t := EditDistance.Distance(a, b), EditDistance.Distance(TokenSorted(a), TokenSorted(b));
    TokenSortedLength(a);
    TokenSortedLength(b);
    if a == b {
      EditDistance.DistanceZero(a, b);
      ToFixed4Range(0, n);
    } else {
      ScoreAntitone(d, t, n);
      ScoreAntitone(t, d, n);
    }
  }

  lemma Nearest(num: int, den: nat, k: int)
    requires den > 0
    ensures ToFixed4(Ratio(num, den)) == k <==> (2 * k - 1) * den <= 20000 * num < (2 * k + 1) * den
  {
    QuotientAtLeast(20000 * num + den, 2 * den, k);
    QuotientAtLeast(20000 * num + den, 2 * den, k + 1);
  }

  lemma AtLeastExactly(num: int, den: nat, k: int)
    requires den > 0
    ensures ToFixed4(Ratio(num, den)) >= k <==> (2 * k - 1) * den <= 20000 * num
  {
    QuotientAtLeast(20000 * num + den, 2 * den, k);
  }

  /** The score is the share of characters that need no edit, rounded to four decimals: the
      `k` whose distance from it is at most half a unit, the larger one of two. */
  lemma SimilarityExact(norm: string -> string, name1: string, name2: string, k: int)
    requires norm(name1) != "" && norm(name2) != ""
    ensures var a, b := norm(name1), norm(name2);
            var n := MaxOf(|a|, |b|);
            var kept := n - NameDistance(a, b);
            Similarity(norm, name1, name2) == k <==> (2 * k - 1) * n <= 20000 * kept < (2 * k + 1) * n
  {
    var a, b := norm(name1), norm(name2);
    var n := MaxOf(|a|, |b|);
    var kept := n - NameDistance(a, b);
    SimilarityOfDistance(norm, name1, name2);
    assert Similarity(norm, name1, name2) == ToFixed4(Ratio(kept, n));
    Nearest(kept, n, k);
  }

  /** Scores stay within [0, 1], and reach 1 exactly up to the rounding error. */
  lemma SimilarityRange(norm: string -> string, name1: string, name2: string)
    ensures 0 <= Similarity(norm, name1, name2) <= 10000
    ensures var a, b := norm(name1), norm(name2);
            Similarity(norm, name1, name2) == 10000 <==>
            a != "" && b != "" && 20000 * NameDistance(a, b) <= MaxOf(|a|, |b|)
  {
    var a, b := norm(name1), norm(name2);
    if a != "" && b != "" {
      SimilarityOfDistance(norm, name1, name2);
      NameDistanceBounds(a, b);
      ToFixed4Range(NameDistance(a, b), MaxOf(|a|, |b|));
    }
  }

  /** Below 20000 characters, a perfect score means the same bag of tokens. */
  lemma PerfectScoreMeansSameTokens(norm: string -> string, name1: string, name2: string)
    requires |norm(name1)| < 20000 && |norm(name2)| < 20000
    ensures Similarity(norm, name1, name2) == 10000 <==>
            norm(name1) != "" && norm(name2) != "" && Tokens(norm(name1)) == Tokens(norm(name2))
  {
    SimilarityRange(norm, name1, name2);
    NameDistanceBounds(norm(name1), norm(name2));
  }

  /** From 20000 characters on, rounding can hide a wrong character: a perfect score for
      names whose tokens differ, at every such length. */
  lemma RoundingHidesOneCharacter(n: nat) returns (a: string, b: string)
    requires n >= 20000
    ensures |a| == |b| == n
    ensures Similarity(s => s, a, b) == 10000 && Tokens(a) != Tokens(b)
  {
    var p := seq(n - 1, _ => 'A');
    a, b := p + ['A'], p + ['B'];
    EditDistance.OtherLastCharacter(p, 'A', 'B');
    SimilarityRange(s => s, a, b);
    SplitToken(a);
    SplitToken(b);
    assert a[n - 1] != b[n - 1];
    assert a in Tokens(a) && a !in Tokens(b);
  }

  // ----- Screening -----

  datatype Action = Pass | Review | Block {
    function Severity(): nat {
      match this
      case Pass => 0
      case Review => 1
      case Block => 2
    }
  }

  datatype ScreeningResult = ScreeningResult(
    name: string, matchedEntity: Option<string>, score: int, action: Action, flagged: bool)

  function ActionFor(score: int): Action {
    if score == 10000 then Block else if score >= 8500 then Review else Pass
  }

  ghost predicate FirstWith(score: string -> int, list: seq<string>, best: int, i: int) {
    && 0 <= i < |list|
    && score(list[i]) == best
    && forall j :: 0 <= j < i ==> score(list[j]) < best
  }

  /** `best` is the highest score of the list, or 0 if that is higher, and `closest` is the
      first entry that reaches it. */
  ghost predicate IsBest(score: string -> int, list: seq<string>, best: int, closest: Option<string>) {
    && (forall i :: 0 <= i < |list| ==> score(list[i]) <= best)
    && (closest.None? ==> best == 0)
    && (closest.Some? ==> best > 0 && exists i :: FirstWith(score, list, best, i) && list[i] == closest.value)
  }

  ghost predicate IsOutcome(score: string -> int, name: string, list: seq<string>, r: ScreeningResult) {
    && r.name == name
    && r.action == ActionFor(r.score)
    && (r.flagged <==> r.action != Pass)
    && exists closest :: IsBest(score, list, r.score, closest) &&
                         r.matchedEntity == if r.action == Pass then None else closest
  }

  ghost predicate IsScreening(norm: string -> string, name: string, list: seq<string>, r: ScreeningResult) {
    IsOutcome(e => Similarity(norm, name, e), name, list, r)
  }

  /** The loop over the list, for any scoring function. */
  method FindClosest(score: string -> int, list: seq<string>) returns (highestScore: int, closestEntity: Option<string>)
    ensures IsBest(score, list, highestScore, closestEntity)
  {
    highestScore, closestEntity := 0, None;
    ghost var at := -1;
    for i := 0 to |list|
      invariant forall j :: 0 <= j < i ==> score(list[j]) <= highestScore
      invariant closestEntity.None? ==> highestScore == 0
      invariant closestEntity.Some? ==>
                  highestScore > 0 && FirstWith(score, list, highestScore, at) && list[at] == closestEntity.value
    {
      var s := score(list[i]);
      if s > highestScore {
        highestScore, closestEntity, at := s, Some(list[i]), i;
      }
    }
  }

  /** The three outcomes, by the highest score. */
  method Classify(ghost score: string -> int, name: string, ghost list: seq<string>,
                  highestScore: int, closestEntity: Option<string>)
    returns (r: ScreeningResult)
    requires IsBest(score, list, highestScore, closestEntity)
    ensures IsOutcome(score, name, list, r)
  {
    if highestScore == 10000 {
      r := ScreeningResult(name, closestEntity, 10000, Block, true);
    } else if highestScore >= 8500 {
      r := ScreeningResult(name, closestEntity, highestScore, Review, true);
    } else {
      r := ScreeningResult(name, None, highestScore, Pass, false);
    }
  }

  method ScreenCustomerName(norm: string -> string, customerName: string, list: seq<string>)
    returns (r: ScreeningResult)
    ensures IsScreening(norm, customerName, list, r)
  {
    var score := (e: string) => Similarity(norm, customerName, e);
    var highestScore, closestEntity := FindClosest(score, list);
    r := Classify(score, customerName, list, highestScore, closestEntity);
  }

  /** The specification leaves no choice: one list and one name have one outcome. */
  lemma OutcomeUnique(score: string -> int, name: string, list: seq<string>, r1: ScreeningResult, r2: ScreeningResult)
    requires IsOutcome(score, name, list, r1) && IsOutcome(score, name, list, r2)
    ensures r1 == r2
  {
  }

  lemma BlockedExactlyOnPerfectScore(score: string -> int, name: string, list: seq<string>, r: ScreeningResult)
    requires IsOutcome(score, name, list, r)
    requires forall e :: e in list ==> score(e) <= 10000
    ensures r.action == Block <==> exists e :: e in list && score(e) == 10000
  {
  }

  /** For names below 20000 characters, a customer is blocked exactly when some entry has
      the same bag of name tokens. */
  lemma BlockedExactlyOnSameTokens(norm: string -> string, name: string, list: seq<string>, r: ScreeningResult)
    requires IsScreening(norm, name, list, r)
    requires |norm(name)| < 20000
    requires forall e :: e in list ==> |norm(e)| < 20000
    ensures r.action == Block <==>
            norm(name) != "" && exists e :: e in list && norm(e) != "" && Tokens(norm(e)) == Tokens(norm(name))
  {
    var score := (e: string) => Similarity(norm, name, e);
    forall e | e in list
      ensures score(e) <= 10000
      ensures score(e) == 10000 <==>
              norm(name) != "" && norm(e) != "" && Tokens(norm(e)) == Tokens(norm(name))
    {
      SimilarityRange(norm, name, e);
      PerfectScoreMeansSameTokens(norm, name, e);
    }
    BlockedExactlyOnPerfectScore(score, name, list, r);
  }

  lemma MoreEntriesScoreHigher(score: string -> int, name: string, list: seq<string>, more: seq<string>,
                               r: ScreeningResult, s: ScreeningResult)
    requires IsOutcome(score, name, list, r) && IsOutcome(score, name, more, s)
    requires forall e :: e in list ==> e in more
    ensures 0 <= r.score <= s.score
    ensures s.score == 0 || exists e :: e in more && score(e) == s.score
  {
    var c :| IsBest(score, list, r.score, c);
    var d :| IsBest(score, more, s.score, d);
    if c.Some? {
      var k :| FirstWith(score, list, r.score, k) && list[k] == c.value;
      assert list[k] in more;
    }
  }

  /** A longer list never weakens the outcome. */
  lemma MoreEntriesNeverWeaken(norm: string -> string, name: string, list: seq<string>, more: seq<string>,
                               r: ScreeningResult, s: ScreeningResult)
    requires IsScreening(norm, name, list, r) && IsScreening(norm, name, more, s)
    requires forall e :: e in list ==> e in more
    ensures r.score <= s.score
    ensures r.action.Severity() <= s.action.Severity()
  {
    var score := (e: string) => Similarity(norm, name, e);
    MoreEntriesScoreHigher(score, name, list, more, r, s);
    if s.score != 0 {
      var e :| e in more && score(e) == s.score;
      SimilarityRange(norm, name, e);
    }
  }

  lemma ReviewRatio(d: nat, n: nat)
    requires d <= n && n > 0
    ensures ToFixed4(Score(d, n)) >= 8500 <==> 20000 * d <= 3001 * n
  {
    AtLeastExactly(n - d, n, 8500);
  }

  lemma ReviewScoreExactly(norm: string -> string, name: string, e: string)
    ensures Similarity(norm, name, e) >= 8500 <==>
            norm(name) != "" && norm(e) != "" &&
            20000 * NameDistance(norm(name), norm(e)) <= 3001 * MaxOf(|norm(name)|, |norm(e)|)
  {
    var a, b := norm(name), norm(e);
    if a != "" && b != "" {
      SimilarityOfDistance(norm, name, e);
      NameDistanceBounds(a, b);
      ReviewRatio(NameDistance(a, b), MaxOf(|a|, |b|));
    }
  }

  lemma FlaggedExactlyOnScore(score: string -> int, name: string, list: seq<string>, r: ScreeningResult)
    requires IsOutcome(score, name, list, r)
    ensures r.flagged <==> exists e :: e in list && score(e) >= 8500
  {
    var closest :| IsBest(score, list, r.score, closest);
    if closest.Some? {
      var i :| FirstWith(score, list, r.score, i) && list[i] == closest.value;
      assert list[i] in list;
    }
  }

  /** A customer is flagged exactly when some entry needs edits for at most fifteen percent of its
      characters, up to the rounding of the fourth decimal; empty names never are. */
  lemma FlaggedExactlyOnSimilarNames(norm: string -> string, name: string, list: seq<string>, r: ScreeningResult)
    requires IsScreening(norm, name, list, r)
    ensures r.flagged <==>
            norm(name) != "" &&
            exists e :: e in list && norm(e) != "" &&
                        20000 * NameDistance(norm(name), norm(e)) <= 3001 * MaxOf(|norm(name)|, |norm(e)|)
    ensures r.flagged <==> r.action != Pass
    ensures r.flagged ==> r.matchedEntity.Some? && r.matchedEntity.value in list
    ensures !r.flagged ==> r.matchedEntity.None?
    ensures norm(name) == "" ==> r.score == 0
  {
    var score := (e: string) => Similarity(norm, name, e);
    FlaggedExactlyOnScore(score, name, list, r);
    forall e | e in list
      ensures score(e) >= 8500 <==>
              norm(name) != "" && norm(e) != "" &&
              20000 * NameDistance(norm(name), norm(e)) <= 3001 * MaxOf(|norm(name)|, |norm(e)|)
    {
      ReviewScoreExactly(norm, name, e);
    }
  }

  /** The entry that is reported is the closest one, and the first one of these. */
  lemma ReportsClosestEntry(norm: string -> string, name: string, list: seq<string>, r: ScreeningResult)
    requires IsScreening(norm, name, list, r)
    ensures forall e :: e in list ==> Similarity(norm, name, e) <= r.score
    ensures r.flagged ==>
              exists i :: 0 <= i < |list| && r.matchedEntity == Some(list[i]) &&
                          Similarity(norm, name, list[i]) == r.score &&
                          forall j :: 0 <= j < i ==> Similarity(norm, name, list[j]) < r.score
    ensures r.name == name && (r.score > 0 ==> exists e :: e in list && Similarity(norm, name, e) == r.score)
  {
    var score := (e: string) => Similarity(norm, name, e);
    var closest :| IsBest(score, list, r.score, closest) &&
                   r.matchedEntity == if r.action == Pass then None else closest;
    if closest.Some? {
      var i :| FirstWith(score, list, r.score, i) && list[i] == closest.value;
      assert list[i] in list && score(list[i]) == Similarity(norm, name, list[i]);
      assert forall j :: 0 <= j < i ==> score(list[j]) == Similarity(norm, name, list[j]);
    }
    forall e | e in list
      ensures Similarity(norm, name, e) <= r.score
    {
      assert score(e) <= r.score;
    }
  }
}
