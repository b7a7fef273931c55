/**
 * Drawing a bidding pool and ranking the answers (types/rep_guids.go, types/vote_results.go).
 * The random source is any permutation; the library sort is any ascending rearrangement.
 */
module Selection {
  import opened Types

  function Iota(n: nat): seq<nat> {
    seq(n, i => i)
  }

  ghost predicate Within<T>(v: seq<T>, p: seq<nat>) {
    forall i :: 0 <= i < |p| ==> p[i] < |v|
  }

  /** The elements of `v` at the positions `p`. */
  function At<T>(v: seq<T>, p: seq<nat>): (out: seq<T>)
    requires Within(v, p)
    ensures |out| == |p| && forall i :: 0 <= i < |p| ==> out[i] == v[p[i]]
  {
    seq(|p|, i requires 0 <= i < |p| => v[p[i]])
  }

  function RepGuids(v: seq<ScoreResult>): seq<Guid> {
    seq(|v|, i requires 0 <= i < |v| => v[i].rep)
  }

  /** The representatives that answered without an error. */
  ghost function Okays(v: seq<ScoreResult>): set<Guid> {
    set r | r in v && r.error == NoError :: r.rep
  }

  ghost function Answered(v: seq<ScoreResult>): set<Guid> {
    set r | r in v :: r.rep
  }

  /** No representative answers twice. */
  ghost predicate OneEach(v: seq<ScoreResult>) {
    forall i, j :: 0 <= i < j < |v| ==> v[i].rep != v[j].rep
  }

  /** One answer for every representative asked. */
  ghost predicate Answers(v: seq<ScoreResult>, asked: set<Guid>) {
    OneEach(v) && Answered(v) == asked && |v| == |asked|
  }

  ghost predicate Distinct<T>(s: seq<T>) {
    forall i, j :: 0 <= i < j < |s| ==> s[i] != s[j]
  }

  function Elements<T>(s: seq<T>): set<T> {
    set x | x in s
  }

  ghost function Keep<T>(s: seq<T>, p: T -> bool): seq<T> {
    if s == [] then [] else Keep(s[..|s| - 1], p) + if p(s[|s| - 1]) then [s[|s| - 1]] else []
  }

  ghost const SUCCEEDED: ScoreResult -> bool := (r: ScoreResult) => r.error == NoError

  ghost function NotIn(guids: set<Guid>): Guid -> bool {
    (g: Guid) => g !in guids
  }

  ghost predicate Ascending(v: seq<ScoreResult>) {
    forall i, j :: 0 <= i < j < |v| ==> v[i].score <= v[j].score
  }

  function Ceil(x: real): int {
    -((-x).Floor)
  }

  /** How many representatives are asked in one round. */
  function PoolSize(n: nat, f: real): int {
    if f >= 1.0 then n else Ceil(n as real * f)
  }

  lemma {:induction false} CeilIsCeiling(x: real)
    ensures Ceil(x) as real >= x > Ceil(x) as real - 1.0
  {
    assert (-x).Floor as real <= -x < (-x).Floor as real + 1.0;
  }

  /** Below one, a fraction asks for the least whole number that is not below it, and for no more than there are. */
  lemma {:induction false} PoolSizeBounds(n: nat, f: real)
    requires f < 1.0
    ensures PoolSize(n, f) <= n
    ensures PoolSize(n, f) as real >= n as real * f > PoolSize(n, f) as real - 1.0
  {
    CeilIsCeiling(n as real * f);
    AtMostAll(n as real, f);
  }

  lemma AtMostAll(n: real, f: real)
    requires n >= 0.0 && f < 1.0
    ensures n * f <= n
  {
    var rest := 1.0 - f;
    assert n * rest >= 0.0;
    assert n * f + n * rest == n;
  }

  lemma {:induction false} KeepCounts<T>(s: seq<T>, p: T -> bool)
    ensures forall x :: multiset(Keep(s, p))[x] == if p(x) then multiset(s)[x] else 0
  {
    if s != [] {
      assert s == s[..|s| - 1] + [s[|s| - 1]];
      KeepCounts(s[..|s| - 1], p);
    }
  }

  function RemoveAt<T>(s: seq<T>, k: nat): seq<T>
    requires k < |s|
  {
    s[..k] + s[k + 1..]
  }

  lemma RemoveAtCounts<T>(s: seq<T>, k: nat)
    requires k < |s|
    ensures multiset(s) == multiset(RemoveAt(s, k)) + multiset{s[k]}
  {
    assert s == s[..k] + [s[k]] + s[k + 1..];
  }

  lemma InsertCounts<T>(s: seq<T>, k: nat, x: T)
    requires k <= |s|
    ensures multiset(s[..k] + [x] + s[k..]) == multiset(s) + multiset{x}
  {
    assert s == s[..k] + s[k..];
  }

  /** Rearranging the positions rearranges the elements. */
  lemma {:induction false} AtRearranged<T>(v: seq<T>, p: seq<nat>, q: seq<nat>)
    requires Within(v, p) && Within(v, q) && multiset(p) == multiset(q)
    ensures multiset(At(v, p)) == multiset(At(v, q))
    decreases |p|
  {
    if p == [] {
      assert |multiset(q)| == 0;
    } else {
      assert p[0] in multiset(q);
      var k :| 0 <= k < |q| && q[k] == p[0];
      var p', q' := RemoveAt(p, 0), RemoveAt(q, k);
      RemoveAtCounts(p, 0);
      RemoveAtCounts(q, k);
      assert multiset(p') == multiset(p) - multiset{p[0]};
      assert multiset(q') == multiset(q) - multiset{p[0]};
      AtRearranged(v, p', q');
      AtRemoved(v, p, 0);
      AtRemoved(v, q, k);
    }
  }

  lemma AtRemoved<T>(v: seq<T>, p: seq<nat>, k: nat)
    requires Within(v, p) && k < |p|
    ensures Within(v, RemoveAt(p, k))
    ensures multiset(At(v, p)) == multiset(At(v, RemoveAt(p, k))) + multiset{v[p[k]]}
  {
    RemoveAtCounts(At(v, p), k);
    assert At(v, RemoveAt(p, k)) == RemoveAt(At(v, p), k);
  }

  lemma {:induction false} PermutationKeepsElements<T>(v: seq<T>, p: seq<nat>)
    requires multiset(p) == multiset(Iota(|v|))
    ensures Within(v, p) && multiset(At(v, p)) == multiset(v)
  {
    forall i | 0 <= i < |p| ensures p[i] < |v| {
      assert p[i] in multiset(Iota(|v|));
    }
    AtRearranged(v, p, Iota(|v|));
    assert At(v, Iota(|v|)) == v;
  }

  lemma {:induction false} SubMultisetDistinct<T>(s: seq<T>, r: seq<T>)
    requires Distinct(r) && multiset(s) <= multiset(r)
    ensures Distinct(s) && forall x :: x in s ==> x in r
  {
    DistinctCounts(r);
    forall x | x in s ensures x in r {
      assert x in multiset(s);
    }
    forall i, j | 0 <= i < j < |s| ensures s[i] != s[j] {
      assert s == s[..j] + [s[j]] + s[j + 1..];
      assert s[i] in multiset(s[..j]);
      assert s[i] == s[j] ==> multiset(s)[s[i]] >= 2;
    }
  }

  lemma AnsweredGrows(v: seq<ScoreResult>, r: ScoreResult)
    ensures Answered(v + [r]) == Answered(v) + {r.rep}
    ensures Okays(v + [r]) == Okays(v) + if r.error == NoError then {r.rep} else {}
  {}

  lemma OneEachGrows(v: seq<ScoreResult>, r: ScoreResult)
    requires OneEach(v) && r.rep !in Answered(v)
    ensures OneEach(v + [r])
  {
    forall j | 0 <= j < |v| ensures v[j].rep != r.rep {
      assert v[j].rep in Answered(v);
    }
  }

  lemma AnswersGrow(v: seq<ScoreResult>, asked: set<Guid>, r: ScoreResult)
    requires Answers(v, asked) && r.rep !in asked
    ensures Answers(v + [r], asked + {r.rep})
    ensures Okays(v + [r]) == Okays(v) + if r.error == NoError then {r.rep} else {}
  {
    hide OneEach, Answered, Okays;
    AnsweredGrows(v, r);
    OneEachGrows(v, r);
  }

  lemma NothingAnswered()
    ensures Answers([], {}) && Okays([]) == {}
  {}

  lemma OkaysAsked(v: seq<ScoreResult>, asked: set<Guid>)
    requires Answers(v, asked)
    ensures Okays(v) <= asked
  {}

  lemma {:induction false} DistinctSize<T>(s: seq<T>)
    requires Distinct(s)
    ensures |Elements(s)| == |s|
  {
    if s != [] {
      var n := |s| - 1;
      assert s == s[..n] + [s[n]];
      DistinctSize(s[..n]);
      assert Elements(s) == Elements(s[..n]) + {s[n]};
      assert s[n] !in Elements(s[..n]);
    }
  }

  lemma {:induction false} DistinctCounts<T>(s: seq<T>)
    requires Distinct(s)
    ensures forall x :: multiset(s)[x] <= 1
  {
    if s != [] {
      assert s == s[..|s| - 1] + [s[|s| - 1]];
      DistinctCounts(s[..|s| - 1]);
      assert s[|s| - 1] !in multiset(s[..|s| - 1]);
    }
  }

  /** Any permutation of the first n naturals. */
  method Perm(n: nat) returns (p: seq<nat>)
    ensures multiset(p) == multiset(Iota(n))
  {
    p := [];
    var left := Iota(n);
    while left != []
      invariant multiset(p) + multiset(left) == multiset(Iota(n))
      decreases |left|
    {
      var k :| 0 <= k < |left|;
      assert left == left[..k] + [left[k]] + left[k + 1..];
      p, left := p + [left[k]], left[..k] + left[k + 1..];
    }
  }

  /** The program cannot make a slice of negative length, hence the precondition. */
  method RandomSubsetByCount(r: seq<Guid>, n: int) returns (subset: seq<Guid>)
    requires n >= 0
    ensures if |r| < n then subset == r else |subset| == n && multiset(subset) <= multiset(r)
  {
    if |r| < n {
      return r;
    }
    var permutation := Perm(|r|);
    PermutationKeepsElements(r, permutation);
    assert |multiset(permutation)| == |r|;
    subset := [];
    for i := 0 to n
      invariant subset == At(r, permutation[..i])
    {
      subset := subset + [r[permutation[i]]];
    }
    assert At(r, permutation) == subset + At(r, permutation[n..]);
  }

  method RandomSubsetByFraction(r: seq<Guid>, f: real) returns (subset: seq<Guid>)
    requires PoolSize(|r|, f) >= 0
    ensures |subset| == PoolSize(|r|, f) && multiset(subset) <= multiset(r)
    ensures f >= 1.0 ==> subset == r
  {
    if f >= 1.0 {
      return r;
    }
    PoolSizeBounds(|r|, f);
    var n := Ceil(|r| as real * f);
    subset := RandomSubsetByCount(r, n);
  }

  method Without(r: seq<Guid>, guids: set<Guid>) returns (out: seq<Guid>)
    ensures out == Keep(r, NotIn(guids))
  {
    out := [];
    for i := 0 to |r|
      invariant out == Keep(r[..i], NotIn(guids))
    {
      assert r[..i + 1][..i] == r[..i];
      if r[i] !in guids {
        out := out + [r[i]];
      }
    }
    assert r[..|r|] == r;
  }

  method Reps(v: seq<ScoreResult>) returns (out: seq<Guid>)
    ensures out == RepGuids(v)
  {
    out := [];
    for i := 0 to |v|
      invariant out == RepGuids(v[..i])
    {
      out := out + [v[i].rep];
    }
    assert v[..|v|] == v;
  }

  method FilterErrors(v: seq<ScoreResult>) returns (out: seq<ScoreResult>)
    ensures out == Keep(v, SUCCEEDED)
  {
    out := [];
    for i := 0 to |v|
      invariant out == Keep(v[..i], SUCCEEDED)
    {
      assert v[..i + 1][..i] == v[..i];
      if v[i].error == NoError {
        out := out + [v[i]];
      }
    }
    assert v[..|v|] == v;
  }

  method AllFailed(v: seq<ScoreResult>) returns (failed: bool)
    ensures failed <==> Okays(v) == {}
  {
    var ok := FilterErrors(v);
    KeepCounts(v, SUCCEEDED);
    NoOkays(v);
    failed := |ok| == 0;
    if failed {
      forall r | r in v ensures r.error != NoError {
        assert r in multiset(v) && r !in multiset(ok);
      }
    } else {
      assert ok[0] in multiset(ok);
      assert ok[0] in multiset(v);
    }
  }

  method Shuffle(v: seq<ScoreResult>) returns (out: seq<ScoreResult>)
    ensures multiset(out) == multiset(v)
  {
    var perm := Perm(|v|);
    PermutationKeepsElements(v, perm);
    out := [];
    for i := 0 to |perm|
      invariant out == At(v, perm[..i])
    {
      out := out + [v[perm[i]]];
    }
    assert perm[..|perm|] == perm;
  }

  lemma SplicedAscending(left: seq<ScoreResult>, x: ScoreResult, right: seq<ScoreResult>)
    requires Ascending(left + right)
    requires left != [] ==> left[|left| - 1].score <= x.score
    requires right != [] ==> x.score <= right[0].score
    ensures Ascending(left + [x] + right)
  {
    var all, out := left + right, left + [x] + right;
    forall i, j | 0 <= i < j < |out| ensures out[i].score <= out[j].score {
      var i', j' := if i <= |left| then i else i - 1, if j <= |left| then j else j - 1;
      if i == |left| {
        assert x.score <= all[|left|].score <= all[j'].score;
      } else if j == |left| {
        assert all[i].score <= all[|left| - 1].score <= x.score;
      } else {
        assert all[i'].score <= all[j'].score;
      }
    }
  }

  method Insert(sorted: seq<ScoreResult>, x: ScoreResult) returns (out: seq<ScoreResult>)
    requires Ascending(sorted)
    ensures Ascending(out) && multiset(out) == multiset(sorted) + multiset{x}
  {
    hide Ascending;
    var k := |sorted|;
    while 0 < k && sorted[k - 1].score > x.score
      invariant 0 <= k <= |sorted|
      invariant k < |sorted| ==> sorted[k].score > x.score
    {
      k := k - 1;
    }
    InsertCounts(sorted, k, x);
    assert sorted[..k] + sorted[k..] == sorted;
    SplicedAscending(sorted[..k], x, sorted[k..]);
    out := sorted[..k] + [x] + sorted[k..];
  }

  /** Stands for the library sort: callers learn only that the result is an ascending rearrangement. */
  method Sort(v: seq<ScoreResult>) returns (out: seq<ScoreResult>)
    ensures Ascending(out) && multiset(out) == multiset(v)
  {
    out := [];
    for i := 0 to |v|
      invariant Ascending(out) && multiset(out) == multiset(v[..i])
    {
      assert v[..i + 1] == v[..i] + [v[i]];
      out := Insert(out, v[i]);
    }
    assert v[..|v|] == v;
  }

  /** What filter, shuffle and sort make of the answers: the error-free ones, ascending. */
  ghost predicate RankOf(v: seq<ScoreResult>, out: seq<ScoreResult>) {
    Ascending(out) && multiset(out) == multiset(Keep(v, SUCCEEDED))
  }

  method Rank(v: seq<ScoreResult>) returns (out: seq<ScoreResult>)
    ensures RankOf(v, out)
  {
    var ok := FilterErrors(v);
    var shuffled := Shuffle(ok);
    out := Sort(shuffled);
  }

  /** A ranking holds exactly the error-free answers. */
  lemma RankMembers(v: seq<ScoreResult>, out: seq<ScoreResult>)
    requires RankOf(v, out)
    ensures forall r :: r in out <==> r in v && r.error == NoError
    ensures multiset(out) <= multiset(v)
  {
    KeepCounts(v, SUCCEEDED);
    forall r ensures r in out <==> r in v && r.error == NoError {
      assert r in out <==> r in multiset(out);
      assert r in v <==> r in multiset(v);
    }
  }

  /** The head of a ranking is error-free and no error-free answer scores lower. */
  lemma RankHeadIsBest(v: seq<ScoreResult>, out: seq<ScoreResult>)
    requires RankOf(v, out) && out != []
    ensures out[0] in v && out[0].error == NoError
    ensures forall r :: r in v && r.error == NoError ==> out[0].score <= r.score
  {
    RankMembers(v, out);
    assert out[0] in out;
    forall r | r in v && r.error == NoError ensures out[0].score <= r.score {
      assert r in out;
    }
  }

  lemma OneEachInRank(v: seq<ScoreResult>, out: seq<ScoreResult>)
    requires OneEach(v) && multiset(out) <= multiset(v)
    ensures Distinct(RepGuids(out))
  {
    SubMultisetDistinct(out, v);
    forall i, j | 0 <= i < j < |out| ensures RepGuids(out)[i] != RepGuids(out)[j] {
      assert out[i] in v && out[j] in v;
      var k :| 0 <= k < |v| && v[k] == out[i];
      var l :| 0 <= l < |v| && v[l] == out[j];
      assert k != l;
    }
  }

  lemma RankNames(v: seq<ScoreResult>, out: seq<ScoreResult>)
    requires RankOf(v, out)
    ensures Elements(RepGuids(out)) == Okays(v)
  {
    RankMembers(v, out);
    forall g | g in Okays(v) ensures g in RepGuids(out) {
      var r :| r in v && r.error == NoError && r.rep == g;
      assert r in out;
      var k :| 0 <= k < |out| && out[k] == r;
      assert RepGuids(out)[k] == g;
    }
    forall g | g in RepGuids(out) ensures g in Okays(v) {
      var k :| 0 <= k < |out| && RepGuids(out)[k] == g;
      assert out[k] in out;
    }
  }

  lemma NotLonger<T>(s: seq<T>, t: seq<T>)
    requires multiset(s) <= multiset(t)
    ensures |s| <= |t|
  {
    assert multiset(t) == multiset(s) + (multiset(t) - multiset(s));
    assert |s| == |multiset(s)| && |t| == |multiset(t)|;
  }

  /** The representatives of a ranking: those that answered without an error, once each. */
  lemma RankReps(v: seq<ScoreResult>, out: seq<ScoreResult>, asked: set<Guid>)
    requires Answers(v, asked) && RankOf(v, out)
    ensures Distinct(RepGuids(out)) && Elements(RepGuids(out)) == Okays(v) <= asked
    ensures out == [] <==> Okays(v) == {}
    ensures |out| <= |asked|
  {
    hide RankOf, Distinct, OneEach;
    RankMembers(v, out);
    OneEachInRank(v, out);
    RankNames(v, out);
    NotLonger(out, v);
    OkaysAsked(v, asked);
    if out != [] {
      assert RepGuids(out)[0] in Elements(RepGuids(out));
    }
  }

  lemma NoOkays(v: seq<ScoreResult>)
    ensures Okays(v) == {} <==> forall r :: r in v ==> r.error != NoError
  {
    if r :| r in v && r.error == NoError {
      assert r.rep in Okays(v);
    }
  }

  /** A single representative asked. */
  lemma OneAnswer(v: seq<ScoreResult>, g: Guid)
    requires Answers(v, {g})
    ensures |v| == 1 && v[0].rep == g && v[0] in v
    ensures Okays(v) == if v[0].error == NoError then {g} else {}
  {
    assert v[0].rep in Answered(v);
  }
}
