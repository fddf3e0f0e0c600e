/** `suggestFood`: for a food of the table, up to three records of the same
    category with another name and a strictly higher score, drawn at
    random, highest score first, each annotated with how much better it
    is. Records are named by their index in the table, since the results
    are the table's own records and the annotation is written onto them. */
module Recommend {
  import opened Wrappers
  import opened Foods

  /** The condition of the `_.filter` in `suggestFood`: record `j` is in the
      category of record `m`, has another name and a strictly higher score. */
  predicate IsBetter(foods: seq<Food>, m: nat, j: nat)
    requires m < |foods| && j < |foods|
  {
    foods[j].category == foods[m].category && foods[j].value != foods[m].value
    && foods[j].score > foods[m].score
  }

  predicate Increasing(s: seq<nat>)
  {
    forall i, j :: 0 <= i < j < |s| ==> s[i] < s[j]
  }

  predicate Distinct(s: seq<nat>)
  {
    forall i, j :: 0 <= i < j < |s| ==> s[i] != s[j]
  }

  predicate InRange(foods: seq<Food>, s: seq<nat>)
  {
    forall i :: 0 <= i < |s| ==> s[i] < |foods|
  }

  /** The records from index `k` on that beat record `m`, in table order. */
  function CandidatesFrom(foods: seq<Food>, m: nat, k: nat): (r: seq<nat>)
    requires m < |foods| && k <= |foods|
    ensures forall i :: 0 <= i < |r| ==> k <= r[i] < |foods| && IsBetter(foods, m, r[i])
    ensures forall j :: k <= j < |foods| && IsBetter(foods, m, j) ==> j in r
    ensures Increasing(r)
    decreases |foods| - k
  {
    if k == |foods| then []
    else (if IsBetter(foods, m, k) then [k] else []) + CandidatesFrom(foods, m, k + 1)
  }

  /** `categoryFoods` before sampling: every record that beats record `m`,
      in table order, and nothing else. */
  function Candidates(foods: seq<Food>, m: nat): (r: seq<nat>)
    requires m < |foods|
    ensures InRange(foods, r) && Increasing(r)
    ensures forall j :: 0 <= j < |foods| ==> (j in r <==> IsBetter(foods, m, j))
  {
    CandidatesFrom(foods, m, 0)
  }

  /** The candidates for a name: none when the name is not in the table. */
  function CandidatesFor(foods: seq<Food>, name: string): seq<nat>
  {
    match FindFood(foods, name)
    case None => []
    case Some(m) => Candidates(foods, m)
  }

  function Min(a: int, b: int): int
  {
    if a < b then a else b
  }

  /** What `_.sample(list, 3)` may return for a list of length `n`, as
      positions in the list: min(3, n) distinct positions in any order. */
  predicate IsSample(pick: seq<nat>, n: nat)
  {
    |pick| == Min(3, n) && Distinct(pick) && forall i :: 0 <= i < |pick| ==> pick[i] < n
  }

  /** The sampled candidates. */
  function Sample(cands: seq<nat>, pick: seq<nat>): (r: seq<nat>)
    requires forall i :: 0 <= i < |pick| ==> pick[i] < |cands|
    ensures |r| == |pick|
    ensures Increasing(cands) && Distinct(pick) ==> Distinct(r)
  {
    seq(|pick|, i requires 0 <= i < |pick| => cands[pick[i]])
  }

  predicate Ascending(foods: seq<Food>, s: seq<nat>)
    requires InRange(foods, s)
  {
    forall i, j :: 0 <= i < j < |s| ==> foods[s[i]].score <= foods[s[j]].score
  }

  predicate Descending(foods: seq<Food>, s: seq<nat>)
    requires InRange(foods, s)
  {
    forall i, j :: 0 <= i < j < |s| ==> foods[s[i]].score >= foods[s[j]].score
  }

  /** Insertion of `x` into a list sorted by score, before the first
      record whose score is not lower than that of `x`. */
  function Insert(foods: seq<Food>, x: nat, s: seq<nat>): (r: seq<nat>)
    requires x < |foods| && InRange(foods, s)
    ensures InRange(foods, r) && multiset(r) == multiset(s) + multiset{x}
  {
    if s == [] || foods[x].score <= foods[s[0]].score then [x] + s
    else
      assert s == [s[0]] + s[1..];
      [s[0]] + Insert(foods, x, s[1..])
  }

  lemma {:induction false} InsertAscending(foods: seq<Food>, x: nat, s: seq<nat>)
    requires x < |foods| && InRange(foods, s) && Ascending(foods, s)
    ensures Ascending(foods, Insert(foods, x, s))
  {
    if s != [] && foods[x].score > foods[s[0]].score {
      var rest := Insert(foods, x, s[1..]);
      InsertAscending(foods, x, s[1..]);
      assert Insert(foods, x, s) == [s[0]] + rest;
      forall k | 0 <= k < |rest|
        ensures foods[s[0]].score <= foods[rest[k]].score
      {
        assert rest[k] in multiset(rest);
        if rest[k] != x {
          assert rest[k] in multiset(s[1..]);
          var t :| 0 <= t < |s[1..]| && s[1..][t] == rest[k];
          assert s[t + 1] == rest[k];
        }
      }
    }
  }

  /** `_.sortBy(list, food => food.score)`: a stable sort by ascending
      score. */
  function SortByScore(foods: seq<Food>, s: seq<nat>): (r: seq<nat>)
    requires InRange(foods, s)
    ensures InRange(foods, r) && multiset(r) == multiset(s)
  {
    if s == [] then []
    else
      assert s == [s[0]] + s[1..];
      Insert(foods, s[0], SortByScore(foods, s[1..]))
  }

  lemma {:induction false} SortByScoreAscending(foods: seq<Food>, s: seq<nat>)
    requires InRange(foods, s)
    ensures Ascending(foods, SortByScore(foods, s))
  {
    if s != [] {
      SortByScoreAscending(foods, s[1..]);
      InsertAscending(foods, s[0], SortByScore(foods, s[1..]));
    }
  }

  /** `Array.prototype.reverse`. */
  function Reverse(s: seq<nat>): (r: seq<nat>)
    ensures |r| == |s|
    ensures forall i :: 0 <= i < |s| ==> r[i] == s[|s| - 1 - i]
  {
    if s == [] then [] else Reverse(s[1..]) + [s[0]]
  }

  lemma {:induction false} ReverseMultiset(s: seq<nat>)
    ensures multiset(Reverse(s)) == multiset(s)
  {
    if s != [] {
      ReverseMultiset(s[1..]);
      assert s == [s[0]] + s[1..];
    }
  }

  lemma {:induction false} DistinctCounts(s: seq<nat>, x: nat)
    requires Distinct(s)
    ensures multiset(s)[x] <= 1
  {
    if s != [] {
      DistinctCounts(s[1..], x);
      assert s == [s[0]] + s[1..];
      assert s[0] !in s[1..];
    }
  }

  /** A rearrangement of a list without repeats has no repeats. */
  lemma DistinctPermutation(a: seq<nat>, b: seq<nat>)
    requires multiset(a) == multiset(b) && Distinct(a)
    ensures Distinct(b)
  {
    forall i, j | 0 <= i < j < |b| ensures b[i] != b[j] {
      if b[i] == b[j] {
        assert b == b[..j] + b[j..];
        assert b[i] in b[..j] && b[j] in b[j..];
        assert multiset(b)[b[i]] == multiset(b[..j])[b[i]] + multiset(b[j..])[b[i]];
        DistinctCounts(a, b[i]);
        assert false;
      }
    }
  }

  /** The sampled candidates, sorted by score and reversed. */
  function Ranked(foods: seq<Food>, cands: seq<nat>, pick: seq<nat>): seq<nat>
    requires InRange(foods, cands)
    requires forall i :: 0 <= i < |pick| ==> pick[i] < |cands|
  {
    var sampled := Sample(cands, pick);
    assert InRange(foods, sampled);
    Reverse(SortByScore(foods, sampled))
  }

  /** Reversing a list in ascending score order gives one in descending
      score order. */
  lemma ReverseDescending(foods: seq<Food>, s: seq<nat>)
    requires InRange(foods, s) && Ascending(foods, s)
    ensures InRange(foods, Reverse(s)) && Descending(foods, Reverse(s))
  {
    var r := Reverse(s);
    forall i, j | 0 <= i < j < |r| ensures foods[r[i]].score >= foods[r[j]].score {
      assert r[i] == s[|s| - 1 - i] && r[j] == s[|s| - 1 - j];
    }
  }

  /** Every element of a rearrangement of the sample is a candidate. */
  lemma SampleMembers(cands: seq<nat>, pick: seq<nat>, r: seq<nat>)
    requires forall i :: 0 <= i < |pick| ==> pick[i] < |cands|
    requires multiset(r) == multiset(Sample(cands, pick))
    ensures forall i :: 0 <= i < |r| ==> r[i] in cands
  {
    var sampled := Sample(cands, pick);
    forall i | 0 <= i < |r| ensures r[i] in cands {
      assert r[i] in multiset(sampled);
      var t :| 0 <= t < |sampled| && sampled[t] == r[i];
      assert cands[pick[t]] == r[i];
    }
  }

  /** The reversed sort is highest score first, and holds the sampled
      candidates, each once. */
  lemma RankedProperties(foods: seq<Food>, cands: seq<nat>, pick: seq<nat>)
    requires InRange(foods, cands) && Increasing(cands)
    requires Distinct(pick) && forall i :: 0 <= i < |pick| ==> pick[i] < |cands|
    ensures var r := Ranked(foods, cands, pick);
      && |r| == |pick|
      && InRange(foods, r)
      && Descending(foods, r)
      && Distinct(r)
      && multiset(r) == multiset(Sample(cands, pick))
      && forall i :: 0 <= i < |r| ==> r[i] in cands
  {
    var sampled := Sample(cands, pick);
    assert InRange(foods, sampled);
    var sorted := SortByScore(foods, sampled);
    SortByScoreAscending(foods, sampled);
    var r := Reverse(sorted);
    assert r == Ranked(foods, cands, pick);
    ReverseMultiset(sorted);
    ReverseDescending(foods, sorted);
    DistinctPermutation(sampled, r);
    assert |sorted| == |sampled| by {
      assert |multiset(sorted)| == |multiset(sampled)|;
    }
    SampleMembers(cands, pick, r);
  }

  /** The ranked sample of the candidates of record `m` are records that
      beat `m`, as many as were picked. */
  lemma {:induction false} RankedBeatMatch(foods: seq<Food>, m: nat, pick: seq<nat>)
    requires m < |foods| && IsSample(pick, |Candidates(foods, m)|)
    ensures var r := Ranked(foods, Candidates(foods, m), pick);
      && |r| == Min(3, |Candidates(foods, m)|)
      && InRange(foods, r)
      && (forall i :: 0 <= i < |r| ==> IsBetter(foods, m, r[i]))
      && Descending(foods, r)
      && Distinct(r)
      && multiset(r) == multiset(Sample(Candidates(foods, m), pick))
  {
    var cands := Candidates(foods, m);
    RankedProperties(foods, cands, pick);
    var r := Ranked(foods, cands, pick);
    forall i | 0 <= i < |r| ensures IsBetter(foods, m, r[i]) {
      assert r[i] in cands && r[i] < |foods|;
    }
  }

  /** The records `suggestFood` returns for `name` when `_.sample` picks
      the candidates at positions `pick`: none for a name that is not in
      the table; otherwise min(3, number of candidates) distinct records,
      each of the matched record's category with another name and a
      strictly higher score, highest score first. */
  function Suggest(foods: seq<Food>, name: string, pick: seq<nat>): (r: seq<nat>)
    requires IsSample(pick, |CandidatesFor(foods, name)|)
    ensures FindFood(foods, name).None? ==> r == []
    ensures FindFood(foods, name).Some? ==>
      var m := FindFood(foods, name).value;
      && |r| == Min(3, |Candidates(foods, m)|)
      && InRange(foods, r)
      && (forall i :: 0 <= i < |r| ==> IsBetter(foods, m, r[i]))
      && Descending(foods, r)
      && Distinct(r)
      && multiset(r) == multiset(Sample(Candidates(foods, m), pick))
  {
    match FindFood(foods, name)
    case None => []
    case Some(m) =>
      RankedBeatMatch(foods, m, pick);
      Ranked(foods, Candidates(foods, m), pick)
  }

  /** The table after `suggestFood` has set `scoreDiff` on the records at
      the indices of `ranked`: their score less the base score. */
  function WithScoreDiffs(foods: seq<Food>, ranked: seq<nat>, base: int): (r: seq<Food>)
    ensures |r| == |foods|
    ensures forall j :: 0 <= j < |foods| ==> r[j].score == foods[j].score
  {
    seq(|foods|, j requires 0 <= j < |foods| =>
      if j in ranked then foods[j].(scoreDiff := Some(foods[j].score - base)) else foods[j])
  }

  /** Writing one more record's `scoreDiff` extends the annotated set. */
  lemma WithScoreDiffsStep(foods: seq<Food>, done: seq<nat>, j: nat, base: int)
    requires j < |foods|
    ensures var t := WithScoreDiffs(foods, done, base);
      t[j := t[j].(scoreDiff := Some(t[j].score - base))] == WithScoreDiffs(foods, done + [j], base)
  {
  }

  /** Every record `suggestFood` annotates gets a positive difference. */
  lemma ScoreDiffsPositive(foods: seq<Food>, m: nat, ranked: seq<nat>)
    requires m < |foods| && InRange(foods, ranked)
    requires forall i :: 0 <= i < |ranked| ==> IsBetter(foods, m, ranked[i])
    ensures forall k :: 0 <= k < |ranked| ==>
      var f := WithScoreDiffs(foods, ranked, foods[m].score)[ranked[k]];
      f.scoreDiff.Some? && f.scoreDiff.value > 0
  {
    forall k | 0 <= k < |ranked|
      ensures var f := WithScoreDiffs(foods, ranked, foods[m].score)[ranked[k]];
        f.scoreDiff.Some? && f.scoreDiff.value > 0
    {
      assert ranked[k] in ranked;
      assert IsBetter(foods, m, ranked[k]);
    }
  }

  /** The shared `foodList`: `suggestFood` annotates the records it returns
      in place. */
  class FoodTable {
    var foods: seq<Food>

    constructor (foods: seq<Food>)
      ensures this.foods == foods
    {
      this.foods := foods;
    }

    /** The `_.each` of `suggestFood`: sets `scoreDiff` on each record of
        `ranked` to its score less `base`. */
    method WriteScoreDiffs(ranked: seq<nat>, base: int)
      requires InRange(foods, ranked)
      modifies this
      ensures foods == WithScoreDiffs(old(foods), ranked, base)
    {
      ghost var table := foods;
      assert WithScoreDiffs(table, [], base) == table;
      for k := 0 to |ranked|
        invariant foods == WithScoreDiffs(table, ranked[..k], base)
      {
        var j := ranked[k];
        assert ranked[..k + 1] == ranked[..k] + [j];
        WithScoreDiffsStep(table, ranked[..k], j, base);
        foods := foods[j := foods[j].(scoreDiff := Some(foods[j].score - base))];
      }
      assert ranked[..|ranked|] == ranked;
    }

    /** `suggestFood(name)`, with the positions `_.sample` draws as `pick`.
        The records returned are the table's records after the `_.each`
        has written `scoreDiff` onto them; nothing else in the table
        changes. */
    method SuggestFood(name: string, pick: seq<nat>) returns (result: seq<Food>)
      requires IsSample(pick, |CandidatesFor(foods, name)|)
      modifies this
      ensures FindFood(old(foods), name).None? ==> result == [] && foods == old(foods)
      ensures FindFood(old(foods), name).Some? ==>
        var ranked := Suggest(old(foods), name, pick);
        var base := old(foods)[FindFood(old(foods), name).value];
        && foods == WithScoreDiffs(old(foods), ranked, base.score)
        && |result| == |ranked|
        && forall k :: 0 <= k < |result| ==> result[k] == foods[ranked[k]]
      ensures forall k :: 0 <= k < |result| ==> result[k].scoreDiff.Some? && result[k].scoreDiff.value > 0
    {
      var found := FindFood(foods, name);
      if found.None? {
        return [];
      }
      var suggestFood := foods[found.value];
      var ranked := Suggest(foods, name, pick);
      ghost var table := foods;
      WriteScoreDiffs(ranked, suggestFood.score);
      var annotated := foods;
      result := seq(|ranked|, k requires 0 <= k < |ranked| => annotated[ranked[k]]);
      ScoreDiffsPositive(table, found.value, ranked);
    }
  }
}
