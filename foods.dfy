/** The food reference table (`foodList`) and the scoring `create` does
    before it adds a todo: first-match lookup by name and the colour tier.
    Scores are counted in tenths, the one decimal `toFixed(1)` keeps. */
module Foods {
  import opened Wrappers

  /** A record of the table: the name the lookup matches (`value`), the
      score in tenths, the category, and the `scoreDiff` field that
      `suggestFood` writes onto the record (undefined until then), also in
      tenths. */
  datatype Food = Food(value: string, score: int, category: string, scoreDiff: Option<int>)

  /** `_.find(foodList, food => food.value == name)`: the index of the
      first record with that name, or none. */
  function FindFood(foods: seq<Food>, name: string): (r: Option<nat>)
    ensures r.Some? ==> r.value < |foods| && foods[r.value].value == name
    ensures r.Some? ==> forall j :: 0 <= j < r.value ==> foods[j].value != name
    ensures r.None? <==> forall j :: 0 <= j < |foods| ==> foods[j].value != name
  {
    if foods == [] then None
    else if foods[0].value == name then Some(0)
    else match FindFood(foods[1..], name)
      case None => None
      case Some(i) => Some(i + 1)
  }

  /** The score `create` gives a title: that of the first record with the
      title as its name, or null when there is none. */
  function ScoreForTitle(foods: seq<Food>, title: string): (r: Option<int>)
    ensures r.None? <==> forall j :: 0 <= j < |foods| ==> foods[j].value != title
    ensures r.Some? ==> exists i :: (0 <= i < |foods| && foods[i].value == title
      && r.value == foods[i].score && forall j :: 0 <= j < i ==> foods[j].value != title)
  {
    match FindFood(foods, title)
    case None => None
    case Some(i) => Some(foods[i].score)
  }

  /** The `colorClass` of a todo. `NoClass` is the empty string given to a
      todo without a score; `Unset` is the undefined value left when no
      branch of the classification fires (a score of 10 or more). */
  datatype ColorClass = NoClass | RedClass | YellowClass | GreenClass | Unset

  /** The tier chosen in `create`: below 6 red, below 9 yellow, below 10
      green, and for 10 itself nothing. */
  function Classify(score: Option<int>): (c: ColorClass)
    ensures c == NoClass <==> score.None?
    ensures c == RedClass <==> score.Some? && score.value < 60
    ensures c == YellowClass <==> score.Some? && 60 <= score.value < 90
    ensures c == GreenClass <==> score.Some? && 90 <= score.value < 100
    ensures c == Unset <==> score.Some? && score.value >= 100
  {
    if score.None? then NoClass
    else if score.value < 60 then RedClass
    else if score.value < 90 then YellowClass
    else if score.value < 100 then GreenClass
    else Unset
  }

  /** The ordinal of a tier: red below yellow below green below unset. */
  function Rank(c: ColorClass): nat
  {
    match c
    case NoClass => 0
    case RedClass => 1
    case YellowClass => 2
    case GreenClass => 3
    case Unset => 4
  }

  /** A higher score never lands in a lower tier. */
  lemma ClassifyMonotone(s: int, t: int)
    requires s <= t
    ensures Rank(Classify(Some(s))) <= Rank(Classify(Some(t)))
  {
  }
}
