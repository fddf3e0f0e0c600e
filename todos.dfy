/** The todo record and the read-only views of a todo list: the active,
    completed and filtered lists (`getActiveTodos`, `getCompletedTodos`,
    `getFilteredTodos`), the counts `renderFooter` shows, and the reward
    points and gauge value `updateScore` computes from the filtered list. */
module Todos {
  import opened Wrappers
  import opened Foods
  import Util

  /** One todo as `create` pushes it and `render` persists it. `score` is
      in tenths, null for a title that is not a food. */
  datatype Todo = Todo(id: string, title: string, score: Option<int>, completed: bool, colorClass: ColorClass)

  /** `a` is `b` with some elements deleted, the rest kept in order. */
  ghost predicate IsSubsequence(a: seq<Todo>, b: seq<Todo>)
    decreases |b|
  {
    a == [] || (b != [] && ((a[0] == b[0] && IsSubsequence(a[1..], b[1..])) || IsSubsequence(a, b[1..])))
  }

  /** `getActiveTodos`: `todos.filter(todo => !todo.completed)`. */
  function Active(todos: seq<Todo>): (r: seq<Todo>)
    ensures |r| <= |todos|
    ensures forall t :: t in r <==> t in todos && !t.completed
  {
    if todos == [] then []
    else (if todos[0].completed then [] else [todos[0]]) + Active(todos[1..])
  }

  /** `getCompletedTodos`: `todos.filter(todo => todo.completed)`. */
  function Completed(todos: seq<Todo>): (r: seq<Todo>)
    ensures |r| <= |todos|
    ensures forall t :: t in r <==> t in todos && t.completed
  {
    if todos == [] then []
    else (if todos[0].completed then [todos[0]] else []) + Completed(todos[1..])
  }

  /** Both filters keep the order of the list they select from. */
  lemma {:induction false} FiltersKeepOrder(todos: seq<Todo>)
    ensures IsSubsequence(Active(todos), todos)
    ensures IsSubsequence(Completed(todos), todos)
  {
    if todos != [] {
      FiltersKeepOrder(todos[1..]);
      var t := todos[0];
      assert Active(todos) == (if t.completed then [] else [t]) + Active(todos[1..]);
      assert Completed(todos) == (if t.completed then [t] else []) + Completed(todos[1..]);
      if t.completed {
        assert Active(todos) == Active(todos[1..]);
        SubsequenceOfTail(Active(todos), todos);
        assert Completed(todos)[1..] == Completed(todos[1..]);
      } else {
        assert Active(todos)[1..] == Active(todos[1..]);
        assert Completed(todos) == Completed(todos[1..]);
        SubsequenceOfTail(Completed(todos), todos);
      }
    }
  }

  lemma SubsequenceOfTail(a: seq<Todo>, b: seq<Todo>)
    requires b != [] && IsSubsequence(a, b[1..])
    ensures IsSubsequence(a, b)
  {
  }

  /** The active and the completed todos split the list: every todo is in
      exactly one of them, so the two counts add up to the total. */
  lemma {:induction false} ActiveCompletedPartition(todos: seq<Todo>)
    ensures multiset(Active(todos)) + multiset(Completed(todos)) == multiset(todos)
    ensures |Active(todos)| + |Completed(todos)| == |todos|
  {
    if todos != [] {
      ActiveCompletedPartition(todos[1..]);
      assert todos == [todos[0]] + todos[1..];
    }
  }

  /** When every todo is completed nothing is active and everything is
      completed; when none is, the other way round. */
  lemma {:induction false} UniformCompletion(todos: seq<Todo>, b: bool)
    requires forall i :: 0 <= i < |todos| ==> todos[i].completed == b
    ensures Active(todos) == (if b then [] else todos)
    ensures Completed(todos) == (if b then todos else [])
  {
    if todos != [] {
      UniformCompletion(todos[1..], b);
      assert todos == [todos[0]] + todos[1..];
    }
  }

  /** `getFilteredTodos`: the active todos for the filter `active`, the
      completed ones for `completed`, and the whole list for any other
      filter, each in the order of the list. */
  function Filtered(todos: seq<Todo>, filter: string): (r: seq<Todo>)
    ensures forall t :: t in r <==> (t in todos
      && (filter == "active" ==> !t.completed) && (filter == "completed" ==> t.completed))
    ensures filter == "active" ==> r == Active(todos)
    ensures filter == "completed" ==> r == Completed(todos)
    ensures filter != "active" && filter != "completed" ==> r == todos
    ensures IsSubsequence(r, todos)
  {
    FiltersKeepOrder(todos);
    SubsequenceRefl(todos);
    if filter == "active" then Active(todos)
    else if filter == "completed" then Completed(todos)
    else todos
  }

  lemma {:induction false} SubsequenceRefl(a: seq<Todo>)
    ensures IsSubsequence(a, a)
    decreases |a|
  {
    if a != [] {
      SubsequenceRefl(a[1..]);
    }
  }

  /** What `renderFooter` hands to the footer template. */
  datatype FooterView = FooterView(
    activeTodoCount: nat, activeTodoWord: string, completedTodos: int, filter: string, visible: bool)

  /** `renderFooter`: the completed count is the total less the active
      count, which is the number of completed todos; the footer shows only
      when the list is not empty. */
  function Footer(todos: seq<Todo>, filter: string): (v: FooterView)
    ensures v.activeTodoCount + v.completedTodos == |todos|
    ensures v.completedTodos == |Completed(todos)|
    ensures v.activeTodoWord == (if |Active(todos)| == 1 then "item" else "items")
    ensures v.visible <==> todos != []
  {
    ActiveCompletedPartition(todos);
    var todoCount := |todos|;
    var activeTodoCount := |Active(todos)|;
    FooterView(activeTodoCount, Util.Pluralize(activeTodoCount, "item"),
      todoCount - activeTodoCount, filter, todoCount > 0)
  }

  /** The todos of a list that have a score, in order. */
  function Scored(todos: seq<Todo>): (r: seq<Todo>)
    ensures |r| <= |todos|
    ensures forall t :: t in r <==> t in todos && t.score.Some?
  {
    if todos == [] then []
    else (if todos[0].score.Some? then [todos[0]] else []) + Scored(todos[1..])
  }

  /** The `reduce` of `updateScore`: the sum of the scores, a missing
      score counting as 0. */
  function SumScores(todos: seq<Todo>): int
  {
    if todos == [] then 0
    else (if todos[0].score.Some? then todos[0].score.value else 0) + SumScores(todos[1..])
  }

  lemma {:induction false} SumScoresAppend(a: seq<Todo>, b: seq<Todo>)
    ensures SumScores(a + b) == SumScores(a) + SumScores(b)
  {
    if a != [] {
      assert (a + b)[0] == a[0] && (a + b)[1..] == a[1..] + b;
      SumScoresAppend(a[1..], b);
    } else {
      assert a + b == b;
    }
  }

  lemma {:induction false} SumScoresScored(todos: seq<Todo>)
    ensures SumScores(Scored(todos)) == SumScores(todos)
  {
    if todos != [] {
      SumScoresScored(todos[1..]);
      var head := if todos[0].score.Some? then [todos[0]] else [];
      SumScoresAppend(head, Scored(todos[1..]));
    }
  }

  /** With every score in [0, 10] the sum stays within 10 per todo. */
  lemma {:induction false} SumScoresBounds(todos: seq<Todo>)
    ensures (forall i :: 0 <= i < |todos| && todos[i].score.Some? ==> 0 <= todos[i].score.value <= 100)
      ==> 0 <= SumScores(todos) <= 100 * |Scored(todos)|
  {
    if todos != [] {
      SumScoresBounds(todos[1..]);
    }
  }

  /** What `updateScore` shows: the reward points (100 per score point,
      so 10 per tenth), and the gauge value, the average of the scores,
      given as the ratio `totalTenths / (10 * scoredCount)` or 0 when no
      todo of the view has a score. */
  datatype ScoreSummary = ScoreSummary(points: int, scoredCount: nat, totalTenths: int)

  /** `updateScore` on the filtered view of the list. */
  function UpdateScore(todos: seq<Todo>, filter: string): (s: ScoreSummary)
    ensures var view := Filtered(todos, filter);
      && s.scoredCount == |Scored(view)|
      && (s.scoredCount == 0 <==> forall t :: t in view ==> t.score.None?)
      && s.totalTenths == SumScores(view)
      && s.points == 10 * s.totalTenths
      && (s.scoredCount == 0 ==> s.points == 0 && s.totalTenths == 0)
      && ((forall i :: 0 <= i < |view| && view[i].score.Some? ==> 0 <= view[i].score.value <= 100)
          ==> 0 <= s.totalTenths <= 100 * s.scoredCount)
  {
    var view := Filtered(todos, filter);
    var scored := Scored(view);
    SumScoresScored(view);
    SumScoresBounds(view);
    var numTodos := |scored|;
    var totalScore := if numTodos > 0 then SumScores(scored) else 0;
    ScoreSummary(10 * totalScore, numTodos, totalScore)
  }

  lemma {:induction false} ScoredCountSplit(todos: seq<Todo>)
    ensures |Scored(Active(todos))| + |Scored(Completed(todos))| == |Scored(todos)|
  {
    if todos != [] {
      ScoredCountSplit(todos[1..]);
      var t, rest := todos[0], todos[1..];
      if t.completed {
        assert Active(todos) == Active(rest);
        assert Completed(todos) == [t] + Completed(rest);
        ScoredAppend([t], Completed(rest));
      } else {
        assert Active(todos) == [t] + Active(rest);
        assert Completed(todos) == Completed(rest);
        ScoredAppend([t], Active(rest));
      }
    }
  }

  lemma {:induction false} SumScoresSplit(todos: seq<Todo>)
    ensures SumScores(Active(todos)) + SumScores(Completed(todos)) == SumScores(todos)
  {
    if todos != [] {
      SumScoresSplit(todos[1..]);
      var t, rest := todos[0], todos[1..];
      if t.completed {
        assert Active(todos) == Active(rest);
        assert Completed(todos) == [t] + Completed(rest);
        SumScoresAppend([t], Completed(rest));
      } else {
        assert Active(todos) == [t] + Active(rest);
        assert Completed(todos) == Completed(rest);
        SumScoresAppend([t], Active(rest));
      }
    }
  }

  lemma {:induction false} ScoredAppend(a: seq<Todo>, b: seq<Todo>)
    ensures Scored(a + b) == Scored(a) + Scored(b)
  {
    if a != [] {
      assert (a + b)[0] == a[0] && (a + b)[1..] == a[1..] + b;
      ScoredAppend(a[1..], b);
    } else {
      assert a + b == b;
    }
  }

  /** The points and the number of scored todos of the active view and of
      the completed view add up to those of the whole list. */
  lemma ScoreViewsAdd(todos: seq<Todo>)
    ensures UpdateScore(todos, "active").points + UpdateScore(todos, "completed").points
      == UpdateScore(todos, "all").points
    ensures UpdateScore(todos, "active").scoredCount + UpdateScore(todos, "completed").scoredCount
      == UpdateScore(todos, "all").scoredCount
  {
    ScoredCountSplit(todos);
    SumScoresSplit(todos);
  }
}
