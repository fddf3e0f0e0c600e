/** The `App` object without its DOM: the todo list, the current filter,
    and the snapshot that `render` writes to local storage at the end of
    every event handler. */
module Store {
  import opened Wrappers
  import opened Foods
  import opened Todos
  import Util

  /** The key code `create` waits for. */
  const EnterKey := 13

  predicate HasId(todos: seq<Todo>, id: string)
  {
    exists i :: 0 <= i < |todos| && todos[i].id == id
  }

  /** `i` is the index of the last todo with that id. */
  predicate IsLastIndex(todos: seq<Todo>, id: string, i: int)
  {
    0 <= i < |todos| && todos[i].id == id && forall j :: i < j < |todos| ==> todos[j].id != id
  }

  /** Where the backward search of `indexFromEl` stops: the last index
      holding the id, or undefined when no todo holds it. */
  function LastIndexOf(todos: seq<Todo>, id: string): (r: Option<nat>)
    ensures r.Some? ==> IsLastIndex(todos, id, r.value)
    ensures r.None? <==> !HasId(todos, id)
  {
    if todos == [] then None
    else if todos[|todos| - 1].id == id then Some(|todos| - 1)
    else
      var r := LastIndexOf(todos[..|todos| - 1], id);
      assert forall j :: 0 <= j < |todos| - 1 ==> todos[..|todos| - 1][j] == todos[j];
      r
  }

  /** `todos.splice(at, 1)`: the todo at `at` removed, the others kept in
      order. An undefined index reads as 0, so it removes the first todo. */
  function SpliceOne(todos: seq<Todo>, at: Option<nat>): (r: seq<Todo>)
    requires at.Some? ==> at.value < |todos|
    ensures todos == [] ==> r == []
    ensures todos != [] ==>
      var k := if at.Some? then at.value else 0;
      && |r| == |todos| - 1
      && (forall j :: 0 <= j < k ==> r[j] == todos[j])
      && (forall j :: k <= j < |r| ==> r[j] == todos[j + 1])
  {
    if todos == [] then []
    else
      var k := if at.Some? then at.value else 0;
      todos[..k] + todos[k + 1..]
  }

  class TodoStore {
    var todos: seq<Todo>
    var filter: string
    /** What `util.store('todos-jquery', todos)` last wrote. */
    ghost var saved: seq<Todo>

    /** `init`: the list read back from storage, then the router's first
        route, whose render writes the list back. That route is `/all` when
        the page has no hash; with a hash it is the hash's route, which is
        this constructor followed by `SetFilter`. */
    constructor (stored: seq<Todo>)
      ensures todos == stored && filter == "all" && saved == stored
    {
      todos := stored;
      filter := "all";
      saved := stored;
    }

    /** The router's `/:filter` handler: any route text becomes the filter,
        then `render`. */
    method SetFilter(f: string)
      modifies this
      ensures filter == f && todos == old(todos) && saved == todos
    {
      filter := f;
      saved := todos;
    }

    /** `indexFromEl`, given the id read from the element: the `while (i--)`
        search from the end of the list. */
    method IndexFromEl(id: string) returns (r: Option<nat>)
      ensures r == LastIndexOf(todos, id)
    {
      var i := |todos|;
      while i > 0
        invariant 0 <= i <= |todos|
        invariant forall j :: i <= j < |todos| ==> todos[j].id != id
      {
        i := i - 1;
        if todos[i].id == id {
          return Some(i);
        }
      }
      return None;
    }

    /** `create` for the key with code `key` and the input text `raw`. The
        title is looked up and classified first; unless the key is Enter
        and the trimmed text not empty, nothing else happens (no render).
        Otherwise one todo is appended, with an identifier made from the
        draws `random`, and the list is saved. */
    method Create(raw: string, key: int, foods: seq<Food>, random: seq<int>)
      requires key == EnterKey && Util.Trim(raw) != "" ==> Util.ValidRandom(random)
      modifies this
      ensures var val := Util.Trim(raw);
        if key != EnterKey || val == "" then todos == old(todos) && saved == old(saved)
        else
          var score := ScoreForTitle(foods, val);
          && todos == old(todos) + [Todo(Util.UuidText(random), val, score, false, Classify(score))]
          && saved == todos
      ensures filter == old(filter)
    {
      var val := Util.Trim(raw);
      var score := ScoreForTitle(foods, val);
      var redYellowGreenNull := Classify(score);
      if key != EnterKey || val == "" {
        return;
      }
      var id := Util.Uuid(random);
      todos := todos + [Todo(id, val, score, false, redYellowGreenNull)];
      saved := todos;
    }

    /** `toggle`: flips `completed` on the last todo with that id. An id
        that is not in the list makes the handler throw. */
    method Toggle(id: string)
      requires HasId(todos, id)
      modifies this
      ensures var i := LastIndexOf(old(todos), id).value;
        todos == old(todos)[i := old(todos)[i].(completed := !old(todos)[i].completed)]
      ensures saved == todos && filter == old(filter)
    {
      var i := IndexFromEl(id);
      var k := i.value;
      todos := todos[k := todos[k].(completed := !todos[k].completed)];
      saved := todos;
    }

    /** `toggleAll`: every todo of the whole list, whatever the filter,
        gets `completed` set to the checkbox state. */
    method ToggleAll(checked: bool)
      modifies this
      ensures |todos| == |old(todos)|
      ensures forall i :: 0 <= i < |todos| ==> todos[i] == old(todos)[i].(completed := checked)
      ensures Active(todos) == (if checked then [] else todos)
      ensures Completed(todos) == (if checked then todos else [])
      ensures saved == todos && filter == old(filter)
    {
      ghost var before := todos;
      for i := 0 to |todos|
        invariant |todos| == |before|
        invariant forall j :: 0 <= j < i ==> todos[j] == before[j].(completed := checked)
        invariant forall j :: i <= j < |todos| ==> todos[j] == before[j]
        invariant filter == old(filter)
      {
        todos := todos[i := todos[i].(completed := checked)];
      }
      assert forall j :: 0 <= j < |todos| ==> todos[j].completed == checked;
      UniformCompletion(todos, checked);
      saved := todos;
    }

    /** `destroy`: the last todo with that id is spliced out; when no todo
        has the id, the undefined index removes the first todo. */
    method Destroy(id: string)
      modifies this
      ensures todos == SpliceOne(old(todos), LastIndexOf(old(todos), id))
      ensures saved == todos && filter == old(filter)
    {
      var i := IndexFromEl(id);
      todos := SpliceOne(todos, i);
      saved := todos;
    }

    /** `destroyCompleted`: the list keeps only its active todos and the
        filter goes back to `all`. */
    method DestroyCompleted()
      modifies this
      ensures todos == Active(old(todos)) && filter == "all"
      ensures saved == todos
    {
      todos := Active(todos);
      filter := "all";
      saved := todos;
    }

    /** `update`, the end of an edit: with the abort flag (Escape) nothing
        changes; a non-empty trimmed text becomes the title of the last todo
        with that id, its score and colour kept; an empty one splices that
        todo out as `destroy` does. The list is saved in every case. */
    method Update(id: string, raw: string, aborted: bool)
      requires !aborted && Util.Trim(raw) != "" ==> HasId(todos, id)
      modifies this
      ensures aborted ==> todos == old(todos)
      ensures !aborted && Util.Trim(raw) != "" ==>
        var i := LastIndexOf(old(todos), id).value;
        todos == old(todos)[i := old(todos)[i].(title := Util.Trim(raw))]
      ensures !aborted && Util.Trim(raw) == "" ==> todos == SpliceOne(old(todos), LastIndexOf(old(todos), id))
      ensures saved == todos && filter == old(filter)
    {
      var val := Util.Trim(raw);
      if aborted {
        saved := todos;
        return;
      }
      var i := IndexFromEl(id);
      if val != "" {
        var k := i.value;
        todos := todos[k := todos[k].(title := val)];
      } else {
        todos := SpliceOne(todos, i);
      }
      saved := todos;
    }
  }

  /** Removing the todo a present id names takes out exactly that todo: the
      list is one shorter and no other todo is lost. */
  lemma {:induction false} SpliceRemovesOne(todos: seq<Todo>, id: string)
    requires HasId(todos, id)
    ensures var i := LastIndexOf(todos, id).value;
      var after := SpliceOne(todos, LastIndexOf(todos, id));
      && |after| == |todos| - 1
      && multiset(after) + multiset{todos[i]} == multiset(todos)
  {
    var i := LastIndexOf(todos, id).value;
    assert todos == todos[..i] + [todos[i]] + todos[i + 1..];
  }
}
