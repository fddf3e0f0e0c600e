# Food-scored todo list: the state-and-scoring engine

This project models the logic of `js/app.js`, a jQuery todo list. Each todo can carry a
nutrition score taken from a food table (`foodList`). The DOM is left out. What remains is:

- The todo store (`App`): a list of todos `{id, title, score, completed, colorClass}` and the
  current `filter`. It has these operations:
  - `create`, `toggle`, `toggleAll`, `update`, `destroy`, `destroyCompleted`;
  - the backward id search of `indexFromEl`;
  - the router's filter change.
  Every handler that changes the list ends in `render`, which writes the whole list to local
  storage. That write is the ghost field `saved`. The early return of `create` (no Enter key,
  or an empty title) skips `render`.
- The views of the store: `getActiveTodos`, `getCompletedTodos` and `getFilteredTodos`.
  - They are the functions `Active`, `Completed` and `Filtered`, applied to the store's
    `todos` and `filter`.
  - The counts of `renderFooter` and the points and gauge value of `updateScore` are
    computed from these views.
- The scoring done in `create`:
  - a first-match lookup of the trimmed title in the food table;
  - a colour tier computed from the score.
- `suggestFood`. It finds the named food and keeps the records of the same category with
  another name and a strictly higher score. It samples at most three of them, sorts them by
  score, reverses the order, and writes a `scoreDiff` onto each returned record.
- `util.uuid`, which builds a version-4 identifier in the layout of section 3 of RFC 4122,
  and `util.pluralize`.

Modules:
- `Wrappers`: `Option`.
- `Util`: uuid, pluralize, and the JavaScript `trim`.
- `Foods`: the food record, the lookup and the tier.
- `Todos`: the todo record, the views, the footer and the score summary.
- `Recommend`: `suggestFood`, including the class `FoodTable` for the shared food records
  that it annotates.
- `Store`: the class `TodoStore`.

Conventions:
- Scores are integers counted in tenths. `toFixed(1)` keeps one decimal.
- Inputs stand in for the outside world:
  - the food table is a sequence of records;
  - `Math.random` in `uuid` is a sequence of 32 draws in [0, 16);
  - the choice `_.sample` makes is a sequence `pick` of min(3, n) distinct positions in the
    candidate list;
  - the key code, the input text and the Escape abort flag are parameters of the handlers.

Where the code and the obvious intent differ, the model follows the code:
- A score of 10 or more leaves `colorClass` undefined (`Unset`). No branch assigns it, so
  there is no "perfect" tier.
- `toggle` and the non-empty branch of `update` require that the id is in the list. Without
  it `this.todos[i]` is `undefined` and the handler throws.
- For an id that is not in the list, `destroy` and the empty branch of `update` do not do
  nothing. They call `splice(undefined, 1)`, which removes the first todo. `SpliceOne` models
  that.
- Editing never rescores: `update` changes only the title.
- `suggestFood` excludes candidates by name, not by record. A duplicate of the matched name
  is never a candidate.
- `suggestFood` changes the shared food records. It is not read-only.
- Sorting is a stable ascending sort followed by a reverse. Records with equal scores come
  out in the reverse of the sampled order.

## Model

| member | source | states |
|---|---|---|
| Util.Uuid | js/app.js:14-28 | The loop over 32 draws builds exactly the reference identifier `UuidText`: hyphens before draws 8, 12, 16 and 20, the digit 4 for draw 12, `random & 3` or-ed with 8 for draw 16. |
| Util.UuidLayout | js/app.js:19-27 | The identifier has length 36, with `-` at indexes 8, 13, 18 and 23 and `4` at 14. Index 19 is one of `8 9 a b`, set from the low two bits of draw 16. Every other index is the hex digit of the draw it comes from. |
| Util.UuidInjective | js/app.js:19-25 | Two identifiers are equal if and only if their draws agree everywhere except draw 12 and the top two bits of draw 16. |
| Util.VariantBits | js/app.js:24 | `random & 3` or-ed with 8 equals the low two bits of the draw plus 8. |
| Util.Pluralize | js/app.js:29-31 | The result is the word itself exactly when the count is 1. Otherwise it is the word followed by `s`. |
| Util.Trim | js/app.js:193 | The result is a contiguous piece of the input, and everything cut before it and after it is ECMAScript white space. The result has none at either end. It is empty exactly when the input is all white space. |
| Foods.FindFood | js/app.js:195-197 | The result is the index of the first record whose name equals the text, or none exactly when no record has that name. |
| Foods.ScoreForTitle | js/app.js:195-198 | The score is that of the first record named by the title, or null exactly when no record matches. |
| Foods.Classify | js/app.js:200-209 | The tier is the empty class for null, red below 6, yellow for [6, 9), green for [9, 10), and unset for 10 or more, each in both directions. No other value is produced. |
| Foods.ClassifyMonotone | js/app.js:200-209 | A higher score is never given a lower tier. |
| Todos.Active | js/app.js:152-156 | A todo is in the result exactly when it is in the list and not completed. |
| Todos.Completed | js/app.js:157-161 | A todo is in the result exactly when it is in the list and completed. |
| Todos.FiltersKeepOrder | js/app.js:152-161 | Both filtered lists are subsequences of the list: order is kept. |
| Todos.ActiveCompletedPartition | js/app.js:132-137 | The active and completed lists partition the list as multisets, so the active count plus the completed count is the total. |
| Todos.UniformCompletion | js/app.js:146-148 | When every todo has `completed == b`, the active list is empty and the completed list is everything (for `b` true), or the reverse. |
| Todos.Filtered | js/app.js:162-172 | The view is exactly the active list for `active`, exactly the completed list for `completed`, and the whole list for any other filter. A todo is in it exactly when it is in the list and passes the filter, and it is always an order-preserving subsequence. |
| Todos.Footer | js/app.js:131-142 | The active and completed counts add up to the total, the completed count is the number of completed todos, the word is `item` or `items`, and the footer shows only for a non-empty list. |
| Todos.SumScoresBounds | js/app.js:50-51 | If every score is in [0, 10], the sum is at most 10 per scored todo, so the gauge value stays in its range [0, 10]. |
| Todos.UpdateScore | js/app.js:296-309 | The summary covers the filtered view: the number of scored todos, the sum of the scores (filtering out nulls does not change it), 100 points per score point, and all zero when nothing is scored. The average is bounded as above. |
| Todos.ScoreViewsAdd | js/app.js:296-307 | The points and scored counts of the active view and the completed view add up to those of the whole list. |
| Recommend.Candidates | js/app.js:257-259 | An index is a candidate exactly when its record has the matched record's category, another name and a strictly higher score. Candidates are listed in table order. |
| Recommend.SortByScore | js/app.js:265-266 | The sort is a rearrangement of its input: the multisets are equal. |
| Recommend.SortByScoreAscending | js/app.js:265-266 | The sort orders records by non-decreasing score. |
| Recommend.Reverse | js/app.js:267 | Element `i` of the result is element `n-1-i` of the input. |
| Recommend.RankedProperties | js/app.js:261-267 | The sampled, sorted and reversed list has one entry per pick. It lists each sampled candidate exactly once, has no repeats, and is in non-increasing score order. |
| Recommend.Suggest | js/app.js:246-273 | An unknown name gives no result. Otherwise there are exactly min(3, number of candidates) distinct records, each of the same category with another name and a strictly higher score, in non-increasing score order, and exactly the sampled candidates. |
| Recommend.ScoreDiffsPositive | js/app.js:258-270 | Every annotated record gets a strictly positive `scoreDiff`. |
| Recommend.FoodTable.WriteScoreDiffs | js/app.js:269-271 | Each returned record's `scoreDiff` becomes its score less the matched score. No other record or field changes. |
| Recommend.FoodTable.SuggestFood | js/app.js:246-274 | It returns the ranked records as they stand after annotation. The table changes only in those records' `scoreDiff`, and not at all for an unknown name. Every returned `scoreDiff` is positive. |
| Store.LastIndexOf | js/app.js:180-190 | The result is the last index holding the id, or none exactly when no todo has it. |
| Store.TodoStore.IndexFromEl | js/app.js:180-190 | The backward `while (i--)` search returns that last index, or none. |
| Store.SpliceOne | js/app.js:314 | `splice(at, 1)` removes only the element at `at`, keeping the others in order. An undefined index removes the first element, and an empty list stays empty. |
| Store.SpliceRemovesOne | js/app.js:313-316 | When the id is present, splicing at its last index shortens the list by exactly one and loses only that todo. |
| Store.TodoStore.constructor | js/app.js:55-64 | The store starts with the stored list and the filter `all`, and the initial render saves the list. With a hash in the page address the first route is that hash's route, which is this constructor followed by `SetFilter`. |
| Store.TodoStore.SetFilter | js/app.js:59-63 | The route text becomes the filter. The todos are unchanged and saved. |
| Store.TodoStore.Create | js/app.js:191-227 | Without Enter, or with an all-white-space text, nothing changes and nothing is saved. Otherwise exactly one todo is appended: the uuid of the draws, the trimmed title, the first matching food's score, `completed` false and that score's tier. Then the list is saved. |
| Store.TodoStore.Toggle | js/app.js:228-232 | Only `completed` of the todo at the id's last index flips. All else is unchanged, and the list is saved. |
| Store.TodoStore.ToggleAll | js/app.js:143-151 | Every todo of the whole list gets `completed` set to the checkbox state and nothing else changes. Afterwards the active list is empty (checked) or the completed list is empty (unchecked). |
| Store.TodoStore.Destroy | js/app.js:313-316 | The list becomes `splice` at the id's last index. For an unknown id it is `splice` at undefined, which removes the first todo. |
| Store.TodoStore.DestroyCompleted | js/app.js:173-177 | The list becomes its active subsequence and the filter becomes `all`. |
| Store.TodoStore.Update | js/app.js:275-295 | With the abort flag the list is unchanged. With a non-empty trimmed text only the title of the id's last todo changes; its id, score, colour class and `completed` stay. With an empty text that todo is spliced out. The list is saved in every case. |

## Left out

- DOM and UI plumbing. This covers jQuery selectors, the Handlebars templates and the `eq`
  helper, `cacheElements`, `bindEvents`, the Router itself (only its filter assignment is
  kept), autocomplete, the JustGage gauge widget, `mouseOver` with its popover, `edit`,
  `editKeyup` and `recoClick`.
  - `editKeyup` only decides the abort flag and the blur that leads to `update`.
  - `recoClick` is `create` with the Enter key.
  - Resetting the abort flag in `update` is element state.
- Local storage and `JSON.stringify`/`JSON.parse` in `util.store`. They are browser I/O.
  - The write is the ghost snapshot `saved`.
  - The read is the constructor's argument.
  - The save/load round trip is therefore not modelled.
- Floating point. This covers:
  - the rounding of `toFixed(1)`, since food scores are taken as already given in tenths;
  - the `parseFloat` summation;
  - `parseInt(totalScore * 100, 10)`. The model gives exactly 10 points per tenth. In the
    source the float product can fall just short of the whole number, and the truncation of
    `parseInt` then loses a point: a single todo scored 2.3 gives `229.99999999999997` and
    229 points, where `Todos.UpdateScore` gives 230. The model does not capture this;
  - the `toFixed(1)` of the average handed to the gauge, which is left as the ratio
    `totalTenths / (10 * scoredCount)`;
  - the `'+'`-prefixed text of `scoreDiff`, which is kept as the integer difference in tenths.
- Randomness. `Math.random` and `_.sample` are inputs, as described above. Their
  distribution is not modelled.
- Loose `==` in the food lookups. It is modelled as string equality.
- Identifier uniqueness. The code does not enforce it. The store searches for the last
  todo with an id, so duplicates are handled as the code handles them.
- Recommend.FoodTable.SuggestFood: returns copies of the annotated records, not references
  to the shared `foodList` records. In the source a later `suggestFood` call that writes
  `scoreDiff` again is visible through the records an earlier call returned; the model does
  not capture that aliasing.
- Recommend.Suggest: does not state as a lemma the order among records of equal score.
  That order is the reverse of the sampled order, because the definition is a stable sort
  followed by a reverse.
