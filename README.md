# galmake story engine in Dafny

This project models the engine of the smmcat-galmake chat plugin. The plugin plays
choice-driven text adventures. A story is a tree: a branch has a name, a title and
children, and an ending (`child` a string) has a text. A player's position is their
*branch path* (`userBranch`), a list of 1-based indices kept as the raw strings the
player typed. The model covers five parts of the engine:

- **The navigator, `galplayMap.getMenu`** (module `Story`). It splits the joined path
  on `-`, converts each piece with JavaScript's `Number` and walks the tree. It stops
  on an out-of-range index with `selectMenu` undefined, and on an ending with
  `end = true`. It builds the breadcrumb from the last three names met, each cut to 6
  characters plus `...`, most recent first, joined by `<`. An index that reads as 0 or
  NaN throws a TypeError; the model calls that `Crash`.
- **The directive handlers, `transferTool`** (module `Directives`). These are
  `jumpBranch`, the four conditional jumps, `getProp`, `getMoreProp`, `lostProp`,
  `querymentProp`, `getAchievements`, `getTime` and `rollACGImg`. They act on one
  user's four entries: the path, the once-per-path ledger (`onlyOneTemp`), the
  inventory (`takeIng`) and the achievements. Each handler is a function on a
  `UserState` value. Each handler that reads or changes those entries is also a method
  of the class `Player`, which updates the four fields in place, and each method is
  proved equal to its function. `getTime` and `rollACGImg` only return text; they have
  no method of their own and are handled inside `Player.Call`.
- **The renderer, `markScreen` and `format`** (modules `Markup` and `Renderer`). It
  cuts texts into the matches of `/%([^%]*)%/g` and replaces each match with what the
  named handler returns, or with `''` for an unknown name. When a handler set
  `ev.change`, it renders again from the updated path. The source recurses without
  bound; here the recursion is cut off after `fuel` re-renders. Then it lays out an
  ending page or a menu page, or reports an error page.
- **The `开始剧情` loop** (module `Session`). The prompts are a sequence of replies,
  with `None` standing for a timeout. Each turn renders the page. On an error page it
  pops one path element and renders again. It then filters the reply, quits on "0",
  and pushes a choice, popping it again when the page was an ending.
- **The `重置进度` reset** (module `Session`).

`UserState` is one user's record and `Player` holds it in place. The values `Env.now`,
`Env.image` and `Env.hasImage` stand for the clock, the random-image element and the
image detection of `h.select`.

## Model

| member | source | states |
|---|---|---|
| Text.SplitParts | src/index.ts:448 | No piece of `s.split(sep)` holds the separator, and joining the pieces with it gives `s` back |
| Text.SplitJoin | src/index.ts:448 | Splitting `parts.join(sep)` on `sep` gives back `parts` when no part holds `sep` (the path goes out joined by `-` and comes back split on `-`) |
| Text.JsNumberCases | src/index.ts:448 | `Number(s)`: blank text reads as 0; the text reads as a number exactly when it is blank or all decimal digits after trimming, and the number is then their decimal value |
| Text.Nth | src/index.ts:489-492 | `parts[k]` is defined exactly when `k` is in range, and is then that part (`undefined` otherwise) |
| Text.DropBackslashesClean | src/index.ts:537 | `replace(/\\/g, "")` leaves no backslash, never lengthens the text, keeps every other character as many times as it occurs, and leaves a text without backslashes as it is |
| Text.DropBackslashesAppend | src/index.ts:537 | The removal keeps the order of the kept characters: the result for two texts in a row is the first's result followed by the second's |
| Text.JoinContains | src/index.ts:552 | A joined list contains each of its parts |
| Story.ShortNameCut | src/index.ts:452 | A name of at most 6 characters is kept; a longer one becomes its first 6 characters followed by `...` |
| Story.RecentFirstNames | src/index.ts:459 | `slice(-3).reverse()` keeps at most 3 names, the k-th being the k-th most recent |
| Story.ReverseAt | src/index.ts:459 | `reverse()` puts the element at position k at position len-1-k |
| Story.NumbersAppend | src/index.ts:448 | Converting a path with one more piece gives the converted path followed by `Number` of that piece |
| Story.GetMenu | src/index.ts:435-474 | The `for` loop over the indices, which mutates `selectMenu`, `indePath` and `PathName`, gives the same resolution as the recursive walk `Resolve` |
| Story.ResolveEmpty | src/index.ts:442-446 | The empty goal gives the top-level list with no title, an empty breadcrumb, an empty `lastPath` and `end` false |
| Story.ResolveJoined | src/index.ts:448 | Resolving a joined branch path walks exactly its pieces, each converted by `Number` |
| Story.NavigateToBranch | src/index.ts:448-473 | A path through branches gives the last branch's children with that branch's title, the whole path as `lastPath`, the breadcrumb of the names met, and `end` false |
| Story.NavigateToEnding | src/index.ts:462-470 | A path that reaches an ending gives its text with `end` true and no title; indices after the ending are ignored |
| Story.NavigateOutOfRange | src/index.ts:454-460 | An index past the number of siblings leaves `selectMenu` undefined; `lastPath` and the breadcrumb stop before it, and later indices are ignored |
| Story.NavigateBadIndex | src/index.ts:462-464 | An index that reads as 0 or NaN after a valid path prefix throws |
| Story.ResolveNaNCrashes | src/index.ts:448-464 | A valid path to a menu, followed by a non-numeric piece, throws |
| Story.PrefixOfValidIsValid | src/index.ts:449-461 | When a path resolves without an out-of-range error, so does every prefix of it |
| Story.EndMeansEnding | src/index.ts:462-473 | `end` is set exactly when the walk stopped at an ending, and then no title is attached |
| Story.WalkThroughBranches | src/index.ts:449-471 | Walking a path of branches lands on the last branch's children, having pushed the path and the cut names |
| Story.WalkIntoEnding | src/index.ts:462-470 | Walking a path that ends at an ending stops there, whatever indices follow |
| Directives.Pop | src/index.ts:223 | `pop()` drops the last element, and leaves an empty path empty |
| Directives.LookupKnown | src/index.ts:198-386 | `transferTool[name]` selects a handler exactly when `name` is that handler's key, so exactly the twelve keys select one |
| Directives.GrantOncePerPath | src/index.ts:275-300 | `getProp` at a recorded key changes nothing. Otherwise it adds the amount to that one item, leaves the other items unchanged and records the key. A repeat call changes nothing |
| Directives.GrantAllTotals | src/index.ts:304-330 | `getMoreProp`'s grants add, for each item, the sum of the amounts of the pieces naming it; an item is present afterwards exactly when it was held before or a piece names it |
| Directives.GrantBatchOncePerPath | src/index.ts:302-333 | `getMoreProp` grants the whole batch only at a new key and appends the key either way, so keys can repeat; a second call adds nothing |
| Directives.LoseOnceCases | src/index.ts:335-353 | `lostProp`: at a recorded key it returns `undefined` and changes nothing. When the item is absent or below the threshold it returns false and changes nothing. Otherwise it returns true, subtracts the amount, deletes the entry at 0 and records the key |
| Directives.JumpPayingCases | src/index.ts:213-228 | `jumpByLostProp` jumps to the `?` target, paying the item, exactly when `lostProp` succeeds; otherwise it pops one element. At a recorded key it always pops |
| Directives.ParamParts | src/index.ts:232-234 | For `prop*q?path` (no `*` or `?` in `prop`, `q` non-empty digits, no `?` in `path`): the condition is `prop*q`, the target is `path`, the item is `prop`, and both the amount granted and the threshold checked are the decimal value of `q` |
| Directives.ParamPartsBare | src/index.ts:232-234 | For `prop?path` without `*`: the item is `prop`, there is no quantity, the amount is 1 and the threshold is 1 |
| Directives.ConditionalJumps | src/index.ts:230-273 | On `prop*q?path`, with `held` meaning `prop` is present with a count of at least `q`: `jumpByCheckProp` sets the path to `path` split on `-` if `held` and pops it otherwise; `jumpByNoneProp` does the opposite; `jumpByNoneProp_NotBack` jumps when not `held` and otherwise leaves the whole state unchanged. Nothing but the path changes |
| Directives.ConditionalJumpsBare | src/index.ts:230-273 | The same on `prop?path`, where the test is holding `prop` at least once |
| Directives.GrantByParam | src/index.ts:275-300 | `getProp("prop*q")` at a new key adds the value of `q` to `prop` and records the key; at a recorded key it changes nothing |
| Directives.GrantGoldTwice | src/index.ts:275-300 | `getProp("gold*4")` twice at the same new path, with no gold before, leaves exactly 4 gold |
| Directives.JumpPayingByParam | src/index.ts:213-228 | `jumpByLostProp("prop*q?path")` at a new key, holding at least `q` of `prop` (at least 1 when `q` is 0), takes `q`, deletes the entry when none is left, records the key and moves to `path` split on `-`; in every other case it only pops the path |
| Directives.JumpPayingParsed | src/index.ts:213-228 | The same for any parameter whose condition names `prop` with amount `n` and whose target is `path` |
| Directives.PayGoldExample | src/index.ts:213-228 | `jumpByLostProp("gold*11?1-2-3")` at a new path: with 5 gold it only pops the path; with 11 gold it deletes the gold entry, records the key and moves to the path 1, 2, 3 |
| Directives.AchieveKeepsFirst | src/index.ts:372-385 | `getAchievements` never overwrites an achievement that has a time; otherwise it records the current time; a repeat call changes nothing. The path, the ledger, the inventory and every other achievement stay as they were |
| Directives.RunIsWellBehaved | src/index.ts:198-386 | Every handler keeps counts at least 0 (for the quantities `Number` is modelled on), only appends to the ledger and keeps recorded achievements. Only the jumps set `change`, and they set the path to the target or pop it. A handler that needs a parameter throws exactly when it has none |
| Directives.Player.constructor | src/index.ts:648-653 | A first-time user starts with all four entries empty |
| Directives.Player.Restore | src/index.ts:591-594 | Loading a saved record puts back exactly its four entries |
| Directives.Player.JumpBranch | src/index.ts:207-211 | The in-place handler leaves the state that `JumpTo` describes |
| Directives.Player.QuerymentProp | src/index.ts:355-370 | The answer is true exactly when the item is present and not below the threshold; a NaN threshold checks presence only |
| Directives.Player.GetProp | src/index.ts:275-300 | The in-place handler leaves the state that `GrantOnce` describes |
| Directives.Player.GetMoreProp | src/index.ts:302-333 | The loop over the `+` pieces leaves the state that `GrantBatchOnce` describes |
| Directives.Player.LostProp | src/index.ts:335-353 | The in-place handler leaves the state and returns the result that `LoseOnce` describes |
| Directives.Player.JumpByLostProp | src/index.ts:213-228 | The in-place handler leaves the state that `JumpPaying` describes |
| Directives.Player.JumpByCheckProp | src/index.ts:230-245 | The in-place handler leaves the state that `JumpIfHolding` describes |
| Directives.Player.JumpByNoneProp | src/index.ts:247-262 | The in-place handler leaves the state that `JumpUnlessHolding` describes |
| Directives.Player.JumpByNonePropNotBack | src/index.ts:264-273 | The in-place handler leaves the state that `JumpUnlessHoldingOrStay` describes, and reports a jump exactly when the item is not held |
| Directives.Player.GetAchievements | src/index.ts:372-385 | The in-place handler leaves the state that `Achieve` describes |
| Directives.Player.Call | src/index.ts:490-493 | A call in place throws exactly when the handler's function throws, and then changes nothing; otherwise it gives that function's state, text and `change` |
| Markup.UnparsePieces | src/index.ts:486 | Cutting a text into pieces loses nothing: putting plain pieces and `%capture%` matches back together gives the text |
| Markup.PiecesCaptures | src/index.ts:486 | No capture holds a `%` |
| Markup.PiecesPlain | src/index.ts:486 | A text without `%` is one plain piece |
| Markup.PiecesShape | src/index.ts:486 | `/%([^%]*)%/g` matches leftmost first and without overlap: plain pieces and captures alternate, starting and ending with plain text; no plain piece but the last holds a `%`, and the last holds at most one |
| Markup.PiecesUnique | src/index.ts:486 | That cut is the only one: any alternating sequence of that shape whose captures hold no `%` and which reassembles to a text equals the text's cut |
| Markup.PiecesLone | src/index.ts:486 | A text with at most one `%` has no match and stays one plain piece |
| Markup.PiecesOne | src/index.ts:486 | A text with one match between `%`-free parts cuts into the part before, the capture and the part after |
| Markup.PiecesCons | src/index.ts:486 | In `a%c%rest` with no `%` in `a` or `c`, the first match captures `c`, and matching goes on in `rest` |
| Renderer.ExpandPlain | src/index.ts:483-509 | A text with no directive comes through unchanged and runs no handler |
| Renderer.ExpandOne | src/index.ts:486-495 | A text with one directive `%c%` between `%`-free parts becomes the parts around the handler's result, with the state the handler left and its `change` added; it throws when the handler throws |
| Renderer.ExpandTime | src/index.ts:198-200 | `%getTime%` between `%`-free parts is replaced by the current time, and the state and `change` stay as they were |
| Renderer.ExpandUnknown | src/index.ts:488-494 | Directives that name no handler are replaced by `''`, and the state and `change` stay as they were |
| Renderer.SubstituteKeeps | src/index.ts:488-494 | One replaced directive keeps counts at least 0, only appends to the ledger and keeps recorded achievements |
| Renderer.ExpandKeeps | src/index.ts:483-509 | Substituting a whole text keeps counts at least 0, only appends to the ledger, keeps recorded achievements and never clears `change` |
| Renderer.ListedCases | src/index.ts:552 | The list of choices holds no name containing `__discard`, every other child's name, and nothing that is not a child's name |
| Renderer.ListedInOrder | src/index.ts:552 | `map(...).filter(...)` keeps order and repetitions: one child lists its name unless it contains `__discard`, and the list for two runs of children is the first run's list followed by the second's |
| Renderer.ListedHolds | src/index.ts:552 | The joined list of choices contains every choice name without `__discard` |
| Renderer.FormatShape | src/index.ts:516-561 | The error pages are exactly the undefined menus and the empty ending texts, and they have an empty message and no `end`. Every other page ends with the exit line, the rule and the position line: the breadcrumb when there is one, `序章` otherwise |
| Renderer.FormatShowsEnding | src/index.ts:534-546 | An ending page shows its text with the backslashes removed |
| Renderer.FormatListsChoices | src/index.ts:549-559 | A menu page lists every offered choice whose name does not contain `__discard` |
| Renderer.RenderOnceKeeps | src/index.ts:476-514 | One pass of `markScreen` keeps counts at least 0 and lets the ledger and achievements only grow |
| Renderer.RenderStep | src/index.ts:518-519 | A render is its first pass when that finishes; otherwise it is the render from the path as the handlers left it |
| Renderer.RenderKeeps | src/index.ts:476-561 | Rendering with re-renders keeps counts at least 0 and lets the ledger and achievements only grow |
| Renderer.DriveFuelMonotone | src/index.ts:518-519 | Once the re-renders stop within the fuel given, more fuel gives the same result |
| Renderer.RenderFuelMonotone | src/index.ts:518-519 | A render that finishes within `fuel` re-renders gives the same result with any larger bound |
| Renderer.RenderErrorScreen | src/index.ts:518-526 | An error page a render ends with has an empty message and is not an ending |
| Renderer.RenderPlain | src/index.ts:476-561 | A page without directives is formatted as the navigator found it, and the state stays as it was |
| Renderer.StepIn | src/index.ts:486-495 | One replacement step in place (a plain piece copied, a match replaced by its handler's result) gives the text, `change`, failure and state of `Step` |
| Renderer.ExpandText | src/index.ts:486-495 | The in-place replacement loop gives the text, `change`, failure and state of `Expand` |
| Renderer.MarkPass | src/index.ts:476-514 | One in-place pass of `markScreen` gives the outcome of `RenderOnce`, or asks for a re-render |
| Renderer.MarkScreen | src/index.ts:476-561 | `markScreen` in place, re-rendering while `change` is set, ends with the state and outcome of `Render` |
| Session.ClassifyCases | src/index.ts:670-687 | A reply of 0 quits, and only exactly "0" quits. A blank reply, or one that is neither a number nor q/p in either case, is refused. A timeout is a timeout. Every pushed choice is the reply itself, a number or q/p |
| Session.LetterIsNaN | src/index.ts:676 | The letters q and p pass the filter although `Number` reads them as NaN |
| Session.LetterChoiceCrashes | src/index.ts:676-687 | On a path to a menu, a q or p reply is pushed, and rendering that path throws at the navigator |
| Session.AnswerPath | src/index.ts:667-692 | A refused reply, "0", a timeout and a choice on an ending page all leave the path as it was. Any other choice is appended to it. Only the path changes and the right notice is sent |
| Session.ShowRecovers | src/index.ts:658-667 | After an error page the path is popped and rendered again. The notice, the second page and the empty error message are sent, and the turn goes on as for a page that is not an ending |
| Session.ShowKeeps | src/index.ts:658-667 | The top of a turn keeps counts at least 0 and lets the ledger and achievements only grow |
| Session.TurnKeeps | src/index.ts:654-693 | One turn keeps counts at least 0 and lets the ledger and achievements only grow |
| Session.PlayKeeps | src/index.ts:654-693 | A whole session keeps those facts. The record the loop saves on leaving is reported only on quitting or timing out, and it is the final state |
| Session.ResetCases | src/index.ts:696-712 | Exactly the reply "是" clears the path, the ledger and the inventory while keeping the achievements; a cleared story starts from the top-level list; the "nothing to reset" notice comes exactly when the path is empty |
| Session.ShowPage | src/index.ts:658-667 | The in-place top of a turn gives the page and the state of `Show` |
| Session.AnswerReply | src/index.ts:669-692 | The in-place rest of a turn gives the turn and the state of `Answer` |
| Session.StartStory | src/index.ts:646-694 | The `while (true)` loop over the replies ends with the state, the reason, the messages and the saved record of `Play` |
| Session.ResetProgress | src/index.ts:696-712 | The reset in place leaves the state and sends the messages of `Reset` |

## Left out

- JavaScript's `Number` is modelled for ASCII digit strings after trimming JavaScript
  white space. Signs, decimals, hexadecimal forms, exponents and `Infinity` read as NaN
  here, and `isNaN` is taken on that reading.
- Directives.RunIsWellBehaved: the grant half of "counts stay at least 0" rests on that
  reading of `Number`. In the source `getProp("gold*-5")` reads `-5` and leaves a count
  of -5; here `-5` reads as NaN and grants 1. The deduction half (`lostProp`,
  `jumpByLostProp` never take more than is held) holds of the source as written.
- String lengths count Dafny characters, not UTF-16 code units, so a 6-character cut
  can differ for names outside the Basic Multilingual Plane.
- Handler names are the twelve names of `transferTool`. A capture naming a property
  every JavaScript object has (`constructor`, `toString`, …) is treated as unknown.
- I/O is left out: `session.send` and `session.prompt`, and the reply and image text of
  the handlers. Messages are collected in a sequence, and prompts come from the reply
  sequence.
- `getTime` (the locale clock), `rollACGImg` and `h.select`'s image detection are
  parameters in `Env`.
- The word sanitiser `wordSanCheck` is the identity here, as when no sanitiser is
  installed.
- Persistence (`localStoreData.init`, `setLocalStoreData`, `clearLocalStoreData`,
  JSON) is left out. The record is the `UserState` value: `Session.Play` reports which
  record is saved on leaving, and `Player.Restore` loads one back.
- Session.PlayKeeps: `getAchievements` also saves the record in the middle of a session
  (src/index.ts:381). `Play` does not report those saves; its `saved` is only the save
  on quitting or timing out. The reset's cleared
  file, which lacks the achievements, is not modelled.
- The plugin keeps a map from user ids to the four entries. The model holds one user in
  one `Player`. Concurrent sessions of different users are not modelled.
- The lazy creation of missing entries (`if (!takeIng[...]) takeIng[...] = {}`) is
  left out; a `Player` always has all four.
- `Renderer.Render`: the unbounded `markScreen`/`format` recursion stops after `fuel`
  re-renders with the outcome `Diverged`. `RenderFuelMonotone` shows that any
  render that finishes does not depend on the bound.
- `format` reads `goalItem.name?.includes("__discard")` on an event that never has a
  `name`, so that check can never fire and is not modelled.
- `Renderer.Format` chooses the ending layout by the kind of menu, where `format`
  tests `goalItem.end`. `Story.EndMeansEnding` shows the two agree on every event the
  navigator produces.
- The display-only commands `当前持有` and `剧本成就`, template creation, the file
  system and the map building from `./mapTool` are not part of this model. The story
  tree is a given value.
- The `config.debug`, `config.showFaQ` and `config.tipsProp` messages are left out.
  They only send text.
- Where the code and its description differ, the model follows the code. A failed
  `jumpByLostProp` still sets `change` (src/index.ts:223). `lostProp` returns
  `undefined` at a recorded key, so a second `jumpByLostProp` at the same path steps
  back. `getMoreProp` appends its key every time, so the ledger can hold duplicates.
