/**
 * The directive handlers of `transferTool` and the per-user state they change: the branch
 * path (`userBranch`), the once-per-path ledger (`onlyOneTemp`), the inventory
 * (`takeIng`) and the achievements. Each handler is given twice: as a function on a
 * `UserState` value, about which the properties are proved, and as a method of the
 * `Player` object that updates its fields in place the way the source does.
 */
module Directives {
  import opened Wrappers
  import opened Text

  /**
   * One user's entries in the four dictionaries, which is also the record the persistence
   * store keeps for that user. A missing inventory entry means none held.
   */
  datatype UserState = UserState(
    branch: seq<string>,
    ledger: seq<string>,
    inventory: map<string, int>,
    achievements: map<string, string>)

  /** The state a user starts the story with. */
  const Fresh := UserState([], [], map[], map[])

  /**
   * The collaborators the handlers and the formatter call out to: the clock text
   * `getTime` returns, the element text `rollACGImg` renders to, and whether koishi's
   * element parser finds an `img` element in a text.
   */
  datatype Env = Env(now: string, image: string, hasImage: string -> bool)

  /** The ledger key of a branch path: `userBranch.join("-")`. */
  function PathKey(branch: seq<string>): string
  {
    Join(branch, '-')
  }

  /** `branch.pop()`: the path without its last element; an empty path stays empty. */
  function Pop(branch: seq<string>): (r: seq<string>)
    ensures branch != [] ==> r + [branch[|branch| - 1]] == branch
    ensures branch == [] ==> r == []
  {
    if branch == [] then [] else branch[..|branch| - 1]
  }

  /** `target?.split("-") || []`: the path a jump replaces the branch with. */
  function Target(target: Option<string>): seq<string>
  {
    match target
    case None => []
    case Some(t) => Split(t, '-')
  }

  /** The item name of an `item*qty` parameter. */
  function ItemOf(param: string): string
  {
    Split(param, '*')[0]
  }

  /** The quantity text of an `item*qty` parameter, `undefined` when there is no `*`. */
  function QtyOf(param: string): Option<string>
  {
    Nth(Split(param, '*'), 1)
  }

  /** `isNaN(Number(q)) ? 1 : Number(q)`: the amount granted or taken. */
  function GrantAmount(q: Option<string>): nat
  {
    match JsNumberOf(q)
    case NaN => 1
    case Num(n) => n
  }

  /** `Number(num || 1)` in the conditional jumps: no quantity or an empty one asks for 1. */
  function CheckThreshold(q: Option<string>): Amount
  {
    match q
    case None => Num(1)
    case Some(s) => if s == "" then Num(1) else JsNumber(s)
  }

  /** `num || 1` in `lostProp`: a quantity of 0 is checked as 1. */
  function LossThreshold(n: nat): Amount
  {
    Num(if n == 0 then 1 else n)
  }

  /**
   * `querymentProp`: the item is present and its count is not below the threshold. A NaN
   * threshold makes `count < NaN` false, so then presence alone decides.
   */
  predicate Holds(inventory: map<string, int>, prop: string, threshold: Amount)
  {
    prop in inventory && (threshold.NaN? || inventory[prop] >= threshold.n)
  }

  /** `takeIng[prop] === void 0 ? num : takeIng[prop] + num`. */
  function AddItem(inventory: map<string, int>, prop: string, n: nat): map<string, int>
  {
    inventory[prop := (if prop in inventory then inventory[prop] else 0) + n]
  }

  /** Every count in the inventory is at least zero. */
  ghost predicate NonNegative(st: UserState)
  {
    forall k :: k in st.inventory ==> st.inventory[k] >= 0
  }

  // ---------------------------------------------------------------------------
  // The handlers on values

  /** `jumpBranch`: the branch becomes the target path. */
  function JumpTo(st: UserState, target: Option<string>): UserState
  {
    st.(branch := Target(target))
  }

  /** `getProp`: grants the item once per ledger key and records the key. */
  function GrantOnce(st: UserState, param: string): UserState
  {
    var key := PathKey(st.branch);
    if key in st.ledger then st
    else st.(ledger := st.ledger + [key], inventory := AddItem(st.inventory, ItemOf(param), GrantAmount(QtyOf(param))))
  }

  /** The inventory after granting each `item*qty` piece in turn. */
  function GrantAll(inventory: map<string, int>, pieces: seq<string>): map<string, int>
  {
    if pieces == [] then inventory
    else
      var last := pieces[|pieces| - 1];
      AddItem(GrantAll(inventory, pieces[..|pieces| - 1]), ItemOf(last), GrantAmount(QtyOf(last)))
  }

  /**
   * `getMoreProp`: grants every `+`-separated piece when the key is not yet in the ledger,
   * and then appends the key to the ledger in every case.
   */
  function GrantBatchOnce(st: UserState, param: string): UserState
  {
    var key := PathKey(st.branch);
    var inventory := if key in st.ledger then st.inventory else GrantAll(st.inventory, Split(param, '+'));
    st.(ledger := st.ledger + [key], inventory := inventory)
  }

  /** What `lostProp` returns: `true`, `false`, or `undefined` when the key was already used. */
  datatype Loss = Taken | Lacking | AlreadyUsed

  /**
   * `lostProp`: when the key is new and the item is held, takes the amount, deletes the
   * entry if its count drops to zero, and records the key.
   */
  function LoseOnce(st: UserState, param: string): (UserState, Loss)
  {
    var key := PathKey(st.branch);
    var prop, n := ItemOf(param), GrantAmount(QtyOf(param));
    if key in st.ledger then (st, AlreadyUsed)
    else if !Holds(st.inventory, prop, LossThreshold(n)) then (st, Lacking)
    else
      var left := st.inventory[prop] - n;
      var inventory := if left == 0 then st.inventory - {prop} else st.inventory[prop := left];
      (st.(ledger := st.ledger + [key], inventory := inventory), Taken)
  }

  /** The condition part (before `?`) of a conditional jump's parameter. */
  function Condition(param: string): string
  {
    Split(param, '?')[0]
  }

  /** The target part (after `?`) of a conditional jump's parameter. */
  function JumpTarget(param: string): Option<string>
  {
    Nth(Split(param, '?'), 1)
  }

  /** The `querymentProp` test a conditional jump makes on its `item*qty` condition. */
  predicate ConditionHolds(st: UserState, param: string)
  {
    var cond := Split(Condition(param), '*');
    Holds(st.inventory, cond[0], CheckThreshold(Nth(cond, 1)))
  }

  /** `jumpByLostProp`: jump when `lostProp` took the item, otherwise step back one element. */
  function JumpPaying(st: UserState, param: string): UserState
  {
    var (after, loss) := LoseOnce(st, Condition(param));
    if loss == Taken then after.(branch := Target(JumpTarget(param)))
    else st.(branch := Pop(st.branch))
  }

  /** `jumpByCheckProp`: jump when the item is held, otherwise step back. */
  function JumpIfHolding(st: UserState, param: string): UserState
  {
    if ConditionHolds(st, param) then st.(branch := Target(JumpTarget(param)))
    else st.(branch := Pop(st.branch))
  }

  /** `jumpByNoneProp`: jump when the item is not held, otherwise step back. */
  function JumpUnlessHolding(st: UserState, param: string): UserState
  {
    if !ConditionHolds(st, param) then st.(branch := Target(JumpTarget(param)))
    else st.(branch := Pop(st.branch))
  }

  /** `jumpByNoneProp_NotBack`: jump when the item is not held, otherwise leave everything as it is. */
  function JumpUnlessHoldingOrStay(st: UserState, param: string): UserState
  {
    if !ConditionHolds(st, param) then st.(branch := Target(JumpTarget(param))) else st
  }

  /** `getAchievements`: records the time unless the achievement already has a (non-empty) time. */
  function Achieve(st: UserState, name: string, now: string): UserState
  {
    if name in st.achievements && st.achievements[name] != "" then st
    else st.(achievements := st.achievements[name := now])
  }

  // ---------------------------------------------------------------------------
  // Dispatch

  /** The handler names of `transferTool`, as a closed set. */
  datatype Directive =
    | Time | AcgImage | Jump | JumpByLost | JumpByCheck | JumpByNone | JumpByNoneNotBack
    | Grant | GrantMore | Lose | Query | Achievement

  /** The key under which `transferTool` holds each handler. */
  function Name(d: Directive): string
  {
    match d
    case Time => "getTime"
    case AcgImage => "rollACGImg"
    case Jump => "jumpBranch"
    case JumpByLost => "jumpByLostProp"
    case JumpByCheck => "jumpByCheckProp"
    case JumpByNone => "jumpByNoneProp"
    case JumpByNoneNotBack => "jumpByNoneProp_NotBack"
    case Grant => "getProp"
    case GrantMore => "getMoreProp"
    case Lose => "lostProp"
    case Query => "querymentProp"
    case Achievement => "getAchievements"
  }

  /** `transferTool[name]`: the handler a directive name selects, if any. */
  function Lookup(name: string): Option<Directive>
  {
    if name == Name(Time) then Some(Time)
    else if name == Name(AcgImage) then Some(AcgImage)
    else if name == Name(Jump) then Some(Jump)
    else if name == Name(JumpByLost) then Some(JumpByLost)
    else if name == Name(JumpByCheck) then Some(JumpByCheck)
    else if name == Name(JumpByNone) then Some(JumpByNone)
    else if name == Name(JumpByNoneNotBack) then Some(JumpByNoneNotBack)
    else if name == Name(Grant) then Some(Grant)
    else if name == Name(GrantMore) then Some(GrantMore)
    else if name == Name(Lose) then Some(Lose)
    else if name == Name(Query) then Some(Query)
    else if name == Name(Achievement) then Some(Achievement)
    else None
  }

  /** `transferTool[name]` selects a handler exactly when `name` is that handler's key. */
  lemma LookupKnown(name: string, d: Directive)
    ensures Lookup(name) == Some(d) <==> Name(d) == name
  {
    if Lookup(name).Some? {
      assert Name(Lookup(name).value) == name;
    }
    match d
    case Time =>
    case AcgImage =>
    case Jump =>
    case JumpByLost =>
    case JumpByCheck =>
    case JumpByNone =>
    case JumpByNoneNotBack =>
    case Grant =>
    case GrantMore =>
    case Lose =>
    case Query =>
    case Achievement =>
  }

  /** The handlers that split their parameter, and so throw when the directive has no `|` part. */
  predicate SplitsParam(d: Directive)
  {
    d in {JumpByLost, JumpByCheck, JumpByNone, JumpByNoneNotBack, Grant, GrantMore, Lose}
  }

  /** A handler's outcome: new state, replacement text and whether it set `ev.change`; or a thrown error. */
  datatype Effect = Done(st: UserState, text: string, change: bool) | Fault

  /**
   * A handler call `transferTool[name](session, param, ev) || ''`. A parameter that is
   * `undefined` becomes the key "undefined" where the source uses it as a property name.
   */
  function Run(d: Directive, st: UserState, param: Option<string>, env: Env): Effect
  {
    if SplitsParam(d) && param.None? then Fault
    else
      match d
      case Time => Done(st, env.now, false)
      case AcgImage => Done(st, env.image, false)
      case Jump => Done(JumpTo(st, param), "", true)
      case JumpByLost => Done(JumpPaying(st, param.value), "", true)
      case JumpByCheck => Done(JumpIfHolding(st, param.value), "", true)
      case JumpByNone => Done(JumpUnlessHolding(st, param.value), "", true)
      case JumpByNoneNotBack =>
        Done(JumpUnlessHoldingOrStay(st, param.value), "", !ConditionHolds(st, param.value))
      case Grant => Done(GrantOnce(st, param.value), "", false)
      case GrantMore => Done(GrantBatchOnce(st, param.value), "", false)
      case Lose =>
        var (after, loss) := LoseOnce(st, param.value);
        Done(after, if loss == Taken then "true" else "", false)
      case Query => Done(st, if Holds(st.inventory, param.GetOr("undefined"), NaN) then "true" else "", false)
      case Achievement => Done(Achieve(st, param.GetOr("undefined"), env.now), "", false)
  }

  // ---------------------------------------------------------------------------
  // Properties of the handlers

  /**
   * `getProp` changes the inventory at most once per ledger key: at a recorded key it
   * changes nothing, otherwise it adds the amount to that one item and records the key;
   * so a second call at the same path changes nothing.
   */
  lemma GrantOncePerPath(st: UserState, param: string)
    ensures PathKey(st.branch) in st.ledger ==> GrantOnce(st, param) == st
    ensures PathKey(st.branch) !in st.ledger ==>
      var r, prop := GrantOnce(st, param), ItemOf(param);
      && r.branch == st.branch && r.achievements == st.achievements
      && r.ledger == st.ledger + [PathKey(st.branch)]
      && r.inventory.Keys == st.inventory.Keys + {prop}
      && r.inventory[prop] == (if prop in st.inventory then st.inventory[prop] else 0) + GrantAmount(QtyOf(param))
      && forall k :: k in st.inventory && k != prop ==> r.inventory[k] == st.inventory[k]
    ensures GrantOnce(GrantOnce(st, param), param) == GrantOnce(st, param)
  {
  }

  /** The total amount the pieces naming `prop` grant. */
  function Granted(pieces: seq<string>, prop: string): nat
  {
    if pieces == [] then 0
    else
      var last := pieces[|pieces| - 1];
      Granted(pieces[..|pieces| - 1], prop) + (if ItemOf(last) == prop then GrantAmount(QtyOf(last)) else 0)
  }

  /** The items a batch of `item*qty` pieces names. */
  function ItemsOf(pieces: seq<string>): set<string>
  {
    if pieces == [] then {} else ItemsOf(pieces[..|pieces| - 1]) + {ItemOf(pieces[|pieces| - 1])}
  }

  /**
   * Granting a batch adds, for every item, the sum of the amounts of the pieces that name
   * it; an item appears afterwards exactly when it was held before or some piece names it.
   */
  lemma {:induction false} GrantAllTotals(inventory: map<string, int>, pieces: seq<string>, prop: string)
    ensures prop in GrantAll(inventory, pieces) <==> prop in inventory || prop in ItemsOf(pieces)
    ensures prop !in ItemsOf(pieces) ==> Granted(pieces, prop) == 0
    ensures prop in GrantAll(inventory, pieces) ==>
      GrantAll(inventory, pieces)[prop] == (if prop in inventory then inventory[prop] else 0) + Granted(pieces, prop)
    decreases |pieces|
  {
    if pieces != [] {
      var init, last := pieces[..|pieces| - 1], pieces[|pieces| - 1];
      GrantAllTotals(inventory, init, prop);
      var before := GrantAll(inventory, init);
      assert GrantAll(inventory, pieces) == AddItem(before, ItemOf(last), GrantAmount(QtyOf(last)));
      assert ItemsOf(pieces) == ItemsOf(init) + {ItemOf(last)};
    }
  }

  /**
   * `getMoreProp` grants the whole batch only when the key is new, leaves the inventory
   * alone otherwise, and appends the key to the ledger either way (so keys can repeat).
   */
  lemma GrantBatchOncePerPath(st: UserState, param: string)
    ensures var r := GrantBatchOnce(st, param);
      && r.branch == st.branch && r.achievements == st.achievements
      && r.ledger == st.ledger + [PathKey(st.branch)]
      && (PathKey(st.branch) in st.ledger ==> r.inventory == st.inventory)
      && (PathKey(st.branch) !in st.ledger ==> r.inventory == GrantAll(st.inventory, Split(param, '+')))
    ensures PathKey(st.branch) !in st.ledger ==>
      GrantBatchOnce(GrantBatchOnce(st, param), param).inventory == GrantBatchOnce(st, param).inventory
  {
  }

  /**
   * `lostProp` has three outcomes. At a recorded key it returns `undefined` and changes
   * nothing. When the item is absent or below the threshold it returns false and changes
   * nothing. Otherwise it returns true, subtracts the amount, deletes the entry at zero,
   * and records the key.
   */
  lemma LoseOnceCases(st: UserState, param: string)
    ensures var (r, loss) := LoseOnce(st, param);
      var key, prop, n := PathKey(st.branch), ItemOf(param), GrantAmount(QtyOf(param));
      && (loss == AlreadyUsed <==> key in st.ledger)
      && (loss == Lacking <==> key !in st.ledger && !Holds(st.inventory, prop, LossThreshold(n)))
      && (loss != Taken ==> r == st)
      && (loss == Taken ==>
            && r.branch == st.branch && r.achievements == st.achievements
            && r.ledger == st.ledger + [key]
            && st.inventory[prop] >= n
            && (st.inventory[prop] == n ==> r.inventory == st.inventory - {prop})
            && (st.inventory[prop] != n ==> r.inventory == st.inventory[prop := st.inventory[prop] - n]))
  {
  }

  /**
   * `jumpByLostProp` jumps to its target, having taken the item, exactly when the key is
   * new and the item is held; otherwise it only drops the last path element. In
   * particular a second call at a path whose key is recorded always steps back.
   */
  lemma JumpPayingCases(st: UserState, param: string)
    ensures var r, key, cond := JumpPaying(st, param), PathKey(st.branch), Condition(param);
      var paid := key !in st.ledger && Holds(st.inventory, ItemOf(cond), LossThreshold(GrantAmount(QtyOf(cond))));
      && (paid ==> r == LoseOnce(st, cond).0.(branch := Target(JumpTarget(param))))
      && (!paid ==> r == st.(branch := Pop(st.branch)))
    ensures PathKey(st.branch) in st.ledger ==> JumpPaying(st, param) == st.(branch := Pop(st.branch))
  {
    LoseOnceCases(st, Condition(param));
  }

  /**
   * How a parameter `prop*q?path` falls apart, for an item name without `*` or `?`, a
   * quantity of decimal digits and a target without `?`: the item, the quantity and the
   * number it reads as, the condition before `?` and the target after it.
   */
  lemma ParamParts(prop: string, q: string, path: string)
    requires '*' !in prop && '?' !in prop
    requires q != "" && AllDigits(q)
    requires '?' !in path
    ensures var item := prop + "*" + q;
      && ItemOf(item) == prop && QtyOf(item) == Some(q)
      && GrantAmount(QtyOf(item)) == DecimalValue(q)
      && CheckThreshold(QtyOf(item)) == Num(DecimalValue(q))
      && Condition(item + "?" + path) == item
      && JumpTarget(item + "?" + path) == Some(path)
  {
    ItemParts(prop, q);
    SplitPair(prop + "*" + q, '?', path);
  }

  /** The item and quantity of `prop*q`, which holds no `?`. */
  lemma ItemParts(prop: string, q: string)
    requires '*' !in prop && '?' !in prop
    requires q != "" && AllDigits(q)
    ensures var item := prop + "*" + q;
      && ItemOf(item) == prop && QtyOf(item) == Some(q)
      && GrantAmount(QtyOf(item)) == DecimalValue(q)
      && CheckThreshold(QtyOf(item)) == Num(DecimalValue(q))
      && '?' !in item
  {
    AllDigitsAt(q);
    SplitPair(prop, '*', q);
    DigitsAmount(q);
    NoMarkBetween(prop, '*', q, '?');
  }

  /** A quantity of decimal digits grants, and asks for, its value. */
  lemma DigitsAmount(q: string)
    requires q != "" && AllDigits(q)
    ensures GrantAmount(Some(q)) == DecimalValue(q)
    ensures CheckThreshold(Some(q)) == Num(DecimalValue(q))
  {
    JsNumberDigits(q);
  }

  /** A character in neither part, nor the joining one, is not in the joined text. */
  lemma NoMarkBetween(a: string, sep: char, b: string, c: char)
    requires c !in a && c !in b && c != sep
    ensures c !in a + [sep] + b
  {
    var s := a + [sep] + b;
    forall k | 0 <= k < |s| ensures s[k] != c {
      if k < |a| { assert s[k] == a[k]; }
      else if k > |a| { assert s[k] == b[k - |a| - 1]; }
    }
  }

  /** A parameter `prop?path` without a quantity: the amount is 1, and so is the threshold. */
  lemma ParamPartsBare(prop: string, path: string)
    requires '*' !in prop && '?' !in prop
    requires '?' !in path
    ensures ItemOf(prop) == prop && QtyOf(prop) == None
    ensures GrantAmount(QtyOf(prop)) == 1 && CheckThreshold(QtyOf(prop)) == Num(1)
    ensures Condition(prop + "?" + path) == prop && JumpTarget(prop + "?" + path) == Some(path)
  {
    SplitPair(prop, '*', "");
    SplitPair(prop, '?', path);
  }

  /**
   * What the conditional jumps test on `prop*q?path`: whether `prop` is held at least `q`
   * times. `jumpByCheckProp` moves to the path split on `-` when it is, and otherwise drops
   * the last path element; `jumpByNoneProp` does the opposite; `jumpByNoneProp_NotBack`
   * moves when it is not and otherwise leaves everything as it is.
   */
  lemma ConditionalJumps(st: UserState, prop: string, q: string, path: string)
    requires '*' !in prop && '?' !in prop
    requires q != "" && AllDigits(q)
    requires '?' !in path
    ensures var param := prop + "*" + q + "?" + path;
      var held := prop in st.inventory && st.inventory[prop] >= DecimalValue(q);
      && JumpIfHolding(st, param) == st.(branch := if held then Split(path, '-') else Pop(st.branch))
      && JumpUnlessHolding(st, param) == st.(branch := if held then Pop(st.branch) else Split(path, '-'))
      && JumpUnlessHoldingOrStay(st, param) == if held then st else st.(branch := Split(path, '-'))
  {
    ParamParts(prop, q, path);
  }

  /** The same for `prop?path`, where `num || 1` makes the test holding `prop` at least once. */
  lemma ConditionalJumpsBare(st: UserState, prop: string, path: string)
    requires '*' !in prop && '?' !in prop
    requires '?' !in path
    ensures var param := prop + "?" + path;
      var held := prop in st.inventory && st.inventory[prop] >= 1;
      && JumpIfHolding(st, param) == st.(branch := if held then Split(path, '-') else Pop(st.branch))
      && JumpUnlessHolding(st, param) == st.(branch := if held then Pop(st.branch) else Split(path, '-'))
      && JumpUnlessHoldingOrStay(st, param) == if held then st else st.(branch := Split(path, '-'))
  {
    ParamPartsBare(prop, path);
  }

  /**
   * `getProp("prop*q")` at a new key adds the value of `q` to `prop` and records the key;
   * at a recorded key it changes nothing.
   */
  lemma GrantByParam(st: UserState, prop: string, q: string)
    requires '*' !in prop && '?' !in prop
    requires q != "" && AllDigits(q)
    ensures var key := PathKey(st.branch);
      GrantOnce(st, prop + "*" + q) ==
        if key in st.ledger then st
        else st.(ledger := st.ledger + [key], inventory := AddItem(st.inventory, prop, DecimalValue(q)))
  {
    ParamParts(prop, q, "");
  }

  /** `getProp("gold*4")` twice at a new path, with no gold held before, leaves 4 gold. */
  lemma GrantGoldTwice(st: UserState)
    requires PathKey(st.branch) !in st.ledger && "gold" !in st.inventory
    ensures var r := GrantOnce(GrantOnce(st, "gold*4"), "gold*4");
      "gold" in r.inventory && r.inventory["gold"] == 4
  {
    assert "gold" + "*" + "4" == "gold*4";
    assert DecimalValue("4") == 4 by { assert "4"[..0] == ""; }
    GrantByParam(st, "gold", "4");
    GrantOncePerPath(st, "gold*4");
  }

  /**
   * `jumpByLostProp("prop*q?path")` at a new key, holding `prop` at least `q` times
   * (`num || 1`, so at least once when `q` is 0), takes `q` of it, deleting the entry when
   * none is left, records the key and moves to the path split on `-`; in every other case
   * it only drops the last path element.
   */
  lemma JumpPayingByParam(st: UserState, prop: string, q: string, path: string)
    requires '*' !in prop && '?' !in prop
    requires q != "" && AllDigits(q)
    requires '?' !in path
    ensures var key, n := PathKey(st.branch), DecimalValue(q);
      var paid := key !in st.ledger && prop in st.inventory && st.inventory[prop] >= (if n == 0 then 1 else n);
      JumpPaying(st, prop + "*" + q + "?" + path) ==
        if paid then
          st.(branch := Split(path, '-'), ledger := st.ledger + [key],
              inventory := if st.inventory[prop] == n then st.inventory - {prop} else st.inventory[prop := st.inventory[prop] - n])
        else st.(branch := Pop(st.branch))
  {
    ParamParts(prop, q, path);
    JumpPayingParsed(st, prop + "*" + q + "?" + path, prop, DecimalValue(q), path);
  }

  /** `JumpPayingByParam` for a parameter already taken apart into item, amount and target. */
  lemma JumpPayingParsed(st: UserState, param: string, prop: string, n: nat, path: string)
    requires ItemOf(Condition(param)) == prop && GrantAmount(QtyOf(Condition(param))) == n
    requires JumpTarget(param) == Some(path)
    ensures var key := PathKey(st.branch);
      var paid := key !in st.ledger && prop in st.inventory && st.inventory[prop] >= (if n == 0 then 1 else n);
      JumpPaying(st, param) ==
        if paid then
          st.(branch := Split(path, '-'), ledger := st.ledger + [key],
              inventory := if st.inventory[prop] == n then st.inventory - {prop} else st.inventory[prop := st.inventory[prop] - n])
        else st.(branch := Pop(st.branch))
  {
    var key, item := PathKey(st.branch), Condition(param);
    var paid := key !in st.ledger && Holds(st.inventory, prop, LossThreshold(n));
    JumpPayingCases(st, param);
    if paid {
      LoseOnceCases(st, item);
      var inventory := if st.inventory[prop] == n then st.inventory - {prop} else st.inventory[prop := st.inventory[prop] - n];
      assert LoseOnce(st, item).0 == st.(ledger := st.ledger + [key], inventory := inventory);
    }
  }

  /**
   * `jumpByLostProp("gold*11?1-2-3")` at a new path: holding 5 gold it steps back;
   * holding 11 it gives all the gold up and moves to the path 1, 2, 3.
   */
  lemma PayGoldExample(st: UserState)
    requires PathKey(st.branch) !in st.ledger && "gold" in st.inventory
    ensures st.inventory["gold"] == 5 ==> JumpPaying(st, "gold*11?1-2-3") == st.(branch := Pop(st.branch))
    ensures st.inventory["gold"] == 11 ==>
      JumpPaying(st, "gold*11?1-2-3") ==
        st.(branch := ["1", "2", "3"], ledger := st.ledger + [PathKey(st.branch)], inventory := st.inventory - {"gold"})
  {
    GoldParsed();
    JumpPayingParsed(st, "gold*11?1-2-3", "gold", 11, "1-2-3");
  }

  /** How `gold*11?1-2-3` falls apart. */
  lemma GoldParsed()
    ensures var cond := Condition("gold*11?1-2-3");
      ItemOf(cond) == "gold" && GrantAmount(QtyOf(cond)) == 11 && JumpTarget("gold*11?1-2-3") == Some("1-2-3")
    ensures Split("1-2-3", '-') == ["1", "2", "3"]
  {
    GoldSplitTarget();
    GoldSplitItem();
    GoldSplitPath();
    Eleven();
    assert Condition("gold*11?1-2-3") == "gold*11";
    assert QtyOf("gold*11") == Some("11");
    JsNumberDigits("11");
  }

  /** `11` is a run of digits worth eleven. */
  lemma Eleven()
    ensures "11" != "" && AllDigits("11") && DecimalValue("11") == 11
  {
    assert "11"[..1] == "1" && "1"[..0] == "";
  }

  lemma GoldSplitTarget()
    ensures Split("gold*11?1-2-3", '?') == ["gold*11", "1-2-3"]
  {
    assert "gold*11" + "?" + "1-2-3" == "gold*11?1-2-3";
    SplitPair("gold*11", '?', "1-2-3");
  }

  lemma GoldSplitItem()
    ensures Split("gold*11", '*') == ["gold", "11"]
  {
    assert "gold" + "*" + "11" == "gold*11";
    SplitPair("gold", '*', "11");
  }

  lemma GoldSplitPath()
    ensures Split("1-2-3", '-') == ["1", "2", "3"]
  {
    assert Join(["1", "2", "3"], '-') == "1-2-3";
    SplitJoin(["1", "2", "3"], '-');
  }

  /**
   * An achievement that already has a time keeps it; otherwise it gets the current time.
   * Nothing else changes: not the path, the ledger, the inventory or any other achievement.
   */
  lemma AchieveKeepsFirst(st: UserState, name: string, now: string, later: string)
    ensures name in st.achievements && st.achievements[name] != "" ==> Achieve(st, name, now) == st
    ensures Achieve(st, name, now).achievements[name] == (if name in st.achievements && st.achievements[name] != "" then st.achievements[name] else now)
    ensures now != "" ==> Achieve(Achieve(st, name, now), name, later) == Achieve(st, name, now)
    ensures Achieve(st, name, now).branch == st.branch && Achieve(st, name, now).inventory == st.inventory
    ensures Achieve(st, name, now).ledger == st.ledger
    ensures name in Achieve(st, name, now).achievements
    ensures forall k :: k != name ==>
      (k in Achieve(st, name, now).achievements <==> k in st.achievements)
      && (k in st.achievements ==> Achieve(st, name, now).achievements[k] == st.achievements[k])
  {
  }

  /** What a handler may do to the rest of the state: the ledger only grows and recorded achievements stay. */
  ghost predicate Evolves(a: UserState, b: UserState)
  {
    && a.ledger <= b.ledger
    && forall name :: name in a.achievements && a.achievements[name] != "" ==>
         name in b.achievements && b.achievements[name] == a.achievements[name]
  }

  lemma EvolvesTransitive(a: UserState, b: UserState, c: UserState)
    requires Evolves(a, b) && Evolves(b, c)
    ensures Evolves(a, c)
  {
  }

  /**
   * Every handler keeps every count at least zero, only appends to the ledger, never
   * overwrites a recorded achievement, and either keeps the branch, drops its last
   * element, or replaces it by the jump target; only the jumps set `change`, and a handler
   * that throws has changed nothing.
   */
  lemma {:induction false} RunIsWellBehaved(d: Directive, st: UserState, param: Option<string>, env: Env)
    requires NonNegative(st)
    ensures Run(d, st, param, env).Done? ==>
      var r := Run(d, st, param, env);
      && NonNegative(r.st)
      && Evolves(st, r.st)
      && (d !in {Jump, JumpByLost, JumpByCheck, JumpByNone, JumpByNoneNotBack} ==> r.st.branch == st.branch && !r.change)
      && (d == Jump ==> r.st.branch == Target(param) && r.change)
      && (d in {JumpByLost, JumpByCheck, JumpByNone} ==>
            r.change && (r.st.branch == Pop(st.branch) || r.st.branch == Target(JumpTarget(param.value))))
      && (d == JumpByNoneNotBack ==> if r.change then r.st.branch == Target(JumpTarget(param.value)) else r.st == st)
    ensures Run(d, st, param, env).Fault? <==> SplitsParam(d) && param.None?
  {
    if Run(d, st, param, env).Done? && param.Some? {
      var p := param.value;
      match d
      case Lose => LoseOnceCases(st, p);
      case JumpByLost => LoseOnceCases(st, Condition(p));
      case Grant => GrantOncePerPath(st, p);
      case GrantMore =>
        if PathKey(st.branch) !in st.ledger {
          var r := GrantBatchOnce(st, p);
          forall k | k in r.inventory ensures r.inventory[k] >= 0 {
            GrantAllTotals(st.inventory, Split(p, '+'), k);
          }
        }
      case _ =>
    }
  }

  // ---------------------------------------------------------------------------
  // The handlers in place

  /** One user's state as the source keeps it, updated in place by the handlers. */
  class Player {
    var branch: seq<string>
    var ledger: seq<string>
    var inventory: map<string, int>
    var achievements: map<string, string>

    /** The record of this user's four entries (what `setLocalStoreData` saves). */
    function State(): UserState
      reads this
    {
      UserState(branch, ledger, inventory, achievements)
    }

    /** A user seen for the first time: all four entries empty. */
    constructor ()
      ensures State() == Fresh
    {
      branch, ledger, inventory, achievements := [], [], map[], map[];
    }

    /** Loading a saved record puts back exactly the saved entries. */
    method Restore(saved: UserState)
      modifies this
      ensures State() == saved
    {
      branch, ledger, inventory, achievements := saved.branch, saved.ledger, saved.inventory, saved.achievements;
    }

    method JumpBranch(params: Option<string>)
      modifies this
      ensures State() == JumpTo(old(State()), params)
    {
      branch := if params.Some? then Split(params.value, '-') else [];
    }

    method QuerymentProp(prop: string, num: Amount) returns (held: bool)
      ensures held <==> prop in inventory && (num.NaN? || inventory[prop] >= num.n)
    {
      if prop !in inventory {
        return false;
      }
      if num.Num? && inventory[prop] < num.n {
        return false;
      }
      return true;
    }

    method GetProp(params: string)
      modifies this
      ensures State() == GrantOnce(old(State()), params)
    {
      var item := Split(params, '*');
      var prop, num := item[0], GrantAmount(Nth(item, 1));
      var key := Join(branch, '-');
      if key !in ledger {
        ledger := ledger + [key];
        if prop !in inventory {
          inventory := inventory[prop := num];
        } else {
          inventory := inventory[prop := inventory[prop] + num];
        }
      }
    }

    method GetMoreProp(params: string)
      modifies this
      ensures State() == GrantBatchOnce(old(State()), params)
    {
      var moreItem := Split(params, '+');
      var key := Join(branch, '-');
      for i := 0 to |moreItem|
        invariant branch == old(branch) && ledger == old(ledger) && achievements == old(achievements)
        invariant inventory == if key in ledger then old(inventory) else GrantAll(old(inventory), moreItem[..i])
      {
        var item := Split(moreItem[i], '*');
        var prop, num := item[0], GrantAmount(Nth(item, 1));
        if key !in ledger {
          ghost var before := inventory;
          assert moreItem[..i + 1][..i] == moreItem[..i] && moreItem[..i + 1][i] == moreItem[i];
          assert GrantAll(old(inventory), moreItem[..i + 1]) == AddItem(before, ItemOf(moreItem[i]), GrantAmount(QtyOf(moreItem[i])));
          if prop !in inventory {
            inventory := inventory[prop := num];
          } else {
            inventory := inventory[prop := inventory[prop] + num];
          }
          assert inventory == AddItem(before, prop, num);
        }
      }
      assert moreItem[..|moreItem|] == moreItem;
      ledger := ledger + [key];
    }

    method LostProp(params: string) returns (loss: Loss)
      modifies this
      ensures (State(), loss) == LoseOnce(old(State()), params)
    {
      var item := Split(params, '*');
      var prop, num := item[0], GrantAmount(Nth(item, 1));
      var key := Join(branch, '-');
      if key in ledger {
        return AlreadyUsed;
      }
      var held := QuerymentProp(prop, LossThreshold(num));
      if !held {
        return Lacking;
      }
      inventory := inventory[prop := inventory[prop] - num];
      if inventory[prop] == 0 {
        inventory := inventory - {prop};
        assert inventory == old(inventory) - {prop};
      }
      ledger := ledger + [key];
      return Taken;
    }

    method JumpByLostProp(params: string)
      modifies this
      ensures State() == JumpPaying(old(State()), params)
    {
      var dict := Split(params, '?');
      var loss := LostProp(dict[0]);
      if loss == Taken {
        branch := if |dict| > 1 then Split(dict[1], '-') else [];
      } else {
        branch := Pop(branch);
      }
    }

    method JumpByCheckProp(params: string)
      modifies this
      ensures State() == JumpIfHolding(old(State()), params)
    {
      var dict := Split(params, '?');
      var cond := Split(dict[0], '*');
      var held := QuerymentProp(cond[0], CheckThreshold(Nth(cond, 1)));
      if held {
        branch := Target(Nth(dict, 1));
      } else {
        branch := Pop(branch);
      }
    }

    method JumpByNoneProp(params: string)
      modifies this
      ensures State() == JumpUnlessHolding(old(State()), params)
    {
      var dict := Split(params, '?');
      var cond := Split(dict[0], '*');
      var held := QuerymentProp(cond[0], CheckThreshold(Nth(cond, 1)));
      if !held {
        branch := Target(Nth(dict, 1));
      } else {
        branch := Pop(branch);
      }
    }

    method JumpByNonePropNotBack(params: string) returns (jumped: bool)
      modifies this
      ensures State() == JumpUnlessHoldingOrStay(old(State()), params)
      ensures jumped <==> !ConditionHolds(old(State()), params)
    {
      var dict := Split(params, '?');
      var cond := Split(dict[0], '*');
      var held := QuerymentProp(cond[0], CheckThreshold(Nth(cond, 1)));
      jumped := !held;
      if jumped {
        branch := Target(Nth(dict, 1));
      }
    }

    method GetAchievements(prop: string, now: string)
      modifies this
      ensures State() == Achieve(old(State()), prop, now)
    {
      if prop !in achievements || achievements[prop] == "" {
        achievements := achievements[prop := now];
      }
    }

    /** `transferTool[name](session, param, ev) || ''` for a known name. */
    method Call(d: Directive, param: Option<string>, env: Env) returns (text: string, change: bool, fault: bool)
      modifies this
      ensures fault <==> Run(d, old(State()), param, env).Fault?
      ensures fault ==> State() == old(State())
      ensures !fault ==> Run(d, old(State()), param, env) == Done(State(), text, change)
    {
      text, change, fault := "", false, false;
      if SplitsParam(d) && param.None? {
        // `params.split` on undefined throws
        fault := true;
        return;
      }
      match d {
        case Time => text := env.now;
        case AcgImage => text := env.image;
        case Jump => JumpBranch(param); change := true;
        case JumpByLost => JumpByLostProp(param.value); change := true;
        case JumpByCheck => JumpByCheckProp(param.value); change := true;
        case JumpByNone => JumpByNoneProp(param.value); change := true;
        case JumpByNoneNotBack => change := JumpByNonePropNotBack(param.value);
        case Grant => GetProp(param.value);
        case GrantMore => GetMoreProp(param.value);
        case Lose =>
          var loss := LostProp(param.value);
          if loss == Taken { text := "true"; }
        case Query =>
          var held := QuerymentProp(param.GetOr("undefined"), NaN);
          if held { text := "true"; }
        case Achievement => GetAchievements(param.GetOr("undefined"), env.now);
      }
    }
  }
}
