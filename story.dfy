/**
 * The story tree and the navigator `galplayMap.getMenu`: it walks the tree along a
 * branch path of 1-based indices and reports the menu, ending or error it arrives at,
 * together with a breadcrumb of the last three names passed.
 */
module Story {
  import opened Wrappers
  import opened Text

  /**
   * A story node as the tree loader produces it. A node whose `child` field holds a list
   * is a `Branch`; one whose `child` field holds text is an `Ending`. An empty `title`
   * stands for a node without a title: the navigator reads it through `title || null`.
   */
  datatype Node =
    | Branch(name: string, title: string, children: seq<Node>)
    | Ending(name: string, text: string)

  /** What `selectMenu` holds at the end of a walk: a list of choices, an ending's text, or `undefined`. */
  datatype Menu = Choices(nodes: seq<Node>) | EndText(text: string) | Missing

  /**
   * The event `getMenu` hands to its callback. `lastPath` is the list `indePath` before it
   * is joined with "-" (nothing downstream reads it); an empty `title` stands for `null`.
   */
  datatype MenuEvent = MenuEvent(menu: Menu, title: string, lastPath: seq<nat>, crumbs: string, end: bool)

  /** A walk either reaches an event or throws at `selectMenu[item - 1].child` on an index that is 0 or NaN. */
  datatype Resolution = Reached(ev: MenuEvent) | Crash

  /** The breadcrumb form of a name: cut to its first six characters plus "..." when longer than six. */
  function ShortName(name: string): string
  {
    if |name| > 6 then name[..6] + "..." else name
  }

  /** A name of at most six characters is kept; a longer one keeps its first six and gets "...". */
  lemma ShortNameCut(name: string)
    ensures |name| <= 6 ==> ShortName(name) == name
    ensures |name| > 6 ==> |ShortName(name)| == 9 && ShortName(name)[..6] == name[..6] && ShortName(name)[6..] == "..."
  {
  }

  function Reverse(s: seq<string>): (r: seq<string>)
    ensures |r| == |s|
  {
    if |s| == 0 then [] else Reverse(s[1..]) + [s[0]]
  }

  lemma {:induction false} ReverseAt(s: seq<string>)
    ensures forall k :: 0 <= k < |s| ==> Reverse(s)[k] == s[|s| - 1 - k]
    decreases |s|
  {
    if |s| > 0 {
      ReverseAt(s[1..]);
      assert forall k :: 0 <= k < |s| - 1 ==> Reverse(s)[k] == Reverse(s[1..])[k];
    }
  }

  /** `names.slice(-3).reverse()`. */
  function RecentFirst(names: seq<string>): seq<string>
  {
    var recent := if |names| <= 3 then names else names[|names| - 3..];
    Reverse(recent)
  }

  /** The breadcrumb list holds the last three names (fewer when there are fewer), most recent first. */
  lemma RecentFirstNames(names: seq<string>)
    ensures |RecentFirst(names)| == if |names| < 3 then |names| else 3
    ensures forall k :: 0 <= k < |RecentFirst(names)| ==> RecentFirst(names)[k] == names[|names| - 1 - k]
  {
    var recent := if |names| <= 3 then names else names[|names| - 3..];
    ReverseAt(recent);
  }

  /** The breadcrumb text: the recent names joined with "<". */
  function Crumbs(names: seq<string>): string
  {
    Join(RecentFirst(names), '<')
  }

  /** `goal.split("-").map(Number)`. */
  function Numbers(parts: seq<string>): (r: seq<Amount>)
    ensures |r| == |parts|
  {
    if parts == [] then [] else [JsNumber(parts[0])] + Numbers(parts[1..])
  }

  lemma {:induction false} NumbersAppend(parts: seq<string>, last: string)
    ensures Numbers(parts + [last]) == Numbers(parts) + [JsNumber(last)]
  {
    if parts != [] {
      assert (parts + [last])[1..] == parts[1..] + [last];
      NumbersAppend(parts[1..], last);
    }
  }

  /**
   * The loop of `getMenu` from some point on: `level` is the current `selectMenu` list,
   * `path`, `names` and `title` what `indePath`, `PathName` and `title` hold so far.
   */
  function Walk(level: seq<Node>, indices: seq<Amount>, path: seq<nat>, names: seq<string>, title: string): Resolution
    decreases |indices|
  {
    if indices == [] then
      Reached(MenuEvent(Choices(level), title, path, Crumbs(names), false))
    else
      match indices[0]
      case NaN => Crash
      case Num(k) =>
        if k == 0 then Crash
        else if |level| < k then Reached(MenuEvent(Missing, "", path, Crumbs(names), false))
        else
          var node := level[k - 1];
          var path', names' := path + [k], names + [ShortName(node.name)];
          match node
          case Ending(_, text) => Reached(MenuEvent(EndText(text), "", path', Crumbs(names'), true))
          case Branch(_, t, kids) => Walk(kids, indices[1..], path', names', t)
  }

  /** What `getMenu(goal)` reports for the tree whose top-level list is `roots`. */
  function Resolve(roots: seq<Node>, goal: string): Resolution
  {
    if goal == "" then Reached(MenuEvent(Choices(roots), "", [], "", false))
    else Walk(roots, Numbers(Split(goal, '-')), [], [], "")
  }

  /** `galplayMap.getMenu`: the walk written as the source's loop over the parsed indices. */
  method GetMenu(roots: seq<Node>, goal: string) returns (r: Resolution)
    ensures r == Resolve(roots, goal)
  {
    if goal == "" {
      return Reached(MenuEvent(Choices(roots), "", [], "", false));
    }
    var selectMenu := roots;
    var indePath: seq<nat> := [];
    var pathName: seq<string> := [];
    var title := "";
    var indexList := Numbers(Split(goal, '-'));
    for i := 0 to |indexList|
      invariant Walk(selectMenu, indexList[i..], indePath, pathName, title) == Walk(roots, indexList, [], [], "")
    {
      var item := indexList[i];
      assert indexList[i..][0] == item && indexList[i..][1..] == indexList[i + 1..];
      if item.NaN? || item.n == 0 {
        // `selectMenu[item - 1]` is undefined and reading its `child` throws
        return Crash;
      }
      if |selectMenu| < item.n {
        // the index is out of range: `selectMenu` becomes undefined, the index is not recorded
        return Reached(MenuEvent(Missing, "", indePath, Crumbs(pathName), false));
      }
      var node := selectMenu[item.n - 1];
      indePath := indePath + [item.n];
      pathName := pathName + [ShortName(node.name)];
      match node {
        case Ending(_, text) =>
          return Reached(MenuEvent(EndText(text), "", indePath, Crumbs(pathName), true));
        case Branch(_, t, kids) =>
          selectMenu, title := kids, t;
      }
    }
    r := Reached(MenuEvent(Choices(selectMenu), title, indePath, Crumbs(pathName), false));
  }

  // ---------------------------------------------------------------------------
  // A reference description of paths through the tree, and what the walk reports for them

  /** A path of whole numbers as the walk sees it after `Number`. */
  function Nums(path: seq<nat>): (r: seq<Amount>)
    ensures |r| == |path|
  {
    if path == [] then [] else [Num(path[0])] + Nums(path[1..])
  }

  /**
   * The nodes met when following `path` from `level`, provided every index is in range
   * and every node met before the last one is a branch.
   */
  function Visit(level: seq<Node>, path: seq<nat>): Option<seq<Node>>
    decreases |path|
  {
    if path == [] then Some([])
    else if !(1 <= path[0] <= |level|) then None
    else
      var node := level[path[0] - 1];
      if |path| == 1 then Some([node])
      else
        match node
        case Ending(_, _) => None
        case Branch(_, _, kids) =>
          match Visit(kids, path[1..])
          case None => None
          case Some(rest) => Some([node] + rest)
  }

  /** The breadcrumb names of the nodes met. */
  function Names(nodes: seq<Node>): (r: seq<string>)
    ensures |r| == |nodes|
  {
    if nodes == [] then [] else [ShortName(nodes[0].name)] + Names(nodes[1..])
  }

  /** The sibling list offered after meeting `nodes` from `roots`. */
  function Offered(roots: seq<Node>, nodes: seq<Node>): seq<Node>
  {
    if nodes == [] then roots
    else match nodes[|nodes| - 1]
      case Branch(_, _, kids) => kids
      case Ending(_, _) => []
  }

  lemma VisitShape(level: seq<Node>, path: seq<nat>, nodes: seq<Node>)
    requires Visit(level, path) == Some(nodes)
    ensures |nodes| == |path|
    ensures path != [] ==> 1 <= path[0] <= |level| && nodes[0] == level[path[0] - 1]
    ensures |path| > 1 ==> nodes[0].Branch? && Visit(nodes[0].children, path[1..]) == Some(nodes[1..])
    decreases |path|
  {
    if |path| > 1 {
      var rest :| Visit(level[path[0] - 1].children, path[1..]) == Some(rest) && nodes == [level[path[0] - 1]] + rest;
      VisitShape(level[path[0] - 1].children, path[1..], rest);
    }
  }

  /** One step of the walk onto a branch. */
  lemma WalkBranchStep(level: seq<Node>, k: nat, rest: seq<Amount>, acc: seq<nat>, names: seq<string>, title: string)
    requires 1 <= k <= |level| && level[k - 1].Branch?
    ensures Walk(level, [Num(k)] + rest, acc, names, title)
         == Walk(level[k - 1].children, rest, acc + [k], names + [ShortName(level[k - 1].name)], level[k - 1].title)
  {
    assert ([Num(k)] + rest)[1..] == rest;
  }

  /** One step of the walk onto an ending. */
  lemma WalkEndingStep(level: seq<Node>, k: nat, rest: seq<Amount>, acc: seq<nat>, names: seq<string>, title: string)
    requires 1 <= k <= |level| && level[k - 1].Ending?
    ensures Walk(level, [Num(k)] + rest, acc, names, title)
         == Reached(MenuEvent(EndText(level[k - 1].text), "", acc + [k], Crumbs(names + [ShortName(level[k - 1].name)]), true))
  {
  }

  /** The facts about a visited path that the walk lemmas split on. */
  lemma VisitParts(level: seq<Node>, path: seq<nat>, nodes: seq<Node>, rest: seq<Amount>)
    requires path != [] && Visit(level, path) == Some(nodes)
    ensures |nodes| == |path| && 1 <= path[0] <= |level| && nodes[0] == level[path[0] - 1]
    ensures Nums(path) + rest == [Num(path[0])] + (Nums(path[1..]) + rest)
    ensures Names(nodes) == [ShortName(nodes[0].name)] + Names(nodes[1..])
    ensures |path| == 1 ==> path == [path[0]] && nodes == [nodes[0]] && Nums(path[1..]) + rest == rest && Names(nodes[1..]) == []
    ensures |path| > 1 ==> nodes[0].Branch? && Visit(nodes[0].children, path[1..]) == Some(nodes[1..])
  {
    VisitShape(level, path, nodes);
    NumsCons(path, rest);
    NamesCons(nodes);
    if |path| == 1 {
      assert Nums(path[1..]) == [];
      assert Names(nodes[1..]) == [];
    }
  }

  lemma NumsCons(path: seq<nat>, rest: seq<Amount>)
    requires path != []
    ensures Nums(path) + rest == [Num(path[0])] + (Nums(path[1..]) + rest)
  {
  }

  lemma NamesCons(nodes: seq<Node>)
    requires nodes != []
    ensures Names(nodes) == [ShortName(nodes[0].name)] + Names(nodes[1..])
  {
  }

  lemma WalkLastBranch(level: seq<Node>, path: seq<nat>, nodes: seq<Node>, rest: seq<Amount>,
                       acc: seq<nat>, names: seq<string>, title: string, accEnd: seq<nat>, namesEnd: seq<string>, last: Node)
    requires |path| == 1 && Visit(level, path) == Some(nodes)
    requires last == nodes[|nodes| - 1] && last.Branch?
    requires accEnd == acc + path && namesEnd == names + Names(nodes)
    ensures Walk(level, Nums(path) + rest, acc, names, title) == Walk(last.children, rest, accEnd, namesEnd, last.title)
  {
    VisitParts(level, path, nodes, rest);
    var k, node := path[0], nodes[0];
    WalkBranchStep(level, k, rest, acc, names, title);
    assert nodes[|nodes| - 1] == node && accEnd == acc + [k];
    assert namesEnd == names + [ShortName(node.name)];
  }

  lemma WalkLastEnding(level: seq<Node>, path: seq<nat>, nodes: seq<Node>, rest: seq<Amount>,
                       acc: seq<nat>, names: seq<string>, title: string, accEnd: seq<nat>, namesEnd: seq<string>)
    requires |path| == 1 && Visit(level, path) == Some(nodes)
    requires nodes[|nodes| - 1].Ending?
    requires accEnd == acc + path && namesEnd == names + Names(nodes)
    ensures Walk(level, Nums(path) + rest, acc, names, title)
         == Reached(MenuEvent(EndText(nodes[|nodes| - 1].text), "", accEnd, Crumbs(namesEnd), true))
  {
    VisitParts(level, path, nodes, rest);
    var k, node := path[0], nodes[0];
    WalkEndingStep(level, k, rest, acc, names, title);
    assert nodes[|nodes| - 1] == node && accEnd == acc + [k];
    assert namesEnd == names + [ShortName(node.name)];
  }

  /** The accumulated path and names after one more step of a longer path. */
  lemma StepAccumulators(path: seq<nat>, nodes: seq<Node>, acc: seq<nat>, names: seq<string>)
    requires |path| > 1 && |nodes| == |path|
    ensures acc + path == (acc + [path[0]]) + path[1..]
    ensures names + Names(nodes) == (names + [ShortName(nodes[0].name)]) + Names(nodes[1..])
    ensures nodes[1..][|nodes[1..]| - 1] == nodes[|nodes| - 1]
  {
    assert path == [path[0]] + path[1..];
  }

  /**
   * Walking along a path whose nodes are all branches continues from the last branch's
   * children with that branch's title; `accEnd` and `namesEnd` are the path and the names
   * accumulated by then.
   */
  lemma {:induction false} WalkThroughBranches(level: seq<Node>, path: seq<nat>, nodes: seq<Node>, rest: seq<Amount>,
                                               acc: seq<nat>, names: seq<string>, title: string,
                                               accEnd: seq<nat>, namesEnd: seq<string>, last: Node)
    requires path != [] && Visit(level, path) == Some(nodes)
    requires last == nodes[|nodes| - 1] && last.Branch?
    requires accEnd == acc + path && namesEnd == names + Names(nodes)
    ensures Walk(level, Nums(path) + rest, acc, names, title) == Walk(last.children, rest, accEnd, namesEnd, last.title)
    decreases |path|, 1
  {
    if |path| == 1 {
      WalkLastBranch(level, path, nodes, rest, acc, names, title, accEnd, namesEnd, last);
    } else {
      WalkFirstBranch(level, path, nodes, rest, acc, names, title, accEnd, namesEnd, last);
    }
  }

  lemma {:induction false} WalkFirstBranch(level: seq<Node>, path: seq<nat>, nodes: seq<Node>, rest: seq<Amount>,
                                           acc: seq<nat>, names: seq<string>, title: string,
                                           accEnd: seq<nat>, namesEnd: seq<string>, last: Node)
    requires |path| > 1 && Visit(level, path) == Some(nodes)
    requires last == nodes[|nodes| - 1] && last.Branch?
    requires accEnd == acc + path && namesEnd == names + Names(nodes)
    ensures Walk(level, Nums(path) + rest, acc, names, title) == Walk(last.children, rest, accEnd, namesEnd, last.title)
    decreases |path|, 0
  {
    VisitParts(level, path, nodes, rest);
    var k, node := path[0], nodes[0];
    WalkBranchStep(level, k, Nums(path[1..]) + rest, acc, names, title);
    StepAccumulators(path, nodes, acc, names);
    WalkThroughBranches(node.children, path[1..], nodes[1..], rest, acc + [k], names + [ShortName(node.name)], node.title,
                        accEnd, namesEnd, last);
  }

  /** Walking along a path that ends on an ending stops there, whatever indices follow. */
  lemma {:induction false} WalkIntoEnding(level: seq<Node>, path: seq<nat>, nodes: seq<Node>, rest: seq<Amount>,
                                          acc: seq<nat>, names: seq<string>, title: string,
                                          accEnd: seq<nat>, namesEnd: seq<string>)
    requires path != [] && Visit(level, path) == Some(nodes)
    requires nodes[|nodes| - 1].Ending?
    requires accEnd == acc + path && namesEnd == names + Names(nodes)
    ensures Walk(level, Nums(path) + rest, acc, names, title)
         == Reached(MenuEvent(EndText(nodes[|nodes| - 1].text), "", accEnd, Crumbs(namesEnd), true))
    decreases |path|, 1
  {
    if |path| == 1 {
      WalkLastEnding(level, path, nodes, rest, acc, names, title, accEnd, namesEnd);
    } else {
      WalkTowardEnding(level, path, nodes, rest, acc, names, title, accEnd, namesEnd);
    }
  }

  lemma {:induction false} WalkTowardEnding(level: seq<Node>, path: seq<nat>, nodes: seq<Node>, rest: seq<Amount>,
                                            acc: seq<nat>, names: seq<string>, title: string,
                                            accEnd: seq<nat>, namesEnd: seq<string>)
    requires |path| > 1 && Visit(level, path) == Some(nodes)
    requires nodes[|nodes| - 1].Ending?
    requires accEnd == acc + path && namesEnd == names + Names(nodes)
    ensures Walk(level, Nums(path) + rest, acc, names, title)
         == Reached(MenuEvent(EndText(nodes[|nodes| - 1].text), "", accEnd, Crumbs(namesEnd), true))
    decreases |path|, 0
  {
    VisitParts(level, path, nodes, rest);
    var k, node := path[0], nodes[0];
    WalkBranchStep(level, k, Nums(path[1..]) + rest, acc, names, title);
    StepAccumulators(path, nodes, acc, names);
    WalkIntoEnding(node.children, path[1..], nodes[1..], rest, acc + [k], names + [ShortName(node.name)], node.title,
                   accEnd, namesEnd);
  }

  /** The walk continues from the list `Offered` after a path of branches (the top-level list for the empty path). */
  lemma WalkAfter(roots: seq<Node>, path: seq<nat>, nodes: seq<Node>, rest: seq<Amount>)
    requires Visit(roots, path) == Some(nodes)
    requires path == [] || nodes[|nodes| - 1].Branch?
    ensures Walk(roots, Nums(path) + rest, [], [], "")
         == Walk(Offered(roots, nodes), rest, path, Names(nodes), if path == [] then "" else nodes[|nodes| - 1].title)
  {
    VisitShape(roots, path, nodes);
    if path == [] {
      assert Nums(path) + rest == rest;
    } else {
      assert [] + path == path && [] + Names(nodes) == Names(nodes);
      WalkThroughBranches(roots, path, nodes, rest, [], [], "", path, Names(nodes), nodes[|nodes| - 1]);
    }
  }

  /**
   * A path through branches resolves to the children of the last branch, with that
   * branch's title, the full path as `lastPath`, the breadcrumb of the names met, and
   * `end` false.
   */
  lemma NavigateToBranch(roots: seq<Node>, path: seq<nat>, nodes: seq<Node>)
    requires path != [] && Visit(roots, path) == Some(nodes)
    requires nodes[|nodes| - 1].Branch?
    ensures Walk(roots, Nums(path), [], [], "")
         == Reached(MenuEvent(Choices(nodes[|nodes| - 1].children), nodes[|nodes| - 1].title, path, Crumbs(Names(nodes)), false))
  {
    assert Nums(path) + [] == Nums(path);
    assert [] + path == path && [] + Names(nodes) == Names(nodes);
    WalkThroughBranches(roots, path, nodes, [], [], [], "", path, Names(nodes), nodes[|nodes| - 1]);
  }

  /**
   * A path that reaches an ending resolves to the ending's text with `end` true and no
   * title, and any indices written after it are ignored.
   */
  lemma NavigateToEnding(roots: seq<Node>, path: seq<nat>, nodes: seq<Node>, rest: seq<Amount>)
    requires path != [] && Visit(roots, path) == Some(nodes)
    requires nodes[|nodes| - 1].Ending?
    ensures Walk(roots, Nums(path) + rest, [], [], "")
         == Reached(MenuEvent(EndText(nodes[|nodes| - 1].text), "", path, Crumbs(Names(nodes)), true))
  {
    assert [] + path == path && [] + Names(nodes) == Names(nodes);
    WalkIntoEnding(roots, path, nodes, rest, [], [], "", path, Names(nodes));
  }

  /**
   * An index past the number of offered siblings leaves `selectMenu` undefined; `lastPath`
   * and the breadcrumb stop before that index and the indices after it are ignored.
   */
  lemma NavigateOutOfRange(roots: seq<Node>, path: seq<nat>, nodes: seq<Node>, k: nat, rest: seq<Amount>)
    requires Visit(roots, path) == Some(nodes)
    requires path == [] || nodes[|nodes| - 1].Branch?
    requires k > |Offered(roots, nodes)|
    ensures Walk(roots, Nums(path) + ([Num(k)] + rest), [], [], "")
         == Reached(MenuEvent(Missing, "", path, Crumbs(Names(nodes)), false))
  {
    WalkAfter(roots, path, nodes, [Num(k)] + rest);
  }

  /** An index that reads as 0 or NaN after the valid part of a path makes the walk throw. */
  lemma NavigateBadIndex(roots: seq<Node>, path: seq<nat>, nodes: seq<Node>, bad: Amount, rest: seq<Amount>)
    requires Visit(roots, path) == Some(nodes)
    requires path == [] || nodes[|nodes| - 1].Branch?
    requires bad == NaN || bad == Num(0)
    ensures Walk(roots, Nums(path) + ([bad] + rest), [], [], "") == Crash
  {
    WalkAfter(roots, path, nodes, [bad] + rest);
  }

  /** If a path resolves without an out-of-range error, so does every prefix of it. */
  lemma {:induction false} PrefixOfValidIsValid(level: seq<Node>, pre: seq<Amount>, post: seq<Amount>,
                                                acc: seq<nat>, names: seq<string>, title: string)
    requires Walk(level, pre + post, acc, names, title).Reached?
    requires !Walk(level, pre + post, acc, names, title).ev.menu.Missing?
    ensures Walk(level, pre, acc, names, title).Reached?
    ensures !Walk(level, pre, acc, names, title).ev.menu.Missing?
    decreases |pre|
  {
    if pre != [] {
      var indices := pre + post;
      assert indices[0] == pre[0];
      assert indices[1..] == pre[1..] + post;
      if pre[0].Num? && pre[0].n != 0 && pre[0].n <= |level| {
        var node := level[pre[0].n - 1];
        if node.Branch? {
          PrefixOfValidIsValid(node.children, pre[1..], post, acc + [pre[0].n], names + [ShortName(node.name)], node.title);
        }
      }
    }
  }

  /** The empty goal resolves to the top-level list with no title, no breadcrumb and an empty `lastPath`. */
  lemma ResolveEmpty(roots: seq<Node>)
    ensures Resolve(roots, "") == Reached(MenuEvent(Choices(roots), "", [], "", false))
  {
  }

  /** Resolving a joined branch path walks exactly its segments, converted by `Number`. */
  lemma ResolveJoined(roots: seq<Node>, segments: seq<string>)
    requires forall k :: 0 <= k < |segments| ==> '-' !in segments[k]
    requires Join(segments, '-') != ""
    ensures Resolve(roots, Join(segments, '-')) == Walk(roots, Numbers(segments), [], [], "")
  {
    assert |segments| >= 1;
    SplitJoin(segments, '-');
  }

  /** A path the navigator can follow to a menu, extended by a segment that is not a number, throws. */
  lemma ResolveNaNCrashes(roots: seq<Node>, branch: seq<string>, path: seq<nat>, nodes: seq<Node>, last: string)
    requires forall k :: 0 <= k < |branch| ==> '-' !in branch[k]
    requires last != "" && '-' !in last && JsNumber(last) == NaN
    requires Numbers(branch) == Nums(path)
    requires Visit(roots, path) == Some(nodes) && (path == [] || nodes[|nodes| - 1].Branch?)
    ensures Resolve(roots, Join(branch + [last], '-')) == Crash
  {
    var pushed := branch + [last];
    assert forall k :: 0 <= k < |pushed| ==> '-' !in pushed[k] by {
      assert forall k :: 0 <= k < |branch| ==> pushed[k] == branch[k];
    }
    JoinContains(pushed, '-', |branch|);
    ResolveJoined(roots, pushed);
    NumbersAppend(branch, last);
    NavigateBadIndex(roots, path, nodes, NaN, []);
    assert Nums(path) + ([NaN] + []) == Numbers(pushed);
  }

  /** The walk reports `end` exactly when it stopped on an ending's text. */
  lemma {:induction false} EndMeansEnding(level: seq<Node>, indices: seq<Amount>, path: seq<nat>, names: seq<string>, title: string)
    requires Walk(level, indices, path, names, title).Reached?
    ensures Walk(level, indices, path, names, title).ev.end <==> Walk(level, indices, path, names, title).ev.menu.EndText?
    ensures Walk(level, indices, path, names, title).ev.end ==> Walk(level, indices, path, names, title).ev.title == ""
    decreases |indices|
  {
    if indices != [] && indices[0].Num? && indices[0].n != 0 && indices[0].n <= |level| {
      var node := level[indices[0].n - 1];
      if node.Branch? {
        EndMeansEnding(node.children, indices[1..], path + [indices[0].n], names + [ShortName(node.name)], node.title);
      }
    }
  }
}
