/**
 * The renderer `galplayMap.markScreen` and the formatter `format`: the page a branch path
 * leads to has its `%name|param%` directives replaced by what the named handlers return,
 * is rendered again from the updated path when a handler asked for that, and is finally
 * laid out as the text sent to the player.
 */
module Renderer {
  import opened Wrappers
  import opened Text
  import opened Story
  import opened Directives
  import opened Markup

  // ---------------------------------------------------------------------------
  // Substitution

  /** `capture.split('|')`, the handler lookup and the call, or `''` when no handler has that name. */
  function Substitute(capture: string, st: UserState, env: Env): Effect
  {
    var temp := Split(capture, '|');
    match Lookup(temp[0])
    case None => Done(st, "", false)
    case Some(d) => Run(d, st, Nth(temp, 1), env)
  }

  /** A text after substitution with the state the handlers left and `ev.change`; or a handler threw. */
  datatype Expansion = Expanded(st: UserState, text: string, change: bool) | Faulted(st: UserState)

  /**
   * The replacement over the pieces still to do, `text` being what has been produced so far.
   * The handlers run in order and each sees the state the previous ones left.
   */
  function ExpandFrom(pieces: seq<Piece>, st: UserState, env: Env, text: string, change: bool): Expansion
    decreases |pieces|
  {
    if pieces == [] then Expanded(st, text, change)
    else
      match Step(pieces[0], st, env, text, change)
      case Faulted(st') => Faulted(st')
      case Expanded(st', text', change') => ExpandFrom(pieces[1..], st', env, text', change')
  }

  /** One piece: plain text is copied, a match is replaced by its handler's result. */
  function Step(piece: Piece, st: UserState, env: Env, text: string, change: bool): Expansion
  {
    match piece
    case Lit(t) => Expanded(st, text + t, change)
    case Tag(c) =>
      match Substitute(c, st, env)
      case Fault => Faulted(st)
      case Done(st', t, ch) => Expanded(st', text + t, change || ch)
  }

  /** `s.replace(/%([^%]*)%/g, …)` starting from the current `ev.change`. */
  function Expand(s: string, st: UserState, env: Env, change: bool): Expansion
  {
    ExpandFrom(Pieces(s), st, env, "", change)
  }

  /** A text with no directives in it comes through unchanged and runs no handler. */
  lemma ExpandPlain(s: string, st: UserState, env: Env, change: bool)
    requires '%' !in s
    ensures Expand(s, st, env, change) == Expanded(st, s, change)
  {
    PiecesPlain(s);
    assert [Lit(s)][1..] == [];
    assert ExpandFrom([Lit(s)], st, env, "", change) == ExpandFrom([], st, env, "" + s, change);
    assert "" + s == s;
  }

  /**
   * A text holding one directive `%c%` between plain parts comes out as the parts around
   * what the named handler returns, with the state the handler left and its `change` added;
   * or it throws when the handler throws.
   */
  lemma ExpandOne(a: string, c: string, b: string, st: UserState, env: Env, change: bool)
    requires '%' !in a && '%' !in c && '%' !in b
    ensures Expand(a + ("%" + c + "%" + b), st, env, change) ==
      match Substitute(c, st, env)
      case Fault => Faulted(st)
      case Done(st', t, ch) => Expanded(st', a + t + b, change || ch)
  {
    PiecesOne(a, c, b);
    ExpandFromOne(a, c, b, st, env, change, Substitute(c, st, env));
  }

  /** The three pieces of `a%c%b`, where the directive's result is `sub`. */
  lemma ExpandFromOne(a: string, c: string, b: string, st: UserState, env: Env, change: bool, sub: Effect)
    requires sub == Substitute(c, st, env)
    ensures ExpandFrom([Lit(a), Tag(c), Lit(b)], st, env, "", change) ==
      match sub
      case Fault => Faulted(st)
      case Done(st', t, ch) => Expanded(st', a + t + b, change || ch)
  {
    var ps := [Lit(a), Tag(c), Lit(b)];
    assert ps[1..] == [Tag(c), Lit(b)] && ps[1..][1..] == [Lit(b)] && ps[1..][1..][1..] == [];
    assert ExpandFrom(ps, st, env, "", change) == ExpandFrom(ps[1..], st, env, a, change) by {
      assert Step(Lit(a), st, env, "", change) == Expanded(st, a, change);
    }
    match sub
    case Fault =>
      assert Step(Tag(c), st, env, a, change) == Faulted(st);
    case Done(st', t, ch) =>
      assert Step(Tag(c), st, env, a, change) == Expanded(st', a + t, change || ch);
      assert ExpandFrom(ps[1..], st, env, a, change) == ExpandFrom([Lit(b)], st', env, a + t, change || ch);
      assert ExpandFrom([Lit(b)], st', env, a + t, change || ch) == ExpandFrom([], st', env, a + t + b, change || ch);
  }

  /** `%getTime%` between plain parts is replaced by the current time and changes nothing else. */
  lemma ExpandTime(a: string, b: string, st: UserState, env: Env, change: bool)
    requires '%' !in a && '%' !in b
    ensures Expand(a + "%getTime%" + b, st, env, change) == Expanded(st, a + env.now + b, change)
  {
    assert a + "%getTime%" + b == a + ("%" + "getTime" + "%" + b);
    IndexOfAbsent("getTime", '|');
    assert Split("getTime", '|') == ["getTime"];
    assert Substitute("getTime", st, env) == Done(st, env.now, false);
    ExpandOne(a, "getTime", b, st, env, change);
  }

  /** The plain text of a list of pieces. */
  function Literals(pieces: seq<Piece>): string
  {
    if pieces == [] then ""
    else (match pieces[0] case Lit(t) => t case Tag(_) => "") + Literals(pieces[1..])
  }

  /** Whether a directive names a handler. */
  predicate Known(capture: string)
  {
    Lookup(Split(capture, '|')[0]).Some?
  }

  /** Directives that name no handler are replaced by nothing and change nothing. */
  lemma {:induction false} ExpandUnknown(pieces: seq<Piece>, st: UserState, env: Env, text: string, change: bool)
    requires forall k :: 0 <= k < |pieces| && pieces[k].Tag? ==> !Known(pieces[k].capture)
    ensures ExpandFrom(pieces, st, env, text, change) == Expanded(st, text + Literals(pieces), change)
    decreases |pieces|
  {
    if pieces != [] {
      assert forall k :: 0 <= k < |pieces[1..]| ==> pieces[1..][k] == pieces[k + 1];
      ExpandUnknown(pieces[1..], st, env, text + (match pieces[0] case Lit(t) => t case Tag(_) => ""), change);
      assert text + (match pieces[0] case Lit(t) => t case Tag(_) => "") + Literals(pieces[1..]) == text + Literals(pieces);
    }
  }

  /** One directive keeps every count at least zero and lets the ledger and the achievements only grow. */
  lemma SubstituteKeeps(c: string, st: UserState, env: Env)
    requires NonNegative(st)
    ensures Substitute(c, st, env).Done? ==> NonNegative(Substitute(c, st, env).st) && Evolves(st, Substitute(c, st, env).st)
  {
    var temp := Split(c, '|');
    if Lookup(temp[0]).Some? {
      RunIsWellBehaved(Lookup(temp[0]).value, st, Nth(temp, 1), env);
    }
  }

  /**
   * Substituting keeps every count at least zero, only lets the ledger and the
   * achievements grow, and never clears `change` once it is set.
   */
  lemma {:induction false} ExpandKeeps(pieces: seq<Piece>, st: UserState, env: Env, text: string, change: bool)
    requires NonNegative(st)
    ensures NonNegative(ExpandFrom(pieces, st, env, text, change).st)
    ensures Evolves(st, ExpandFrom(pieces, st, env, text, change).st)
    ensures change && ExpandFrom(pieces, st, env, text, change).Expanded? ==> ExpandFrom(pieces, st, env, text, change).change
    decreases |pieces|
  {
    if pieces != [] {
      match pieces[0]
      case Lit(t) => ExpandKeeps(pieces[1..], st, env, text + t, change);
      case Tag(c) =>
        SubstituteKeeps(c, st, env);
        match Substitute(c, st, env)
        case Fault =>
        case Done(st', t, ch) =>
          ExpandKeeps(pieces[1..], st', env, text + t, change || ch);
          EvolvesTransitive(st, st', ExpandFrom(pieces[1..], st', env, text + t, change || ch).st);
    }
  }

  // ---------------------------------------------------------------------------
  // One render

  /** The page after substitution, with the state and `ev.change`; or a handler threw. */
  datatype Marked = Marked(st: UserState, ev: MenuEvent, change: bool) | MarkFault(st: UserState)

  /**
   * The callback `markScreen` hands to `getMenu`: an ending's text is substituted when
   * `ev.end` holds, then a non-empty title is substituted, both updating the same `ev.change`.
   */
  function Mark(ev: MenuEvent, st: UserState, env: Env): Marked
  {
    var body := if ev.end && ev.menu.EndText? then Expand(ev.menu.text, st, env, false) else Expanded(st, "", false);
    match body
    case Faulted(st1) => MarkFault(st1)
    case Expanded(st1, text, change1) =>
      var ev1 := if ev.end && ev.menu.EndText? then ev.(menu := EndText(text)) else ev;
      if ev.title == "" then Marked(st1, ev1, change1)
      else
        match Expand(ev.title, st1, env, change1)
        case Faulted(st2) => MarkFault(st2)
        case Expanded(st2, title, change2) => Marked(st2, ev1.(title := title), change2)
  }

  /** What `format` returns: the message, whether the page was an error, and whether it was an ending. */
  datatype Screen = Screen(msg: string, err: bool, end: bool)

  /** The separator line under the choices. */
  const Rule := "----------------------------"

  /** The content label, left out when the text holds an image element. */
  function ContentLabel(text: string, hasImage: string -> bool): string
  {
    if hasImage(text) then "" else "【内容】\n"
  }

  /** The names of the offered choices, leaving out those that contain `__discard`. */
  function Listed(nodes: seq<Node>): seq<string>
  {
    if nodes == [] then []
    else
      var rest := Listed(nodes[1..]);
      if Contains(nodes[0].name, "__discard") then rest else [nodes[0].name] + rest
  }

  /** The choices listed are the names without `__discard`: each such name is listed, and only names of the nodes are. */
  lemma {:induction false} ListedCases(nodes: seq<Node>)
    ensures forall k :: 0 <= k < |Listed(nodes)| ==> !Contains(Listed(nodes)[k], "__discard")
    ensures forall k :: 0 <= k < |nodes| && !Contains(nodes[k].name, "__discard") ==> nodes[k].name in Listed(nodes)
    ensures forall n :: n in Listed(nodes) ==> exists k :: 0 <= k < |nodes| && nodes[k].name == n
    decreases |nodes|
  {
    if nodes != [] {
      ListedCases(nodes[1..]);
      assert forall k :: 1 <= k < |nodes| ==> nodes[k] == nodes[1..][k - 1];
    }
  }

  /**
   * The choices keep their order and their repetitions: one node lists its name unless it
   * contains `__discard`, and the list for two runs of nodes is the first run's list
   * followed by the second's.
   */
  lemma {:induction false} ListedInOrder(a: seq<Node>, b: seq<Node>)
    ensures Listed(a + b) == Listed(a) + Listed(b)
    ensures |a| == 1 ==> Listed(a) == if Contains(a[0].name, "__discard") then [] else [a[0].name]
    decreases |a|
  {
    if a == [] {
      assert a + b == b;
    } else {
      assert (a + b)[1..] == a[1..] + b;
      ListedInOrder(a[1..], b);
      if |a| == 1 {
        assert a[1..] == [];
      }
    }
  }

  /** The position line: the prologue marker with no breadcrumb, else the breadcrumb. */
  function Position(crumbs: string, ending: bool): string
  {
    if crumbs == "" then "序章\n"
    else if ending then "[当前位置]" + crumbs + "\n"
    else "[当前位置]\n" + crumbs + "\n"
  }

  /** The lines every page ends with before the position line. */
  const Footer := "\n\n0 退出\n" + Rule + "\n"

  /** The pages `format` reports as errors: `selectMenu` is `undefined` or an empty text. */
  predicate IsError(ev: MenuEvent)
  {
    ev.menu.Missing? || ev.menu == EndText("")
  }

  /** The part of a page above the footer: an ending's text, or a menu's title and choices. */
  function Page(ev: MenuEvent, hasImage: string -> bool): string
  {
    match ev.menu
    case Missing => ""
    case EndText(t) => ContentLabel(t, hasImage) + DropBackslashes(t) + "\n"
    case Choices(nodes) =>
      ContentLabel(ev.title, hasImage) + (if ev.title == "" then "" else DropBackslashes(ev.title) + "\n\n")
        + Join(Listed(nodes), '\n')
  }

  /**
   * `format` on a page whose `change` is not set. A page whose `selectMenu` is `undefined` or
   * an empty text is an error; an ending shows its text, a menu its title and its choices.
   */
  function Format(ev: MenuEvent, hasImage: string -> bool): Screen
  {
    if IsError(ev) then Screen("", true, false)
    else Screen(Page(ev, hasImage) + Footer + Position(ev.crumbs, ev.menu.EndText?), false, ev.end)
  }

  predicate EndsWith(s: string, suffix: string)
  {
    |suffix| <= |s| && s[|s| - |suffix|..] == suffix
  }

  lemma EndsWithAppended(a: string, b: string)
    ensures EndsWith(a + b, b)
  {
    assert (a + b)[|a + b| - |b|..] == b;
  }

  lemma EndsWithLonger(a: string, b: string, c: string)
    requires EndsWith(b, c)
    ensures EndsWith(a + b, c)
  {
    assert (a + b)[|a + b| - |c|..] == b[|b| - |c|..];
  }

  /**
   * The error pages are exactly the missing ones and the empty endings, and they carry no
   * message; every other page ends with the exit line, the rule and the position line,
   * the breadcrumb when there is one and the prologue marker when there is none.
   */
  lemma FormatShape(ev: MenuEvent, hasImage: string -> bool)
    ensures var sc := Format(ev, hasImage);
      && (sc.err <==> ev.menu.Missing? || ev.menu == EndText(""))
      && (sc.err ==> sc.msg == "" && !sc.end)
      && (!sc.err ==> sc.end == ev.end && EndsWith(sc.msg, Footer + Position(ev.crumbs, ev.menu.EndText?)))
      && (!sc.err && ev.crumbs == "" ==> EndsWith(sc.msg, "序章\n"))
      && (!sc.err && ev.crumbs != "" ==> EndsWith(sc.msg, ev.crumbs + "\n"))
  {
    if !IsError(ev) {
      var page, position := Page(ev, hasImage), Position(ev.crumbs, ev.menu.EndText?);
      assert Format(ev, hasImage).msg == page + (Footer + position);
      EndsWithAppended(page, Footer + position);
      EndsWithAppended(page + Footer, position);
      if ev.crumbs != "" {
        var marker := if ev.menu.EndText? then "[当前位置]" else "[当前位置]\n";
        assert position == marker + (ev.crumbs + "\n");
        EndsWithAppended(marker, ev.crumbs + "\n");
        EndsWithLonger(page + Footer, position, ev.crumbs + "\n");
      } else {
        EndsWithLonger(page + Footer, position, "序章\n");
      }
      assert Format(ev, hasImage).msg == page + Footer + position;
    }
  }

  /** An ending's page shows its text without backslashes. */
  lemma FormatShowsEnding(ev: MenuEvent, hasImage: string -> bool, t: string)
    requires ev.menu == EndText(t) && t != ""
    ensures Contains(Format(ev, hasImage).msg, DropBackslashes(t))
  {
    ContainsMiddle(ContentLabel(t, hasImage), DropBackslashes(t), "\n" + Footer + Position(ev.crumbs, true));
    assert Page(ev, hasImage) + Footer + Position(ev.crumbs, true)
        == ContentLabel(t, hasImage) + DropBackslashes(t) + ("\n" + Footer + Position(ev.crumbs, true));
  }

  /** The list of choices holds the name of every choice that does not contain `__discard`. */
  lemma ListedHolds(nodes: seq<Node>, k: nat)
    requires k < |nodes| && !Contains(nodes[k].name, "__discard")
    ensures Contains(Join(Listed(nodes), '\n'), nodes[k].name)
  {
    ListedCases(nodes);
    var listed := Listed(nodes);
    var i :| 0 <= i < |listed| && listed[i] == nodes[k].name;
    JoinContains(listed, '\n', i);
  }

  /** A menu page lists the name of every offered choice that does not contain `__discard`. */
  lemma FormatListsChoices(ev: MenuEvent, hasImage: string -> bool, nodes: seq<Node>, k: nat)
    requires ev.menu == Choices(nodes) && k < |nodes| && !Contains(nodes[k].name, "__discard")
    ensures Contains(Format(ev, hasImage).msg, nodes[k].name)
  {
    var name := nodes[k].name;
    var joined := Join(Listed(nodes), '\n');
    ListedHolds(nodes, k);
    var head := ContentLabel(ev.title, hasImage) + (if ev.title == "" then "" else DropBackslashes(ev.title) + "\n\n");
    ContainsAfter(head, joined, name);
    var page := Page(ev, hasImage);
    assert page == head + joined;
    ContainsExtend(page, Footer, name);
    ContainsExtend(page + Footer, Position(ev.crumbs, false), name);
  }

  // ---------------------------------------------------------------------------
  // Rendering with re-rendering

  /** How a render ends: a screen, a thrown error, or more than `fuel` re-renders in a row. */
  datatype Outcome = Shown(screen: Screen) | Crashed | Diverged

  /** The user's state after a render, and its outcome. */
  datatype Rendered = Rendered(st: UserState, outcome: Outcome)

  /** One pass of `markScreen` and `format`: finished, or the state to render again from. */
  datatype Pass = Finished(r: Rendered) | Again(st: UserState)

  /** One pass over the page the current branch path leads to. */
  function RenderOnce(roots: seq<Node>, st: UserState, env: Env): Pass
  {
    match Resolve(roots, PathKey(st.branch))
    case Crash => Finished(Rendered(st, Crashed))
    case Reached(ev) =>
      match Mark(ev, st, env)
      case MarkFault(st1) => Finished(Rendered(st1, Crashed))
      case Marked(st1, ev1, change) =>
        if change then Again(st1) else Finished(Rendered(st1, Shown(Format(ev1, env.hasImage))))
  }

  /** Passes repeated from `st` while they ask for another, at most `fuel` more times. */
  function Drive(pass: UserState -> Pass, st: UserState, fuel: nat): Rendered
    decreases fuel
  {
    match pass(st)
    case Finished(r) => r
    case Again(st1) => if fuel == 0 then Rendered(st1, Diverged) else Drive(pass, st1, fuel - 1)
  }

  /**
   * `markScreen(userBranch.join("-"))` followed by `format`: when a handler set `change`,
   * the page is rendered again from the path as it now is. The source recurses without
   * bound; here at most `fuel` times.
   */
  function Render(roots: seq<Node>, st: UserState, env: Env, fuel: nat): Rendered
  {
    Drive(s => RenderOnce(roots, s, env), st, fuel)
  }

  /** One pass keeps every count at least zero and lets the ledger and achievements only grow. */
  lemma RenderOnceKeeps(roots: seq<Node>, st: UserState, env: Env)
    requires NonNegative(st)
    ensures PassKeeps(st, RenderOnce(roots, st, env))
  {
    match Resolve(roots, PathKey(st.branch))
    case Crash =>
    case Reached(ev) =>
      var start := if ev.end && ev.menu.EndText? then Pieces(ev.menu.text) else [];
      ExpandKeeps(start, st, env, "", false);
      var body := if ev.end && ev.menu.EndText? then Expand(ev.menu.text, st, env, false) else Expanded(st, "", false);
      if body.Expanded? && ev.title != "" {
        ExpandKeeps(Pieces(ev.title), body.st, env, "", body.change);
        EvolvesTransitive(st, body.st, Expand(ev.title, body.st, env, body.change).st);
      }
  }

  /** A render is its first pass when that pass finishes, and otherwise the render from the state it left. */
  lemma RenderStep(roots: seq<Node>, st: UserState, env: Env, fuel: nat)
    ensures RenderOnce(roots, st, env).Finished? ==> Render(roots, st, env, fuel) == RenderOnce(roots, st, env).r
    ensures RenderOnce(roots, st, env).Again? && fuel == 0 ==>
      Render(roots, st, env, fuel) == Rendered(RenderOnce(roots, st, env).st, Diverged)
    ensures RenderOnce(roots, st, env).Again? && fuel > 0 ==>
      Render(roots, st, env, fuel) == Render(roots, RenderOnce(roots, st, env).st, env, fuel - 1)
  {
  }

  /** What one pass from `st` leaves keeps every count at least zero and lets the ledger and achievements only grow. */
  ghost predicate PassKeeps(st: UserState, pass: Pass)
  {
    var st1 := match pass case Finished(r) => r.st case Again(st1) => st1;
    NonNegative(st1) && Evolves(st, st1)
  }

  /** Repeating passes that each keep the counts and the records keeps them too. */
  lemma {:induction false} DriveKeeps(pass: UserState -> Pass, st: UserState, fuel: nat)
    requires NonNegative(st)
    requires forall s :: NonNegative(s) ==> PassKeeps(s, pass(s))
    ensures NonNegative(Drive(pass, st, fuel).st) && Evolves(st, Drive(pass, st, fuel).st)
    decreases fuel
  {
    assert PassKeeps(st, pass(st));
    match pass(st)
    case Finished(_) =>
    case Again(st1) =>
      if fuel > 0 {
        DriveKeeps(pass, st1, fuel - 1);
        EvolvesTransitive(st, st1, Drive(pass, st1, fuel - 1).st);
      }
  }

  /** Re-rendering keeps every count at least zero and lets the ledger and achievements only grow. */
  lemma RenderKeeps(roots: seq<Node>, st: UserState, env: Env, fuel: nat)
    requires NonNegative(st)
    ensures NonNegative(Render(roots, st, env, fuel).st)
    ensures Evolves(st, Render(roots, st, env, fuel).st)
  {
    var pass := s => RenderOnce(roots, s, env);
    forall s | NonNegative(s)
      ensures PassKeeps(s, pass(s))
    {
      RenderOnceKeeps(roots, s, env);
    }
    DriveKeeps(pass, st, fuel);
  }

  /** Once passes finish within the fuel they have, more fuel changes nothing. */
  lemma {:induction false} DriveFuelMonotone(pass: UserState -> Pass, st: UserState, fuel: nat, more: nat)
    requires fuel <= more
    requires Drive(pass, st, fuel).outcome != Diverged
    ensures Drive(pass, st, more) == Drive(pass, st, fuel)
    decreases fuel
  {
    match pass(st)
    case Finished(_) =>
    case Again(st1) => DriveFuelMonotone(pass, st1, fuel - 1, more - 1);
  }

  /** More fuel changes nothing once a render finishes within the fuel it has. */
  lemma RenderFuelMonotone(roots: seq<Node>, st: UserState, env: Env, fuel: nat, more: nat)
    requires fuel <= more
    requires Render(roots, st, env, fuel).outcome != Diverged
    ensures Render(roots, st, env, more) == Render(roots, st, env, fuel)
  {
    DriveFuelMonotone(s => RenderOnce(roots, s, env), st, fuel, more);
  }

  /** The error screens a render ends with are empty and are not endings. */
  lemma {:induction false} RenderErrorScreen(roots: seq<Node>, st: UserState, env: Env, fuel: nat)
    requires Render(roots, st, env, fuel).outcome.Shown? && Render(roots, st, env, fuel).outcome.screen.err
    ensures Render(roots, st, env, fuel).outcome.screen.msg == "" && !Render(roots, st, env, fuel).outcome.screen.end
    decreases fuel
  {
    var pass := RenderOnce(roots, st, env);
    if pass.Finished? {
      var ev := Resolve(roots, PathKey(st.branch)).ev;
      FormatShape(Mark(ev, st, env).ev, env.hasImage);
    } else {
      RenderErrorScreen(roots, pass.st, env, fuel - 1);
    }
  }

  /** A page without directives is formatted as the navigator found it, and the state stays as it was. */
  lemma RenderPlain(roots: seq<Node>, st: UserState, env: Env, fuel: nat, ev: MenuEvent)
    requires Resolve(roots, PathKey(st.branch)) == Reached(ev)
    requires ev.menu.EndText? ==> '%' !in ev.menu.text
    requires '%' !in ev.title
    ensures Render(roots, st, env, fuel) == Rendered(st, Shown(Format(ev, env.hasImage)))
  {
    if ev.end && ev.menu.EndText? {
      ExpandPlain(ev.menu.text, st, env, false);
      assert ev.(menu := EndText(ev.menu.text)) == ev;
    }
    if ev.title != "" {
      ExpandPlain(ev.title, st, env, false);
    }
  }

  // ---------------------------------------------------------------------------
  // The renderer in place

  /** The replacement callback for one piece, with the handler updating `p` in place. */
  method StepIn(p: Player, piece: Piece, env: Env, text0: string, change0: bool) returns (text: string, change: bool, fault: bool)
    modifies p
    ensures Step(piece, old(p.State()), env, text0, change0) == if fault then Faulted(p.State()) else Expanded(p.State(), text, change)
  {
    match piece {
      case Lit(t) =>
        return text0 + t, change0, false;
      case Tag(c) =>
        var temp := Split(c, '|');
        var d := Lookup(temp[0]);
        if d.None? {
          return text0, change0, false;
        }
        var t, ch;
        t, ch, fault := p.Call(d.value, Nth(temp, 1), env);
        text, change := text0 + t, change0 || ch;
    }
  }

  /** The substitution loop over one text, with the handlers updating `p` in place. */
  method ExpandText(p: Player, s: string, env: Env, change0: bool) returns (text: string, change: bool, fault: bool)
    modifies p
    ensures var e := Expand(s, old(p.State()), env, change0);
      && (fault <==> e.Faulted?) && p.State() == e.st
      && (!fault ==> text == e.text && change == e.change)
  {
    var pieces := Pieces(s);
    ghost var goal := Expand(s, old(p.State()), env, change0);
    text, change, fault := "", change0, false;
    var i := 0;
    while i < |pieces|
      invariant 0 <= i <= |pieces|
      invariant ExpandFrom(pieces[i..], p.State(), env, text, change) == goal
      decreases |pieces| - i
    {
      assert pieces[i..][0] == pieces[i] && pieces[i..][1..] == pieces[i + 1..];
      text, change, fault := StepIn(p, pieces[i], env, text, change);
      if fault {
        return;
      }
      i := i + 1;
    }
    assert pieces[i..] == [];
  }

  /** One pass of `markScreen` and `format` in place: the outcome it finished with, or `None` when it asks for another pass. */
  method MarkPass(roots: seq<Node>, p: Player, env: Env) returns (outcome: Option<Outcome>)
    modifies p
    ensures RenderOnce(roots, old(p.State()), env) == if outcome.None? then Again(p.State()) else Finished(Rendered(p.State(), outcome.value))
  {
    var found := GetMenu(roots, Join(p.branch, '-'));
    if found.Crash? {
      return Some(Crashed);
    }
    var ev := found.ev;
    var change, fault := false, false;
    if ev.end && ev.menu.EndText? {
      var text;
      text, change, fault := ExpandText(p, ev.menu.text, env, change);
      if fault {
        return Some(Crashed);
      }
      ev := ev.(menu := EndText(text));
    }
    if ev.title != "" {
      var title;
      title, change, fault := ExpandText(p, ev.title, env, change);
      if fault {
        return Some(Crashed);
      }
      ev := ev.(title := title);
    }
    if change {
      return None;
    }
    return Some(Shown(Format(ev, env.hasImage)));
  }

  /** `markScreen` and `format` together, re-rendering at most `fuel` times. */
  method MarkScreen(roots: seq<Node>, p: Player, env: Env, fuel: nat) returns (outcome: Outcome)
    modifies p
    ensures Rendered(p.State(), outcome) == Render(roots, old(p.State()), env, fuel)
    decreases fuel
  {
    var pass := MarkPass(roots, p, env);
    if pass.Some? {
      return pass.value;
    }
    if fuel == 0 {
      return Diverged;
    }
    outcome := MarkScreen(roots, p, env, fuel - 1);
  }
}
