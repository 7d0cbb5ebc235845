/**
 * The two story commands: `开始剧情`, the loop that shows the page the player's path leads
 * to, reads an answer and extends the path; and `重置进度`, which clears a player's progress.
 * The prompts are a sequence of replies, `None` standing for a prompt that timed out.
 */
module Session {
  import opened Wrappers
  import opened Text
  import opened Story
  import opened Directives
  import opened Renderer

  /** The notices the loop sends besides the pages. */
  const WrongIndex := "操作不对，请重新输入：\n注意需要输入指定范围的下标"
  const IdleNotice := "长时间未操作，退出剧本，记录保留"
  const AskIndex := "请输入指定序号下标"
  const QuitNotice := "已退出剧本，记录保留"
  const AtEnd := "已经到底了!"

  /** The notices of the reset command. */
  const NothingToReset := "你的当前进度不需要重置"
  const AskReset := "是否要重置当前进度？\n 20秒回复：是/否"
  const ResetDone := "已重置当前进度"

  /** How the loop reads one reply. */
  datatype Reply = TimedOut | Invalid | Exit | Choose(choice: string)

  /** A reply the filter lets through although it is not a number. */
  predicate IsLetterCommand(r: string)
  {
    r == "q" || r == "Q" || r == "p" || r == "P"
  }

  /**
   * The checks on a reply: `undefined` is a timeout; a blank reply, or one that is not a
   * number and not `q` or `p` in either case, is refused; exactly "0" quits; anything else
   * is pushed as the next path element.
   */
  function Classify(res: Option<string>): Reply
  {
    match res
    case None => TimedOut
    case Some(r) =>
      if IsBlank(r) || (JsNumber(r).NaN? && !IsLetterCommand(r)) then Invalid
      else if r == "0" then Exit
      else Choose(r)
  }

  /** The page a turn shows: the state after rendering, the page's own screen and what was sent; or a render threw. */
  datatype View = Showing(st: UserState, data: Screen, sent: seq<string>) | Broken(st: UserState)

  /**
   * The top of one turn. When the page is an error, one path element is dropped and the
   * page rendered again; the new page is sent after the notice, then the error page's own
   * (empty) message, and the error page stays the one the rest of the turn looks at.
   */
  function Show(roots: seq<Node>, st: UserState, env: Env, fuel: nat): View
  {
    var first := Render(roots, st, env, fuel);
    match first.outcome
    case Crashed => Broken(first.st)
    case Diverged => Broken(first.st)
    case Shown(data) =>
      if !data.err then Showing(first.st, data, [data.msg])
      else
        var again := Render(roots, first.st.(branch := Pop(first.st.branch)), env, fuel);
        match again.outcome
        case Crashed => Broken(again.st)
        case Diverged => Broken(again.st)
        case Shown(data2) => Showing(again.st, data, [WrongIndex, data2.msg, data.msg])
  }

  /** Why a session ended: "0", a timeout, an error thrown while rendering, or no more replies in the sequence. */
  datatype Ending = Quit | Idle | Aborted | Pending

  /** The result of one turn: the loop goes on, or it stops. */
  datatype Turn = Continue(st: UserState, sent: seq<string>) | Stop(st: UserState, why: Ending, sent: seq<string>)

  /** The rest of a turn once the page is shown: the reply `res` is checked and acted on. */
  function Answer(shown: View, res: Option<string>): Turn
  {
    match shown
    case Broken(st1) => Stop(st1, Aborted, [])
    case Showing(st1, data, sent) =>
      match Classify(res)
      case TimedOut => Stop(st1, Idle, sent + [IdleNotice])
      case Invalid => Continue(st1, sent + [AskIndex])
      case Exit => Stop(st1, Quit, sent + [QuitNotice])
      case Choose(r) =>
        var pushed := st1.branch + [r];
        if data.end then Continue(st1.(branch := Pop(pushed)), sent + [AtEnd])
        else Continue(st1.(branch := pushed), sent)
  }

  /** One pass of the `while (true)` loop with the reply `res`. */
  function TakeTurn(roots: seq<Node>, st: UserState, env: Env, fuel: nat, res: Option<string>): Turn
  {
    Answer(Show(roots, st, env, fuel), res)
  }

  /** A whole session: the final state, why it ended, everything sent, and the record saved on leaving. */
  datatype Played = Played(st: UserState, why: Ending, sent: seq<string>, saved: Option<UserState>)

  /** The loop over the replies; quitting and timing out save the player's record. */
  function Play(roots: seq<Node>, st: UserState, env: Env, fuel: nat, replies: seq<Option<string>>): Played
    decreases |replies|
  {
    if replies == [] then Played(st, Pending, [], None)
    else
      match TakeTurn(roots, st, env, fuel, replies[0])
      case Stop(st1, why, sent) => Played(st1, why, sent, if why == Quit || why == Idle then Some(st1) else None)
      case Continue(st1, sent) =>
        var rest := Play(roots, st1, env, fuel, replies[1..]);
        rest.(sent := sent + rest.sent)
  }

  /** `重置进度`: only the reply "是" clears the path, the ledger and the inventory; achievements stay. */
  function Reset(st: UserState, reply: Option<string>): (UserState, seq<string>)
  {
    var warned := if st.branch == [] then [NothingToReset] else [];
    if reply == Some("是") then (st.(branch := [], ledger := [], inventory := map[]), warned + [AskReset, ResetDone])
    else (st, warned + [AskReset])
  }

  // ---------------------------------------------------------------------------
  // Properties

  /**
   * The reply filter: exactly "0" quits; blank replies and replies that are neither
   * numbers nor `q`/`p` are refused; every choice that is pushed is a number or one of
   * the letters.
   */
  lemma ClassifyCases(r: string)
    ensures Classify(Some("0")) == Exit
    ensures Classify(Some(r)) == Exit <==> r == "0"
    ensures Classify(Some(r)) == Invalid <==> IsBlank(r) || (JsNumber(r).NaN? && !IsLetterCommand(r))
    ensures Classify(Some(r)).Choose? ==> Classify(Some(r)).choice == r && !IsBlank(r) && (JsNumber(r).Num? || IsLetterCommand(r))
    ensures Classify(None) == TimedOut
  {
    assert Trim("0") == "0" by {
      assert !IsJsSpace('0');
      assert TrimStart("0") == "0";
      assert TrimEnd("0") == "0";
    }
    assert !IsBlank("0");
    assert JsNumber("0") == Num(0) by {
      assert AllDigits("0"[..0]);
    }
  }

  /** The letters the filter lets through are neither blank nor numbers. */
  lemma LetterIsNaN(r: string)
    requires IsLetterCommand(r)
    ensures !IsBlank(r) && JsNumber(r) == NaN && r != "0"
  {
    assert Trim(r) == r by {
      assert !IsJsSpace(r[0]);
      assert TrimStart(r) == r;
      assert TrimEnd(r) == r;
    }
    assert !IsDigit(Trim(r)[0]);
  }

  /**
   * The letters `q` and `p` pass the reply filter and are pushed, but they are not numbers:
   * on a path the navigator can follow to a menu, the next render throws on the letter.
   */
  lemma LetterChoiceCrashes(roots: seq<Node>, branch: seq<string>, path: seq<nat>, nodes: seq<Node>, r: string)
    requires IsLetterCommand(r)
    requires forall k :: 0 <= k < |branch| ==> '-' !in branch[k]
    requires Numbers(branch) == Nums(path)
    requires Visit(roots, path) == Some(nodes) && (path == [] || nodes[|nodes| - 1].Branch?)
    ensures Classify(Some(r)) == Choose(r)
    ensures Resolve(roots, PathKey(branch + [r])) == Crash
  {
    LetterIsNaN(r);
    ResolveNaNCrashes(roots, branch, path, nodes, r);
  }

  /**
   * What a reply does to the path the page was shown for: a refused reply, "0" and a
   * timeout leave it as it is; a choice on an ending is pushed and popped again, so the
   * path stays as well; any other choice is appended to it. Nothing but the path changes.
   */
  lemma AnswerPath(st: UserState, data: Screen, sent: seq<string>, res: Option<string>)
    ensures var turn := Answer(Showing(st, data, sent), res);
      && (Classify(res) == Invalid ==> turn == Continue(st, sent + [AskIndex]))
      && (Classify(res) == Exit ==> turn == Stop(st, Quit, sent + [QuitNotice]))
      && (Classify(res) == TimedOut ==> turn == Stop(st, Idle, sent + [IdleNotice]))
      && (Classify(res).Choose? && data.end ==> turn == Continue(st, sent + [AtEnd]))
      && (Classify(res).Choose? && !data.end ==> turn == Continue(st.(branch := st.branch + [Classify(res).choice]), sent))
      && turn.st.(branch := st.branch) == st
  {
    if Classify(res).Choose? && data.end {
      assert Pop(st.branch + [Classify(res).choice]) == st.branch;
    }
  }

  /**
   * A page that is an error is answered for the page one element up: the path is popped and
   * rendered again, and since the error page is not an ending, a choice is then appended
   * to the shorter path.
   */
  lemma ShowRecovers(roots: seq<Node>, st: UserState, env: Env, fuel: nat)
    requires Render(roots, st, env, fuel).outcome.Shown?
    requires Render(roots, st, env, fuel).outcome.screen.err
    ensures var first := Render(roots, st, env, fuel);
      var again := Render(roots, first.st.(branch := Pop(first.st.branch)), env, fuel);
      && (again.outcome.Shown? ==>
            Show(roots, st, env, fuel) == Showing(again.st, first.outcome.screen, [WrongIndex, again.outcome.screen.msg, ""]))
      && (!again.outcome.Shown? ==> Show(roots, st, env, fuel) == Broken(again.st))
      && !first.outcome.screen.end
  {
    RenderErrorScreen(roots, st, env, fuel);
  }

  /** Showing a page keeps every count at least zero and lets the ledger and the achievements only grow. */
  lemma ShowKeeps(roots: seq<Node>, st: UserState, env: Env, fuel: nat)
    requires NonNegative(st)
    ensures NonNegative(Show(roots, st, env, fuel).st)
    ensures Evolves(st, Show(roots, st, env, fuel).st)
  {
    var first := Render(roots, st, env, fuel);
    RenderKeeps(roots, st, env, fuel);
    if first.outcome.Shown? && first.outcome.screen.err {
      var popped := first.st.(branch := Pop(first.st.branch));
      var again := Render(roots, popped, env, fuel);
      RenderKeeps(roots, popped, env, fuel);
      EvolvesTransitive(st, popped, again.st);
      assert Show(roots, st, env, fuel).st == again.st;
    } else {
      assert Show(roots, st, env, fuel).st == first.st;
    }
  }

  /** One turn keeps every count at least zero and lets the ledger and the achievements only grow. */
  lemma TurnKeeps(roots: seq<Node>, st: UserState, env: Env, fuel: nat, res: Option<string>)
    requires NonNegative(st)
    ensures NonNegative(TakeTurn(roots, st, env, fuel, res).st)
    ensures Evolves(st, TakeTurn(roots, st, env, fuel, res).st)
  {
    ShowKeeps(roots, st, env, fuel);
    var shown := Show(roots, st, env, fuel);
    if shown.Showing? {
      AnswerPath(shown.st, shown.data, shown.sent, res);
    }
  }

  /**
   * A whole session keeps every count at least zero and lets the ledger and the
   * achievements only grow; the record saved on leaving is the final state.
   */
  lemma {:induction false} PlayKeeps(roots: seq<Node>, st: UserState, env: Env, fuel: nat, replies: seq<Option<string>>)
    requires NonNegative(st)
    ensures var played := Play(roots, st, env, fuel, replies);
      && NonNegative(played.st) && Evolves(st, played.st)
      && (played.saved.Some? ==> played.saved.value == played.st && (played.why == Quit || played.why == Idle))
    decreases |replies|
  {
    if replies != [] {
      TurnKeeps(roots, st, env, fuel, replies[0]);
      var turn := TakeTurn(roots, st, env, fuel, replies[0]);
      if turn.Continue? {
        PlayKeeps(roots, turn.st, env, fuel, replies[1..]);
        EvolvesTransitive(st, turn.st, Play(roots, turn.st, env, fuel, replies[1..]).st);
      }
    }
  }

  /**
   * The reset clears the path, the ledger and the inventory exactly on the reply "是" and
   * keeps the achievements; any other reply, or none, changes nothing. Afterwards the
   * story starts again from the top-level list.
   */
  lemma ResetCases(st: UserState, reply: Option<string>, roots: seq<Node>)
    ensures var (after, sent) := Reset(st, reply);
      && (reply == Some("是") ==> after == Fresh.(achievements := st.achievements))
      && (reply != Some("是") ==> after == st)
      && after.achievements == st.achievements
      && (st.branch == [] <==> |sent| > 0 && sent[0] == NothingToReset)
      && (reply == Some("是") ==> Resolve(roots, PathKey(after.branch)) == Reached(MenuEvent(Choices(roots), "", [], "", false)))
  {
    assert NothingToReset != AskReset;
  }

  // ---------------------------------------------------------------------------
  // The commands in place

  /** The top of one turn in place: render, and on an error pop one element and render again. */
  method ShowPage(roots: seq<Node>, p: Player, env: Env, fuel: nat) returns (shown: View)
    modifies p
    ensures shown == Show(roots, old(p.State()), env, fuel) && p.State() == shown.st
  {
    var outcome := MarkScreen(roots, p, env, fuel);
    if !outcome.Shown? {
      return Broken(p.State());
    }
    var data := outcome.screen;
    if !data.err {
      return Showing(p.State(), data, [data.msg]);
    }
    p.branch := Pop(p.branch);
    var again := MarkScreen(roots, p, env, fuel);
    if !again.Shown? {
      return Broken(p.State());
    }
    shown := Showing(p.State(), data, [WrongIndex, again.screen.msg, data.msg]);
  }

  /** The rest of one turn in place: check the reply and push the choice, popping it again on an ending. */
  method AnswerReply(p: Player, shown: View, res: Option<string>) returns (turn: Turn)
    requires p.State() == shown.st
    modifies p
    ensures turn == Answer(shown, res) && p.State() == turn.st
  {
    if shown.Broken? {
      return Stop(p.State(), Aborted, []);
    }
    var sent := shown.sent;
    if res.None? {
      return Stop(p.State(), Idle, sent + [IdleNotice]);
    }
    var r := res.value;
    if IsBlank(r) || (JsNumber(r).NaN? && !IsLetterCommand(r)) {
      return Continue(p.State(), sent + [AskIndex]);
    }
    if r == "0" {
      return Stop(p.State(), Quit, sent + [QuitNotice]);
    }
    p.branch := p.branch + [r];
    if shown.data.end {
      sent := sent + [AtEnd];
      p.branch := Pop(p.branch);
    }
    turn := Continue(p.State(), sent);
  }

  /** `开始剧情`: the `while (true)` loop, fed by `replies`. */
  method StartStory(roots: seq<Node>, p: Player, env: Env, fuel: nat, replies: seq<Option<string>>)
    returns (why: Ending, sent: seq<string>, saved: Option<UserState>)
    modifies p
    ensures Played(p.State(), why, sent, saved) == Play(roots, old(p.State()), env, fuel, replies)
  {
    sent := [];
    var i := 0;
    while i < |replies|
      invariant 0 <= i <= |replies|
      invariant var rest := Play(roots, p.State(), env, fuel, replies[i..]);
        Play(roots, old(p.State()), env, fuel, replies) == rest.(sent := sent + rest.sent)
      decreases |replies| - i
    {
      assert replies[i..][0] == replies[i] && replies[i..][1..] == replies[i + 1..];
      var shown := ShowPage(roots, p, env, fuel);
      var turn := AnswerReply(p, shown, replies[i]);
      if turn.Stop? {
        why := turn.why;
        saved := if why == Quit || why == Idle then Some(p.State()) else None;
        sent := sent + turn.sent;
        return;
      }
      sent := sent + turn.sent;
      i := i + 1;
    }
    why, saved := Pending, None;
  }

  /** `重置进度` with the reply `reply`. */
  method ResetProgress(p: Player, reply: Option<string>) returns (sent: seq<string>)
    modifies p
    ensures (p.State(), sent) == Reset(old(p.State()), reply)
  {
    sent := if p.branch == [] then [NothingToReset] else [];
    sent := sent + [AskReset];
    if reply == Some("是") {
      p.branch, p.ledger, p.inventory := [], [], map[];
      sent := sent + [ResetDone];
      assert sent == Reset(old(p.State()), reply).1;
      assert p.State() == Reset(old(p.State()), reply).0;
    }
  }
}
