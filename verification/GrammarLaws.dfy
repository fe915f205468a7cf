/**
 What every line does to the context stack and to the stream of signals: the signals, replayed on the stack the line
 started from, lead to the parser's own stack; a dry run sends nothing; blocks entered by a line are left again.
 */
module GrammarLaws {
  import opened Core
  import opened Schema
  import opened PathText
  import opened Grammar

  /** The effect of one event on a context stack, undefined where a listener could not follow it. */
  function Follow(stack: Stack, event: Event): Option<Stack> {
    if event.ErrorReported? then None
    else if !event.Sent? then Some(stack)
    else match event.signal
      case CreateObject(context, kind, name) => Entered(context, stack + [Obj(kind, name)])
      case CategoryEntered(context, kind, name) => Entered(context, stack + [Obj(kind, name)])
      case ObjectsFilter(context, kind, filter) => Entered(context, stack + [Flt(kind, filter)])
      case CategoryLeft => if stack == [] then None else Some(DropLast(stack))
      case FunctionShow(context) => if context == stack then Some(stack) else None
      case FunctionDelete(context) => if context == stack then Some(stack) else None
      case FunctionRename(context, _) => if context == stack then Some(stack) else None
      case signal => if signal.context == stack != [] then Some(stack) else None
  }

  function Entered(context: Stack, stack: Stack): Option<Stack> {
    if context == stack then Some(stack) else None
  }

  /** All events in turn; the last one is looked at last. */
  function Replay(stack: Stack, out: seq<Event>): Option<Stack> {
    if out == [] then Some(stack)
    else
      var before := Replay(stack, DropLast(out));
      if before.None? then None else Follow(before.value, Last(out))
  }

  lemma ReplaySent(stack: Stack, out: seq<Event>, event: Event)
    ensures Replay(stack, out + [event]) ==
      var before := Replay(stack, out); if before.None? then None else Follow(before.value, event)
  {
    assert DropLast(out + [event]) == out;
  }

  /** Real runs keep the signals in step with the stack; dry runs send nothing. */
  ghost predicate Follows(line: Line, base: Stack, st: State, st': State) {
    && (line.dryRun ==> st'.out == st.out)
    && (!line.dryRun && Replay(base, st.out) == Some(st.stack) ==> Replay(base, st'.out) == Some(st'.stack))
  }

  /** More was sent, but no block was left. */
  predicate Stays(before: seq<Event>, after: seq<Event>) {
    before <= after && forall i | |before| <= i < |after| :: after[i] != Sent(CategoryLeft)
  }

  /** Like Follows, for actions that only enter blocks. */
  ghost predicate Grows(line: Line, base: Stack, st: State, st': State) {
    Follows(line, base, st, st') && st.stack <= st'.stack && Stays(st.out, st'.out)
  }

  /** What leaving a block does. */
  predicate Leaves(line: Line, st: State, st': State) {
    st.stack != [] && st'.stack == DropLast(st.stack) && st'.out == LeaveKind(line, st).out
  }

  lemma GrowsThenGrows(line: Line, base: Stack, a: State, b: State, c: State)
    requires Grows(line, base, a, b) && Grows(line, base, b, c)
    ensures Grows(line, base, a, c)
  {
    assert a.stack <= c.stack;
    forall i | |a.out| <= i < |c.out| ensures c.out[i] != Sent(CategoryLeft) {
      assert i < |b.out| ==> c.out[i] == b.out[i];
    }
  }

  /** A signal that announces the item just pushed. */
  lemma PushGrows(line: Line, base: Stack, st: State, item: Item, signal: Signal)
    requires Follow(st.stack, Sent(signal)) == Some(st.stack + [item])
    ensures Grows(line, base, st, Send(line, Push(st, item), signal))
  {
    ReplaySent(base, st.out, Sent(signal));
  }

  lemma {:induction false} ChainGrows(line: Line, base: Stack, st: State, chain: seq<Item>)
    requires forall i | 0 <= i < |chain| :: chain[i].Obj?
    ensures Grows(line, base, st, EnterChain(line, st, chain))
    decreases |chain|
  {
    hide Grows, Send;
    if chain != [] {
      var item := Last(chain);
      var pushed := Push(st, item);
      var signal :=
        if |chain| == 1 && line.mode == Create then CreateObject(pushed.stack, item.kind, item.name)
        else CategoryEntered(pushed.stack, item.kind, item.name);
      assert item == Obj(item.kind, item.name);
      PushGrows(line, base, st, item, signal);
      var next := Send(line, pushed, signal);
      ChainGrows(line, base, next, DropLast(chain));
      GrowsThenGrows(line, base, st, next, EnterChain(line, next, DropLast(chain)));
    } else {
      FollowsItself(line, base, st);
    }
  }

  lemma EnterGrows(line: Line, base: Stack, st: State, kind: Ident, name: Ident)
    requires line.tables.Valid() && IsObjectToken(name)
    ensures Grows(line, base, st, EnterKind(line, st, kind, name))
  {
    hide EnterChain, IsObjectToken, PathToVector;
    ObjectTokens(name);
    var chain := Chain(line.tables, kind, PathToVector(name).value);
    if chain.Some? {
      ChainGrows(line, base, st, chain.value);
    }
  }

  lemma NewGrows(line: Line, base: Stack, st: State, kind: Ident)
    ensures Grows(line, base, st, NewObject(line, st, kind))
  {
    PushGrows(line, base, st, Obj(kind, ""), CreateObject(st.stack + [Obj(kind, "")], kind, ""));
  }

  lemma FilterGrows(line: Line, base: Stack, st: State, kind: Ident, filter: Option<Filter>)
    ensures Grows(line, base, st, FilterObjects(line, st, kind, filter))
  {
    PushGrows(line, base, st, Flt(kind, filter), ObjectsFilter(st.stack + [Flt(kind, filter)], kind, filter));
  }

  lemma LeaveFollows(line: Line, base: Stack, st: State)
    requires st.stack != []
    ensures Follows(line, base, st, LeaveKind(line, st))
  {
    ReplaySent(base, st.out, Sent(CategoryLeft));
  }

  lemma LeaveLeaves(line: Line, st: State)
    requires st.stack != []
    ensures Leaves(line, st, LeaveKind(line, st))
  {
  }

  lemma KindsOnlyGrows(line: Line, base: Stack, st: State, ts: seq<Token>, kinds: set<Ident>)
    requires line.tables.Valid()
    ensures Grows(line, base, st, KindsOnly(line, st, ts, kinds).st)
  {
    hide EnterKind, IsObjectToken;
    if WordIn(ts, 0, kinds) && NameAt(ts, 1) {
      EnterGrows(line, base, st, ts[0].text, ts[1].text);
    }
  }

  lemma KindsFiltersGrows(line: Line, base: Stack, st: State, ts: seq<Token>, kinds: set<Ident>)
    ensures Grows(line, base, st, KindsFilters(line, st, ts, kinds).st)
  {
    hide FilterObjects;
    if WordIn(ts, 0, {"all"}) && WordIn(ts, 1, kinds) {
      FilterGrows(line, base, st, ts[1].text, None);
    } else if WordIn(ts, 0, kinds) && WordIn(ts, 1, {WHERE}) && |ts| > 2 && ts[2].Parens? {
      FilterGrows(line, base, st, ts[0].text, Some(ts[2].filter));
    }
  }

  lemma KindsGrows(line: Line, base: Stack, st: State, ts: seq<Token>, kind: Ident)
    requires line.tables.Valid()
    ensures Grows(line, base, st, Kinds(line, st, ts, kind).st)
  {
    hide KindsOnly, KindsFilters, NewObject;
    KindsOnlyGrows(line, base, st, ts, line.tables.NestedKinds(kind));
    KindsFiltersGrows(line, base, st, ts, line.tables.NestedFilters(kind));
    if WordIn(ts, 1, line.tables.NestedNew(kind)) {
      NewGrows(line, base, st, ts[1].text);
    }
  }

  lemma TopLevelGrows(line: Line, base: Stack, st: State, ts: seq<Token>)
    requires line.tables.Valid()
    ensures Grows(line, base, st, TopLevel(line, st, ts).st)
  {
    hide KindsOnly, KindsFilters;
    KindsOnlyGrows(line, base, st, ts, line.tables.kinds);
    KindsFiltersGrows(line, base, st, ts, line.tables.kinds);
  }

  /** A signal that leaves the stack as it is. */
  lemma SendKeeps(line: Line, base: Stack, st: State, signal: Signal)
    requires Follow(st.stack, Sent(signal)) == Some(st.stack)
    ensures Grows(line, base, st, Send(line, st, signal))
  {
    ReplaySent(base, st.out, Sent(signal));
  }

  lemma AttributeGrows(line: Line, base: Stack, st: State, ts: seq<Token>, kind: Ident)
    requires st.stack != []
    ensures Grows(line, base, st, Attribute(line, st, ts, kind).st)
    ensures Attribute(line, st, ts, kind).st.stack == st.stack
  {
    hide Send, Follows, IsObjectToken;
    forall signal: Signal | Follow(st.stack, Sent(signal)) == Some(st.stack)
      ensures Grows(line, base, st, Send(line, st, signal)) && Send(line, st, signal).stack == st.stack
    {
      SendKeeps(line, base, st, signal);
      SendKeepsStack(line, st, signal);
    }
    FollowsItself(line, base, st);
  }

  lemma SendKeepsStack(line: Line, st: State, signal: Signal)
    ensures Send(line, st, signal).stack == st.stack && Send(line, st, signal).singleKind == st.singleKind
  {
  }

  lemma {:induction false} AttributeStarGrows(line: Line, base: Stack, st: State, ts: seq<Token>, kind: Ident)
    requires st.stack != []
    ensures Grows(line, base, st, AttributeStar(line, st, ts, kind).st)
    ensures AttributeStar(line, st, ts, kind).st.stack == st.stack
    decreases |ts|
  {
    hide Attribute;
    var one := Attribute(line, st, ts, kind);
    AttributeGrows(line, base, st, ts, kind);
    AttributeConsumes(line, st, ts, kind);
    if one.matched {
      AttributeStarGrows(line, base, one.st, one.rest, kind);
    }
  }

  lemma FollowsItself(line: Line, base: Stack, st: State)
    ensures Grows(line, base, st, st)
  {
  }

  predicate EndHere(ts: seq<Token>) {
    WordIn(ts, 0, {"end"})
  }

  lemma WholeKindFollows(line: Line, base: Stack, st: State, ts: seq<Token>)
    requires line.tables.Valid() && st.stack != []
    ensures Follows(line, base, st, WholeKind(line, st, ts).st)
    ensures !EndHere(ts) ==> Grows(line, base, st, WholeKind(line, st, ts).st)
    ensures Grows(line, base, st, WholeKind(line, st, ts).st) || Leaves(line, st, WholeKind(line, st, ts).st)
  {
    hide Kinds, Attribute, AttributeStar, LeaveKind;
    var kind := Last(st.stack).kind;
    var first := Attribute(line, st, ts, kind);
    AttributeGrows(line, base, st, ts, kind);
    if first.matched {
      AttributeStarGrows(line, base, first.st, first.rest, kind);
      var all := AttributeStar(line, first.st, first.rest, kind);
      KindsGrows(line, base, all.st, all.rest, kind);
    } else {
      KindsGrows(line, base, st, ts, kind);
      LeaveFollows(line, base, st);
      LeaveLeaves(line, st);
      FollowsItself(line, base, st);
    }
  }

  lemma RoundFollows(line: Line, base: Stack, st: State, ts: seq<Token>)
    requires line.tables.Valid()
    ensures Follows(line, base, st, Round(line, st, ts).st)
    ensures line.mode != Standard || !EndHere(ts) ==> Grows(line, base, st, Round(line, st, ts).st)
    ensures Grows(line, base, st, Round(line, st, ts).st) || Leaves(line, st, Round(line, st, ts).st)
  {
    hide WholeKind, Kinds, KindsOnly, TopLevel, EndHere;
    var cleared := st.(singleKind := false);
    TopLevelGrows(line, base, cleared, ts);
    if cleared.stack != [] {
      var kind := Last(cleared.stack).kind;
      WholeKindFollows(line, base, cleared, ts);
      KindsOnlyGrows(line, base, cleared, ts, line.tables.NestedKinds(kind));
      KindsGrows(line, base, cleared, ts, kind);
    }
  }

  /** No "end" among the words of the line. */
  predicate WithoutEnd(ts: seq<Token>) {
    Word("end") !in ts
  }

  lemma WithoutEndInSuffix(rest: seq<Token>, ts: seq<Token>)
    requires IsSuffix(rest, ts) && WithoutEnd(ts)
    ensures WithoutEnd(rest) && !EndHere(rest)
  {
  }

  lemma {:induction false} RoundsFollow(line: Line, base: Stack, st: State, ts: seq<Token>)
    requires line.tables.Valid()
    ensures Follows(line, base, st, Rounds(line, st, ts).st)
    ensures line.mode != Standard || WithoutEnd(ts) ==> Grows(line, base, st, Rounds(line, st, ts).st)
    decreases |ts|
  {
    hide Round, WithoutEnd, EndHere;
    if ts != [] {
      var m := Round(line, st, ts);
      RoundFollows(line, base, st, ts);
      RoundConsumes(line, st, ts);
      if WithoutEnd(ts) {
        WithoutEndInSuffix(ts, ts);
        if m.matched {
          WithoutEndInSuffix(m.rest, ts);
        }
      }
      if m.matched {
        RoundsFollow(line, base, m.st, m.rest);
      }
    }
  }

  lemma FollowsInTurn(line: Line, base: Stack, a: State, b: State, c: State)
    requires Follows(line, base, a, b) && Follows(line, base, b, c)
    ensures Follows(line, base, a, c)
  {
  }

  lemma {:induction false} UnwindFollows(line: Line, base: Stack, st: State, depth: nat, good: bool)
    ensures var st' := Unwind(line, st, depth, good);
      && st'.stack == (if |st.stack| <= depth then st.stack else st.stack[..depth])
      && (good ==> Follows(line, base, st, st'))
    decreases |st.stack|
  {
    hide Follows, LeaveKind;
    FollowsItself(line, base, st);
    if |st.stack| > depth {
      LeaveFollows(line, base, st);
      LeaveLeaves(line, st);
      var left := if good then LeaveKind(line, st) else st.(stack := DropLast(st.stack));
      UnwindFollows(line, base, left, depth, good);
      if good {
        FollowsInTurn(line, base, st, left, Unwind(line, left, depth, good));
      }
    }
  }

  lemma FunctionFollows(line: Line, base: Stack, e: LoopEnd)
    ensures Grows(line, base, e.st, SendFunction(line, e))
    ensures SendFunction(line, e).stack == e.st.stack
    ensures SendFunction(line, e).singleKind == e.st.singleKind
  {
    hide Send, Follows;
    forall signal: Signal | Follow(e.st.stack, Sent(signal)) == Some(e.st.stack)
      ensures Grows(line, base, e.st, Send(line, e.st, signal)) && Send(line, e.st, signal).stack == e.st.stack
      ensures Send(line, e.st, signal).singleKind == e.st.singleKind
    {
      SendKeeps(line, base, e.st, signal);
      SendKeepsStack(line, e.st, signal);
    }
    FollowsItself(line, base, e.st);
  }

  /** The end of parseLineImpl: what it does to the stack, and that an accepted line stays in step. */
  lemma ConcludeFollows(line: Line, base: Stack, depth: nat, e: LoopEnd)
    ensures var (st', ok) := Conclude(line, depth, e);
      && (ok ==> Follows(line, base, e.st, st'))
      && (line.dryRun ==> st'.out == e.st.out)
      && st'.stack == (if (line.mode == Standard && e.st.singleKind) || line.dryRun || |e.st.stack| <= depth
                       then e.st.stack else e.st.stack[..depth])
  {
    hide SendFunction, NewNameGood, Unwind;
    var good := NewNameGood(line, depth, e);
    var ok := good && e.st.actionsOk;
    FunctionFollows(line, base, e);
    var sent := if ok then SendFunction(line, e) else e.st;
    var reported := if !ok && !line.dryRun then sent.(out := sent.out + [ErrorReported]) else sent;
    UnwindFollows(line, base, reported, depth, good);
  }

  // ---- Main results about a single line ----

  /** Where the main loop of a line ends. */
  function Loop(line: Line, stack: Stack, out: seq<Event>, ts: seq<Token>): LoopEnd
    requires line.tables.Valid()
  {
    var st := State(stack, true, false, out);
    if line.mode == Standard then Rounds(line, st, ts)
    else if |ts| > 1 then Rounds(line, st, ts[1..])
    else LoopEnd(st, [], false, false)
  }

  lemma ImplUnfolds(tables: Tables, dryRun: bool, objectExists: Object -> bool, stack: Stack, out: seq<Event>, ts: seq<Token>)
    requires tables.Valid()
    ensures var line := Setup(tables, dryRun, objectExists, ts);
      ParseImpl(tables, dryRun, objectExists, stack, out, ts) ==
        if ts == [] then (State(stack, true, false, out), true)
        else if line.mode == Show && |ts| == 1 then (Send(line, State(stack, true, false, out), FunctionShow(stack)), true)
        else Conclude(line, |stack|, Loop(line, stack, out, ts))
  {
    hide Rounds, Conclude, FunctionWord;
  }

  lemma ShowAlone(line: Line, base: Stack, st: State)
    ensures Grows(line, base, st, Send(line, st, FunctionShow(st.stack)))
  {
    ReplaySent(base, st.out, Sent(FunctionShow(st.stack)));
  }

  lemma LoopFollows(line: Line, base: Stack, stack: Stack, out: seq<Event>, ts: seq<Token>)
    requires line.tables.Valid() && ts != []
    ensures var st := State(stack, true, false, out);
      && Follows(line, base, st, Loop(line, stack, out, ts).st)
      && (line.mode != Standard || WithoutEnd(ts) ==> Grows(line, base, st, Loop(line, stack, out, ts).st))
  {
    hide Rounds, WithoutEnd;
    var st := State(stack, true, false, out);
    RoundsFollow(line, base, st, ts);
    RoundsFollow(line, base, st, ts[1..]);
  }

  /**
   Replaying the signals of an accepted line on the stack it started from never leaves an empty stack, sets no attribute
   outside all blocks, and ends with exactly the stack the parser is left with.
   */
  lemma AcceptedLineReplays(tables: Tables, objectExists: Object -> bool, stack: Stack, ts: seq<Token>)
    requires tables.Valid() && ParseImpl(tables, false, objectExists, stack, [Started], ts).1
    ensures var (stack', out) := ParseLine(tables, objectExists, stack, ts); Replay(stack, out) == Some(stack')
  {
    hide Conclude, Loop, FunctionWord;
    var line := Setup(tables, false, objectExists, ts);
    var st := State(stack, true, false, [Started]);
    assert [Started] == [] + [Started];
    ReplaySent(stack, [], Started);
    ImplUnfolds(tables, false, objectExists, stack, [Started], ts);
    var (st', _) := ParseImpl(tables, false, objectExists, stack, [Started], ts);
    if ts != [] {
      if line.mode == Show && |ts| == 1 {
        ShowAlone(line, stack, st);
      } else {
        LoopFollows(line, stack, stack, [Started], ts);
        ConcludeFollows(line, stack, |stack|, Loop(line, stack, [Started], ts));
      }
    }
    ReplaySent(stack, st'.out, Finished);
  }

  lemma {:induction false} NoErrorFollowed(stack: Stack, out: seq<Event>)
    requires Replay(stack, out).Some?
    ensures ErrorReported !in out
    decreases |out|
  {
    if out != [] {
      NoErrorFollowed(stack, DropLast(out));
      assert out == DropLast(out) + [Last(out)];
    }
  }

  lemma {:induction false} UnwindAdds(line: Line, st: State, depth: nat, good: bool)
    ensures var out := Unwind(line, st, depth, good).out;
      st.out <= out && forall i | |st.out| <= i < |out| :: out[i] == Sent(CategoryLeft)
    decreases |st.stack|
  {
    if |st.stack| > depth {
      UnwindAdds(line, if good then LeaveKind(line, st) else st.(stack := DropLast(st.stack)), depth, good);
    }
  }

  lemma NewNameOnly(line: Line, depth: nat, e: LoopEnd)
    ensures !e.good && (line.mode != Rename || e.missing || !e.st.actionsOk) ==> !NewNameGood(line, depth, e)
    ensures !NewNameGood(line, depth, e) ==> !Conclude(line, depth, e).1
  {
    hide Unwind, SendFunction;
  }

  lemma {:induction false} UnwindSilent(line: Line, st: State, depth: nat)
    ensures Unwind(line, st, depth, false).out == st.out
    decreases |st.stack|
  {
    if |st.stack| > depth {
      UnwindSilent(line, st.(stack := DropLast(st.stack)), depth);
    }
  }

  /** A line that is refused reports an error; what could not be read to its end is not announced as left. */
  lemma ConcludeReports(line: Line, depth: nat, e: LoopEnd)
    requires !line.dryRun && !Conclude(line, depth, e).1
    ensures var out := Conclude(line, depth, e).0.out; ErrorReported in out && Last(out) != Finished
    ensures !e.good && (line.mode != Rename || e.missing || !e.st.actionsOk) ==>
      Conclude(line, depth, e).0.out == e.st.out + [ErrorReported]
  {
    hide Unwind, SendFunction, NewNameGood;
    var reported := e.st.(out := e.st.out + [ErrorReported]);
    UnwindAdds(line, reported, depth, NewNameGood(line, depth, e));
    UnwindSilent(line, reported, depth);
    NewNameOnly(line, depth, e);
    assert reported.out[|e.st.out|] == ErrorReported;
    var out := Conclude(line, depth, e).0.out;
    assert out[|e.st.out|] == ErrorReported;
  }

  /** Of a finished line and an error exactly one is announced: the line is finished exactly if it is accepted. */
  lemma OneAnnouncement(tables: Tables, objectExists: Object -> bool, stack: Stack, ts: seq<Token>)
    requires tables.Valid()
    ensures var ok := ParseImpl(tables, false, objectExists, stack, [Started], ts).1;
      var out := ParseLine(tables, objectExists, stack, ts).1;
      out != [] && (ok <==> Last(out) == Finished) && (ok <==> ErrorReported !in out)
    ensures var line := Setup(tables, false, objectExists, ts);
      var e := Loop(line, stack, [Started], ts);
      ts != [] && line.mode in {Standard, Create, Delete} && !e.good ==>
        ParseLine(tables, objectExists, stack, ts).1 == e.st.out + [ErrorReported]
  {
    hide Conclude, Loop, FunctionWord, NewNameGood;
    ImplUnfolds(tables, false, objectExists, stack, [Started], ts);
    var (st, ok) := ParseImpl(tables, false, objectExists, stack, [Started], ts);
    var line := Setup(tables, false, objectExists, ts);
    NewNameOnly(line, |stack|, Loop(line, stack, [Started], ts));
    if ok {
      AcceptedLineReplays(tables, objectExists, stack, ts);
      NoErrorFollowed(stack, ParseLine(tables, objectExists, stack, ts).1);
    } else {
      ConcludeReports(line, |stack|, Loop(line, stack, [Started], ts));
    }
  }

  /** Tab completion runs a line dry: nothing is sent. */
  lemma DryRunIsSilent(tables: Tables, objectExists: Object -> bool, stack: Stack, out: seq<Event>, ts: seq<Token>)
    requires tables.Valid()
    ensures ParseImpl(tables, true, objectExists, stack, out, ts).0.out == out
  {
    hide Conclude, Loop, FunctionWord;
    ImplUnfolds(tables, true, objectExists, stack, out, ts);
    var line := Setup(tables, true, objectExists, ts);
    if ts != [] {
      LoopFollows(line, stack, stack, out, ts);
      ConcludeFollows(line, stack, |stack|, Loop(line, stack, out, ts));
    }
  }

  /** A create, delete, show or rename line leaves the context stack as it found it, accepted or not. */
  lemma FunctionLineRestores(tables: Tables, objectExists: Object -> bool, stack: Stack, ts: seq<Token>)
    requires tables.Valid() && FunctionWord(ts) != Standard
    ensures ParseLine(tables, objectExists, stack, ts).0 == stack
  {
    hide Conclude, Loop;
    ImplUnfolds(tables, false, objectExists, stack, [Started], ts);
    var line := Setup(tables, false, objectExists, ts);
    if !(line.mode == Show && |ts| == 1) {
      LoopFollows(line, stack, stack, [Started], ts);
      ConcludeFollows(line, stack, |stack|, Loop(line, stack, [Started], ts));
    }
  }
}
