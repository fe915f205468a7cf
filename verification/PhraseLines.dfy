/** Whole lines of phrases: exactly which are accepted, what they send, and which stack they leave. */
module PhraseLines {
  import opened Core
  import opened Schema
  import opened PathText
  import opened Grammar
  import opened GrammarLaws
  import opened LineLaws
  import opened Phrases
  import opened ScriptLines
  import Values

  // ---- Whole lines ----

  function FirstWord(ps: seq<Phrase>): Ident
    requires ps != []
  {
    Tokens(ps[0])[0].text
  }

  lemma NoFunctionWord(ps: seq<Phrase>)
    requires ps != [] && FirstWord(ps) !in FUNCTION_WORDS
    ensures AllTokens(ps) != [] && FunctionWord(AllTokens(ps)) == Standard
  {
    Starts(ps[0], AllTokens(ps[1..]));
  }

  lemma StandardConcludes(line: Line, depth: nat, st: State)
    requires line.mode == Standard && !line.dryRun && st.actionsOk
    ensures Conclude(line, depth, LoopEnd(st, [], true, false)) ==
      (if st.singleKind then st else Unwind(line, st, depth, true), true)
  {
    hide Unwind;
  }

  lemma UnwindTo(line: Line, st: State, depth: nat, signals: seq<Signal>)
    requires !line.dryRun && st.out == Sending(signals)
    ensures var left := if |st.stack| < depth then |st.stack| else depth;
      Unwind(line, st, depth, true) ==
        st.(stack := st.stack[..left], out := Sending(signals + Lefts(|st.stack| - left)))
  {
    var left := if |st.stack| < depth then |st.stack| else depth;
    SendingMore(signals, Lefts(|st.stack| - left));
    if |st.stack| < depth {
      assert st.stack[..left] == st.stack;
      assert signals + Lefts(0) == signals;
    } else {
      UnwindSends(line, st, depth);
    }
  }

  lemma DoneSending(line: Line, st: State, ps: seq<Phrase>)
    requires line.tables.Valid() && Readable(line.tables, line.mode, st.stack, ps) && st.out == [Started]
    ensures DoneAll(line, st, ps).out == Sending(SignalsAlong(line.tables, line.mode, st.stack, ps))
  {
    hide Meant;
  }

  /** Without a function word: only what ends in a bare kind stays open. */
  lemma StandardReads(tables: Tables, objectExists: Object -> bool, stack: Stack, ps: seq<Phrase>)
    requires tables.Valid() && ps != [] && Readable(tables, Standard, stack, ps) && FirstWord(ps) !in FUNCTION_WORDS
    ensures var (st, ok) := ParseImpl(tables, false, objectExists, stack, [Started], AllTokens(ps));
      var behind, signals := StackBehind(tables, Standard, stack, ps), SignalsAlong(tables, Standard, stack, ps);
      var left := if |behind| < |stack| then |behind| else |stack|;
      ok && if EndsBare(ps) then st.stack == behind && st.out == Sending(signals)
            else st.stack == behind[..left] && st.out == Sending(signals + Lefts(|behind| - left))
  {
    hide Rounds, Readable, AllTokens, FunctionWord, EndsBare, DoneAll, SignalsAlong, StackBehind, Conclude, Sending, Lefts,
      Tokens;
    NoFunctionWord(ps);
    var ts := AllTokens(ps);
    var line := Setup(tables, false, objectExists, ts);
    var st := State(stack, true, false, [Started]);
    ImplUnfolds(tables, false, objectExists, stack, [Started], ts);
    StandardPhrases(line, st, ps);
    DoneSending(line, st, ps);
    DoneShape(line, st, ps);
    var done := DoneAll(line, st, ps).(singleKind := EndsBare(ps));
    StandardConcludes(line, |stack|, done);
    UnwindTo(line, done, |stack|, SignalsAlong(tables, Standard, stack, ps));
  }

  lemma DoneShape(line: Line, st: State, ps: seq<Phrase>)
    requires line.tables.Valid() && Readable(line.tables, line.mode, st.stack, ps)
    ensures DoneAll(line, st, ps).stack == StackBehind(line.tables, line.mode, st.stack, ps)
    ensures DoneAll(line, st, ps).actionsOk == st.actionsOk
  {
    hide Readable;
  }

  function WordOf(mode: Mode): Ident
    requires mode != Standard
  {
    match mode
    case Create => "create"
    case Delete => "delete"
    case Show => "show"
    case Rename => "rename"
  }

  /** What the function word asks for. */
  function Asked(mode: Mode, stack: Stack, newName: Ident): seq<Signal> {
    match mode
    case Delete => [FunctionDelete(stack)]
    case Show => [FunctionShow(stack)]
    case Rename => [FunctionRename(stack, newName)]
    case Create => []
    case Standard => []
  }

  function NewName(mode: Mode, newName: Ident): seq<Token> {
    if mode == Rename then [Word(newName)] else []
  }

  /** The tokens of a line behind a function word; only a renaming has the new name at its end. */
  function FunctionTokens(mode: Mode, ps: seq<Phrase>, newName: Ident): seq<Token>
    requires mode != Standard
  {
    [Word(WordOf(mode))] + (AllTokens(ps) + NewName(mode, newName))
  }

  lemma FunctionTokensStart(mode: Mode, ps: seq<Phrase>, newName: Ident)
    requires mode != Standard && ps != []
    ensures var ts := FunctionTokens(mode, ps, newName);
      |ts| > 1 && FunctionWord(ts) == mode && ts[1..] == AllTokens(ps) + NewName(mode, newName)
  {
    Starts(ps[0], AllTokens(ps[1..]));
  }

  /** The end of the main loop behind the last phrase. */
  lemma LastRoundBehind(line: Line, st: State, newName: Ident)
    requires line.tables.Valid() && line.mode != Standard && st.stack != []
    ensures Flagless(Rounds(line, st, NewName(line.mode, newName))) ==
      LoopEnd(st.(singleKind := false), NewName(line.mode, newName), line.mode != Rename, false)
  {
    hide Round;
    if line.mode == Rename {
      NewNameRound(line, st, newName);
    } else {
      NothingLeft(line, st);
    }
  }

  lemma FunctionConcludes(line: Line, depth: nat, e: LoopEnd, newName: Ident)
    requires line.mode != Standard && !line.dryRun && |e.st.stack| > depth && e.st.actionsOk && !e.missing
    requires e.rest == NewName(line.mode, newName) && e.good == (line.mode != Rename)
    requires line.mode == Rename ==> IsObjectToken(newName)
    ensures Conclude(line, depth, e) == (Unwind(line, AfterAsking(line, e.st, newName), depth, true), true)
  {
    hide Unwind, IsObjectToken;
    if line.mode == Create {
      assert e.st.out + Sends([]) == e.st.out;
    } else {
      SendsOne(Asked(line.mode, e.st.stack, newName)[0]);
    }
  }

  function AfterAsking(line: Line, st: State, newName: Ident): State {
    st.(out := st.out + Sends(Asked(line.mode, st.stack, newName)))
  }

  lemma MissingRefused(line: Line, depth: nat, e: LoopEnd)
    requires !e.good && e.missing
    ensures !Conclude(line, depth, e).1
  {
    hide Unwind;
  }

  lemma FlagDoesNotCount(line: Line, depth: nat, e: LoopEnd)
    requires line.mode != Standard && !line.dryRun
    ensures Conclude(line, depth, e).1 == Conclude(line, depth, Flagless(e)).1
    ensures Conclude(line, depth, e).0.stack == Conclude(line, depth, Flagless(e)).0.stack
    ensures Conclude(line, depth, e).0.out == Conclude(line, depth, Flagless(e)).0.out
  {
    hide Unwind, IsObjectToken;
    var good := NewNameGood(line, depth, e);
    var ok := good && e.st.actionsOk;
    var sent := if ok then SendFunction(line, e) else e.st;
    var reported := if !ok then sent.(out := sent.out + [ErrorReported]) else sent;
    UnwindFlag(line, reported, depth, good);
  }

  lemma {:induction false} UnwindFlag(line: Line, st: State, depth: nat, good: bool)
    ensures Unwind(line, st.(singleKind := false), depth, good).stack == Unwind(line, st, depth, good).stack
    ensures Unwind(line, st.(singleKind := false), depth, good).out == Unwind(line, st, depth, good).out
    decreases |st.stack|
  {
    if |st.stack| > depth {
      UnwindFlag(line, if good then LeaveKind(line, st) else st.(stack := DropLast(st.stack)), depth, good);
    }
  }

  lemma {:induction false} OnlyDeeper(tables: Tables, mode: Mode, stack: Stack, ps: seq<Phrase>)
    requires tables.Valid() && mode != Standard && Readable(tables, mode, stack, ps)
    ensures var behind := StackBehind(tables, mode, stack, ps);
      stack <= behind && (ps != [] ==> |stack| < |behind|)
    decreases |ps|
  {
    hide Meant, StackAfter;
    if ps != [] {
      KindsOnlyBehindWord(tables, mode, stack, ps[0]);
      OnlyDeeper(tables, mode, StackAfter(tables, mode, stack, ps[0]), ps[1..]);
    }
  }

  /**
   Behind a function word: delete, show and rename are refused exactly if something completely named is missing on the way;
   otherwise the line enters, asks for its function on everything that is open then, and leaves again.
   */
  lemma FunctionReads(tables: Tables, objectExists: Object -> bool, mode: Mode, stack: Stack, ps: seq<Phrase>, newName: Ident)
    requires tables.Valid() && mode != Standard && ps != [] && Readable(tables, mode, stack, ps)
    requires mode == Rename ==> IsObjectToken(newName)
    ensures var (st, ok) := ParseImpl(tables, false, objectExists, stack, [Started], FunctionTokens(mode, ps, newName));
      var behind, signals := StackBehind(tables, mode, stack, ps), SignalsAlong(tables, mode, stack, ps);
      && (ok <==> mode == Create || AllThere(tables, mode, objectExists, stack, ps))
      && |stack| < |behind|
      && (ok ==> st.stack == stack)
      && (ok ==> st.out == Sending(signals + Asked(mode, behind, newName) + Lefts(|behind| - |stack|)))
  {
    hide Rounds, Readable, FunctionTokens, FunctionWord, DoneAll, SignalsAlong, StackBehind, Conclude, Sending, Lefts,
      NewName, IsObjectToken, AllThere, Asked;
    FunctionTokensStart(mode, ps, newName);
    OnlyDeeper(tables, mode, stack, ps);
    var ts := FunctionTokens(mode, ps, newName);
    var line := Setup(tables, false, objectExists, ts);
    var st := State(stack, true, false, [Started]);
    ImplUnfolds(tables, false, objectExists, stack, [Started], ts);
    FunctionPhrases(line, st, ps, NewName(mode, newName));
    DoneSending(line, st, ps);
    DoneShape(line, st, ps);
    var e := Rounds(line, st, AllTokens(ps) + NewName(mode, newName));
    if mode != Create && !AllThere(tables, mode, objectExists, stack, ps) {
      MissingRefused(line, |stack|, e);
    } else {
      var behind, signals := StackBehind(tables, mode, stack, ps), SignalsAlong(tables, mode, stack, ps);
      LastRoundBehind(line, DoneAll(line, st, ps), newName);
      FlagDoesNotCount(line, |stack|, e);
      FunctionConcludes(line, |stack|, Flagless(e), newName);
      SendingMore(signals, Asked(mode, behind, newName));
      UnwindTo(line, AfterAsking(line, Flagless(e).st, newName), |stack|, signals + Asked(mode, behind, newName));
    }
  }

  /** "show" alone shows what is open. */
  lemma ShowReads(tables: Tables, objectExists: Object -> bool, stack: Stack)
    requires tables.Valid()
    ensures var (st, ok) := ParseImpl(tables, false, objectExists, stack, [Started], [Word("show")]);
      ok && st.stack == stack && st.out == Sending([FunctionShow(stack)])
  {
    SendsOne(FunctionShow(stack));
  }

  /** The other function words mean nothing alone. */
  lemma WordAloneRefused(tables: Tables, objectExists: Object -> bool, stack: Stack, mode: Mode)
    requires tables.Valid() && mode in {Create, Delete, Rename}
    ensures !ParseImpl(tables, false, objectExists, stack, [Started], [Word(WordOf(mode))]).1
  {
    hide Unwind, IsObjectToken;
  }

  // ---- Lines of one phrase: exactly when they are accepted ----

  function LineOf(mode: Mode, p: Phrase, newName: Ident): seq<Token> {
    if mode == Standard then Tokens(p) else FunctionTokens(mode, [p], newName)
  }

  lemma AloneTokens(p: Phrase)
    ensures AllTokens([p]) == Tokens(p)
  {
    hide Tokens;
    assert [p][1..] == [];
    assert Tokens(p) + [] == Tokens(p);
  }

  lemma UnmatchedRefused(tables: Tables, objectExists: Object -> bool, mode: Mode, stack: Stack, p: Phrase, newName: Ident)
    requires tables.Valid() && (mode == Standard ==> FirstWord([p]) !in FUNCTION_WORDS)
    requires var ts := LineOf(mode, p, newName);
      var line := Setup(tables, false, objectExists, ts);
      !Round(line, State(stack, true, false, [Started]), if mode == Standard then ts else ts[1..]).matched
    ensures !ParseImpl(tables, false, objectExists, stack, [Started], LineOf(mode, p, newName)).1
  {
    hide Round, FunctionTokens, FunctionWord, Tokens, IsObjectToken;
    var ts := LineOf(mode, p, newName);
    var line := Setup(tables, false, objectExists, ts);
    var st := State(stack, true, false, [Started]);
    AloneTokens(p);
    LineStarts(mode, p, newName);
    ImplUnfolds(tables, false, objectExists, stack, [Started], ts);
    var rest := if mode == Standard then ts else ts[1..];
    RoundFollows(line, stack, st, rest);
    RoundConsumes(line, st, rest);
    UnmatchedKeeps(line, st, rest);
    NotGoodRefused(line, |stack|, Rounds(line, st, rest));
  }

  lemma LineStarts(mode: Mode, p: Phrase, newName: Ident)
    requires mode == Standard ==> FirstWord([p]) !in FUNCTION_WORDS
    ensures var ts := LineOf(mode, p, newName);
      && ts != [] && FunctionWord(ts) == mode
      && (mode != Standard ==> |ts| > 1 && ts[1..] == Tokens(p) + NewName(mode, newName))
      && (mode == Standard ==> ts == Tokens(p))
  {
    hide Tokens, FunctionWord, FunctionTokens, NewName;
    AloneTokens(p);
    if mode == Standard {
      NoFunctionWord([p]);
    } else {
      FunctionTokensStart(mode, [p], newName);
    }
  }

  lemma NotGoodRefused(line: Line, depth: nat, e: LoopEnd)
    requires !e.good && |e.st.stack| <= depth
    ensures !Conclude(line, depth, e).1
  {
    hide Unwind, SendFunction;
  }

  /** A round that does not match leaves the stack alone and ends the main loop. */
  lemma UnmatchedKeeps(line: Line, st: State, ts: seq<Token>)
    requires line.tables.Valid() && ts != [] && !Round(line, st, ts).matched
    ensures !Rounds(line, st, ts).good && Rounds(line, st, ts).st.stack == st.stack
  {
    hide Attribute, AttributeStar;
    var cleared := st.(singleKind := false);
    if cleared.stack == [] {
      UnmatchedTop(line, cleared, ts);
    } else {
      var kind := Last(cleared.stack).kind;
      FailedKindsKeep(line, cleared, ts, kind);
      FailedNames(line, cleared, ts, line.tables.NestedKinds(kind));
      hide Kinds, KindsOnly;
      if line.mode == Standard {
        UnmatchedWhole(line, cleared, ts);
      }
    }
  }

  lemma UnmatchedTop(line: Line, st: State, ts: seq<Token>)
    requires line.tables.Valid() && !TopLevel(line, st, ts).matched
    ensures TopLevel(line, st, ts).st.stack == st.stack
  {
    hide EnterKind, IsObjectToken;
  }

  lemma FailedNames(line: Line, st: State, ts: seq<Token>, kinds: set<Ident>)
    requires line.tables.Valid()
    ensures !KindsOnly(line, st, ts, kinds).matched ==> KindsOnly(line, st, ts, kinds) == Fail(st, ts)
  {
    hide EnterKind, IsObjectToken;
  }

  lemma UnmatchedWhole(line: Line, st: State, ts: seq<Token>)
    requires line.tables.Valid() && st.stack != [] && !WholeKind(line, st, ts).matched
    ensures WholeKind(line, st, ts) == Fail(st, ts)
  {
    hide Kinds, Attribute, AttributeStar, LeaveKind;
  }

  /** No kind and no attribute goes by one of the grammar's own words. */
  predicate KeywordsFree(tables: Tables, stack: Stack) {
    && KEYWORDS !! KindsHere(tables, stack) && KEYWORDS !! FiltersHere(tables, stack)
    && (stack != [] ==> KEYWORDS !! tables.Attributes(Last(stack).kind).Keys)
  }

  lemma FreeUnclaimed(tables: Tables, mode: Mode, stack: Stack, p: Phrase)
    requires KeywordsFree(tables, stack)
    requires p.Where? ==> p.kind !in KEYWORDS && NoAttribute(tables, mode, stack, p.kind)
    ensures !p.ByName? ==> Unclaimed(tables, mode, stack, p)
  {
  }

  /** The item of a phrase that selects. */
  function Selection(p: Phrase): Item
    requires p.Where? || p.All?
  {
    Flt(p.kind, if p.Where? then Some(p.filter) else None)
  }

  /** The rules for kinds do not match. */
  lemma SelectionNoKind(line: Line, st: State, p: Phrase, more: seq<Token>)
    requires line.tables.Valid() && (p.Where? || p.All?) && KeywordsFree(line.tables, st.stack) && p.kind !in KEYWORDS
    ensures var ts := Tokens(p) + more;
      && KindsOnly(line, st, ts, KindsHere(line.tables, st.stack)) == Fail(st, ts)
      && (p.kind !in FiltersHere(line.tables, st.stack) ==>
            && KindsFilters(line, st, ts, FiltersHere(line.tables, st.stack)) == Fail(st, ts)
            && forall kinds :: KindsConstruct(line, st, ts, kinds) == Fail(st, ts))
  {
    hide IsObjectToken, EnterKind;
    Starts(p, more);
    if p.Where? {
      WhereIsNoName(Tokens(p) + more, 1);
    }
  }

  /** Neither does the rule for attributes or "end". */
  lemma SelectionNoAttribute(line: Line, st: State, p: Phrase, more: seq<Token>)
    requires (p.Where? || p.All?) && st.stack != [] && p.kind !in KEYWORDS && KeywordsFree(line.tables, st.stack)
    requires p.kind !in line.tables.Attributes(Last(st.stack).kind)
    ensures !Attribute(line, st, Tokens(p) + more, Last(st.stack).kind).matched
    ensures !WordIn(Tokens(p) + more, 0, {"end"})
  {
    hide IsObjectToken, Values.Read, Send;
    Starts(p, more);
  }

  lemma SelectionUnmatched(line: Line, st: State, p: Phrase, more: seq<Token>)
    requires line.tables.Valid() && (p.Where? || p.All?)
    requires KeywordsFree(line.tables, st.stack) && p.kind !in KEYWORDS && NoAttribute(line.tables, line.mode, st.stack, p.kind)
    requires p.kind !in FiltersHere(line.tables, st.stack) || (st.stack != [] && line.mode == Create)
    ensures !Round(line, st, Tokens(p) + more).matched
  {
    hide KindsOnly, KindsFilters, KindsConstruct, Attribute, AttributeStar, KeywordsFree, Tokens, WordIn;
    var cleared := st.(singleKind := false);
    SelectionNoKind(line, cleared, p, more);
    if st.stack != [] && line.mode == Standard {
      SelectionNoAttribute(line, cleared, p, more);
    }
  }

  /**
   "kind where (filter)" and "all kind", at the top level and inside blocks, alone and behind function words: accepted
   exactly if the kind can be selected there. The item keeps the filter as it was typed, and nothing has to exist.
   */
  lemma SelectionLine(tables: Tables, objectExists: Object -> bool, mode: Mode, stack: Stack, p: Phrase, newName: Ident)
    requires tables.Valid() && (p.Where? || p.All?) && (mode == Rename ==> IsObjectToken(newName))
    requires KeywordsFree(tables, stack) && p.kind !in KEYWORDS && NoAttribute(tables, mode, stack, p.kind)
    requires mode == Standard ==> p.kind !in FUNCTION_WORDS
    ensures var (st, ok) := ParseImpl(tables, false, objectExists, stack, [Started], LineOf(mode, p, newName));
      var item := Selection(p);
      var entering := [ObjectsFilter(stack + [item], item.kind, item.filter)];
      && (ok <==> p.kind in FiltersHere(tables, stack) && (stack == [] || mode != Create))
      && (ok && mode == Standard ==> st.stack == stack + [item] && st.out == Sending(entering))
      && (ok && mode != Standard ==>
            st.stack == stack && st.out == Sending(entering + Asked(mode, stack + [item], newName) + [CategoryLeft]))
  {
    hide ParseImpl, IsObjectToken, KeywordsFree, Unclaimed, Sending, Asked, Round, FunctionTokens;
    if p.kind in FiltersHere(tables, stack) && (stack == [] || mode != Create) {
      AloneTokens(p);
      FreeUnclaimed(tables, mode, stack, p);
      OnePhrase(tables, mode, stack, p);
      SelectionMeant(tables, objectExists, mode, stack, p);
      if mode == Standard {
        StandardReads(tables, objectExists, stack, [p]);
      } else {
        assert Lefts(1) == [CategoryLeft];
        FunctionReads(tables, objectExists, mode, stack, [p], newName);
      }
    } else {
      LineStarts(mode, p, newName);
      var line := Setup(tables, false, objectExists, LineOf(mode, p, newName));
      SelectionUnmatched(line, State(stack, true, false, [Started]), p, NewName(mode, newName));
      assert Tokens(p) + [] == Tokens(p);
      UnmatchedRefused(tables, objectExists, mode, stack, p, newName);
    }
  }

  lemma OnePhrase(tables: Tables, mode: Mode, stack: Stack, p: Phrase)
    requires tables.Valid() && Meant(tables, mode, stack, p)
    ensures Readable(tables, mode, stack, [p])
    ensures StackBehind(tables, mode, stack, [p]) == StackAfter(tables, mode, stack, p)
    ensures SignalsAlong(tables, mode, stack, [p]) == SignalsFor(tables, mode, stack, p)
    ensures forall objectExists: Object -> bool ::
      AllThere(tables, mode, objectExists, stack, [p]) <==> There(objectExists, StackAfter(tables, mode, stack, p))
  {
    hide Meant, StackAfter, SignalsFor, There;
    assert [p][1..] == [];
    assert Readable(tables, mode, StackAfter(tables, mode, stack, p), []);
    assert SignalsAlong(tables, mode, StackAfter(tables, mode, stack, p), []) == [];
    assert StackBehind(tables, mode, StackAfter(tables, mode, stack, p), []) == StackAfter(tables, mode, stack, p);
  }

  lemma SelectionMeant(tables: Tables, objectExists: Object -> bool, mode: Mode, stack: Stack, p: Phrase)
    requires tables.Valid() && (p.Where? || p.All?) && Meant(tables, mode, stack, p)
    ensures StackAfter(tables, mode, stack, p) == stack + [Selection(p)]
    ensures There(objectExists, StackAfter(tables, mode, stack, p))
  {
    hide Unclaimed;
    assert (stack + [Selection(p)])[|stack|].Flt?;
  }

  predicate MayCreate(tables: Tables, mode: Mode, stack: Stack, kind: Ident) {
    stack != [] && mode != Create && kind in tables.NestedNew(Last(stack).kind)
  }

  lemma NewUnmatched(line: Line, st: State, kind: Ident, more: seq<Token>)
    requires line.tables.Valid() && KeywordsFree(line.tables, st.stack)
    requires !MayCreate(line.tables, line.mode, st.stack, kind)
    ensures !Round(line, st, Tokens(New(kind)) + more).matched
  {
    hide IsObjectToken, EnterKind, Values.Read, AttributeStar;
    Starts(New(kind), more);
  }

  /**
   "new kind": only inside a block and not behind "create". Behind the other function words the nameless object would have
   to exist, unless there is a filter below it.
   */
  lemma NewLine(tables: Tables, objectExists: Object -> bool, mode: Mode, stack: Stack, kind: Ident, newName: Ident)
    requires tables.Valid() && KeywordsFree(tables, stack) && (mode == Rename ==> IsObjectToken(newName))
    ensures var (st, ok) := ParseImpl(tables, false, objectExists, stack, [Started], LineOf(mode, New(kind), newName));
      var item := Obj(kind, "");
      var entering := [Signal.CreateObject(stack + [item], kind, "")];
      && (ok <==> MayCreate(tables, mode, stack, kind) && (mode == Standard || There(objectExists, stack + [item])))
      && (ok && mode == Standard ==> st.stack == stack + [item] && st.out == Sending(entering))
      && (ok && mode != Standard ==>
            st.stack == stack && st.out == Sending(entering + Asked(mode, stack + [item], newName) + [CategoryLeft]))
  {
    hide ParseImpl, IsObjectToken, KeywordsFree, Unclaimed, Sending, Asked, Round, FunctionTokens, There;
    var p := New(kind);
    if MayCreate(tables, mode, stack, kind) {
      AloneTokens(p);
      FreeUnclaimed(tables, mode, stack, p);
      OnePhrase(tables, mode, stack, p);
      if mode == Standard {
        StandardReads(tables, objectExists, stack, [p]);
      } else {
        assert Lefts(1) == [CategoryLeft];
        FunctionReads(tables, objectExists, mode, stack, [p], newName);
      }
    } else {
      LineStarts(mode, p, newName);
      var line := Setup(tables, false, objectExists, LineOf(mode, p, newName));
      NewUnmatched(line, State(stack, true, false, [Started]), kind, NewName(mode, newName));
      assert Tokens(p) + [] == Tokens(p);
      UnmatchedRefused(tables, objectExists, mode, stack, p, newName);
    }
  }

  lemma SetUnmatched(line: Line, st: State, p: Phrase)
    requires line.tables.Valid() && KeywordsFree(line.tables, st.stack) && (p.Add? || p.Remove?)
    requires st.stack != [] ==>
      p.attribute !in line.tables.IdentifierSets(Last(st.stack).kind) || !IsObjectToken(p.identifier)
    requires line.mode == Standard
    ensures !Round(line, st, Tokens(p)).matched
  {
    hide IsObjectToken, EnterKind, Values.Read, AttributeStar;
  }

  /** "add set identifier" and "remove set identifier": one signal to the kind that owns the set. */
  lemma IdentifierLine(tables: Tables, objectExists: Object -> bool, stack: Stack, p: Phrase)
    requires tables.Valid() && KeywordsFree(tables, stack) && (p.Add? || p.Remove?)
    ensures var (st, ok) := ParseImpl(tables, false, objectExists, stack, [Started], Tokens(p));
      && (ok <==> stack != [] && p.attribute in tables.IdentifierSets(Last(stack).kind) && IsObjectToken(p.identifier))
      && (ok ==>
            var owner := tables.IdentifierSets(Last(stack).kind)[p.attribute];
            st.stack == stack
            && st.out == Sending([if p.Add? then SetAttributeInsert(stack, owner, p.attribute, p.identifier)
                                  else SetAttributeRemove(stack, owner, p.attribute, p.identifier)]))
  {
    hide ParseImpl, IsObjectToken, KeywordsFree, Unclaimed, Sending, Round;
    AloneTokens(p);
    if stack != [] && p.attribute in tables.IdentifierSets(Last(stack).kind) && IsObjectToken(p.identifier) {
      FreeUnclaimed(tables, Standard, stack, p);
      OnePhrase(tables, Standard, stack, p);
      StandardReads(tables, objectExists, stack, [p]);
      var signals := SignalsFor(tables, Standard, stack, p);
      assert signals + Lefts(0) == signals && stack[..|stack|] == stack;
    } else {
      LineStarts(Standard, p, "");
      var line := Setup(tables, false, objectExists, Tokens(p));
      SetUnmatched(line, State(stack, true, false, [Started]), p);
      UnmatchedRefused(tables, objectExists, Standard, stack, p, "");
    }
  }
}
