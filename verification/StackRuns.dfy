/**
 Whole runs of the client: lines through the parser and the signals handler, with whatever the user and the server reply,
 so that the stack written back may be the old one, a half-way one, or one with generated names.
 */
module StackRuns {
  import opened Core
  import opened Schema
  import opened PathText
  import opened Grammar
  import opened GrammarLaws
  import opened LineLaws
  import opened Signals
  import opened StackLaws
  import D = Database
  import Expansion

  // ---- Every stack on the way ----

  /** The events lead to the lower part of one of the tops. */
  predicate Topped(base: Stack, out: seq<Event>, tops: set<Stack>) {
    var reached := Replay(base, out);
    reached.Some? && exists top | top in tops :: reached.value <= top
  }

  predicate Within(base: Stack, out: seq<Event>, tops: set<Stack>) {
    forall n | 0 <= n <= |out| :: Topped(base, out[..n], tops)
  }

  lemma NotShorter(stack: Stack, event: Event)
    requires Follow(stack, event).Some? && event != Sent(CategoryLeft)
    ensures stack <= Follow(stack, event).value
  {
  }

  /** As long as no block is left the stack only grows. */
  lemma {:induction false} StaysBelow(base: Stack, before: seq<Event>, after: seq<Event>, n: nat)
    requires Stays(before, after) && Replay(base, after).Some? && |before| <= n <= |after|
    ensures Replay(base, after[..n]).Some? && Replay(base, after[..n]).value <= Replay(base, after).value
    decreases |after|
  {
    hide Follow;
    if n < |after| {
      var shorter := DropLast(after);
      assert Stays(before, shorter) by {
        assert before <= shorter;
      }
      StaysBelow(base, before, shorter, n);
      assert after[..n] == shorter[..n];
      assert Last(after) == after[|after| - 1];
      NotShorter(Replay(base, shorter).value, Last(after));
    } else {
      assert after[..n] == after;
    }
  }

  lemma WithinStays(base: Stack, before: seq<Event>, after: seq<Event>, tops: set<Stack>)
    requires Within(base, before, tops) && Stays(before, after) && Topped(base, after, tops)
    ensures Within(base, after, tops)
  {
    hide Replay;
    var top :| top in tops && Replay(base, after).value <= top;
    forall n | 0 <= n <= |after| ensures Topped(base, after[..n], tops) {
      if n <= |before| {
        assert after[..n] == before[..n];
      } else {
        StaysBelow(base, before, after, n);
        assert Replay(base, after[..n]).value <= top;
      }
    }
  }

  lemma WithinLeaves(base: Stack, before: seq<Event>, tops: set<Stack>)
    requires Within(base, before, tops)
    requires Replay(base, before).Some? && Replay(base, before).value != []
    ensures Within(base, before + [Sent(CategoryLeft)], tops)
  {
    hide Replay;
    var after := before + [Sent(CategoryLeft)];
    ReplaySent(base, before, Sent(CategoryLeft));
    assert before[..|before|] == before && after[..|after|] == after;
    forall n | 0 <= n <= |after| ensures Topped(base, after[..n], tops) {
      if n <= |before| {
        assert after[..n] == before[..n];
      } else {
        var top :| top in tops && Replay(base, before).value <= top;
        assert Replay(base, after).value <= top;
      }
    }
  }

  /** In step with the signals, and everything on the way below the tops. */
  ghost predicate OnTrack(base: Stack, st: State, tops: set<Stack>) {
    Replay(base, st.out) == Some(st.stack) && Within(base, st.out, tops)
  }

  lemma GrowsOnTrack(line: Line, base: Stack, st: State, st': State, tops: set<Stack>)
    requires !line.dryRun && OnTrack(base, st, tops) && Grows(line, base, st, st')
    requires exists top | top in tops :: st'.stack <= top
    ensures OnTrack(base, st', tops)
  {
    hide Replay, Within;
    WithinStays(base, st.out, st'.out, tops);
  }

  lemma LeavesOnTrack(line: Line, base: Stack, st: State, st': State, tops: set<Stack>)
    requires !line.dryRun && OnTrack(base, st, tops) && Leaves(line, st, st')
    ensures OnTrack(base, st', tops)
  {
    hide Replay, Within;
    WithinLeaves(base, st.out, tops);
    ReplaySent(base, st.out, Sent(CategoryLeft));
  }

  // ---- The rounds of a line ----

  /** The stacks between the rounds of the main loop. */
  function Tops(line: Line, st: State, ts: seq<Token>): set<Stack>
    requires line.tables.Valid()
    decreases |ts|
  {
    if ts == [] then {st.stack}
    else
      RoundConsumes(line, st, ts);
      var m := Round(line, st, ts);
      {st.stack} + (if m.matched && m.st.actionsOk && !Missing(line, m.st) then Tops(line, m.st, m.rest) else {m.st.stack})
  }

  lemma {:induction false} RoundsOnTrack(line: Line, base: Stack, st: State, ts: seq<Token>, tops: set<Stack>)
    requires line.tables.Valid() && !line.dryRun && OnTrack(base, st, tops) && Tops(line, st, ts) <= tops
    ensures OnTrack(base, Rounds(line, st, ts).st, tops) && Rounds(line, st, ts).st.stack in tops
    decreases |ts|
  {
    hide Round, OnTrack, Missing, Grows, Leaves;
    if ts != [] {
      var m := Round(line, st, ts);
      RoundConsumes(line, st, ts);
      assert m.st.stack in tops by { NextTop(line, st, ts); }
      RoundFollows(line, base, st, ts);
      if Grows(line, base, st, m.st) {
        assert m.st.stack <= m.st.stack;
        GrowsOnTrack(line, base, st, m.st, tops);
      } else {
        LeavesOnTrack(line, base, st, m.st, tops);
      }
      if m.matched && m.st.actionsOk && !Missing(line, m.st) {
        RoundsOnTrack(line, base, m.st, m.rest, tops);
      }
    }
  }

  lemma NextTop(line: Line, st: State, ts: seq<Token>)
    requires line.tables.Valid() && ts != []
    ensures Round(line, st, ts).st.stack in Tops(line, st, ts)
  {
    hide Round, Missing;
    RoundConsumes(line, st, ts);
  }

  lemma {:induction false} UnwindOnTrack(line: Line, base: Stack, st: State, depth: nat, tops: set<Stack>)
    requires !line.dryRun && OnTrack(base, st, tops)
    ensures OnTrack(base, Unwind(line, st, depth, true), tops)
    decreases |st.stack|
  {
    hide OnTrack, LeaveKind;
    if |st.stack| > depth {
      LeaveLeaves(line, st);
      LeavesOnTrack(line, base, st, LeaveKind(line, st), tops);
      UnwindOnTrack(line, base, LeaveKind(line, st), depth, tops);
    }
  }

  lemma ConcludeOnTrack(line: Line, base: Stack, depth: nat, e: LoopEnd, tops: set<Stack>)
    requires !line.dryRun && OnTrack(base, e.st, tops) && e.st.stack in tops && Conclude(line, depth, e).1
    ensures OnTrack(base, Conclude(line, depth, e).0, tops)
  {
    hide OnTrack, SendFunction, NewNameGood, Unwind, Grows;
    FunctionFollows(line, base, e);
    var sent := SendFunction(line, e);
    assert sent.stack <= e.st.stack;
    GrowsOnTrack(line, base, e.st, sent, tops);
    UnwindOnTrack(line, base, sent, depth, tops);
  }

  /** The stacks between the rounds of a whole line. */
  function LineTops(tables: Tables, objectExists: Object -> bool, stack: Stack, ts: seq<Token>): set<Stack>
    requires tables.Valid()
  {
    var line := Setup(tables, false, objectExists, ts);
    var st := State(stack, true, false, [Started]);
    if ts == [] then {stack}
    else if line.mode == Standard then Tops(line, st, ts)
    else if |ts| > 1 then Tops(line, st, ts[1..])
    else {stack}
  }

  lemma StartOnTrack(stack: Stack, tops: set<Stack>)
    requires stack in tops
    ensures OnTrack(stack, State(stack, true, false, [Started]), tops)
  {
    var out := [Started];
    assert DropLast(out) == [];
    forall n | 0 <= n <= |out| ensures Topped(stack, out[..n], tops) {
      assert out[..n] == if n == 0 then [] else out;
      assert stack <= stack;
    }
  }

  lemma StackIsTop(tables: Tables, objectExists: Object -> bool, stack: Stack, ts: seq<Token>)
    requires tables.Valid()
    ensures stack in LineTops(tables, objectExists, stack, ts)
  {
    hide Round, Setup;
  }

  /** Every stack on the way through an accepted line is the lower part of one between its rounds. */
  lemma AcceptedWithin(tables: Tables, objectExists: Object -> bool, stack: Stack, ts: seq<Token>)
    requires tables.Valid() && ParseImpl(tables, false, objectExists, stack, [Started], ts).1
    ensures OnTrack(stack, ParseImpl(tables, false, objectExists, stack, [Started], ts).0, LineTops(tables, objectExists, stack, ts))
  {
    hide OnTrack, Conclude, Tops, Rounds, FunctionWord, Grows;
    var tops := LineTops(tables, objectExists, stack, ts);
    var line := Setup(tables, false, objectExists, ts);
    var st := State(stack, true, false, [Started]);
    StackIsTop(tables, objectExists, stack, ts);
    StartOnTrack(stack, tops);
    ImplUnfolds(tables, false, objectExists, stack, [Started], ts);
    if ts != [] {
      if line.mode == Show && |ts| == 1 {
        ShowAlone(line, stack, st);
        SendKeepsStack(line, st, FunctionShow(stack));
        assert stack <= stack;
        GrowsOnTrack(line, stack, st, Send(line, st, FunctionShow(stack)), tops);
      } else {
        if line.mode == Standard {
          RoundsOnTrack(line, stack, st, ts, tops);
        } else if |ts| > 1 {
          RoundsOnTrack(line, stack, st, ts[1..], tops);
        }
        ConcludeOnTrack(line, stack, |stack|, Loop(line, stack, [Started], ts), tops);
      }
    }
  }

  // ---- From events to signals ----

  lemma {:induction false} SignalsWithin(base: Stack, out: seq<Event>, tops: set<Stack>)
    requires Within(base, out, tops)
    ensures Within(base, Events(SignalsOf(out)), tops)
    decreases |out|
  {
    hide Topped;
    if out != [] {
      var shorter := DropLast(out);
      forall n | 0 <= n <= |shorter| ensures Topped(base, shorter[..n], tops) {
        assert shorter[..n] == out[..n];
      }
      SignalsWithin(base, shorter, tops);
      if Last(out).Sent? {
        var before := Events(SignalsOf(shorter));
        var after := Events(SignalsOf(out));
        assert after == before + [Last(out)];
        assert out[..|out|] == out;
        forall n | 0 <= n <= |after| ensures Topped(base, after[..n], tops) {
          if n <= |before| {
            assert after[..n] == before[..n];
          } else {
            assert after[..n] == after;
            ToppedReplays(base, out, tops);
            ReplaySignals(base, out);
            SameReplay(base, out, after, tops);
          }
        }
      } else {
        assert SignalsOf(out) == SignalsOf(shorter);
      }
    }
  }

  lemma ToppedReplays(base: Stack, out: seq<Event>, tops: set<Stack>)
    requires Topped(base, out, tops)
    ensures Replay(base, out).Some?
  {
  }

  lemma SameReplay(base: Stack, a: seq<Event>, b: seq<Event>, tops: set<Stack>)
    requires Replay(base, a) == Replay(base, b) && Topped(base, a, tops)
    ensures Topped(base, b, tops)
  {
  }

  /** After any number of the signals of an accepted line. */
  lemma SomeSignals(tables: Tables, line: Input, stack: Stack, n: nat) returns (top: Stack)
    requires tables.Valid() && ParseImpl(tables, false, line.objectExists, stack, [Started], line.tokens).1
    requires var signals := SignalsOf(ParseLine(tables, line.objectExists, stack, line.tokens).1); n <= |signals|
    ensures var signals := SignalsOf(ParseLine(tables, line.objectExists, stack, line.tokens).1);
      var reached := Replay(stack, Events(signals[..n]));
      reached.Some? && reached.value <= top
    ensures top in LineTops(tables, line.objectExists, stack, line.tokens)
  {
    hide ParseImpl, LineTops, Replay;
    var out := ParseImpl(tables, false, line.objectExists, stack, [Started], line.tokens).0.out;
    var tops := LineTops(tables, line.objectExists, stack, line.tokens);
    var signals := SignalsOf(out);
    AcceptedWithin(tables, line.objectExists, stack, line.tokens);
    SignalsWithin(stack, out, tops);
    assert DropLast(out + [Finished]) == out && signals + [] == signals;
    assert Events(signals)[..n] == Events(signals[..n]);
    assert Topped(stack, Events(signals)[..n], tops);
    top :| top in tops && Replay(stack, Events(signals)[..n]).value <= top;
  }

  // ---- Nesting ----

  lemma {:induction false} TopsNest(line: Line, st: State, ts: seq<Token>)
    requires line.tables.Valid() && WellNested(line.tables, st.stack) && Plain(ts)
    ensures forall top | top in Tops(line, st, ts) :: WellNested(line.tables, top)
    decreases |ts|
  {
    hide Round, WellNested, Plain, Missing;
    if ts != [] {
      var m := Round(line, st, ts);
      RoundNests(line, st, ts);
      RoundConsumes(line, st, ts);
      if m.matched {
        PlainInSuffix(m.rest, ts);
        TopsNest(line, m.st, m.rest);
      }
    }
  }

  lemma LineTopsNest(tables: Tables, objectExists: Object -> bool, stack: Stack, ts: seq<Token>)
    requires tables.Valid() && WellNested(tables, stack) && Plain(ts)
    ensures forall top | top in LineTops(tables, objectExists, stack, ts) :: WellNested(tables, top)
  {
    hide Tops, WellNested, Plain, FunctionWord;
    var line := Setup(tables, false, objectExists, ts);
    var st := State(stack, true, false, [Started]);
    if ts != [] {
      PlainInSuffix(ts[1..], ts);
      TopsNest(line, st, ts);
      TopsNest(line, st, ts[1..]);
    }
  }

  lemma PrefixNested(tables: Tables, stack: Stack, top: Stack)
    requires tables.Valid() && WellNested(tables, top) && stack <= top
    ensures WellNested(tables, stack)
  {
    assert stack == top[..|stack|];
    TruncatedNests(tables, top, |stack|);
  }

  /** Generated names do not matter for nesting. */
  lemma AlikeNested(tables: Tables, parsed: Stack, handled: Stack)
    requires tables.Valid() && WellNested(tables, parsed) && AlikeStacks(parsed, handled)
    ensures WellNested(tables, handled)
  {
    hide Depth;
    forall i | 0 <= i < |handled| ensures handled[i].Obj? && handled[i].kind == parsed[i].kind {
      assert Alike(parsed[i], handled[i]);
    }
  }

  /** The replies may refuse, fail or throw anywhere: the stack written back is well nested again. */
  lemma HandledNests(tables: Tables, stack: Stack, line: Input, replies: Replies)
    requires tables.Valid() && WellNested(tables, stack) && Plain(line.tokens)
    ensures WellNested(tables, LineResult(tables, stack, line, replies))
  {
    hide ParseLine, ParseImpl, WellNested, Plain, AllConfirmed, AppliedCount, FunctionReached, LineTops, AlikeStacks, Replay,
      HandledStack;
    LineNests(tables, line.objectExists, stack, line.tokens);
    if ParseImpl(tables, false, line.objectExists, stack, [Started], line.tokens).1 {
      AcceptedLine(tables, stack, line, replies);
      LineTopsNest(tables, line.objectExists, stack, line.tokens);
      var (parsed, out) := ParseLine(tables, line.objectExists, stack, line.tokens);
      var signals := SignalsOf(out);
      var n := AppliedCount(signals, replies, 0);
      var result := LineResult(tables, stack, line, replies);
      if AlikeStacks(parsed, result) {
        AlikeNested(tables, parsed, result);
      } else if result != stack {
        var top := SomeSignals(tables, line, stack, n);
        PrefixNested(tables, Replay(stack, Events(signals[..n])).value, top);
        AlikeNested(tables, Replay(stack, Events(signals[..n])).value, result);
      }
    }
  }

  // ---- Chains ----

  lemma {:induction false} TopsChained(r: D.Relations, line: Line, st: State, ts: seq<Token>)
    requires BuiltFrom(r, line.tables) && Expansion.Chained(r, st.stack)
    ensures line.tables.Valid() && forall top | top in Tops(line, st, ts) :: Expansion.Chained(r, top)
    decreases |ts|
  {
    hide Round, Expansion.Chained, BuiltFrom, Missing;
    FollowsRelations(r, line.tables);
    if ts != [] {
      var m := Round(line, st, ts);
      RoundChained(r, line, st, ts);
      RoundConsumes(line, st, ts);
      if m.matched {
        TopsChained(r, line, m.st, m.rest);
      }
    }
  }

  lemma LineTopsChained(r: D.Relations, tables: Tables, objectExists: Object -> bool, stack: Stack, ts: seq<Token>)
    requires BuiltFrom(r, tables) && Expansion.Chained(r, stack)
    ensures tables.Valid() && forall top | top in LineTops(tables, objectExists, stack, ts) :: Expansion.Chained(r, top)
  {
    hide Tops, Expansion.Chained, BuiltFrom, FunctionWord;
    FollowsRelations(r, tables);
    var line := Setup(tables, false, objectExists, ts);
    var st := State(stack, true, false, [Started]);
    if ts != [] {
      TopsChained(r, line, st, ts);
      TopsChained(r, line, st, ts[1..]);
    }
  }

  /** The server generates identifiers. */
  ghost predicate NamesGenerated(replies: Replies) {
    forall j :: replies.apply(j).Applied? ==> replies.apply(j).generated == "" || IsIdent(replies.apply(j).generated)
  }

  /** Only generated names are new to the parser, and they are good ones. */
  predicate GoodNames(parsed: Stack, handled: Stack) {
    |parsed| == |handled| && forall i | 0 <= i < |parsed| :: handled[i] == parsed[i] || GoodName(handled[i])
  }

  lemma StepNames(parsed: Stack, handled: Stack, signal: Signal, generated: Ident)
    requires GoodNames(parsed, handled) && Follow(parsed, Sent(signal)).Some? && (generated == "" || IsIdent(generated))
    ensures GoodNames(Follow(parsed, Sent(signal)).value, ApplyOne(handled, signal, generated))
  {
    hide IsIdent;
  }

  lemma {:induction false} AppliedNames(stack: Stack, signals: seq<Signal>, replies: Replies, n: nat)
    requires n <= |signals| && Replay(stack, Events(signals)).Some? && NamesGenerated(replies)
    ensures Replay(stack, Events(signals[..n])).Some?
    ensures GoodNames(Replay(stack, Events(signals[..n])).value, ApplyFirst(stack, signals, replies, n))
    decreases n
  {
    hide Follow, ApplyOne, IsIdent;
    ReplayPrefix(stack, signals, n);
    if n > 0 {
      AppliedNames(stack, signals, replies, n - 1);
      ReplayPrefix(stack, signals, n - 1);
      StepNames(Replay(stack, Events(signals[..n - 1])).value, ApplyFirst(stack, signals, replies, n - 1),
        signals[n - 1], Generated(replies.apply(n - 1)));
    } else {
      assert Events(signals[..0]) == [];
    }
  }

  /** Generated names do not matter for the chain either. */
  lemma AlikeChained(r: D.Relations, parsed: Stack, handled: Stack)
    requires Acyclic(r.embeddedInto) && Expansion.Chained(r, parsed) && AlikeStacks(parsed, handled)
    requires GoodNames(parsed, handled)
    ensures Expansion.Chained(r, handled)
  {
    hide Depth, IsIdent;
    forall i | 0 <= i < |handled| ensures Expansion.LinkedItem(r, handled, i) {
      assert Expansion.LinkedItem(r, parsed, i) && Alike(parsed[i], handled[i]);
      if i > 0 {
        assert Alike(parsed[i - 1], handled[i - 1]);
      }
    }
  }

  lemma PrefixChained(r: D.Relations, stack: Stack, top: Stack)
    requires Acyclic(r.embeddedInto) && Expansion.Chained(r, top) && stack <= top
    ensures Expansion.Chained(r, stack)
  {
    hide Expansion.Chained;
    assert stack == top[..|stack|];
    Expansion.ChainedPrefix(r, top, |stack|);
  }

  lemma AppliedChained(r: D.Relations, tables: Tables, stack: Stack, line: Input, replies: Replies, n: nat)
    requires BuiltFrom(r, tables) && tables.Valid() && Expansion.Chained(r, stack) && NamesGenerated(replies)
    requires ParseImpl(tables, false, line.objectExists, stack, [Started], line.tokens).1
    requires var signals := SignalsOf(ParseLine(tables, line.objectExists, stack, line.tokens).1); n <= |signals|
    ensures var signals := SignalsOf(ParseLine(tables, line.objectExists, stack, line.tokens).1);
      Expansion.Chained(r, ApplyFirst(stack, signals, replies, n))
  {
    hide ParseImpl, ParseLine, LineTops, Replay, ApplyFirst, BuiltFrom, Expansion.Chained, AlikeStacks, GoodNames,
      NamesGenerated;
    FollowsRelations(r, tables);
    var out := ParseLine(tables, line.objectExists, stack, line.tokens).1;
    var signals := SignalsOf(out);
    AcceptedLineReplays(tables, line.objectExists, stack, line.tokens);
    ReplaySignals(stack, out);
    AppliedAlike(stack, signals, replies, n);
    AppliedNames(stack, signals, replies, n);
    LineTopsChained(r, tables, line.objectExists, stack, line.tokens);
    var top := SomeSignals(tables, line, stack, n);
    PrefixChained(r, Replay(stack, Events(signals[..n])).value, top);
    AlikeChained(r, Replay(stack, Events(signals[..n])).value, ApplyFirst(stack, signals, replies, n));
  }

  /** The replies may refuse, fail or throw anywhere: what is written back can be expanded again. */
  lemma HandledChains(r: D.Relations, tables: Tables, stack: Stack, line: Input, replies: Replies)
    requires BuiltFrom(r, tables) && Expansion.Chained(r, stack) && NamesGenerated(replies)
    ensures tables.Valid() && Expansion.Chained(r, LineResult(tables, stack, line, replies))
  {
    hide ParseLine, ParseImpl, Expansion.Chained, BuiltFrom, NamesGenerated, AllConfirmed, AppliedCount, FunctionReached,
      ApplyFirst;
    FollowsRelations(r, tables);
    LineChained(r, tables, line.objectExists, stack, line.tokens);
    if ParseImpl(tables, false, line.objectExists, stack, [Started], line.tokens).1 {
      var signals := SignalsOf(ParseLine(tables, line.objectExists, stack, line.tokens).1);
      AppliedChained(r, tables, stack, line, replies, AppliedCount(signals, replies, 0));
    }
  }

  // ---- Runs ----

  /** A line the user types, with the replies to its signals, or a command that clears the context stack. */
  datatype Turn = Typed(line: Input, replies: Replies) | Cleared

  /** The context stack after some turns. */
  function AfterTurns(tables: Tables, turns: seq<Turn>): Stack
    requires tables.Valid()
  {
    if turns == [] then []
    else match Last(turns)
      case Typed(line, replies) => LineResult(tables, AfterTurns(tables, DropLast(turns)), line, replies)
      case Cleared => []
  }

  /** Every stack a run without filters and "new" reaches is well nested, whatever the replies. */
  lemma {:induction false} ReachableNested(tables: Tables, turns: seq<Turn>)
    requires tables.Valid() && forall i | 0 <= i < |turns| && turns[i].Typed? :: Plain(turns[i].line.tokens)
    ensures WellNested(tables, AfterTurns(tables, turns))
    decreases |turns|
  {
    hide LineResult, Plain, WellNested;
    EmptyNested(tables);
    if turns != [] {
      ReachableNested(tables, DropLast(turns));
      if Last(turns).Typed? {
        HandledNests(tables, AfterTurns(tables, DropLast(turns)), Last(turns).line, Last(turns).replies);
      }
    }
  }

  /** Every stack any run whatever reaches can be expanded. */
  lemma {:induction false} ReachableChained(r: D.Relations, tables: Tables, turns: seq<Turn>)
    requires BuiltFrom(r, tables) && forall i | 0 <= i < |turns| && turns[i].Typed? :: NamesGenerated(turns[i].replies)
    ensures tables.Valid() && Expansion.Chained(r, AfterTurns(tables, turns))
    decreases |turns|
  {
    hide LineResult, BuiltFrom, NamesGenerated;
    FollowsRelations(r, tables);
    if turns != [] {
      ReachableChained(r, tables, DropLast(turns));
      if Last(turns).Typed? {
        HandledChains(r, tables, AfterTurns(tables, DropLast(turns)), Last(turns).line, Last(turns).replies);
      }
    }
  }
}
