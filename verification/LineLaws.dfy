/** Lines in standard mode, and the shape of the context stacks that lines can build. */
module LineLaws {
  import opened Core
  import opened Schema
  import opened PathText
  import opened Grammar
  import opened GrammarLaws

  // ---- Which blocks a standard line leaves open ----

  lemma {:induction false} ChainKeepsFlag(line: Line, st: State, chain: seq<Item>)
    requires forall i | 0 <= i < |chain| :: chain[i].Obj?
    ensures EnterChain(line, st, chain).singleKind == st.singleKind
    decreases |chain|
  {
    if chain != [] {
      var item := Last(chain);
      var pushed := Push(st, item);
      var signal :=
        if |chain| == 1 && line.mode == Create then CreateObject(pushed.stack, item.kind, item.name)
        else CategoryEntered(pushed.stack, item.kind, item.name);
      ChainKeepsFlag(line, Send(line, pushed, signal), DropLast(chain));
    }
  }

  lemma EnterKeepsFlag(line: Line, st: State, kind: Ident, name: Ident)
    requires line.tables.Valid() && IsObjectToken(name)
    ensures EnterKind(line, st, kind, name).singleKind == st.singleKind
  {
    hide EnterChain, IsObjectToken, PathToVector;
    ObjectTokens(name);
    var chain := Chain(line.tables, kind, PathToVector(name).value);
    if chain.Some? {
      ChainKeepsFlag(line, st, chain.value);
    }
  }

  lemma KindsOnlyKeepsFlag(line: Line, st: State, ts: seq<Token>, kinds: set<Ident>)
    requires line.tables.Valid()
    ensures KindsOnly(line, st, ts, kinds).st.singleKind == st.singleKind
  {
    hide EnterKind, IsObjectToken;
    if WordIn(ts, 0, kinds) && NameAt(ts, 1) {
      EnterKeepsFlag(line, st, ts[0].text, ts[1].text);
    }
  }

  lemma KindsKeepFlag(line: Line, st: State, ts: seq<Token>, kind: Ident)
    requires line.tables.Valid()
    ensures Kinds(line, st, ts, kind).st.singleKind == st.singleKind
  {
    hide KindsOnly, IsObjectToken;
    KindsOnlyKeepsFlag(line, st, ts, line.tables.NestedKinds(kind));
  }

  lemma TopLevelSetsFlag(line: Line, st: State, ts: seq<Token>)
    requires line.tables.Valid() && !st.singleKind
    ensures TopLevel(line, st, ts).st.singleKind == TopLevel(line, st, ts).matched
  {
    hide KindsOnly, KindsFilters;
    KindsOnlyKeepsFlag(line, st, ts, line.tables.kinds);
    FiltersKeepFlag(line, st, ts, line.tables.kinds);
  }

  lemma FiltersKeepFlag(line: Line, st: State, ts: seq<Token>, kinds: set<Ident>)
    ensures KindsFilters(line, st, ts, kinds).st.singleKind == st.singleKind
  {
    hide IsObjectToken;
  }

  lemma AttributeKeepsFlag(line: Line, st: State, ts: seq<Token>, kind: Ident)
    ensures Attribute(line, st, ts, kind).st.singleKind == st.singleKind
  {
    hide IsObjectToken;
  }

  lemma {:induction false} AttributeStarKeepsFlag(line: Line, st: State, ts: seq<Token>, kind: Ident)
    ensures AttributeStar(line, st, ts, kind).st.singleKind == st.singleKind
    decreases |ts|
  {
    hide Attribute;
    var one := Attribute(line, st, ts, kind);
    AttributeConsumes(line, st, ts, kind);
    AttributeKeepsFlag(line, st, ts, kind);
    if one.matched {
      AttributeStarKeepsFlag(line, one.st, one.rest, kind);
    }
  }

  /** At this point of a line stands a kind with nothing in front of it. */
  predicate BareKind(line: Line, st: State, ts: seq<Token>)
    requires line.tables.Valid()
  {
    if st.stack == [] then TopLevel(line, st, ts).matched
    else !Attribute(line, st, ts, Last(st.stack).kind).matched && Kinds(line, st, ts, Last(st.stack).kind).matched
  }

  lemma RoundSetsFlag(line: Line, st: State, ts: seq<Token>)
    requires line.tables.Valid() && line.mode == Standard
    ensures Round(line, st, ts).st.singleKind == BareKind(line, st.(singleKind := false), ts)
    ensures BareKind(line, st.(singleKind := false), ts) ==> Round(line, st, ts).matched
  {
    hide TopLevel, Attribute, AttributeStar, Kinds;
    var cleared := st.(singleKind := false);
    if cleared.stack == [] {
      TopLevelSetsFlag(line, cleared, ts);
    } else {
      var kind := Last(cleared.stack).kind;
      var first := Attribute(line, cleared, ts, kind);
      AttributeKeepsFlag(line, cleared, ts, kind);
      KindsKeepFlag(line, cleared, ts, kind);
      var all := AttributeStar(line, first.st, first.rest, kind);
      AttributeStarKeepsFlag(line, first.st, first.rest, kind);
      KindsKeepFlag(line, all.st, all.rest, kind);
    }
  }

  /** Where the last round of the main loop starts. */
  function LastRound(line: Line, st: State, ts: seq<Token>): (State, seq<Token>)
    requires line.tables.Valid()
    decreases |ts|
  {
    RoundConsumes(line, st, ts);
    var m := Round(line, st, ts);
    if m.matched && m.st.actionsOk && m.rest != [] then LastRound(line, m.st, m.rest)
    else (st.(singleKind := false), ts)
  }

  lemma {:induction false} RoundsEndWithLast(line: Line, st: State, ts: seq<Token>)
    requires line.tables.Valid() && line.mode == Standard && ts != []
    ensures var (st', ts') := LastRound(line, st, ts);
      var m := Round(line, st', ts');
      Rounds(line, st, ts) == LoopEnd(m.st, m.rest, m.matched, false)
    ensures Rounds(line, st, ts).st.singleKind == BareKind(line, LastRound(line, st, ts).0, LastRound(line, st, ts).1)
    decreases |ts|
  {
    hide Round, BareKind;
    RoundConsumes(line, st, ts);
    RoundSetsFlag(line, st, ts);
    RoundIgnoresFlag(line, st, ts);
    var m := Round(line, st, ts);
    if m.matched && m.st.actionsOk && m.rest != [] {
      RoundsEndWithLast(line, m.st, m.rest);
    }
  }

  lemma RoundIgnoresFlag(line: Line, st: State, ts: seq<Token>)
    requires line.tables.Valid()
    ensures Round(line, st.(singleKind := false), ts) == Round(line, st, ts)
  {
    hide TopLevel, WholeKind, Kinds, KindsOnly;
  }

  /**
   A standard line without "end" leaves the stack it found, or that stack with everything it entered; the latter
   exactly when its last part was a bare kind. On a refused line that happens only if the kind was refused there.
   */
  lemma StandardLine(tables: Tables, objectExists: Object -> bool, stack: Stack, ts: seq<Token>)
    requires tables.Valid() && FunctionWord(ts) == Standard && ts != [] && WithoutEnd(ts)
    ensures var line := Setup(tables, false, objectExists, ts);
      var st := State(stack, true, false, [Started]);
      var (st', ts') := LastRound(line, st, ts);
      var left := ParseLine(tables, objectExists, stack, ts).0;
      var entered := Rounds(line, st, ts).st.stack;
      && stack <= entered
      && left == (if BareKind(line, st', ts') then entered else stack)
      && (!ParseImpl(tables, false, objectExists, stack, [Started], ts).1 && BareKind(line, st', ts')
          ==> !Rounds(line, st, ts).st.actionsOk)
  {
    hide LastRound, BareKind, Rounds, WithoutEnd, FunctionWord;
    var line := Setup(tables, false, objectExists, ts);
    var st := State(stack, true, false, [Started]);
    var e := Rounds(line, st, ts);
    ImplUnfolds(tables, false, objectExists, stack, [Started], ts);
    RoundsFollow(line, stack, st, ts);
    RoundsEndWithLast(line, st, ts);
    ConcludeFollows(line, stack, |stack|, e);
    BareKindMatches(line, st, ts);
  }

  lemma BareKindMatches(line: Line, st: State, ts: seq<Token>)
    requires line.tables.Valid() && line.mode == Standard && ts != []
    ensures BareKind(line, LastRound(line, st, ts).0, LastRound(line, st, ts).1) ==> Rounds(line, st, ts).good
  {
    hide Round, Rounds, BareKind;
    RoundsEndWithLast(line, st, ts);
    var (st', ts') := LastRound(line, st, ts);
    LastRoundCleared(line, st, ts);
    RoundSetsFlag(line, st', ts');
  }

  lemma {:induction false} LastRoundCleared(line: Line, st: State, ts: seq<Token>)
    requires line.tables.Valid()
    ensures !LastRound(line, st, ts).0.singleKind
    decreases |ts|
  {
    hide Round;
    RoundConsumes(line, st, ts);
    var m := Round(line, st, ts);
    if m.matched && m.st.actionsOk && m.rest != [] {
      LastRoundCleared(line, m.st, m.rest);
    }
  }

  // ---- The shape of reachable context stacks ----

  /** Item i stands at embedding depth i, and each item is accepted by the one in front of it. */
  ghost predicate WellNested(tables: Tables, stack: Stack)
    requires tables.Valid()
  {
    forall i | 0 <= i < |stack| ::
      && stack[i].Obj?
      && Depth(tables.embeddedInto, stack[i].kind) == i
      && (i > 0 ==> stack[i - 1].kind in tables.Embedding(stack[i].kind))
  }

  function Reversed<T>(s: seq<T>): (r: seq<T>)
    ensures |r| == |s| && forall i | 0 <= i < |s| :: r[i] == s[|s| - 1 - i]
  {
    seq(|s|, i requires 0 <= i < |s| => s[|s| - 1 - i])
  }

  lemma {:induction false} EnterChainPushes(line: Line, st: State, chain: seq<Item>)
    requires forall i | 0 <= i < |chain| :: chain[i].Obj?
    ensures EnterChain(line, st, chain).stack == st.stack + Reversed(chain)
    decreases |chain|
  {
    if chain != [] {
      var item := Last(chain);
      var pushed := Push(st, item);
      var signal :=
        if |chain| == 1 && line.mode == Create then CreateObject(pushed.stack, item.kind, item.name)
        else CategoryEntered(pushed.stack, item.kind, item.name);
      SendKeepsStack(line, pushed, signal);
      EnterChainPushes(line, Send(line, pushed, signal), DropLast(chain));
      assert Reversed(chain) == [item] + Reversed(DropLast(chain));
      assert (st.stack + [item]) + Reversed(DropLast(chain)) == st.stack + ([item] + Reversed(DropLast(chain)));
    }
  }

  /** The pairs of a qualified name, innermost first: the names in reverse, the kinds climbing the embedding. */
  ghost predicate Climbs(tables: Tables, kind: Ident, names: Name, chain: seq<Item>)
    requires tables.Valid()
  {
    && |chain| == |names| > 0
    && chain[0].kind == kind
    && (forall i | 0 <= i < |chain| :: chain[i].Obj? && chain[i].name == names[|names| - 1 - i])
    && (forall i | 0 <= i < |chain| ::
          Depth(tables.embeddedInto, chain[i].kind) == Depth(tables.embeddedInto, kind) - i)
    && (forall i | 0 <= i < |chain| - 1 :: ClimbsAt(tables, chain, i))
  }

  ghost predicate ClimbsAt(tables: Tables, chain: seq<Item>, i: nat)
    requires i + 1 < |chain|
  {
    chain[i].kind in tables.embeddedInto && chain[i + 1].kind == tables.embeddedInto[chain[i].kind]
  }

  lemma ClimbsOn(tables: Tables, kind: Ident, names: Name, chain: seq<Item>)
    requires tables.Valid() && |names| > 1 && kind in tables.embeddedInto
    requires Climbs(tables, tables.embeddedInto[kind], DropLast(names), chain)
    ensures Climbs(tables, kind, names, [Obj(kind, Last(names))] + chain)
  {
    var longer := [Obj(kind, Last(names))] + chain;
    forall i | 0 <= i < |longer|
      ensures longer[i].Obj? && longer[i].name == names[|names| - 1 - i]
      ensures Depth(tables.embeddedInto, longer[i].kind) == Depth(tables.embeddedInto, kind) - i
    {
      if i > 0 {
        assert longer[i] == chain[i - 1];
        assert DropLast(names)[|names| - 2 - (i - 1)] == names[|names| - 1 - i];
      }
    }
    forall i | 0 <= i < |longer| - 1 ensures ClimbsAt(tables, longer, i) {
      if i > 0 {
        assert ClimbsAt(tables, chain, i - 1);
      }
    }
  }

  lemma {:induction false} ChainClimbs(tables: Tables, kind: Ident, names: Name)
    requires tables.Valid() && names != []
    ensures |names| <= Depth(tables.embeddedInto, kind) + 1 <==> Chain(tables, kind, names).Some?
    ensures Chain(tables, kind, names).Some? ==> Climbs(tables, kind, names, Chain(tables, kind, names).value)
    decreases |names|
  {
    hide Climbs;
    if |names| == 1 {
      ClimbsAlone(tables, kind, names);
    } else if kind in tables.embeddedInto {
      ChainClimbs(tables, tables.embeddedInto[kind], DropLast(names));
      var rest := Chain(tables, tables.embeddedInto[kind], DropLast(names));
      if rest.Some? {
        ClimbsOn(tables, kind, names, rest.value);
      }
    }
  }

  lemma ClimbsAlone(tables: Tables, kind: Ident, names: Name)
    requires tables.Valid() && |names| == 1
    ensures Climbs(tables, kind, names, [Obj(kind, names[0])])
  {
  }

  /**
   After the depth check of categoryEntered two of the three remaining refusals cannot happen: the embedding does not
   end early, and the stack is not empty when a parent is needed.
   */
  lemma DepthCheckSuffices(tables: Tables, stack: Stack, kind: Ident, names: Name)
    requires tables.Valid() && names != []
    requires |stack| + |names| - 1 == Depth(tables.embeddedInto, kind)
    ensures Chain(tables, kind, names).Some?
    ensures var outermost := Last(Chain(tables, kind, names).value).kind;
      outermost in tables.embeddedInto <==> stack != []
  {
    ChainClimbs(tables, kind, names);
  }

  /** Entering a name keeps the stack well nested and extends its path by exactly that name. */
  lemma EnterNests(line: Line, st: State, kind: Ident, name: Ident)
    requires line.tables.Valid() && IsObjectToken(name) && WellNested(line.tables, st.stack)
    ensures var st' := EnterKind(line, st, kind, name);
      && WellNested(line.tables, st'.stack)
      && (forall i | 0 <= i < |st'.stack| :: st'.stack[i].Obj?)
      && (PathToVector(name).Some? && st' != Reject(st)
          ==> StackPath(st'.stack) == StackPath(st.stack) + PathToVector(name).value)
  {
    hide IsObjectToken, PathToVector, EnterChain, Climbs, WellNested;
    ObjectTokens(name);
    NestedIsFilterFree(line.tables, st.stack);
    var names := PathToVector(name).value;
    if |st.stack| + |names| - 1 == Depth(line.tables.embeddedInto, kind) {
      ChainClimbs(line.tables, kind, names);
      var chain := Chain(line.tables, kind, names).value;
      EnterChainPushes(line, st, chain);
      if ParentAccepts(line.tables, st.stack, Last(chain).kind) {
        PushedNests(line.tables, st.stack, kind, names, chain);
      }
    }
  }

  lemma NestedIsFilterFree(tables: Tables, stack: Stack)
    requires tables.Valid() && WellNested(tables, stack)
    ensures FilterFree(stack)
  {
  }

  lemma PushedNests(tables: Tables, stack: Stack, kind: Ident, names: Name, chain: seq<Item>)
    requires tables.Valid() && WellNested(tables, stack) && Climbs(tables, kind, names, chain)
    requires |stack| + |names| - 1 == Depth(tables.embeddedInto, kind)
    requires ParentAccepts(tables, stack, Last(chain).kind)
    ensures WellNested(tables, stack + Reversed(chain))
    ensures FilterFree(stack) && FilterFree(stack + Reversed(chain))
    ensures StackPath(stack + Reversed(chain)) == StackPath(stack) + names
  {
    hide Climbs, Depth, ParentAccepts;
    var all := stack + Reversed(chain);
    NestedIsFilterFree(tables, stack);
    PushedPath(tables, stack, kind, names, chain);
    ClimbsNames(tables, kind, names, chain);
    forall i | |stack| <= i < |all|
      ensures all[i].Obj? && Depth(tables.embeddedInto, all[i].kind) == i
      ensures i > 0 ==> all[i - 1].kind in tables.Embedding(all[i].kind)
    {
      PushedAt(tables, stack, kind, names, chain, i);
    }
  }

  lemma ClimbsNames(tables: Tables, kind: Ident, names: Name, chain: seq<Item>)
    requires tables.Valid() && Climbs(tables, kind, names, chain)
    ensures |chain| == |names| && chain != []
  {
  }

  lemma PushedAt(tables: Tables, stack: Stack, kind: Ident, names: Name, chain: seq<Item>, i: nat)
    requires tables.Valid() && Climbs(tables, kind, names, chain)
    requires |stack| + |names| - 1 == Depth(tables.embeddedInto, kind)
    requires chain != [] && ParentAccepts(tables, stack, Last(chain).kind) && |stack| <= i < |stack| + |chain|
    ensures var all := stack + Reversed(chain);
      && all[i].Obj? && Depth(tables.embeddedInto, all[i].kind) == i
      && (i > 0 ==> all[i - 1].kind in tables.Embedding(all[i].kind))
  {
    var all := stack + Reversed(chain);
    var j := |stack| + |chain| - 1 - i;
    assert all[i] == chain[j];
    if i > |stack| {
      assert all[i - 1] == chain[j + 1];
      assert ClimbsAt(tables, chain, j);
      assert tables.Embedding(chain[j].kind)[0] == tables.embeddedInto[chain[j].kind];
    }
  }

  lemma PushedPath(tables: Tables, stack: Stack, kind: Ident, names: Name, chain: seq<Item>)
    requires tables.Valid() && FilterFree(stack) && Climbs(tables, kind, names, chain)
    ensures FilterFree(stack + Reversed(chain))
    ensures StackPath(stack + Reversed(chain)) == StackPath(stack) + names
  {
    hide Depth;
    var all := stack + Reversed(chain);
    forall i | |stack| <= i < |all| ensures all[i].Obj? && all[i].name == names[i - |stack|] {
      assert all[i] == chain[|stack| + |chain| - 1 - i];
    }
    assert FilterFree(all);
  }

  /** No filters and no generated names among the words of the line. */
  predicate Plain(ts: seq<Token>) {
    Word("all") !in ts && Word(WHERE) !in ts && Word("new") !in ts
  }

  lemma PlainInSuffix(rest: seq<Token>, ts: seq<Token>)
    requires IsSuffix(rest, ts) && Plain(ts)
    ensures Plain(rest)
  {
  }

  lemma KindsOnlyNests(line: Line, st: State, ts: seq<Token>, kinds: set<Ident>)
    requires line.tables.Valid() && WellNested(line.tables, st.stack)
    ensures WellNested(line.tables, KindsOnly(line, st, ts, kinds).st.stack)
  {
    hide EnterKind, IsObjectToken, WellNested;
    if WordIn(ts, 0, kinds) && NameAt(ts, 1) {
      EnterNests(line, st, ts[0].text, ts[1].text);
    }
  }

  lemma KindsNest(line: Line, st: State, ts: seq<Token>, kind: Ident)
    requires line.tables.Valid() && WellNested(line.tables, st.stack) && Plain(ts)
    ensures WellNested(line.tables, Kinds(line, st, ts, kind).st.stack)
  {
    hide KindsOnly, WellNested;
    KindsOnlyNests(line, st, ts, line.tables.NestedKinds(kind));
  }

  lemma TopLevelNests(line: Line, st: State, ts: seq<Token>)
    requires line.tables.Valid() && WellNested(line.tables, st.stack) && Plain(ts)
    ensures WellNested(line.tables, TopLevel(line, st, ts).st.stack)
  {
    hide KindsOnly, WellNested;
    KindsOnlyNests(line, st, ts, line.tables.kinds);
  }

  lemma LeaveNests(line: Line, st: State)
    requires line.tables.Valid() && WellNested(line.tables, st.stack) && st.stack != []
    ensures WellNested(line.tables, LeaveKind(line, st).stack)
  {
  }

  lemma WholeKindNests(line: Line, st: State, ts: seq<Token>)
    requires line.tables.Valid() && WellNested(line.tables, st.stack) && Plain(ts) && st.stack != []
    ensures WellNested(line.tables, WholeKind(line, st, ts).st.stack)
  {
    hide Kinds, Attribute, AttributeStar, LeaveKind, WellNested, Plain;
    var kind := Last(st.stack).kind;
    var first := Attribute(line, st, ts, kind);
    AttributeGrows(line, [], st, ts, kind);
    AttributeConsumes(line, st, ts, kind);
    if first.matched {
      AttributeStarGrows(line, [], first.st, first.rest, kind);
      AttributeStarConsumes(line, first.st, first.rest, kind);
      var all := AttributeStar(line, first.st, first.rest, kind);
      PlainInSuffix(first.rest, ts);
      PlainInSuffix(all.rest, first.rest);
      KindsNest(line, all.st, all.rest, kind);
    } else {
      KindsNest(line, st, ts, kind);
      LeaveNests(line, st);
    }
  }

  lemma RoundNests(line: Line, st: State, ts: seq<Token>)
    requires line.tables.Valid() && WellNested(line.tables, st.stack) && Plain(ts)
    ensures WellNested(line.tables, Round(line, st, ts).st.stack)
  {
    hide WholeKind, Kinds, KindsOnly, TopLevel, WellNested, Plain;
    var cleared := st.(singleKind := false);
    TopLevelNests(line, cleared, ts);
    if cleared.stack != [] {
      var kind := Last(cleared.stack).kind;
      WholeKindNests(line, cleared, ts);
      KindsOnlyNests(line, cleared, ts, line.tables.NestedKinds(kind));
      KindsNest(line, cleared, ts, kind);
    }
  }

  lemma {:induction false} RoundsNest(line: Line, st: State, ts: seq<Token>)
    requires line.tables.Valid() && WellNested(line.tables, st.stack) && Plain(ts)
    ensures WellNested(line.tables, Rounds(line, st, ts).st.stack)
    decreases |ts|
  {
    hide Round, WellNested, Plain;
    if ts != [] {
      var m := Round(line, st, ts);
      RoundNests(line, st, ts);
      RoundConsumes(line, st, ts);
      if m.matched {
        PlainInSuffix(m.rest, ts);
        RoundsNest(line, m.st, m.rest);
      }
    }
  }

  lemma TruncatedNests(tables: Tables, stack: Stack, depth: nat)
    requires tables.Valid() && WellNested(tables, stack) && depth <= |stack|
    ensures WellNested(tables, stack[..depth])
  {
  }

  /** One line, accepted or refused, keeps the stack well nested. */
  lemma LineNests(tables: Tables, objectExists: Object -> bool, stack: Stack, ts: seq<Token>)
    requires tables.Valid() && WellNested(tables, stack) && Plain(ts)
    ensures WellNested(tables, ParseLine(tables, objectExists, stack, ts).0)
  {
    hide Rounds, WellNested, Plain, FunctionWord;
    ImplUnfolds(tables, false, objectExists, stack, [Started], ts);
    var line := Setup(tables, false, objectExists, ts);
    var st := State(stack, true, false, [Started]);
    SendKeepsStack(line, st, FunctionShow(stack));
    if ts != [] {
      PlainInSuffix(ts[1..], ts);
      RoundsNest(line, st, ts);
      RoundsNest(line, st, ts[1..]);
      var e := Loop(line, stack, [Started], ts);
      ConcludeFollows(line, stack, |stack|, e);
      if |stack| <= |e.st.stack| {
        TruncatedNests(tables, e.st.stack, |stack|);
      }
    }
  }

  lemma EmptyNested(tables: Tables)
    requires tables.Valid()
    ensures WellNested(tables, [])
  {
  }
}
