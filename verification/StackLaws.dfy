/**
 Every context stack the parser can build, filters and nameless objects included, can be expanded: it fits the relations
 between kinds the way DbInteraction relies on.
 */
module StackLaws {
  import opened Core
  import opened Schema
  import opened PathText
  import opened Grammar
  import opened GrammarLaws
  import opened LineLaws
  import opened Signals
  import opened Database
  import opened Expansion

  /** The parser's tables are built from the same relations as those of DbInteraction. */
  ghost predicate BuiltFrom(r: Relations, tables: Tables) {
    && Consistent(r)
    && tables.embeddedInto == r.embeddedInto && tables.contains == r.contains
    && (forall k, x | x in tables.NestedFilters(k) :: x in ListedFor(r.embeds, k))
    && (forall k, x | x in tables.NestedNew(k) :: EmbedsOrContains(r, k, x))
  }

  /** x is embedded in the kind or in one it contains. */
  predicate EmbedsOrContains(r: Relations, kind: Ident, x: Ident) {
    || x in ListedFor(r.embeds, kind)
    || exists c | c in ListedFor(r.contains, kind) :: x in ListedFor(r.embeds, c)
  }

  lemma OneDeeper(r: Relations, kind: Ident, x: Ident)
    requires Consistent(r) && EmbedsOrContains(r, kind, x)
    ensures Depth(r.embeddedInto, x) == Depth(r.embeddedInto, kind) + 1
  {
    if x in ListedFor(r.embeds, kind) {
      assert EmbeddedIn(r, x, kind);
    } else {
      var c :| c in ListedFor(r.contains, kind) && x in ListedFor(r.embeds, c);
      assert EmbeddedIn(r, x, c) && Related(r, kind, c);
    }
  }

  lemma AcceptedOneDeeper(r: Relations, tables: Tables, below: Ident, kind: Ident)
    requires BuiltFrom(r, tables) && below in tables.Embedding(kind)
    ensures Depth(r.embeddedInto, kind) == Depth(r.embeddedInto, below) + 1
  {
    var e := tables.embeddedInto[kind];
    if below != e {
      assert Related(r, e, below);
    }
  }

  // ---- Pushing ----

  predicate GoodName(item: Item) {
    item.Obj? ==> item.name == "" || IsIdent(item.name)
  }

  /** Pushing one item that continues the chain. */
  lemma PushChains(r: Relations, stack: Stack, item: Item)
    requires Acyclic(r.embeddedInto) && Chained(r, stack) && GoodName(item) && LinkedItem(r, stack + [item], |stack|)
    ensures Chained(r, stack + [item])
  {
    hide Depth, IsIdent;
    var all := stack + [item];
    forall i | 0 <= i < |all| ensures LinkedItem(r, all, i) {
      if i < |stack| {
        assert LinkedItem(r, stack, i);
      }
    }
  }

  lemma PushKind(r: Relations, tables: Tables, stack: Stack, item: Item)
    requires BuiltFrom(r, tables) && Chained(r, stack) && GoodName(item) && stack != []
    requires if item.Flt? then item.kind in tables.NestedFilters(Last(stack).kind)
      else item.kind in tables.NestedNew(Last(stack).kind)
    ensures Chained(r, stack + [item])
  {
    hide Chained, IsIdent;
    var kind := Last(stack).kind;
    OneDeeper(r, kind, item.kind);
    assert item.Flt? ==> EmbeddedIn(r, item.kind, kind);
    PushChains(r, stack, item);
  }

  /** Pushing the pairs of a qualified name from the outermost one on. */
  lemma {:induction false} PushPairs(r: Relations, tables: Tables, stack: Stack, chain: seq<Item>)
    requires BuiltFrom(r, tables) && Chained(r, stack)
    requires forall i | 0 <= i < |chain| :: chain[i].Obj? && GoodName(chain[i])
    requires chain != [] ==> LinkedItem(r, stack + [Last(chain)], |stack|)
    requires forall i | 0 <= i < |chain| - 1 :: OneLevel(r, chain, i)
    ensures Chained(r, stack + Reversed(chain))
    decreases |chain|
  {
    hide Chained, BuiltFrom, IsIdent, GoodName;
    if chain == [] {
      assert stack + Reversed(chain) == stack;
    } else {
      var item, rest := Last(chain), DropLast(chain);
      assert GoodName(item);
      FollowsRelations(r, tables);
      PushChains(r, stack, item);
      var pushed := stack + [item];
      assert pushed + Reversed(rest) == stack + Reversed(chain);
      if rest != [] {
        assert OneLevel(r, chain, |rest| - 1);
        assert (pushed + [Last(rest)])[|pushed| - 1] == item;
      }
      forall i | 0 <= i < |rest| - 1 ensures OneLevel(r, rest, i) {
        assert OneLevel(r, chain, i);
      }
      PushPairs(r, tables, pushed, rest);
    }
  }

  predicate OneLevel(r: Relations, chain: seq<Item>, i: nat)
    requires Acyclic(r.embeddedInto) && i + 1 < |chain|
  {
    Depth(r.embeddedInto, chain[i].kind) == Depth(r.embeddedInto, chain[i + 1].kind) + 1
  }

  lemma FollowsRelations(r: Relations, tables: Tables)
    requires BuiltFrom(r, tables)
    ensures Acyclic(r.embeddedInto) && tables.Valid() && tables.embeddedInto == r.embeddedInto
  {
  }

  lemma PairsClimb(r: Relations, tables: Tables, stack: Stack, kind: Ident, names: Name, chain: seq<Item>)
    requires BuiltFrom(r, tables) && IsName(names) && Climbs(tables, kind, names, chain)
    requires |stack| + |names| - 1 == Depth(r.embeddedInto, kind) && chain != []
    requires ParentAccepts(tables, stack, Last(chain).kind)
    ensures forall i | 0 <= i < |chain| :: chain[i].Obj? && GoodName(chain[i])
    ensures LinkedItem(r, stack + [Last(chain)], |stack|)
    ensures forall i | 0 <= i < |chain| - 1 :: OneLevel(r, chain, i)
  {
    hide IsIdent;
    var outermost := Last(chain);
    assert outermost == chain[|chain| - 1];
    assert Depth(r.embeddedInto, outermost.kind) == |stack|;
    forall i | 0 <= i < |chain| - 1 ensures OneLevel(r, chain, i) {
      assert chain[i].kind == chain[i].kind && chain[i + 1].kind == chain[i + 1].kind;
    }
    if stack != [] {
      AcceptedOneDeeper(r, tables, Last(stack).kind, outermost.kind);
      assert (stack + [outermost])[|stack| - 1] == Last(stack);
    }
  }

  lemma EnterChained(r: Relations, line: Line, st: State, kind: Ident, name: Ident)
    requires BuiltFrom(r, line.tables) && IsObjectToken(name) && Chained(r, st.stack)
    ensures Chained(r, EnterKind(line, st, kind, name).stack)
  {
    hide IsObjectToken, PathToVector, EnterChain, Climbs, Chained, IsIdent, Depth, ParentAccepts, IsName;
    ObjectTokens(name);
    var names := PathToVector(name).value;
    if |st.stack| + |names| - 1 == Depth(line.tables.embeddedInto, kind) {
      ChainClimbs(line.tables, kind, names);
      var chain := Chain(line.tables, kind, names).value;
      ClimbsNames(line.tables, kind, names, chain);
      EnterChainPushes(line, st, chain);
      if ParentAccepts(line.tables, st.stack, Last(chain).kind) {
        PairsClimb(r, line.tables, st.stack, kind, names, chain);
        PushPairs(r, line.tables, st.stack, chain);
      }
    }
  }

  // ---- Rules, rounds, lines ----

  lemma KindsOnlyChained(r: Relations, line: Line, st: State, ts: seq<Token>, kinds: set<Ident>)
    requires BuiltFrom(r, line.tables) && Chained(r, st.stack)
    ensures Chained(r, KindsOnly(line, st, ts, kinds).st.stack)
  {
    hide EnterKind, IsObjectToken, Chained;
    if WordIn(ts, 0, kinds) && NameAt(ts, 1) {
      EnterChained(r, line, st, ts[0].text, ts[1].text);
    }
  }

  lemma KindsChained(r: Relations, line: Line, st: State, ts: seq<Token>)
    requires BuiltFrom(r, line.tables) && Chained(r, st.stack) && st.stack != []
    ensures Chained(r, Kinds(line, st, ts, Last(st.stack).kind).st.stack)
  {
    hide KindsOnly, Chained, BuiltFrom;
    var kind := Last(st.stack).kind;
    FollowsRelations(r, line.tables);
    KindsOnlyChained(r, line, st, ts, line.tables.NestedKinds(kind));
    if WordIn(ts, 0, {"all"}) && WordIn(ts, 1, line.tables.NestedFilters(kind)) {
      PushKind(r, line.tables, st.stack, Flt(ts[1].text, None));
    }
    if WordIn(ts, 0, line.tables.NestedFilters(kind)) && |ts| > 2 && ts[2].Parens? {
      PushKind(r, line.tables, st.stack, Flt(ts[0].text, Some(ts[2].filter)));
    }
    if WordIn(ts, 1, line.tables.NestedNew(kind)) {
      PushKind(r, line.tables, st.stack, Obj(ts[1].text, ""));
    }
  }

  lemma FirstFilter(r: Relations, item: Item)
    requires Acyclic(r.embeddedInto) && item.Flt?
    ensures Chained(r, [] + [item])
  {
  }

  lemma TopLevelChained(r: Relations, line: Line, st: State, ts: seq<Token>)
    requires BuiltFrom(r, line.tables) && Chained(r, st.stack) && st.stack == []
    ensures Chained(r, TopLevel(line, st, ts).st.stack)
  {
    hide KindsOnly, Chained, BuiltFrom;
    FollowsRelations(r, line.tables);
    KindsOnlyChained(r, line, st, ts, line.tables.kinds);
    if WordIn(ts, 1, line.tables.kinds) {
      FirstFilter(r, Flt(ts[1].text, None));
    }
    if WordIn(ts, 0, line.tables.kinds) && |ts| > 2 && ts[2].Parens? {
      FirstFilter(r, Flt(ts[0].text, Some(ts[2].filter)));
    }
  }

  lemma WholeKindChained(r: Relations, line: Line, st: State, ts: seq<Token>)
    requires BuiltFrom(r, line.tables) && Chained(r, st.stack) && st.stack != []
    ensures Chained(r, WholeKind(line, st, ts).st.stack)
  {
    hide Kinds, Attribute, AttributeStar, Chained, BuiltFrom;
    FollowsRelations(r, line.tables);
    var kind := Last(st.stack).kind;
    var first := Attribute(line, st, ts, kind);
    AttributeGrows(line, [], st, ts, kind);
    AttributeKeepsStack(line, st, ts, kind);
    if first.matched {
      AttributeStarKeepsStack(line, first.st, first.rest, kind);
      var all := AttributeStar(line, first.st, first.rest, kind);
      KindsChained(r, line, all.st, all.rest);
    } else {
      KindsChained(r, line, st, ts);
      ChainedPrefix(r, st.stack, |st.stack| - 1);
      LeavingPops(line, st);
    }
  }

  lemma LeavingPops(line: Line, st: State)
    requires st.stack != []
    ensures LeaveKind(line, st).stack == st.stack[..|st.stack| - 1]
  {
  }

  lemma AttributeKeepsStack(line: Line, st: State, ts: seq<Token>, kind: Ident)
    ensures Attribute(line, st, ts, kind).st.stack == st.stack
  {
  }

  lemma {:induction false} AttributeStarKeepsStack(line: Line, st: State, ts: seq<Token>, kind: Ident)
    ensures AttributeStar(line, st, ts, kind).st.stack == st.stack
    decreases |ts|
  {
    hide Attribute;
    AttributeKeepsStack(line, st, ts, kind);
    AttributeConsumes(line, st, ts, kind);
    var one := Attribute(line, st, ts, kind);
    if one.matched {
      AttributeStarKeepsStack(line, one.st, one.rest, kind);
    }
  }

  lemma RoundChained(r: Relations, line: Line, st: State, ts: seq<Token>)
    requires BuiltFrom(r, line.tables) && Chained(r, st.stack)
    ensures line.tables.Valid() && Chained(r, Round(line, st, ts).st.stack)
  {
    hide WholeKind, Kinds, KindsOnly, TopLevel, Chained, BuiltFrom;
    FollowsRelations(r, line.tables);
    var cleared := st.(singleKind := false);
    if cleared.stack == [] {
      TopLevelChained(r, line, cleared, ts);
    } else {
      WholeKindChained(r, line, cleared, ts);
      KindsOnlyChained(r, line, cleared, ts, line.tables.NestedKinds(Last(cleared.stack).kind));
      KindsChained(r, line, cleared, ts);
    }
  }

  lemma {:induction false} RoundsChained(r: Relations, line: Line, st: State, ts: seq<Token>)
    requires BuiltFrom(r, line.tables) && Chained(r, st.stack)
    ensures line.tables.Valid() && Chained(r, Rounds(line, st, ts).st.stack)
    decreases |ts|
  {
    hide Round, Chained, BuiltFrom;
    FollowsRelations(r, line.tables);
    if ts != [] {
      var m := Round(line, st, ts);
      RoundChained(r, line, st, ts);
      RoundConsumes(line, st, ts);
      if m.matched {
        RoundsChained(r, line, m.st, m.rest);
      }
    }
  }

  /** One line, accepted or refused. */
  lemma LineChained(r: Relations, tables: Tables, objectExists: Object -> bool, stack: Stack, ts: seq<Token>)
    requires BuiltFrom(r, tables) && Chained(r, stack)
    ensures tables.Valid() && Chained(r, ParseLine(tables, objectExists, stack, ts).0)
  {
    hide Rounds, Chained, BuiltFrom, FunctionWord;
    FollowsRelations(r, tables);
    ImplUnfolds(tables, false, objectExists, stack, [Started], ts);
    var line := Setup(tables, false, objectExists, ts);
    var st := State(stack, true, false, [Started]);
    SendKeepsStack(line, st, FunctionShow(stack));
    if ts != [] {
      RoundsChained(r, line, st, ts);
      RoundsChained(r, line, st, ts[1..]);
      var e := Loop(line, stack, [Started], ts);
      ConcludeFollows(line, stack, |stack|, e);
      if |stack| <= |e.st.stack| {
        ChainedPrefix(r, e.st.stack, |stack|);
      }
    }
  }
}
