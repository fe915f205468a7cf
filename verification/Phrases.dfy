/**
 Lines of any length: what a sequence of kinds, filters and attributes makes of the context stack, and which signals it
 sends, on any stack, alone and behind a function word.
 */
module Phrases {
  import opened Core
  import opened Schema
  import opened PathText
  import opened Grammar
  import opened GrammarLaws
  import opened LineLaws
  import opened ScriptLines
  import Values

  /** One part of a line. */
  datatype Phrase =
    | ByName(kind: Ident, name: Ident)
    | Where(kind: Ident, filter: Filter)
    | All(kind: Ident)
    | New(kind: Ident)
    | Set(attribute: Ident, text: string)
    | Unset(attribute: Ident)
    | Add(attribute: Ident, identifier: Ident)
    | Remove(attribute: Ident, identifier: Ident)
    | End

  function Tokens(p: Phrase): seq<Token> {
    match p
    case ByName(kind, name) => [Word(kind), Word(name)]
    case Where(kind, filter) => [Word(kind), Word("where"), Parens(filter)]
    case All(kind) => [Word("all"), Word(kind)]
    case New(kind) => [Word("new"), Word(kind)]
    case Set(attribute, text) => [Word(attribute), Word(text)]
    case Unset(attribute) => [Word("no"), Word(attribute)]
    case Add(attribute, identifier) => [Word("add"), Word(attribute), Word(identifier)]
    case Remove(attribute, identifier) => [Word("remove"), Word(attribute), Word(identifier)]
    case End => [Word("end")]
  }

  function AllTokens(ps: seq<Phrase>): seq<Token> {
    if ps == [] then [] else Tokens(ps[0]) + AllTokens(ps[1..])
  }

  predicate OfKind(p: Phrase) {
    p.ByName? || p.Where? || p.All? || p.New?
  }

  predicate OfAttribute(p: Phrase) {
    p.Set? || p.Unset? || p.Add? || p.Remove?
  }

  // ---- Where a phrase has a meaning, and only one ----

  function KindsHere(tables: Tables, stack: Stack): set<Ident> {
    if stack == [] then tables.kinds else tables.NestedKinds(Last(stack).kind)
  }

  function FiltersHere(tables: Tables, stack: Stack): set<Ident> {
    if stack == [] then tables.kinds else tables.NestedFilters(Last(stack).kind)
  }

  /** Inside a block without a function word attributes are tried first. */
  predicate NoAttribute(tables: Tables, mode: Mode, stack: Stack, word: Ident) {
    mode == Standard && stack != [] ==> word !in tables.Attributes(Last(stack).kind)
  }

  /** Neither an attribute nor one of the words in front of attributes and sets. */
  predicate StartsKind(tables: Tables, mode: Mode, stack: Stack, word: Ident) {
    NoAttribute(tables, mode, stack, word) && (mode == Standard && stack != [] ==> word !in {"no", "add", "remove"})
  }

  /** Nothing that is tried before takes the words for something else: attributes, then names, selections, "new", "end". */
  predicate Unclaimed(tables: Tables, mode: Mode, stack: Stack, p: Phrase) {
    match p
    case ByName(kind, _) => StartsKind(tables, mode, stack, kind)
    case Where(kind, _) => StartsKind(tables, mode, stack, kind) && !(kind == "all" && "where" in FiltersHere(tables, stack))
    case All(kind) =>
      NoAttribute(tables, mode, stack, "all") && !("all" in KindsHere(tables, stack) && IsObjectToken(kind))
    case New(kind) =>
      && NoAttribute(tables, mode, stack, "new") && !("new" in KindsHere(tables, stack) && IsObjectToken(kind))
      && !("new" in FiltersHere(tables, stack) && kind == "where")
    case Set(_, _) => true
    case Unset(_) => NoAttribute(tables, mode, stack, "no")
    case Add(_, _) => NoAttribute(tables, mode, stack, "add")
    case Remove(_, _) => NoAttribute(tables, mode, stack, "remove")
    case End =>
      NoAttribute(tables, mode, stack, "end") && "end" !in KindsHere(tables, stack) && "end" !in FiltersHere(tables, stack)
  }

  /** The name has a part for each level that is missing, and the block fits around the outermost. */
  predicate NameFits(tables: Tables, stack: Stack, kind: Ident, name: Ident)
    requires tables.Valid()
  {
    && IsObjectToken(name) && PathToVector(name).Some?
    && |stack| + |PathToVector(name).value| - 1 == Depth(tables.embeddedInto, kind)
    && ParentAccepts(tables, stack, PathIn(tables, kind, name)[0].kind)
  }

  /** The items a name stands for, outermost first. */
  function PathIn(tables: Tables, kind: Ident, name: Ident): (path: Stack)
    requires tables.Valid() && PathToVector(name).Some?
    requires |PathToVector(name).value| <= Depth(tables.embeddedInto, kind) + 1
    ensures |path| == |PathToVector(name).value| > 0
  {
    ChainClimbs(tables, kind, PathToVector(name).value);
    Reversed(Chain(tables, kind, PathToVector(name).value).value)
  }

  predicate Meant(tables: Tables, mode: Mode, stack: Stack, p: Phrase)
    requires tables.Valid()
  {
    && Unclaimed(tables, mode, stack, p)
    && match p
       case ByName(kind, name) => kind in KindsHere(tables, stack) && NameFits(tables, stack, kind, name)
       case Where(kind, _) => kind in FiltersHere(tables, stack) && (stack == [] || mode != Create)
       case All(kind) => kind in FiltersHere(tables, stack) && (stack == [] || mode != Create)
       case New(kind) => stack != [] && mode != Create && kind in tables.NestedNew(Last(stack).kind)
       case Set(attribute, text) =>
         && mode == Standard && stack != [] && attribute in tables.Attributes(Last(stack).kind)
         && tables.ReadValue(tables.Attributes(Last(stack).kind)[attribute], attribute, text).Some?
       case Unset(attribute) => mode == Standard && stack != [] && attribute in tables.Attributes(Last(stack).kind)
       case Add(attribute, identifier) =>
         mode == Standard && stack != [] && attribute in tables.IdentifierSets(Last(stack).kind) && IsObjectToken(identifier)
       case Remove(attribute, identifier) =>
         mode == Standard && stack != [] && attribute in tables.IdentifierSets(Last(stack).kind) && IsObjectToken(identifier)
       case End => mode == Standard && stack != []
  }

  // ---- What a phrase does ----

  function Pushed(tables: Tables, stack: Stack, p: Phrase): Stack
    requires tables.Valid() && OfKind(p) && (p.ByName? ==> NameFits(tables, stack, p.kind, p.name))
  {
    match p
    case ByName(kind, name) => PathIn(tables, kind, name)
    case Where(kind, filter) => [Flt(kind, Some(filter))]
    case All(kind) => [Flt(kind, None)]
    case New(kind) => [Obj(kind, "")]
  }

  function StackAfter(tables: Tables, mode: Mode, stack: Stack, p: Phrase): Stack
    requires tables.Valid() && Meant(tables, mode, stack, p)
  {
    if OfKind(p) then stack + Pushed(tables, stack, p) else if p.End? then DropLast(stack) else stack
  }

  function SignalsFor(tables: Tables, mode: Mode, stack: Stack, p: Phrase): seq<Signal>
    requires tables.Valid() && Meant(tables, mode, stack, p)
  {
    match p
    case ByName(kind, name) =>
      PathInShape(tables, kind, name);
      Entering(mode, stack, PathIn(tables, kind, name))
    case Where(kind, filter) => [ObjectsFilter(stack + [Flt(kind, Some(filter))], kind, Some(filter))]
    case All(kind) => [ObjectsFilter(stack + [Flt(kind, None)], kind, None)]
    case New(kind) => [Signal.CreateObject(stack + [Obj(kind, "")], kind, "")]
    case Set(attribute, text) =>
      var owner := tables.Attributes(Last(stack).kind)[attribute];
      [Signal.SetAttribute(stack, owner, attribute, tables.ReadValue(owner, attribute, text).value)]
    case Unset(attribute) => [Signal.RemoveAttribute(stack, tables.Attributes(Last(stack).kind)[attribute], attribute)]
    case Add(attribute, identifier) =>
      [SetAttributeInsert(stack, tables.IdentifierSets(Last(stack).kind)[attribute], attribute, identifier)]
    case Remove(attribute, identifier) =>
      [SetAttributeRemove(stack, tables.IdentifierSets(Last(stack).kind)[attribute], attribute, identifier)]
    case End => [CategoryLeft]
  }

  /** The path of a name: its parts in order, each kind embedded in the one before, the named kind at the end. */
  lemma PathInShape(tables: Tables, kind: Ident, name: Ident)
    requires tables.Valid() && PathToVector(name).Some?
    requires |PathToVector(name).value| <= Depth(tables.embeddedInto, kind) + 1
    ensures var path := PathIn(tables, kind, name);
      && path != [] && FilterFree(path) && Last(path).kind == kind && StackPath(path) == PathToVector(name).value
      && forall k | 1 <= k < |path| :: ClimbingAt(tables, path, k)
  {
    hide PathToVector;
    var names := PathToVector(name).value;
    ChainClimbs(tables, kind, names);
    var chain := Chain(tables, kind, names).value;
    var path := Reversed(chain);
    forall k | 1 <= k < |path| ensures ClimbingAt(tables, path, k) {
      assert ClimbsAt(tables, chain, |chain| - 1 - k);
    }
    assert FilterFree(path);
    assert StackPath(path) == names;
  }

  /** The state after a phrase, the flag aside. */
  function Done(line: Line, st: State, p: Phrase): State
    requires line.tables.Valid() && Meant(line.tables, line.mode, st.stack, p)
  {
    st.(stack := StackAfter(line.tables, line.mode, st.stack, p),
        out := st.out + Sends(SignalsFor(line.tables, line.mode, st.stack, p)))
  }

  lemma SendsOne(signal: Signal)
    ensures Sends([signal]) == [Sent(signal)]
  {
  }

  lemma EnterNamed(line: Line, st: State, kind: Ident, name: Ident)
    requires line.tables.Valid() && !line.dryRun && NameFits(line.tables, st.stack, kind, name)
    ensures FilterFree(PathIn(line.tables, kind, name))
    ensures EnterKind(line, st, kind, name) == st.(stack := st.stack + PathIn(line.tables, kind, name),
      out := st.out + Sends(Entering(line.mode, st.stack, PathIn(line.tables, kind, name))))
  {
    hide IsObjectToken, PathToVector, EnterChain, Depth, ParentAccepts, Entering, Sends;
    var names := PathToVector(name).value;
    ChainClimbs(line.tables, kind, names);
    var chain := Chain(line.tables, kind, names).value;
    ChainSends(line, st, chain);
    assert Reversed(chain)[0] == Last(chain);
  }

  /** The name is not taken for a keyword. */
  lemma WhereIsNoName(ts: seq<Token>, i: nat)
    requires i < |ts| && ts[i] == Word("where")
    ensures !NameAt(ts, i)
  {
    assert WHERE <= "where";
  }

  lemma Starts(p: Phrase, more: seq<Token>)
    ensures var ts := Tokens(p) + more;
      && |ts| >= |Tokens(p)| > 0 && ts[|Tokens(p)|..] == more
      && forall i | 0 <= i < |Tokens(p)| :: ts[i] == Tokens(p)[i]
  {
  }

  lemma NamedMatches(line: Line, st: State, p: Phrase, more: seq<Token>)
    requires line.tables.Valid() && !line.dryRun && p.ByName? && Meant(line.tables, line.mode, st.stack, p)
    ensures KindsOnly(line, st, Tokens(p) + more, KindsHere(line.tables, st.stack)) == Match(Done(line, st, p), more, true)
  {
    hide IsObjectToken, PathToVector, EnterKind, Depth, NameFits, Entering, Sends;
    Starts(p, more);
    EnterNamed(line, st, p.kind, p.name);
    assert IsObjectToken(p.name) by { NameFitsToken(line.tables, st.stack, p.kind, p.name); }
  }

  lemma NameFitsToken(tables: Tables, stack: Stack, kind: Ident, name: Ident)
    requires tables.Valid() && NameFits(tables, stack, kind, name)
    ensures IsObjectToken(name) && PathToVector(name).Some?
    ensures |PathToVector(name).value| <= Depth(tables.embeddedInto, kind) + 1
  {
    hide IsObjectToken, PathToVector, Depth;
  }

  lemma FilterMatches(line: Line, st: State, p: Phrase, more: seq<Token>)
    requires line.tables.Valid() && !line.dryRun && (p.Where? || p.All?) && Meant(line.tables, line.mode, st.stack, p)
    ensures var ts := Tokens(p) + more;
      && KindsOnly(line, st, ts, KindsHere(line.tables, st.stack)) == Fail(st, ts)
      && KindsFilters(line, st, ts, FiltersHere(line.tables, st.stack)) == Match(Done(line, st, p), more, true)
  {
    hide IsObjectToken, EnterKind, NameFits;
    Starts(p, more);
    var ts := Tokens(p) + more;
    if p.Where? {
      WhereIsNoName(ts, 1);
      SendsOne(ObjectsFilter(st.stack + [Flt(p.kind, Some(p.filter))], p.kind, Some(p.filter)));
    } else {
      SendsOne(ObjectsFilter(st.stack + [Flt(p.kind, None)], p.kind, None));
    }
  }

  lemma NewMatches(line: Line, st: State, p: Phrase, more: seq<Token>)
    requires line.tables.Valid() && !line.dryRun && p.New? && Meant(line.tables, line.mode, st.stack, p)
    ensures var ts := Tokens(p) + more;
      && KindsOnly(line, st, ts, KindsHere(line.tables, st.stack)) == Fail(st, ts)
      && KindsFilters(line, st, ts, FiltersHere(line.tables, st.stack)) == Fail(st, ts)
      && KindsConstruct(line, st, ts, line.tables.NestedNew(Last(st.stack).kind)) == Match(Done(line, st, p), more, true)
  {
    hide IsObjectToken, EnterKind, NameFits;
    Starts(p, more);
    SendsOne(Signal.CreateObject(st.stack + [Obj(p.kind, "")], p.kind, ""));
  }

  /** At the top level. */
  lemma TopMatches(line: Line, st: State, p: Phrase, more: seq<Token>)
    requires line.tables.Valid() && !line.dryRun && OfKind(p) && Meant(line.tables, line.mode, st.stack, p) && st.stack == []
    ensures TopLevel(line, st, Tokens(p) + more) == Match(Done(line, st, p).(singleKind := true), more, true)
  {
    hide KindsOnly, KindsFilters, Done, NameFits, Unclaimed;
    if p.ByName? {
      NamedMatches(line, st, p, more);
    } else {
      FilterMatches(line, st, p, more);
    }
  }

  /** Inside a block; in create mode only names are read. */
  lemma NestedMatches(line: Line, st: State, p: Phrase, more: seq<Token>)
    requires line.tables.Valid() && !line.dryRun && OfKind(p) && Meant(line.tables, line.mode, st.stack, p) && st.stack != []
    ensures var ts := Tokens(p) + more;
      var kind := Last(st.stack).kind;
      && Kinds(line, st, ts, kind) == Match(Done(line, st, p), more, true)
      && (line.mode == Create ==> KindsOnly(line, st, ts, line.tables.NestedKinds(kind)) == Match(Done(line, st, p), more, true))
  {
    hide KindsOnly, KindsFilters, KindsConstruct, Done, NameFits, Unclaimed;
    if p.ByName? {
      NamedMatches(line, st, p, more);
    } else if p.New? {
      NewMatches(line, st, p, more);
    } else {
      FilterMatches(line, st, p, more);
    }
  }

  /** Nothing that starts like this is an attribute. */
  lemma KindIsNoAttribute(line: Line, st: State, p: Phrase, more: seq<Token>)
    requires line.tables.Valid() && (OfKind(p) || p.End?) && Meant(line.tables, line.mode, st.stack, p)
    requires line.mode == Standard && st.stack != []
    ensures !Attribute(line, st, Tokens(p) + more, Last(st.stack).kind).matched
  {
    hide IsObjectToken, NameFits, Values.Read, Send;
    Starts(p, more);
  }

  lemma AttributeMatches(line: Line, st: State, p: Phrase, more: seq<Token>)
    requires line.tables.Valid() && !line.dryRun && OfAttribute(p) && Meant(line.tables, line.mode, st.stack, p)
    ensures Attribute(line, st, Tokens(p) + more, Last(st.stack).kind) == Match(Done(line, st, p), more, true)
  {
    hide IsObjectToken, NameFits, Values.Read;
    Starts(p, more);
    SendsOne(SignalsFor(line.tables, line.mode, st.stack, p)[0]);
  }

  lemma EndMatches(line: Line, st: State, more: seq<Token>)
    requires line.tables.Valid() && !line.dryRun && Meant(line.tables, line.mode, st.stack, End)
    ensures Round(line, st, Tokens(End) + more) == Match(Done(line, st.(singleKind := false), End), more, true)
  {
    hide IsObjectToken, NameFits, EnterKind, Attribute;
    Starts(End, more);
    var cleared := st.(singleKind := false);
    KindIsNoAttribute(line, cleared, End, more);
    SendsOne(CategoryLeft);
    var ts := Tokens(End) + more;
    assert Kinds(line, cleared, ts, Last(st.stack).kind) == Fail(cleared, ts);
  }

  /** The round of a kind that no attribute stands in front of. */
  lemma KindRound(line: Line, st: State, p: Phrase, more: seq<Token>)
    requires line.tables.Valid() && !line.dryRun && OfKind(p) && Meant(line.tables, line.mode, st.stack, p)
    ensures Round(line, st, Tokens(p) + more) == Match(
      Done(line, st, p).(singleKind := line.mode == Standard || st.stack == []), more, true)
  {
    hide TopLevel, Kinds, KindsOnly, Attribute, NameFits, Unclaimed, SignalsFor, Sends;
    var cleared := st.(singleKind := false);
    if st.stack == [] {
      TopMatches(line, cleared, p, more);
    } else {
      NestedMatches(line, cleared, p, more);
      if line.mode == Standard {
        KindIsNoAttribute(line, cleared, p, more);
      }
    }
  }

  // ---- Sequences of phrases ----

  /** Each phrase has a meaning where the ones before it lead. */
  predicate Readable(tables: Tables, mode: Mode, stack: Stack, ps: seq<Phrase>)
    requires tables.Valid()
    decreases |ps|
  {
    ps == [] || (Meant(tables, mode, stack, ps[0]) && Readable(tables, mode, StackAfter(tables, mode, stack, ps[0]), ps[1..]))
  }

  function StackBehind(tables: Tables, mode: Mode, stack: Stack, ps: seq<Phrase>): Stack
    requires tables.Valid() && Readable(tables, mode, stack, ps)
    decreases |ps|
  {
    if ps == [] then stack else StackBehind(tables, mode, StackAfter(tables, mode, stack, ps[0]), ps[1..])
  }

  function SignalsAlong(tables: Tables, mode: Mode, stack: Stack, ps: seq<Phrase>): seq<Signal>
    requires tables.Valid() && Readable(tables, mode, stack, ps)
    decreases |ps|
  {
    if ps == [] then []
    else SignalsFor(tables, mode, stack, ps[0]) + SignalsAlong(tables, mode, StackAfter(tables, mode, stack, ps[0]), ps[1..])
  }

  /** What delete, show and rename insist on: an object that is completely named exists. */
  predicate There(objectExists: Object -> bool, stack: Stack) {
    stack != [] && FilterFree(stack) ==> objectExists(Object(Last(stack).kind, StackPath(stack)))
  }

  predicate AllThere(tables: Tables, mode: Mode, objectExists: Object -> bool, stack: Stack, ps: seq<Phrase>)
    requires tables.Valid() && Readable(tables, mode, stack, ps)
    decreases |ps|
  {
    ps == [] ||
    (var next := StackAfter(tables, mode, stack, ps[0]);
     There(objectExists, next) && AllThere(tables, mode, objectExists, next, ps[1..]))
  }

  /** The last phrase is a kind and stands behind no attribute. */
  predicate EndsBare(ps: seq<Phrase>) {
    ps != [] && OfKind(Last(ps)) && (|ps| == 1 || !OfAttribute(ps[|ps| - 2]))
  }

  function DoneAll(line: Line, st: State, ps: seq<Phrase>): State
    requires line.tables.Valid() && Readable(line.tables, line.mode, st.stack, ps)
  {
    st.(stack := StackBehind(line.tables, line.mode, st.stack, ps),
        out := st.out + Sends(SignalsAlong(line.tables, line.mode, st.stack, ps)))
  }

  lemma DoneFirst(line: Line, st: State, ps: seq<Phrase>)
    requires line.tables.Valid() && Readable(line.tables, line.mode, st.stack, ps) && ps != []
    ensures Readable(line.tables, line.mode, Done(line, st, ps[0]).stack, ps[1..])
    ensures DoneAll(line, st, ps) == DoneAll(line, Done(line, st, ps[0]), ps[1..])
  {
    hide Meant, StackAfter, SignalsFor, Sends;
    var first := SignalsFor(line.tables, line.mode, st.stack, ps[0]);
    var rest := SignalsAlong(line.tables, line.mode, StackAfter(line.tables, line.mode, st.stack, ps[0]), ps[1..]);
    SendsTwo(first, rest);
    assert (st.out + Sends(first)) + Sends(rest) == st.out + (Sends(first) + Sends(rest));
  }

  lemma DoneNothing(line: Line, st: State)
    requires line.tables.Valid()
    ensures DoneAll(line, st, []) == st
  {
    assert st.out + Sends([]) == st.out;
  }

  function Flagless(e: LoopEnd): LoopEnd {
    e.(st := e.st.(singleKind := false))
  }

  lemma RoundsIgnoreFlag(line: Line, st: State, flag: bool, ts: seq<Token>)
    requires line.tables.Valid()
    ensures Flagless(Rounds(line, st.(singleKind := flag), ts)) == Flagless(Rounds(line, st, ts))
  {
    hide Round;
    RoundIgnoresFlag(line, st, ts);
    RoundIgnoresFlag(line, st.(singleKind := flag), ts);
  }

  /** One round of the main loop. */
  lemma RoundsUnfold(line: Line, st: State, ts: seq<Token>)
    requires line.tables.Valid() && ts != []
    requires Round(line, st, ts).matched && Round(line, st, ts).st.actionsOk
    ensures var m := Round(line, st, ts);
      Rounds(line, st, ts) ==
        if Missing(line, m.st) then LoopEnd(m.st, m.rest, false, true) else Rounds(line, m.st, m.rest)
  {
    hide Round, Missing;
    RoundConsumes(line, st, ts);
  }

  lemma OneAndMore(p: Phrase, rest: seq<Phrase>, more: seq<Token>)
    ensures AllTokens([p] + rest) + more == Tokens(p) + (AllTokens(rest) + more)
    ensures AllTokens([p] + rest) + more != []
  {
    hide Tokens;
    assert ([p] + rest)[1..] == rest;
    Starts(p, more);
  }

  /** Behind a function word other phrases than kinds have no meaning. */
  lemma KindsOnlyBehindWord(tables: Tables, mode: Mode, stack: Stack, p: Phrase)
    requires tables.Valid() && mode != Standard && Meant(tables, mode, stack, p)
    ensures OfKind(p)
    ensures var next := StackAfter(tables, mode, stack, p); stack <= next && |stack| < |next|
  {
    hide NameFits, Unclaimed;
    if p.ByName? {
      NameFitsToken(tables, stack, p.kind, p.name);
    }
  }

  lemma {:induction false} FunctionPhrases(line: Line, st: State, ps: seq<Phrase>, more: seq<Token>)
    requires line.tables.Valid() && !line.dryRun && line.mode != Standard && st.actionsOk
    requires Readable(line.tables, line.mode, st.stack, ps)
    ensures var e := Rounds(line, st, AllTokens(ps) + more);
      if line.mode != Create && !AllThere(line.tables, line.mode, line.objectExists, st.stack, ps) then !e.good && e.missing
      else Flagless(e) == Flagless(Rounds(line, DoneAll(line, st, ps), more))
    decreases |ps|
  {
    hide Meant, Round, Tokens, StackAfter, SignalsFor, DoneAll, There;
    if ps == [] {
      DoneNothing(line, st);
      assert AllTokens(ps) + more == more;
    } else {
      var p, rest := ps[0], ps[1..];
      assert ps == [p] + rest;
      OneAndMore(p, rest, more);
      KindsOnlyBehindWord(line.tables, line.mode, st.stack, p);
      KindRound(line, st, p, AllTokens(rest) + more);
      RoundsUnfold(line, st, AllTokens(ps) + more);
      DoneFirst(line, st, ps);
      var next := Round(line, st, AllTokens(ps) + more).st;
      MissingUnlessThere(line, next);
      if !Missing(line, next) {
        FunctionPhrases(line, next, rest, more);
        FlagKept(line, Done(line, st, p), next.singleKind, rest);
        RoundsIgnoreFlag(line, DoneAll(line, st, ps), next.singleKind, more);
      }
    }
  }

  lemma FlagKept(line: Line, st: State, flag: bool, ps: seq<Phrase>)
    requires line.tables.Valid() && Readable(line.tables, line.mode, st.stack, ps)
    ensures DoneAll(line, st.(singleKind := flag), ps) == DoneAll(line, st, ps).(singleKind := flag)
  {
    hide Meant;
  }

  lemma MissingUnlessThere(line: Line, st: State)
    requires line.mode != Standard && st.stack != []
    ensures Missing(line, st) <==> line.mode != Create && !There(line.objectExists, st.stack)
  {
  }

  // ---- Attributes and what follows them ----

  /** Behind an attribute stands one kind and nothing else. */
  predicate OneKindLeft(line: Line, st: State, ts: seq<Token>)
    requires line.tables.Valid()
  {
    && ts != [] && st.stack != []
    && !Attribute(line, st, ts, Last(st.stack).kind).matched
    && Kinds(line, st, ts, Last(st.stack).kind).matched
    && (Kinds(line, st, ts, Last(st.stack).kind).rest == [] || !Kinds(line, st, ts, Last(st.stack).kind).st.actionsOk)
  }

  /** Reading on behind an attribute is like starting a new round, except that a kind there is not a bare one. */
  lemma BehindAttribute(line: Line, st: State, ts: seq<Token>)
    requires line.tables.Valid() && line.mode == Standard && st.stack != [] && st.actionsOk && ts != []
    requires Attribute(line, st.(singleKind := false), ts, Last(st.stack).kind).matched
    requires var one := Attribute(line, st.(singleKind := false), ts, Last(st.stack).kind);
      one.st.stack == st.stack && one.st.actionsOk && !one.st.singleKind
    ensures var one := Attribute(line, st.(singleKind := false), ts, Last(st.stack).kind);
      var rest := Rounds(line, one.st, one.rest);
      Rounds(line, st, ts) == if OneKindLeft(line, one.st, one.rest) then Flagless(rest) else rest
  {
    hide Attribute, Kinds;
    var kind := Last(st.stack).kind;
    var one := Attribute(line, st.(singleKind := false), ts, kind);
    RoundConsumes(line, st, ts);
    AttributeConsumes(line, one.st, one.rest, kind);
    KindsConsume(line, one.st, one.rest, kind);
    if one.rest == [] {
      NothingMore(line, one.st, kind);
      NoAttributeLeft(line, one.st, kind);
      assert Round(line, st, ts) == Match(one.st, [], true);
    } else {
      RoundConsumes(line, one.st, one.rest);
      var second := Attribute(line, one.st, one.rest, kind);
      if second.matched {
        assert one.st.(singleKind := false) == one.st;
        assert Round(line, st, ts) == Round(line, one.st, one.rest);
      } else {
        OneAttribute(line, st, ts);
      }
    }
  }

  lemma NoAttributeLeft(line: Line, st: State, kind: Ident)
    ensures Attribute(line, st, [], kind) == Fail(st, [])
  {
    hide IsObjectToken;
  }

  lemma OneAttribute(line: Line, st: State, ts: seq<Token>)
    requires line.tables.Valid() && line.mode == Standard && st.stack != [] && st.actionsOk && ts != []
    requires Attribute(line, st.(singleKind := false), ts, Last(st.stack).kind).matched
    requires var one := Attribute(line, st.(singleKind := false), ts, Last(st.stack).kind);
      && one.st.stack == st.stack && one.st.actionsOk && !one.st.singleKind && one.rest != []
      && !Attribute(line, one.st, one.rest, Last(st.stack).kind).matched
    ensures var one := Attribute(line, st.(singleKind := false), ts, Last(st.stack).kind);
      var rest := Rounds(line, one.st, one.rest);
      Rounds(line, st, ts) == if OneKindLeft(line, one.st, one.rest) then Flagless(rest) else rest
  {
    hide Attribute, Kinds;
    var kind := Last(st.stack).kind;
    var one := Attribute(line, st.(singleKind := false), ts, kind);
    var nested := Kinds(line, one.st, one.rest, kind);
    RoundConsumes(line, st, ts);
    RoundConsumes(line, one.st, one.rest);
    KindsConsume(line, one.st, one.rest, kind);
    KindsKeepFlag(line, one.st, one.rest, kind);
    assert one.st.(singleKind := false) == one.st;
    assert Round(line, st, ts) == nested.(matched := true);
    if nested.matched {
      assert Round(line, one.st, one.rest) == nested.(st := nested.st.(singleKind := true));
      assert nested.st.(singleKind := false) == nested.st;
      AfterNested(line, nested.st, nested.rest);
    } else {
      FailedKindsKeep(line, one.st, one.rest, kind);
      assert Rounds(line, st, ts) == Rounds(line, one.st, one.rest);
    }
  }

  /** A kind that does not match leaves everything alone. */
  lemma FailedKindsKeep(line: Line, st: State, ts: seq<Token>, kind: Ident)
    requires line.tables.Valid()
    ensures !Kinds(line, st, ts, kind).matched ==> Kinds(line, st, ts, kind) == Fail(st, ts)
  {
    hide EnterKind, IsObjectToken;
  }

  lemma AfterNested(line: Line, st: State, ts: seq<Token>)
    requires line.tables.Valid() && !st.singleKind
    ensures if ts != [] then Rounds(line, st.(singleKind := true), ts) == Rounds(line, st, ts)
      else Rounds(line, st, ts) == Flagless(Rounds(line, st.(singleKind := true), ts))
  {
    hide Round;
    RoundIgnoresFlag(line, st, ts);
    RoundIgnoresFlag(line, st.(singleKind := true), ts);
  }

  /** The tokens behind an attribute hold one kind alone exactly if one phrase is left and it is a kind. */
  lemma KindLeft(line: Line, st: State, ps: seq<Phrase>)
    requires line.tables.Valid() && !line.dryRun && line.mode == Standard && st.stack != [] && st.actionsOk
    requires Readable(line.tables, line.mode, st.stack, ps)
    ensures OneKindLeft(line, st, AllTokens(ps)) <==> |ps| == 1 && OfKind(ps[0])
  {
    hide Meant, Tokens, Attribute, Kinds, StackAfter, SignalsFor, Done;
    if ps != [] {
      var p, rest := ps[0], ps[1..];
      assert ps == [p] + rest;
      OneAndMore(p, rest, []);
      assert AllTokens(ps) + [] == AllTokens(ps) && AllTokens(rest) + [] == AllTokens(rest);
      if OfKind(p) {
        KindIsNoAttribute(line, st, p, AllTokens(rest));
        NestedMatches(line, st, p, AllTokens(rest));
        DoneKeeps(line, st, p);
        if rest != [] {
          Starts(rest[0], AllTokens(rest[1..]));
        }
      } else if OfAttribute(p) {
        AttributeMatches(line, st, p, AllTokens(rest));
      } else {
        EndIsNoKind(line, st, AllTokens(rest));
      }
    }
  }

  lemma DoneKeeps(line: Line, st: State, p: Phrase)
    requires line.tables.Valid() && Meant(line.tables, line.mode, st.stack, p)
    ensures Done(line, st, p).actionsOk == st.actionsOk && Done(line, st, p).singleKind == st.singleKind
    ensures OfAttribute(p) ==> Done(line, st, p).stack == st.stack
  {
    hide Meant, SignalsFor, Pushed;
  }

  lemma EndIsNoKind(line: Line, st: State, more: seq<Token>)
    requires line.tables.Valid() && Meant(line.tables, line.mode, st.stack, End)
    ensures !Kinds(line, st, Tokens(End) + more, Last(st.stack).kind).matched
  {
    hide EnterKind, IsObjectToken;
    Starts(End, more);
  }

  /** In standard mode. */
  lemma {:induction false} StandardPhrases(line: Line, st: State, ps: seq<Phrase>)
    requires line.tables.Valid() && !line.dryRun && line.mode == Standard && st.actionsOk
    requires Readable(line.tables, line.mode, st.stack, ps)
    ensures Rounds(line, st, AllTokens(ps)) ==
      LoopEnd(DoneAll(line, st, ps).(singleKind := if ps == [] then st.singleKind else EndsBare(ps)), [], true, false)
    decreases |ps|
  {
    hide Meant, Round, Rounds, Tokens, StackAfter, SignalsFor, DoneAll, Done, Attribute, OneKindLeft, OfKind, OfAttribute;
    if ps == [] {
      DoneNothing(line, st);
      NothingLeft(line, st);
    } else {
      var p, rest := ps[0], ps[1..];
      DoneFirst(line, st, ps);
      var next := Done(line, st.(singleKind := false), p).(singleKind := OfKind(p));
      NextState(line, st, p);
      StandardPhrases(line, next, rest);
      assert DoneAll(line, next, rest) == DoneAll(line, Done(line, st, p), rest).(singleKind := OfKind(p)) by {
        FlagKept(line, Done(line, st, p), OfKind(p), rest);
      }
      FirstPhrase(line, st, ps);
      EndsBareNext(ps);
    }
  }

  /** The state in which the rest of a standard line is read. */
  lemma NextState(line: Line, st: State, p: Phrase)
    requires line.tables.Valid() && Meant(line.tables, line.mode, st.stack, p)
    ensures Done(line, st.(singleKind := false), p).(singleKind := OfKind(p)) == Done(line, st, p).(singleKind := OfKind(p))
    ensures Done(line, st, p).actionsOk == st.actionsOk
  {
    hide Meant, SignalsFor, StackAfter;
  }

  lemma FirstPhrase(line: Line, st: State, ps: seq<Phrase>)
    requires line.tables.Valid() && !line.dryRun && line.mode == Standard && st.actionsOk && ps != []
    requires Readable(line.tables, line.mode, st.stack, ps)
    ensures var next := Done(line, st.(singleKind := false), ps[0]).(singleKind := OfKind(ps[0]));
      var after := Rounds(line, next, AllTokens(ps[1..]));
      Rounds(line, st, AllTokens(ps)) == if OfAttribute(ps[0]) && |ps| == 2 && OfKind(ps[1]) then Flagless(after) else after
  {
    hide Meant, Round, Rounds, Tokens, StackAfter, SignalsFor, Done, Attribute, OneKindLeft, OfKind, OfAttribute, Missing;
    var p, rest := ps[0], ps[1..];
    assert ps == [p] + rest;
    OneAndMore(p, rest, []);
    assert AllTokens(ps) + [] == AllTokens(ps) && AllTokens(rest) + [] == AllTokens(rest);
    var cleared := st.(singleKind := false);
    var next := Done(line, cleared, p).(singleKind := OfKind(p));
    PhraseSorts(p);
    DoneKeeps(line, cleared, p);
    NeverMissing(line, next);
    NextReadable(line, cleared, ps);
    if OfAttribute(p) {
      InsideBlock(line.tables, line.mode, st.stack, p);
      AttributeMatches(line, cleared, p, AllTokens(rest));
      BehindAttribute(line, st, AllTokens(ps));
      KindLeft(line, next, rest);
    } else if OfKind(p) {
      KindRound(line, st, p, AllTokens(rest));
      NextState(line, st, p);
      RoundsUnfold(line, st, AllTokens(ps));
    } else {
      EndMatches(line, st, AllTokens(rest));
      RoundsUnfold(line, st, AllTokens(ps));
    }
  }

  lemma NextReadable(line: Line, st: State, ps: seq<Phrase>)
    requires line.tables.Valid() && Readable(line.tables, line.mode, st.stack, ps) && ps != []
    ensures Readable(line.tables, line.mode, Done(line, st, ps[0]).stack, ps[1..])
  {
    hide Meant, SignalsFor, StackAfter;
  }

  lemma NeverMissing(line: Line, st: State)
    requires line.mode == Standard
    ensures !Missing(line, st)
  {
  }

  lemma InsideBlock(tables: Tables, mode: Mode, stack: Stack, p: Phrase)
    requires tables.Valid() && Meant(tables, mode, stack, p) && OfAttribute(p)
    ensures stack != []
  {
  }

  lemma EndsBareNext(ps: seq<Phrase>)
    requires ps != []
    ensures EndsBare(ps) ==
      if |ps| == 1 then OfKind(ps[0])
      else EndsBare(ps[1..]) && !(OfAttribute(ps[0]) && |ps| == 2 && OfKind(ps[1]))
  {
    hide OfKind, OfAttribute;
    if |ps| > 2 {
      assert ps[1..][|ps| - 3] == ps[|ps| - 2];
    }
  }

  lemma PhraseSorts(p: Phrase)
    ensures (OfKind(p) && !OfAttribute(p) && p != End)
      || (!OfKind(p) && OfAttribute(p) && p != End)
      || (!OfKind(p) && !OfAttribute(p) && p == End)
  {
  }
}
