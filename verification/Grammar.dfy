/**
 The command grammar and its semantic actions at the level of tokens: what ParserImpl does to its context stack and
 which signals it sends, as functions of the state. Parser.dfy holds the class whose methods compute them.
 */
module Grammar {
  import opened Core
  import opened Schema
  import opened PathText
  import Values

  /** A word (keyword, identifier, or one complete attribute value) or a parenthesised filter expression. */
  datatype Token = Word(text: string) | Parens(filter: Filter)

  datatype Mode = Standard | Create | Delete | Show | Rename

  /** The signals a line can send; each remembers the context stack at the moment it was sent. */
  datatype Signal =
    | CreateObject(context: Stack, kind: Ident, name: Ident)
    | CategoryEntered(context: Stack, kind: Ident, name: Ident)
    | CategoryLeft
    | SetAttribute(context: Stack, kind: Ident, attribute: Ident, value: Values.Value)
    | SetAttributeInsert(context: Stack, kind: Ident, attribute: Ident, identifier: Ident)
    | SetAttributeRemove(context: Stack, kind: Ident, attribute: Ident, identifier: Ident)
    | RemoveAttribute(context: Stack, kind: Ident, attribute: Ident)
    | ObjectsFilter(context: Stack, kind: Ident, filter: Option<Filter>)
    | FunctionShow(context: Stack)
    | FunctionDelete(context: Stack)
    | FunctionRename(context: Stack, newName: Ident)

  /** Everything that leaves the parser. */
  datatype Event = Started | Sent(signal: Signal) | ErrorReported | Finished

  /**
   The tables the constructor of ParserImpl builds from the database schema. For each kind: the nested kinds offered
   by name, the nested kinds offered to filters and to "new", the settable attributes and the identifier sets (each
   with the kind that owns it).
   */
  datatype Tables = Tables(
    kinds: set<Ident>,
    embeddedInto: map<Ident, Ident>,
    contains: map<Ident, seq<Ident>>,
    nestedKinds: map<Ident, set<Ident>>,
    nestedFilters: map<Ident, set<Ident>>,
    nestedNew: map<Ident, set<Ident>>,
    attributes: map<Ident, map<Ident, Ident>>,
    identifierSets: map<Ident, map<Ident, Ident>>,
    types: map<Ident, map<Ident, Values.Type>>)
  {
    ghost predicate Valid() {
      Acyclic(embeddedInto)
    }

    function NestedKinds(kind: Ident): set<Ident> {
      if kind in nestedKinds then nestedKinds[kind] else {}
    }

    function NestedFilters(kind: Ident): set<Ident> {
      if kind in nestedFilters then nestedFilters[kind] else {}
    }

    function NestedNew(kind: Ident): set<Ident> {
      if kind in nestedNew then nestedNew[kind] else {}
    }

    function Attributes(kind: Ident): map<Ident, Ident> {
      if kind in attributes then attributes[kind] else map[]
    }

    function IdentifierSets(kind: Ident): map<Ident, Ident> {
      if kind in identifierSets then identifierSets[kind] else map[]
    }

    function TypeOf(kind: Ident, attribute: Ident): Values.Type {
      if kind in types && attribute in types[kind] then types[kind][attribute] else Values.OtherType
    }

    /** What the rule of the attribute's type makes of a token. */
    function ReadValue(kind: Ident, attribute: Ident, text: string): Option<Values.Value> {
      Values.Read(TypeOf(kind, attribute), text)
    }

    /** embeddedIntoInclContaining: the embedding kind and the kinds it contains. */
    function Embedding(kind: Ident): seq<Ident> {
      if kind !in embeddedInto then []
      else [embeddedInto[kind]] + (if embeddedInto[kind] in contains then contains[embeddedInto[kind]] else [])
    }
  }

  /** A line as typed, and what the database answers about the existence of objects while it is parsed. */
  datatype Input = Input(tokens: seq<Token>, objectExists: Object -> bool)

  /** The part of the parser's state a line works on; out collects what was sent. */
  datatype State = State(stack: Stack, actionsOk: bool, singleKind: bool, out: seq<Event>)

  /** What stays the same while one line is parsed: objectExists answers the objectData query. */
  datatype Line = Line(tables: Tables, mode: Mode, dryRun: bool, objectExists: Object -> bool)

  // ---- Semantic actions ----

  function Send(line: Line, st: State, signal: Signal): State {
    if line.dryRun then st else st.(out := st.out + [Sent(signal)])
  }

  function Push(st: State, item: Item): State {
    st.(stack := st.stack + [item])
  }

  function Reject(st: State): State {
    st.(actionsOk := false)
  }

  /** The (kind, name) pairs of a qualified name, innermost first; None when the embedding ends too early. */
  function Chain(tables: Tables, kind: Ident, names: Name): (r: Option<seq<Item>>)
    ensures r.Some? ==> |r.value| == |names| && forall i | 0 <= i < |names| :: r.value[i].Obj?
    decreases |names|
  {
    if names == [] then Some([])
    else if |names| == 1 then Some([Obj(kind, names[0])])
    else if kind !in tables.embeddedInto then None
    else
      var rest := Chain(tables, tables.embeddedInto[kind], DropLast(names));
      if rest.None? then None else Some([Obj(kind, Last(names))] + rest.value)
  }

  /** The chain of a name whose innermost pairs are known already; names ends at the last known pair. */
  ghost function Continued(tables: Tables, known: seq<Item>, names: Name): Option<seq<Item>>
    requires known != []
  {
    var rest := Chain(tables, Last(known).kind, names);
    if rest.None? then None else Some(DropLast(known) + rest.value)
  }

  lemma ContinuedStarts(tables: Tables, first: Item, names: Name)
    ensures Continued(tables, [first], names) == Chain(tables, first.kind, names)
  {
    var rest := Chain(tables, first.kind, names);
    assert DropLast([first]) == [];
    assert rest.Some? ==> [] + rest.value == rest.value;
  }

  lemma ContinuedStep(tables: Tables, known: seq<Item>, names: Name)
    requires known != [] && |names| > 1 && Last(known) == Obj(Last(known).kind, Last(names))
    ensures Continued(tables, known, names) ==
      if Last(known).kind !in tables.embeddedInto then None
      else Continued(tables, known + [Obj(tables.embeddedInto[Last(known).kind], names[|names| - 2])], DropLast(names))
  {
    var kind := Last(known).kind;
    if kind in tables.embeddedInto {
      var rest := Chain(tables, tables.embeddedInto[kind], DropLast(names));
      if rest.Some? {
        assert known == DropLast(known) + [Last(known)];
        assert DropLast(known) + ([Last(known)] + rest.value) == known + rest.value;
      }
    }
  }

  predicate ParentAccepts(tables: Tables, stack: Stack, kind: Ident) {
    kind in tables.embeddedInto ==> stack != [] && Last(stack).kind in tables.Embedding(kind)
  }

  /** Pushes the chain from its outermost end; in create mode only the innermost object is created. */
  function EnterChain(line: Line, st: State, chain: seq<Item>): State
    requires forall i | 0 <= i < |chain| :: chain[i].Obj?
    decreases |chain|
  {
    if chain == [] then st
    else
      var item := Last(chain);
      var pushed := Push(st, item);
      var signal :=
        if |chain| == 1 && line.mode == Create then CreateObject(pushed.stack, item.kind, item.name)
        else CategoryEntered(pushed.stack, item.kind, item.name);
      EnterChain(line, Send(line, pushed, signal), DropLast(chain))
  }

  /** categoryEntered. */
  function EnterKind(line: Line, st: State, kind: Ident, name: Ident): State
    requires line.tables.Valid() && IsObjectToken(name)
  {
    ObjectTokens(name);
    var names := PathToVector(name).value;
    if |st.stack| + |names| - 1 != Depth(line.tables.embeddedInto, kind) then Reject(st)
    else
      var chain := Chain(line.tables, kind, names);
      if chain.None? then Reject(st)
      else if !ParentAccepts(line.tables, st.stack, Last(chain.value).kind) then Reject(st)
      else EnterChain(line, st, chain.value)
  }

  /** categoryLeft. */
  function LeaveKind(line: Line, st: State): State
    requires st.stack != []
  {
    Send(line, st.(stack := DropLast(st.stack)), CategoryLeft)
  }

  /** newObject. */
  function NewObject(line: Line, st: State, kind: Ident): State {
    var pushed := Push(st, Obj(kind, ""));
    Send(line, pushed, CreateObject(pushed.stack, kind, ""))
  }

  /** objectsFilter. */
  function FilterObjects(line: Line, st: State, kind: Ident, filter: Option<Filter>): State {
    var pushed := Push(st, Flt(kind, filter));
    Send(line, pushed, ObjectsFilter(pushed.stack, kind, filter))
  }

  // ---- Grammar rules: each either matches, acts and consumes, or leaves everything alone ----

  datatype Match = Match(st: State, rest: seq<Token>, matched: bool)

  function Fail(st: State, ts: seq<Token>): Match {
    Match(st, ts, false)
  }

  predicate WordIn(ts: seq<Token>, i: nat, words: set<Ident>) {
    i < |ts| && ts[i].Word? && ts[i].text in words
  }

  predicate NameAt(ts: seq<Token>, i: nat) {
    i < |ts| && ts[i].Word? && IsObjectToken(ts[i].text)
  }

  /** KindsOnlyParser: "kind name". */
  function KindsOnly(line: Line, st: State, ts: seq<Token>, kinds: set<Ident>): Match
    requires line.tables.Valid()
  {
    if WordIn(ts, 0, kinds) && NameAt(ts, 1)
    then Match(EnterKind(line, st, ts[0].text, ts[1].text), ts[2..], true)
    else Fail(st, ts)
  }

  /** KindsFiltersParser: "all kind" or "kind where (filter)". */
  function KindsFilters(line: Line, st: State, ts: seq<Token>, kinds: set<Ident>): Match {
    if WordIn(ts, 0, {"all"}) && WordIn(ts, 1, kinds)
    then Match(FilterObjects(line, st, ts[1].text, None), ts[2..], true)
    else if WordIn(ts, 0, kinds) && WordIn(ts, 1, {WHERE}) && |ts| > 2 && ts[2].Parens?
    then Match(FilterObjects(line, st, ts[0].text, Some(ts[2].filter)), ts[3..], true)
    else Fail(st, ts)
  }

  /** KindsConstructParser: "new kind". */
  function KindsConstruct(line: Line, st: State, ts: seq<Token>, kinds: set<Ident>): Match {
    if WordIn(ts, 0, {"new"}) && WordIn(ts, 1, kinds)
    then Match(NewObject(line, st, ts[1].text), ts[2..], true)
    else Fail(st, ts)
  }

  /** KindsParser: the ordered choice of the three. */
  function Kinds(line: Line, st: State, ts: seq<Token>, kind: Ident): Match
    requires line.tables.Valid()
  {
    var byName := KindsOnly(line, st, ts, line.tables.NestedKinds(kind));
    if byName.matched then byName
    else
      var byFilter := KindsFilters(line, st, ts, line.tables.NestedFilters(kind));
      if byFilter.matched then byFilter else KindsConstruct(line, st, ts, line.tables.NestedNew(kind))
  }

  /** TopLevelParser. */
  function TopLevel(line: Line, st: State, ts: seq<Token>): Match
    requires line.tables.Valid()
  {
    var byName := KindsOnly(line, st, ts, line.tables.kinds);
    var m := if byName.matched then byName else KindsFilters(line, st, ts, line.tables.kinds);
    if m.matched then m.(st := m.st.(singleKind := true)) else m
  }

  /** One of AttributesSettingParser, AttributeRemovalsParser, IdentifiersSetsParser, tried in this order. */
  function Attribute(line: Line, st: State, ts: seq<Token>, kind: Ident): Match {
    var attributes := line.tables.Attributes(kind);
    var sets := line.tables.IdentifierSets(kind);
    if WordIn(ts, 0, attributes.Keys) && |ts| > 1 && ts[1].Word?
       && line.tables.ReadValue(attributes[ts[0].text], ts[0].text, ts[1].text).Some?
    then
      var owner := attributes[ts[0].text];
      var value := line.tables.ReadValue(owner, ts[0].text, ts[1].text).value;
      Match(Send(line, st, SetAttribute(st.stack, owner, ts[0].text, value)), ts[2..], true)
    else if WordIn(ts, 0, {"no"}) && WordIn(ts, 1, attributes.Keys)
    then Match(Send(line, st, RemoveAttribute(st.stack, attributes[ts[1].text], ts[1].text)), ts[2..], true)
    else if WordIn(ts, 0, {"add"}) && WordIn(ts, 1, sets.Keys) && NameAt(ts, 2)
    then Match(Send(line, st, SetAttributeInsert(st.stack, sets[ts[1].text], ts[1].text, ts[2].text)), ts[3..], true)
    else if WordIn(ts, 0, {"remove"}) && WordIn(ts, 1, sets.Keys) && NameAt(ts, 2)
    then Match(Send(line, st, SetAttributeRemove(st.stack, sets[ts[1].text], ts[1].text, ts[2].text)), ts[3..], true)
    else Fail(st, ts)
  }

  /** AttributesParser without its demand for a first attribute. */
  function AttributeStar(line: Line, st: State, ts: seq<Token>, kind: Ident): (m: Match)
    ensures |m.rest| <= |ts| && m.matched
    decreases |ts|
  {
    var one := Attribute(line, st, ts, kind);
    if one.matched then AttributeStar(line, one.st, one.rest, kind) else Match(st, ts, true)
  }

  /** WholeKindParser: attributes and then perhaps a nested kind, or a nested kind alone, or "end". */
  function WholeKind(line: Line, st: State, ts: seq<Token>): Match
    requires line.tables.Valid() && st.stack != []
  {
    var kind := Last(st.stack).kind;
    var first := Attribute(line, st, ts, kind);
    if first.matched then
      var all := AttributeStar(line, first.st, first.rest, kind);
      var nested := Kinds(line, all.st, all.rest, kind);
      nested.(matched := true)
    else
      var nested := Kinds(line, st, ts, kind);
      if nested.matched then nested.(st := nested.st.(singleKind := true))
      else if WordIn(ts, 0, {"end"}) then Match(LeaveKind(line, st), ts[1..], true)
      else Fail(st, ts)
  }

  // ---- parseLineImpl ----

  /** One round of the main loop. */
  function Round(line: Line, st: State, ts: seq<Token>): Match
    requires line.tables.Valid()
  {
    var cleared := st.(singleKind := false);
    if cleared.stack == [] then TopLevel(line, cleared, ts)
    else
      var kind := Last(cleared.stack).kind;
      match line.mode
      case Standard => WholeKind(line, cleared, ts)
      case Create => KindsOnly(line, cleared, ts, line.tables.NestedKinds(kind))
      case _ => Kinds(line, cleared, ts, kind)
  }

  /** The object delete, show and rename insist on does not exist. */
  predicate Missing(line: Line, st: State) {
    && line.mode in {Delete, Show, Rename}
    && st.stack != []
    && FilterFree(st.stack)
    && !line.objectExists(Object(Last(st.stack).kind, StackPath(st.stack)))
  }

  datatype LoopEnd = LoopEnd(st: State, rest: seq<Token>, good: bool, missing: bool)

  predicate IsSuffix(rest: seq<Token>, ts: seq<Token>) {
    |rest| <= |ts| && rest == ts[|ts| - |rest|..]
  }

  predicate Consumes(m: Match, ts: seq<Token>) {
    if m.matched then |m.rest| < |ts| && IsSuffix(m.rest, ts) else m.rest == ts
  }

  lemma SuffixOfSuffix(a: seq<Token>, b: seq<Token>, c: seq<Token>)
    requires IsSuffix(a, b) && IsSuffix(b, c)
    ensures IsSuffix(a, c)
  {
  }

  lemma AttributeConsumes(line: Line, st: State, ts: seq<Token>, kind: Ident)
    ensures Consumes(Attribute(line, st, ts, kind), ts)
  {
    hide Send, IsObjectToken;
  }

  lemma {:induction false} AttributeStarConsumes(line: Line, st: State, ts: seq<Token>, kind: Ident)
    ensures IsSuffix(AttributeStar(line, st, ts, kind).rest, ts)
    decreases |ts|
  {
    hide Attribute;
    AttributeConsumes(line, st, ts, kind);
    var one := Attribute(line, st, ts, kind);
    if one.matched {
      AttributeStarConsumes(line, one.st, one.rest, kind);
      SuffixOfSuffix(AttributeStar(line, one.st, one.rest, kind).rest, one.rest, ts);
    }
  }

  lemma KindsConsume(line: Line, st: State, ts: seq<Token>, kind: Ident)
    requires line.tables.Valid()
    ensures Consumes(Kinds(line, st, ts, kind), ts)
  {
    hide EnterKind, FilterObjects, NewObject, IsObjectToken;
  }

  lemma TopLevelConsumes(line: Line, st: State, ts: seq<Token>)
    requires line.tables.Valid()
    ensures Consumes(TopLevel(line, st, ts), ts)
  {
    hide EnterKind, FilterObjects, IsObjectToken;
  }

  lemma WholeKindConsumes(line: Line, st: State, ts: seq<Token>)
    requires line.tables.Valid() && st.stack != []
    ensures Consumes(WholeKind(line, st, ts), ts)
  {
    hide Kinds, Attribute, LeaveKind, AttributeStar;
    var kind := Last(st.stack).kind;
    var first := Attribute(line, st, ts, kind);
    AttributeConsumes(line, st, ts, kind);
    if first.matched {
      var all := AttributeStar(line, first.st, first.rest, kind);
      AttributeStarConsumes(line, first.st, first.rest, kind);
      SuffixOfSuffix(all.rest, first.rest, ts);
      KindsConsume(line, all.st, all.rest, kind);
      SuffixOfSuffix(Kinds(line, all.st, all.rest, kind).rest, all.rest, ts);
    } else {
      KindsConsume(line, st, ts, kind);
    }
  }

  /** Every successful round consumes a token, so a line is always parsed to an end. */
  lemma RoundConsumes(line: Line, st: State, ts: seq<Token>)
    requires line.tables.Valid()
    ensures Consumes(Round(line, st, ts), ts)
  {
    hide WholeKind, Kinds, EnterKind, TopLevel, IsObjectToken;
    var cleared := st.(singleKind := false);
    if cleared.stack == [] {
      TopLevelConsumes(line, cleared, ts);
    } else {
      WholeKindConsumes(line, cleared, ts);
      KindsConsume(line, cleared, ts, Last(cleared.stack).kind);
    }
  }

  /** The main loop; good is parsingSucceeded. */
  function Rounds(line: Line, st: State, ts: seq<Token>): LoopEnd
    requires line.tables.Valid()
    decreases |ts|
  {
    if ts == [] then LoopEnd(st, ts, true, false)
    else
      RoundConsumes(line, st, ts);
      var m := Round(line, st, ts);
      var missing := m.matched && m.st.actionsOk && Missing(line, m.st);
      if m.matched && m.st.actionsOk && !missing then Rounds(line, m.st, m.rest)
      else LoopEnd(m.st, m.rest, m.matched && !missing, missing)
  }

  /** The new name behind the object in a rename; the result is parsingSucceeded. */
  predicate NewNameGood(line: Line, depth: nat, e: LoopEnd) {
    if line.mode == Rename && |e.st.stack| > depth && e.st.actionsOk && !e.missing
    then NameAt(e.rest, 0) && |e.rest| == 1
    else e.good
  }

  /** The signal of the function word. */
  function SendFunction(line: Line, e: LoopEnd): State {
    match line.mode
    case Delete => Send(line, e.st, FunctionDelete(e.st.stack))
    case Show => Send(line, e.st, FunctionShow(e.st.stack))
    case Rename =>
      Send(line, e.st, FunctionRename(e.st.stack, if e.rest != [] && e.rest[0].Word? then e.rest[0].text else ""))
    case _ => e.st
  }

  /** Leaving the blocks the line entered; a failed line leaves them silently. */
  function Unwind(line: Line, st: State, depth: nat, good: bool): State
    decreases |st.stack|
  {
    if |st.stack| <= depth then st
    else Unwind(line, if good then LeaveKind(line, st) else st.(stack := DropLast(st.stack)), depth, good)
  }

  /** From the end of the main loop to the end of parseLineImpl. */
  function Conclude(line: Line, depth: nat, e: LoopEnd): (State, bool) {
    var good := NewNameGood(line, depth, e);
    var ok := good && e.st.actionsOk;
    var sent := if ok then SendFunction(line, e) else e.st;
    var reported := if !ok && !line.dryRun then sent.(out := sent.out + [ErrorReported]) else sent;
    var stays := (line.mode == Standard && reported.singleKind) || line.dryRun;
    (if stays then reported else Unwind(line, reported, depth, good), ok)
  }

  function FunctionWord(ts: seq<Token>): Mode {
    if WordIn(ts, 0, {"create"}) then Create
    else if WordIn(ts, 0, {"delete"}) then Delete
    else if WordIn(ts, 0, {"show"}) then Show
    else if WordIn(ts, 0, {"rename"}) then Rename
    else Standard
  }

  /** How a line is set up: its mode comes from the function word. */
  function Setup(tables: Tables, dryRun: bool, objectExists: Object -> bool, ts: seq<Token>): Line {
    Line(tables, FunctionWord(ts), dryRun, objectExists)
  }

  /** parseLineImpl after out was sent: the final state and whether the line was accepted. */
  function ParseImpl(tables: Tables, dryRun: bool, objectExists: Object -> bool, stack: Stack, out: seq<Event>,
                     ts: seq<Token>): (State, bool)
    requires tables.Valid()
  {
    var line := Setup(tables, dryRun, objectExists, ts);
    var mode := line.mode;
    var st := State(stack, true, false, out);
    if ts == [] then (st, true)
    else if mode == Standard then Conclude(line, |stack|, Rounds(line, st, ts))
    else if |ts| > 1 then Conclude(line, |stack|, Rounds(line, st, ts[1..]))
    else if mode == Show then (Send(line, st, FunctionShow(stack)), true)
    else Conclude(line, |stack|, LoopEnd(st, [], false, false))
  }

  /** parseLine: what it leaves on the context stack and everything it sends. */
  function ParseLine(tables: Tables, objectExists: Object -> bool, stack: Stack, ts: seq<Token>): (Stack, seq<Event>)
    requires tables.Valid()
  {
    var (st, ok) := ParseImpl(tables, false, objectExists, stack, [Started], ts);
    (st.stack, if ok then st.out + [Finished] else st.out)
  }
}
