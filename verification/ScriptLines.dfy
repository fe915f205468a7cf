/** What the parser makes of each kind of line that occurs in a rebase script, for objects at any depth. */
module ScriptLines {
  import opened Core
  import opened Schema
  import opened PathText
  import opened Grammar
  import opened GrammarLaws
  import opened LineLaws
  import opened ScriptFile
  import Values

  const FUNCTION_WORDS: set<Ident> := {"create", "delete", "show", "rename"}

  /** The words with a meaning of their own inside a block. */
  const KEYWORDS: set<Ident> := {"no", "add", "remove", "all", "new", "end"}

  /** A kind the grammar knows and a name with one part for each level of embedding. */
  predicate WholeName(tables: Tables, kind: Ident, name: Ident)
    requires tables.Valid()
  {
    && kind in tables.kinds && kind !in FUNCTION_WORDS && IsObjectToken(name)
    && PathToVector(name).Some? && |PathToVector(name).value| == Depth(tables.embeddedInto, kind) + 1
  }

  /** An attribute of the kind itself, and no keyword in its place. */
  predicate OwnAttribute(tables: Tables, kind: Ident, attribute: Ident) {
    && attribute in tables.Attributes(kind) && tables.Attributes(kind)[attribute] == kind
    && attribute !in FUNCTION_WORDS && attribute != "no"
    && "no" !in tables.Attributes(kind) && "end" !in tables.Attributes(kind)
  }

  /** The items a whole name stands for, outermost first. */
  function PathOf(tables: Tables, kind: Ident, name: Ident): (path: Stack)
    requires tables.Valid() && WholeName(tables, kind, name)
  {
    ChainClimbs(tables, kind, PathToVector(name).value);
    Reversed(Chain(tables, kind, PathToVector(name).value).value)
  }

  /** Every item but the first is of a kind embedded in the kind of the one before. */
  predicate Climbing(tables: Tables, path: Stack) {
    && path != [] && FilterFree(path) && path[0].kind !in tables.embeddedInto
    && forall k | 1 <= k < |path| :: ClimbingAt(tables, path, k)
  }

  predicate ClimbingAt(tables: Tables, path: Stack, k: nat)
    requires 1 <= k < |path|
  {
    path[k].kind in tables.embeddedInto && tables.embeddedInto[path[k].kind] == path[k - 1].kind
  }

  lemma PathShape(tables: Tables, kind: Ident, name: Ident)
    requires tables.Valid() && WholeName(tables, kind, name)
    ensures PathToVector(name).Some?
    ensures var path := PathOf(tables, kind, name);
      && Climbing(tables, path) && path != [] && FilterFree(path)
      && Last(path).kind == kind && StackPath(path) == PathToVector(name).value
  {
    hide IsObjectToken, PathToVector;
    var names := PathToVector(name).value;
    ChainClimbs(tables, kind, names);
    PathClimbs(tables, kind, names, Chain(tables, kind, names).value);
  }

  lemma PathClimbs(tables: Tables, kind: Ident, names: Name, chain: seq<Item>)
    requires tables.Valid() && Climbs(tables, kind, names, chain) && |names| == Depth(tables.embeddedInto, kind) + 1
    ensures var path := Reversed(chain);
      Climbing(tables, path) && path != [] && FilterFree(path) && Last(path).kind == kind && StackPath(path) == names
  {
    var path := Reversed(chain);
    assert path[0] == chain[|chain| - 1];
    assert Depth(tables.embeddedInto, path[0].kind) == 0;
    forall k | 1 <= k < |path| ensures ClimbingAt(tables, path, k) {
      assert ClimbsAt(tables, chain, |chain| - 1 - k);
    }
    assert FilterFree(path);
    assert StackPath(path) == names;
  }

  // ---- Entering and leaving ----

  function Sends(signals: seq<Signal>): seq<Event> {
    seq(|signals|, i requires 0 <= i < |signals| => Sent(signals[i]))
  }

  lemma SendsTwo(a: seq<Signal>, b: seq<Signal>)
    ensures Sends(a + b) == Sends(a) + Sends(b)
  {
  }

  /** The signal for the k-th item above the given stack. */
  function EnterSignal(mode: Mode, below: Stack, path: Stack, k: nat): Signal
    requires k < |path| && FilterFree(path)
  {
    if k + 1 == |path| && mode == Create then Signal.CreateObject(below + path[..k + 1], path[k].kind, path[k].name)
    else CategoryEntered(below + path[..k + 1], path[k].kind, path[k].name)
  }

  function Entering(mode: Mode, below: Stack, path: Stack): seq<Signal>
    requires FilterFree(path)
  {
    seq(|path|, k requires 0 <= k < |path| => EnterSignal(mode, below, path, k))
  }

  function Lefts(n: nat): seq<Signal> {
    seq(n, _ => CategoryLeft)
  }

  lemma {:induction false} ChainSends(line: Line, st: State, chain: seq<Item>)
    requires !line.dryRun && forall i | 0 <= i < |chain| :: chain[i].Obj?
    ensures FilterFree(Reversed(chain))
    ensures EnterChain(line, st, chain) == st.(stack := st.stack + Reversed(chain),
      out := st.out + Sends(Entering(line.mode, st.stack, Reversed(chain))))
    decreases |chain|
  {
    hide Entering, Sends;
    var path := Reversed(chain);
    assert FilterFree(path);
    if chain == [] {
      assert path == [];
      NothingEntered(line.mode, st.stack, st.out);
    } else {
      var item := Last(chain);
      var rest := Reversed(DropLast(chain));
      var pushed := Push(st, item);
      var signal :=
        if |chain| == 1 && line.mode == Create then Signal.CreateObject(pushed.stack, item.kind, item.name)
        else CategoryEntered(pushed.stack, item.kind, item.name);
      ChainSends(line, Send(line, pushed, signal), DropLast(chain));
      assert path == [item] + rest;
      EnteringSplits(line.mode, st.stack, item, rest);
      OneThenMore(st.stack, st.out, item, rest, signal, Entering(line.mode, pushed.stack, rest));
    }
  }

  lemma NothingEntered(mode: Mode, stack: Stack, out: seq<Event>)
    ensures stack + [] == stack && out + Sends(Entering(mode, stack, [])) == out
  {
  }

  lemma OneThenMore(stack: Stack, out: seq<Event>, item: Item, rest: Stack, signal: Signal, more: seq<Signal>)
    ensures (stack + [item]) + rest == stack + ([item] + rest)
    ensures (out + [Sent(signal)]) + Sends(more) == out + Sends([signal] + more)
  {
    assert Sends([signal] + more) == [Sent(signal)] + Sends(more);
  }

  lemma EnteringSplits(mode: Mode, below: Stack, item: Item, rest: Stack)
    requires item.Obj? && FilterFree(rest)
    ensures FilterFree([item] + rest)
    ensures Entering(mode, below, [item] + rest) ==
      [if rest == [] && mode == Create then Signal.CreateObject(below + [item], item.kind, item.name)
       else CategoryEntered(below + [item], item.kind, item.name)] + Entering(mode, below + [item], rest)
  {
    var path := [item] + rest;
    forall k | 0 <= k < |rest| ensures EnterSignal(mode, below, path, k + 1) == EnterSignal(mode, below + [item], rest, k) {
      assert path[..k + 2] == [item] + rest[..k + 1];
      assert below + ([item] + rest[..k + 1]) == (below + [item]) + rest[..k + 1];
    }
    assert path[..1] == [item];
  }

  lemma {:induction false} UnwindSends(line: Line, st: State, depth: nat)
    requires !line.dryRun && depth <= |st.stack|
    ensures Unwind(line, st, depth, true) ==
      st.(stack := st.stack[..depth], out := st.out + Sends(Lefts(|st.stack| - depth)))
    decreases |st.stack|
  {
    if |st.stack| == depth {
      assert st.stack[..depth] == st.stack && st.out + Sends(Lefts(0)) == st.out;
    } else {
      var next := LeaveKind(line, st);
      UnwindSends(line, next, depth);
      assert next.stack[..depth] == st.stack[..depth];
      var n := |st.stack| - depth;
      assert Sends(Lefts(n)) == [Sent(CategoryLeft)] + Sends(Lefts(n - 1));
      assert st.out + ([Sent(CategoryLeft)] + Sends(Lefts(n - 1))) == (st.out + [Sent(CategoryLeft)]) + Sends(Lefts(n - 1));
    }
  }

  /** The state after a whole name was read on an empty stack. */
  function Entered(line: Line, st: State, kind: Ident, name: Ident): State
    requires line.tables.Valid() && WholeName(line.tables, kind, name)
  {
    var path := PathOf(line.tables, kind, name);
    PathShape(line.tables, kind, name);
    st.(stack := path, out := st.out + Sends(Entering(line.mode, [], path)))
  }

  lemma EnterWhole(line: Line, st: State, kind: Ident, name: Ident)
    requires line.tables.Valid() && WholeName(line.tables, kind, name) && st.stack == [] && !line.dryRun
    ensures EnterKind(line, st, kind, name) == Entered(line, st, kind, name)
  {
    hide IsObjectToken, PathToVector, EnterChain, Depth, Climbing;
    ObjectTokens(name);
    var names := PathToVector(name).value;
    ChainClimbs(line.tables, kind, names);
    DepthCheckSuffices(line.tables, st.stack, kind, names);
    var chain := Chain(line.tables, kind, names).value;
    ChainSends(line, st, chain);
    PathShape(line.tables, kind, name);
    assert [] + Reversed(chain) == Reversed(chain);
  }

  lemma TopRound(line: Line, st: State, kind: Ident, name: Ident, more: seq<Token>)
    requires line.tables.Valid() && WholeName(line.tables, kind, name) && st.stack == [] && !line.dryRun
    ensures Round(line, st, Words([kind, name]) + more)
         == Match(Entered(line, st.(singleKind := false), kind, name).(singleKind := true), more, true)
  {
    hide EnterKind, IsObjectToken, PathToVector, Depth, Entered;
    var ts := Words([kind, name]) + more;
    var cleared := st.(singleKind := false);
    EnterWhole(line, cleared, kind, name);
    assert ts[0] == Word(kind) && ts[1] == Word(name) && ts[2..] == more;
    assert NameAt(ts, 1) && WordIn(ts, 0, line.tables.kinds);
    assert KindsOnly(line, cleared, ts, line.tables.kinds) == Match(EnterKind(line, cleared, kind, name), more, true);
  }

  lemma EnteredStack(line: Line, st: State, kind: Ident, name: Ident)
    requires line.tables.Valid() && WholeName(line.tables, kind, name)
    ensures var st' := Entered(line, st, kind, name);
      && st'.actionsOk == st.actionsOk && st'.stack != [] && FilterFree(st'.stack)
      && Last(st'.stack).kind == kind && StackPath(st'.stack) == PathToVector(name).value
  {
    hide IsObjectToken, PathToVector, Depth;
    PathShape(line.tables, kind, name);
  }

  /** The object a whole name denotes. */
  function Named(kind: Ident, name: Ident): Object
    requires PathToVector(name).Some?
  {
    Object(kind, PathToVector(name).value)
  }

  /** The main loop over one object on an empty stack; only delete, show and rename insist that it exists. */
  lemma OneObject(line: Line, st: State, kind: Ident, name: Ident, more: seq<Token>)
    requires line.tables.Valid() && WholeName(line.tables, kind, name) && st.stack == [] && st.actionsOk && !line.dryRun
    ensures var entered := Entered(line, st.(singleKind := false), kind, name).(singleKind := true);
      Rounds(line, st, Words([kind, name]) + more) ==
        if line.mode in {Delete, Show, Rename} && !line.objectExists(Named(kind, name))
        then LoopEnd(entered, more, false, true)
        else Rounds(line, entered, more)
  {
    hide Round, WholeName, Entered, PathToVector;
    TopRound(line, st, kind, name, more);
    EnteredStack(line, st.(singleKind := false), kind, name);
    RoundConsumes(line, st, Words([kind, name]) + more);
  }

  // ---- The lines ----

  /** The signals of a line that starts on any stack. */
  function Sending(signals: seq<Signal>): seq<Event> {
    [Started] + Sends(signals)
  }

  lemma NothingLeft(line: Line, st: State)
    requires line.tables.Valid()
    ensures Rounds(line, st, []) == LoopEnd(st, [], true, false)
  {
  }

  lemma SendingMore(signals: seq<Signal>, more: seq<Signal>)
    ensures Sending(signals) + Sends(more) == Sending(signals + more)
  {
    SendsTwo(signals, more);
    assert ([Started] + Sends(signals)) + Sends(more) == [Started] + (Sends(signals) + Sends(more));
  }

  lemma LeaveAll(line: Line, st: State, entering: seq<Signal>)
    requires !line.dryRun && st.out == Sending(entering)
    ensures Unwind(line, st, 0, true) == st.(stack := [], out := Sending(entering + Lefts(|st.stack|)))
  {
    UnwindSends(line, st, 0);
    SendingMore(entering, Lefts(|st.stack|));
  }

  lemma CreateConcludes(line: Line, entered: State)
    requires line.mode == Create && !line.dryRun && entered.actionsOk
    ensures Conclude(line, 0, LoopEnd(entered, [], true, false)) == (Unwind(line, entered, 0, true), true)
  {
    hide Unwind;
  }

  /** "create kind name" enters the outer levels and creates the innermost one. */
  lemma CreateLine(tables: Tables, objectExists: Object -> bool, kind: Ident, name: Ident)
    requires tables.Valid() && WholeName(tables, kind, name)
    ensures FilterFree(PathOf(tables, kind, name))
    ensures var (st, ok) := ParseImpl(tables, false, objectExists, [], [Started], Words(["create", kind, name]));
      var path := PathOf(tables, kind, name);
      ok && st.stack == [] && st.out == Sending(Entering(Create, [], path) + Lefts(|path|))
  {
    hide Rounds, WholeName, PathOf, Entering, Climbing, Unwind, Conclude, Sends, Lefts, NewNameGood, SendFunction;
    var ts := Words(["create", kind, name]);
    var line := Setup(tables, false, objectExists, ts);
    assert ts[0] == Word("create") && ts[1..] == Words([kind, name]) && Words([kind, name]) + [] == Words([kind, name]);
    var st := State([], true, false, [Started]);
    PathShape(tables, kind, name);
    OneObject(line, st, kind, name, []);
    var entered := Entered(line, st, kind, name).(singleKind := true);
    NothingLeft(line, entered);
    CreateConcludes(line, entered);
    LeaveAll(line, entered, Entering(Create, [], PathOf(tables, kind, name)));
  }

  /** "delete kind name" is refused without the object; otherwise it enters all levels and asks for the deletion. */
  lemma DeleteLine(tables: Tables, objectExists: Object -> bool, kind: Ident, name: Ident)
    requires tables.Valid() && WholeName(tables, kind, name)
    ensures FilterFree(PathOf(tables, kind, name))
    ensures var (st, ok) := ParseImpl(tables, false, objectExists, [], [Started], Words(["delete", kind, name]));
      var path := PathOf(tables, kind, name);
      && ok == objectExists(Named(kind, name))
      && (ok ==> st.stack == [] && st.out == Sending(Entering(Delete, [], path) + [FunctionDelete(path)] + Lefts(|path|)))
  {
    hide Rounds, WholeName, PathOf, Entering, PathToVector, Climbing;
    var ts := Words(["delete", kind, name]);
    var line := Setup(tables, false, objectExists, ts);
    assert ts[0] == Word("delete") && ts[1..] == Words([kind, name]) && Words([kind, name]) + [] == Words([kind, name]);
    var st := State([], true, false, [Started]);
    PathShape(tables, kind, name);
    OneObject(line, st, kind, name, []);
    var entered := Entered(line, st, kind, name).(singleKind := true);
    NothingLeft(line, entered);
    if objectExists(Named(kind, name)) {
      FunctionThenLeave(line, entered, FunctionDelete(entered.stack), Entering(Delete, [], PathOf(tables, kind, name)));
    }
  }

  lemma FunctionThenLeave(line: Line, st: State, signal: Signal, entering: seq<Signal>)
    requires !line.dryRun && st.out == Sending(entering)
    ensures Unwind(line, Send(line, st, signal), 0, true) ==
      st.(stack := [], out := Sending(entering + [signal] + Lefts(|st.stack|)))
  {
    UnwindSends(line, Send(line, st, signal), 0);
    SendingMore(entering, [signal]);
    assert Sends([signal]) == [Sent(signal)];
    SendingMore(entering + [signal], Lefts(|st.stack|));
  }

  /** A single word is never a nested kind. */
  lemma LoneWord(line: Line, st: State, word: Ident, kind: Ident)
    requires line.tables.Valid()
    ensures Kinds(line, st, [Word(word)], kind) == Fail(st, [Word(word)])
  {
    hide EnterKind, IsObjectToken;
  }

  lemma NewNameRound(line: Line, st: State, newName: Ident)
    requires line.tables.Valid() && st.stack != [] && line.mode == Rename
    ensures Rounds(line, st, [Word(newName)]) == LoopEnd(st.(singleKind := false), [Word(newName)], false, false)
  {
    hide Kinds;
    LoneWord(line, st.(singleKind := false), newName, Last(st.stack).kind);
  }

  /** "rename kind name newName" */
  lemma RenameLine(tables: Tables, objectExists: Object -> bool, kind: Ident, name: Ident, newName: Ident)
    requires tables.Valid() && WholeName(tables, kind, name) && IsObjectToken(newName)
    ensures FilterFree(PathOf(tables, kind, name))
    ensures var (st, ok) := ParseImpl(tables, false, objectExists, [], [Started], Words(["rename", kind, name, newName]));
      var path := PathOf(tables, kind, name);
      && ok == objectExists(Named(kind, name))
      && (ok ==> st.stack == [] && st.out == Sending(Entering(Rename, [], path) + [FunctionRename(path, newName)] + Lefts(|path|)))
  {
    hide Rounds, WholeName, PathOf, Entering, PathToVector, IsObjectToken, Climbing;
    var ts := Words(["rename", kind, name, newName]);
    var line := Setup(tables, false, objectExists, ts);
    assert ts[0] == Word("rename") && ts[1..] == Words([kind, name]) + [Word(newName)];
    var st := State([], true, false, [Started]);
    PathShape(tables, kind, name);
    OneObject(line, st, kind, name, [Word(newName)]);
    var entered := Entered(line, st, kind, name);
    EnteredStack(line, st, kind, name);
    NewNameRound(line, entered.(singleKind := true), newName);
    if objectExists(Named(kind, name)) {
      FunctionThenLeave(line, entered, FunctionRename(entered.stack, newName), Entering(Rename, [], PathOf(tables, kind, name)));
    }
  }

  /** "kind name" enters every level of the name and stays there. */
  lemma HeaderLine(tables: Tables, objectExists: Object -> bool, kind: Ident, name: Ident)
    requires tables.Valid() && WholeName(tables, kind, name)
    ensures FilterFree(PathOf(tables, kind, name))
    ensures var (st, ok) := ParseImpl(tables, false, objectExists, [], [Started], Words([kind, name]));
      var path := PathOf(tables, kind, name);
      ok && st.stack == path && st.out == Sending(Entering(Standard, [], path))
  {
    hide Rounds, IsObjectToken, PathToVector, Depth, PathOf, Entering, Climbing;
    var ts := Words([kind, name]);
    var line := Setup(tables, false, objectExists, ts);
    assert ts[0] == Word(kind) && ts + [] == ts;
    assert line.mode == Standard;
    PathShape(tables, kind, name);
    var st := State([], true, false, [Started]);
    OneObject(line, st, kind, name, []);
    NothingLeft(line, Entered(line, st, kind, name).(singleKind := true));
  }

  /** "end" leaves one level. */
  lemma EndOfBlock(tables: Tables, objectExists: Object -> bool, stack: Stack)
    requires tables.Valid() && stack != [] && "end" !in tables.Attributes(Last(stack).kind)
    ensures var (st, ok) := ParseImpl(tables, false, objectExists, stack, [Started], Words(["end"]));
      ok && st.stack == DropLast(stack) && st.out == Sending([CategoryLeft])
  {
    hide Kinds;
    var kind := Last(stack).kind;
    var ts := Words(["end"]);
    var line := Setup(tables, false, objectExists, ts);
    var st := State(stack, true, false, [Started]);
    assert ts == [Word("end")];
    assert line.mode == Standard;
    LoneWord(line, st, "end", kind);
    assert !Attribute(line, st, ts, kind).matched;
    var left := Send(line, st.(stack := DropLast(stack)), CategoryLeft);
    assert Round(line, st, ts) == Match(left, [], true);
    assert Rounds(line, st, ts) == LoopEnd(left, [], true, false);
  }

  /** A line of attributes inside blocks, of which the first word is no function word. */
  lemma AttributeLine(tables: Tables, objectExists: Object -> bool, stack: Stack, ts: seq<Token>, signal: Signal)
    requires tables.Valid() && stack != [] && |ts| == 2 && FunctionWord(ts) == Standard
    requires var line := Setup(tables, false, objectExists, ts);
      var st := State(stack, true, false, [Started]);
      Attribute(line, st, ts, Last(stack).kind) == Match(Send(line, st, signal), [], true)
    ensures var (st, ok) := ParseImpl(tables, false, objectExists, stack, [Started], ts);
      && ok && st.stack == stack && st.out == Sending([signal])
  {
    hide Attribute, Kinds, FunctionWord;
    var line := Setup(tables, false, objectExists, ts);
    var st := State(stack, true, false, [Started]);
    var st' := Send(line, st, signal);
    NothingMore(line, st', Last(stack).kind);
    assert Round(line, st, ts) == Match(st', [], true);
    assert Rounds(line, st, ts) == LoopEnd(st', [], true, false);
    assert Sends([signal]) == [Sent(signal)];
  }

  lemma NothingMore(line: Line, st: State, kind: Ident)
    requires line.tables.Valid()
    ensures AttributeStar(line, st, [], kind) == Match(st, [], true)
    ensures Kinds(line, st, [], kind) == Fail(st, [])
  {
    hide EnterKind, IsObjectToken;
  }

  lemma SettingMatches(line: Line, st: State, attribute: Ident, text: string, kind: Ident)
    requires OwnAttribute(line.tables, kind, attribute) && line.tables.ReadValue(kind, attribute, text).Some?
    ensures Attribute(line, st, [Word(attribute), Word(text)], kind) ==
      Match(Send(line, st, Signal.SetAttribute(st.stack, kind, attribute, line.tables.ReadValue(kind, attribute, text).value)), [], true)
    ensures FunctionWord([Word(attribute), Word(text)]) == Standard
  {
    hide Send, Values.Read, IsObjectToken;
    assert [Word(attribute), Word(text)][2..] == [];
  }

  /** "attribute value" */
  lemma SetLine(tables: Tables, objectExists: Object -> bool, stack: Stack, attribute: Ident, value: Values.Value)
    requires tables.Valid() && stack != [] && OwnAttribute(tables, Last(stack).kind, attribute)
    requires tables.ReadValue(Last(stack).kind, attribute, Values.Print(value)) == Some(value)
    ensures var (st, ok) := ParseImpl(tables, false, objectExists, stack, [Started], Words([attribute, Values.Print(value)]));
      && ok && st.stack == stack
      && st.out == Sending([Signal.SetAttribute(stack, Last(stack).kind, attribute, value)])
  {
    hide ParseImpl, Send, Attribute, OwnAttribute, Values.Read, Values.Print, FunctionWord;
    var ts := Words([attribute, Values.Print(value)]);
    assert ts == [Word(attribute), Word(Values.Print(value))];
    var line := Setup(tables, false, objectExists, ts);
    SettingMatches(line, State(stack, true, false, [Started]), attribute, Values.Print(value), Last(stack).kind);
    AttributeLine(tables, objectExists, stack, ts, Signal.SetAttribute(stack, Last(stack).kind, attribute, value));
  }

  /** "no attribute" */
  lemma RemoveLine(tables: Tables, objectExists: Object -> bool, stack: Stack, attribute: Ident)
    requires tables.Valid() && stack != [] && OwnAttribute(tables, Last(stack).kind, attribute)
    ensures var (st, ok) := ParseImpl(tables, false, objectExists, stack, [Started], Words(["no", attribute]));
      && ok && st.stack == stack
      && st.out == Sending([RemoveAttribute(stack, Last(stack).kind, attribute)])
  {
    hide ParseImpl, Send;
    var ts := Words(["no", attribute]);
    assert ts[0] == Word("no") && ts[1] == Word(attribute) && ts[2..] == [];
    AttributeLine(tables, objectExists, stack, ts, RemoveAttribute(stack, Last(stack).kind, attribute));
  }

  // ---- Lines that are refused ----

  /** The word is neither a keyword nor an attribute of the open block's kind. */
  predicate Stray(tables: Tables, stack: Stack, word: Ident) {
    && stack != [] && word !in KEYWORDS && word !in FUNCTION_WORDS && word !in tables.Attributes(Last(stack).kind)
  }

  lemma StrayWord(tables: Tables, objectExists: Object -> bool, stack: Stack, ts: seq<Token>)
    requires tables.Valid() && ts != [] && ts[0].Word? && Stray(tables, stack, ts[0].text)
    requires var line := Setup(tables, false, objectExists, ts);
      var nested := Kinds(line, State(stack, true, false, [Started]), ts, Last(stack).kind);
      nested.matched ==> !nested.st.actionsOk
    ensures !ParseImpl(tables, false, objectExists, stack, [Started], ts).1
  {
    hide Kinds;
    var line := Setup(tables, false, objectExists, ts);
    var st := State(stack, true, false, [Started]);
    assert line.mode == Standard;
    assert !Attribute(line, st, ts, Last(stack).kind).matched;
    var m := Round(line, st, ts);
    assert m.matched ==> !m.st.actionsOk;
    var e := Rounds(line, st, ts);
    assert !e.good || !e.st.actionsOk;
  }

  /** A line in a block whose first word means nothing there. */
  lemma UnknownWord(tables: Tables, objectExists: Object -> bool, stack: Stack, ts: seq<Token>)
    requires tables.Valid() && ts != [] && ts[0].Word? && Stray(tables, stack, ts[0].text)
    requires ts[0].text !in tables.NestedKinds(Last(stack).kind) && ts[0].text !in tables.NestedFilters(Last(stack).kind)
    ensures !ParseImpl(tables, false, objectExists, stack, [Started], ts).1
  {
    hide ParseImpl, EnterKind, IsObjectToken;
    StrayWord(tables, objectExists, stack, ts);
  }

  /** "kind name" with the whole name inside a block: the name has too many parts there. */
  lemma HeaderRefused(tables: Tables, objectExists: Object -> bool, stack: Stack, kind: Ident, name: Ident)
    requires tables.Valid() && WholeName(tables, kind, name) && Stray(tables, stack, kind)
    ensures !ParseImpl(tables, false, objectExists, stack, [Started], Words([kind, name])).1
  {
    hide ParseImpl, IsObjectToken, PathToVector, Depth, EnterChain;
    var ts := Words([kind, name]);
    assert ts[0] == Word(kind) && ts[1] == Word(name) && |ts| == 2;
    ObjectTokens(name);
    StrayWord(tables, objectExists, stack, ts);
  }
}
