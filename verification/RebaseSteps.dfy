/** What each kind of line of a rebase script does to the server, as one step on its objects and modifications. */
module RebaseSteps {
  import opened Core
  import opened Schema
  import opened PathText
  import opened Grammar
  import opened Signals
  import opened Rebase
  import opened ScriptFile
  import opened RebaseReplay
  import opened ScriptLines
  import D = Database
  import E = Existence
  import Values

  /** What the lines of a script ask for: Open is the header of a block. */
  datatype Action =
    | Delete(o: Object)
    | Rename(o: Object, newName: Ident)
    | Create(o: Object)
    | Open(o: Object)
    | Set(m: Modification)

  /** Entering an object level by level creates what is missing. */
  function WithLevels(r: D.Relations, server: Server, o: Object): Server
    decreases |o.name|, 1
  {
    var outer := WithOuter(r, server, o);
    if o in outer.objects then outer else Created(outer, o)
  }

  function WithOuter(r: D.Relations, server: Server, o: Object): Server
    decreases |o.name|, 0
  {
    if o.kind in r.embeddedInto && |o.name| > 1 then WithLevels(r, server, D.Parent(r, o)) else server
  }

  /** The server after a step, and whether the step went through. */
  datatype Performed = Performed(server: Server, ok: bool)

  ghost function Perform(r: D.Relations, server: Server, action: Action): Performed
    requires Acyclic(r.embeddedInto)
  {
    match action
    case Delete(o) =>
      if o !in server.objects then Performed(server, false)
      else Performed(Removed(r, WithLevels(r, server, o), o), true)
    case Rename(o, newName) =>
      if o !in server.objects then Performed(server, false)
      else
        var entered := WithLevels(r, server, o);
        if CanRename(r, entered.objects, o, newName) && o.name != [] then Performed(RenamedTo(r, entered, o, newName), true)
        else Performed(entered, false)
    case Create(o) =>
      var outer := WithOuter(r, server, o);
      if o in outer.objects then Performed(outer, false) else Performed(Created(outer, o), true)
    case Open(o) => Performed(WithLevels(r, server, o), true)
    case Set(m) =>
      if PathToVector(m.name).Some? && Named(m.kind, m.name) in server.objects
      then Performed(server.(changes := server.changes + [CommandOf(m)]), true)
      else Performed(server, false)
  }

  /** The modification without the old value, which is not part of the command. */
  function CommandOf(m: Modification): Modification {
    if m.SetAttribute? then m.(oldValue := None) else m
  }

  // ---- Paths of complete names ----

  /** A whole name without a missing part. */
  predicate Complete(tables: Tables, kind: Ident, name: Ident)
    requires tables.Valid()
  {
    WholeName(tables, kind, name) && D.FullName(PathToVector(name).value)
  }

  predicate Idents(path: Stack)
    requires FilterFree(path)
  {
    forall i | 0 <= i < |path| :: IsIdent(path[i].name)
  }

  /** The object of the first k items. */
  function Level(path: Stack, k: nat): Object
    requires 1 <= k <= |path| && FilterFree(path)
  {
    ObjectAt(path[..k])
  }

  lemma PathOfComplete(tables: Tables, kind: Ident, name: Ident)
    requires tables.Valid() && Complete(tables, kind, name)
    ensures PathToVector(name).Some?
    ensures var path := PathOf(tables, kind, name);
      && Climbing(tables, path) && FilterFree(path) && Idents(path) && path != []
      && ObjectAt(path) == Named(kind, name) && NamedStack(path) && PlainContext(path) && Last(path).kind == kind
  {
    hide IsIdent, WholeName, Climbing;
    var path := PathOf(tables, kind, name);
    PathShape(tables, kind, name);
    assert path[..|path|] == path;
    var names := StackPath(path);
    forall i | 0 <= i < |path| ensures IsIdent(path[i].name) {
      assert names[i] == path[i].name;
    }
    IdentsNotEmpty(path);
  }

  lemma IdentsNotEmpty(path: Stack)
    requires FilterFree(path) && Idents(path)
    ensures NamedStack(path)
  {
    forall i | 0 <= i < |path| ensures path[i].name != "" {
      assert IsIdent(path[i].name);
    }
  }

  lemma LevelParent(r: D.Relations, tables: Tables, path: Stack, k: nat)
    requires Acyclic(r.embeddedInto) && tables.embeddedInto == r.embeddedInto
    requires FilterFree(path) && Climbing(tables, path) && 1 <= k <= |path|
    ensures var o := Level(path, k);
      && |o.name| == k && o.kind == path[k - 1].kind
      && (k == 1 ==> o.kind !in r.embeddedInto)
      && (k > 1 ==> o.kind in r.embeddedInto && D.Parent(r, o) == Level(path, k - 1))
  {
    hide Depth;
    assert path[..k][k - 1] == path[k - 1];
    if k > 1 {
      assert ClimbingAt(tables, path, k - 1);
      assert DropLast(StackPath(path[..k])) == StackPath(path[..k - 1]);
    }
  }

  lemma {:induction false} LevelFits(r: D.Relations, tables: Tables, path: Stack, k: nat)
    requires Acyclic(r.embeddedInto) && tables.embeddedInto == r.embeddedInto
    requires FilterFree(path) && Climbing(tables, path) && Idents(path) && 1 <= k <= |path|
    ensures D.Fits(r, Level(path, k))
    decreases k
  {
    hide IsIdent, Climbing;
    LevelParent(r, tables, path, k);
    var o := Level(path, k);
    assert forall i | 0 <= i < k :: o.name[i] == path[i].name;
    if k > 1 {
      LevelFits(r, tables, path, k - 1);
    }
  }

  // ---- Entering levels ----

  function Enters(path: Stack, m: nat): seq<Signal>
    requires m <= |path| && FilterFree(path)
  {
    seq(m, k requires 0 <= k < m => CategoryEntered(path[..k + 1], path[k].kind, path[k].name))
  }

  /** The server after the first k levels were entered. */
  function LevelsEntered(r: D.Relations, server: Server, path: Stack, k: nat): Server
    requires k <= |path| && FilterFree(path)
  {
    if k == 0 then server else WithLevels(r, server, Level(path, k))
  }

  lemma EntersPlain(path: Stack, k: nat)
    requires FilterFree(path) && Idents(path) && 1 <= k <= |path|
    ensures PlainContext(path[..k])
  {
    hide IsIdent;
    forall i | 0 <= i < k ensures IsIdent(path[..k][i].name) {
      assert path[..k][i] == path[i];
    }
  }

  lemma {:induction false} EnterLevels(r: D.Relations, tables: Tables, server: Server, world: World, signals: seq<Signal>,
      path: Stack, k: nat)
    requires Acyclic(r.embeddedInto) && tables.embeddedInto == r.embeddedInto && Willing(world)
    requires FilterFree(path) && Climbing(tables, path) && Idents(path) && k <= |path| && k <= |signals|
    requires forall j | 0 <= j < k :: signals[j] == CategoryEntered(path[..j + 1], path[j].kind, path[j].name)
    ensures ServerAfter(r, server, world, signals, k) == LevelsEntered(r, server, path, k)
    ensures Through(r, server, world, signals, k)
    ensures k > 0 ==> Level(path, k) in LevelsEntered(r, server, path, k).objects
    decreases k
  {
    hide IsIdent, Climbing, Idents, PlainContext, D.Fits, D.Parent;
    if k > 0 {
      EnterLevels(r, tables, server, world, signals, path, k - 1);
      OneLevel(r, tables, server, world(k - 1), path, k);
      var before := ServerAfter(r, server, world, signals, k - 1);
      assert EffectAt(r, server, world, signals, k - 1) == EffectOf(r, before, signals[k - 1], world(k - 1));
    }
  }

  lemma OneLevel(r: D.Relations, tables: Tables, server: Server, reply: Reply, path: Stack, k: nat)
    requires Acyclic(r.embeddedInto) && tables.embeddedInto == r.embeddedInto && !reply.refuses
    requires FilterFree(path) && Climbing(tables, path) && Idents(path) && 1 <= k <= |path|
    requires k > 1 ==> Level(path, k - 1) in LevelsEntered(r, server, path, k - 1).objects
    ensures var signal := CategoryEntered(path[..k], path[k - 1].kind, path[k - 1].name);
      EffectOf(r, LevelsEntered(r, server, path, k - 1), signal, reply) == Success(LevelsEntered(r, server, path, k))
    ensures Level(path, k) in LevelsEntered(r, server, path, k).objects
  {
    hide Climbing, PlainContext;
    LevelParent(r, tables, path, k);
    LevelFits(r, tables, path, k);
    EntersPlain(path, k);
    var o := Level(path, k);
    var before := LevelsEntered(r, server, path, k - 1);
    assert WithOuter(r, server, o) == before;
    NamedItself(r, before.objects, o);
    EnteringEffect(r, before, path[..k], path[k - 1].kind, path[k - 1].name, reply);
  }

  lemma EnteringEffect(r: D.Relations, server: Server, context: Stack, kind: Ident, name: Ident, reply: Reply)
    requires Acyclic(r.embeddedInto) && !reply.refuses && PlainContext(context)
    requires var o := ObjectAt(context); o in server.objects || CanCreate(r, server.objects, o)
    ensures EffectOf(r, server, CategoryEntered(context, kind, name), reply) ==
      Success(if ObjectAt(context) in server.objects then server else Created(server, ObjectAt(context)))
  {
    hide CanCreate, PlainContext, Created;
  }

  /** A complete object can be created exactly if it is missing and its parent is not. */
  lemma NamedItself(r: D.Relations, objects: set<Object>, o: Object)
    requires Acyclic(r.embeddedInto) && D.Fits(r, o)
    ensures o.name != []
    ensures CanCreate(r, objects, o) <==> o !in objects && (o.kind in r.embeddedInto ==> D.Parent(r, o) in objects)
  {
    assert IsIdent(Last(o.name));
  }

  // ---- Lines that enter, do one thing, and leave ----

  lemma {:induction false} LeavingKeeps(r: D.Relations, server: Server, world: World, signals: seq<Signal>, m: nat, n: nat)
    requires Acyclic(r.embeddedInto) && m <= n <= |signals| && forall j | m <= j < n :: signals[j] == CategoryLeft
    requires Through(r, server, world, signals, m)
    ensures Through(r, server, world, signals, n)
    ensures ServerAfter(r, server, world, signals, n) == ServerAfter(r, server, world, signals, m)
    decreases n - m
  {
    if m < n {
      LeavingKeeps(r, server, world, signals, m, n - 1);
    }
  }

  /** The signals of a create, delete or rename line. */
  function Framed(path: Stack, m: nat, signal: Signal): seq<Signal>
    requires m <= |path| && FilterFree(path)
  {
    Enters(path, m) + [signal] + Lefts(|path|)
  }

  lemma FramedParts(path: Stack, m: nat, signal: Signal)
    requires m <= |path| && FilterFree(path)
    ensures var signals := Framed(path, m, signal);
      && |signals| == m + 1 + |path| && signals[m] == signal
      && (forall j | 0 <= j < m :: signals[j] == CategoryEntered(path[..j + 1], path[j].kind, path[j].name))
      && (forall j | m < j < |signals| :: signals[j] == CategoryLeft)
  {
  }

  lemma FramedDetermined(path: Stack, m: nat, signal: Signal)
    requires m <= |path| && FilterFree(path) && Idents(path) && Determined(signal)
    ensures AllDetermined(Framed(path, m, signal))
  {
    hide IsIdent, Idents, PlainContext;
    FramedParts(path, m, signal);
    var signals := Framed(path, m, signal);
    forall j | 0 <= j < |signals| ensures Determined(signals[j]) {
      if j < m {
        EntersPlain(path, j + 1);
      }
    }
  }

  /** The frame itself always goes through; what the line does is the effect of the signal inside. */
  lemma FramedRuns(r: D.Relations, tables: Tables, server: Server, world: World, path: Stack, m: nat, signal: Signal)
    requires Acyclic(r.embeddedInto) && tables.embeddedInto == r.embeddedInto && Willing(world)
    requires FilterFree(path) && Climbing(tables, path) && Idents(path) && m <= |path|
    ensures var signals := Framed(path, m, signal);
      var e := EffectOf(r, LevelsEntered(r, server, path, m), signal, world(m));
      && m < |signals| && signals[m] == signal
      && Through(r, server, world, signals, m) && EffectAt(r, server, world, signals, m) == e
      && (e.reply.Applied? ==>
        Through(r, server, world, signals, |signals|) && ServerAfter(r, server, world, signals, |signals|) == e.server)
  {
    hide EffectOf, Climbing, Idents, Framed, Enters, LevelsEntered;
    var signals := Framed(path, m, signal);
    FramedParts(path, m, signal);
    EnterLevels(r, tables, server, world, signals, path, m);
    var e := EffectAt(r, server, world, signals, m);
    if e.reply.Applied? {
      assert Through(r, server, world, signals, m + 1);
      LeavingKeeps(r, server, world, signals, m + 1, |signals|);
    }
  }

  /** A line on an empty stack that is accepted with framed signals. */
  lemma FramedLine(r: D.Relations, tables: Tables, server: Server, world: World, tokens: seq<Token>, path: Stack, m: nat,
      signal: Signal)
    requires Acyclic(r.embeddedInto) && tables.Valid() && tables.embeddedInto == r.embeddedInto && Willing(world)
    requires FilterFree(path) && Climbing(tables, path) && Idents(path) && m <= |path|
    requires Determined(signal) && !signal.CategoryLeft?
    requires var (st, ok) := ParseImpl(tables, false, Exists(server.objects), [], [Started], tokens);
      ok && st.stack == [] && st.out == Sending(Framed(path, m, signal))
    requires var e := EffectOf(r, LevelsEntered(r, server, path, m), signal, world(m)); e.reply.Applied? || e.fails
    ensures var e := EffectOf(r, LevelsEntered(r, server, path, m), signal, world(m));
      var run := RunLine(r, tables, server, world, [], tokens);
      && run.server == e.server
      && run.ok == e.reply.Applied? && (run.ok ==> run.stack == [])
  {
    hide EffectOf, Climbing, Idents, ParseImpl, RunLine, LevelsEntered, Exists;
    var signals := Framed(path, m, signal);
    var e := EffectOf(r, LevelsEntered(r, server, path, m), signal, world(m));
    FramedDetermined(path, m, signal);
    FramedRuns(r, tables, server, world, path, m, signal);
    if e.reply.Applied? {
      LineRuns(r, tables, server, world, [], tokens, signals);
    } else {
      LineFails(r, tables, server, world, [], tokens, signals, m);
    }
  }

  // ---- The lines of a script ----

  lemma EnterSignalHere(mode: Mode, path: Stack, k: nat)
    requires FilterFree(path) && k < |path|
    ensures k + 1 < |path| || mode != Mode.Create ==>
      EnterSignal(mode, [], path, k) == CategoryEntered(path[..k + 1], path[k].kind, path[k].name)
    ensures k + 1 == |path| && mode == Mode.Create ==>
      EnterSignal(mode, [], path, k) == Signal.CreateObject(path, Last(path).kind, Last(path).name)
  {
    assert [] + path[..k + 1] == path[..k + 1];
    assert path[..|path|] == path;
  }

  lemma EnteringAt(mode: Mode, path: Stack, k: nat)
    requires FilterFree(path) && k < |path|
    ensures |Entering(mode, [], path)| == |path| && Entering(mode, [], path)[k] == EnterSignal(mode, [], path, k)
  {
    hide EnterSignal;
  }

  lemma EntersAt(path: Stack, m: nat, k: nat)
    requires FilterFree(path) && k < m <= |path|
    ensures |Enters(path, m)| == m && Enters(path, m)[k] == CategoryEntered(path[..k + 1], path[k].kind, path[k].name)
  {
  }

  lemma EnteringWhole(mode: Mode, path: Stack)
    requires FilterFree(path) && path != []
    ensures mode != Mode.Create ==> Entering(mode, [], path) == Enters(path, |path|)
    ensures mode == Mode.Create ==>
      Entering(mode, [], path) == Enters(path, |path| - 1) + [Signal.CreateObject(path, Last(path).kind, Last(path).name)]
  {
    hide Entering, Enters, EnterSignal, FilterFree;
    var n := if mode == Mode.Create then |path| - 1 else |path|;
    EntersLength(path, n);
    EnteringAt(mode, path, |path| - 1);
    EnterSignalHere(mode, path, |path| - 1);
    forall k | 0 <= k < n ensures Entering(mode, [], path)[k] == Enters(path, n)[k] {
      EnteringAt(mode, path, k);
      EntersAt(path, n, k);
      EnterSignalHere(mode, path, k);
    }
  }

  lemma EntersLength(path: Stack, m: nat)
    requires FilterFree(path) && m <= |path|
    ensures |Enters(path, m)| == m
  {
  }

  /** The signals of a line that enters the path, sends one more signal, and leaves. */
  lemma FunctionFrame(mode: Mode, path: Stack, signal: Signal)
    requires FilterFree(path) && path != [] && mode != Mode.Create
    ensures Entering(mode, [], path) + [signal] + Lefts(|path|) == Framed(path, |path|, signal)
  {
    hide Entering, Enters;
    EnteringWhole(mode, path);
  }

  lemma CreationFrame(path: Stack)
    requires FilterFree(path) && path != []
    ensures Entering(Mode.Create, [], path) + Lefts(|path|) ==
      Framed(path, |path| - 1, Signal.CreateObject(path, Last(path).kind, Last(path).name))
  {
    hide Entering, Enters;
    EnteringWhole(Mode.Create, path);
  }

  /** Entering removes nothing. */
  lemma {:induction false} EnteringKeeps(r: D.Relations, server: Server, o: Object)
    ensures server.objects <= WithLevels(r, server, o).objects
    ensures server.objects <= WithOuter(r, server, o).objects
    decreases |o.name|
  {
    if o.kind in r.embeddedInto && |o.name| > 1 {
      EnteringKeeps(r, server, D.Parent(r, o));
    }
  }

  lemma StillThere(r: D.Relations, server: Server, path: Stack)
    requires FilterFree(path) && path != [] && ObjectAt(path) in server.objects
    ensures LevelsEntered(r, server, path, |path|) == WithLevels(r, server, ObjectAt(path))
    ensures ObjectAt(path) in LevelsEntered(r, server, path, |path|).objects
  {
    assert path[..|path|] == path;
    EnteringKeeps(r, server, ObjectAt(path));
  }

  /** A path of complete items and a line that is accepted with framed signals in front of the n-th level. */
  ghost predicate AcceptedFrame(tables: Tables, server: Server, tokens: seq<Token>, path: Stack, m: nat, signal: Signal)
    requires tables.Valid() && FilterFree(path) && m <= |path|
  {
    var (st, ok) := ParseImpl(tables, false, Exists(server.objects), [], [Started], tokens);
    ok && st.stack == [] && st.out == Sending(Framed(path, m, signal))
  }

  lemma DeletePath(r: D.Relations, tables: Tables, server: Server, world: World, tokens: seq<Token>, path: Stack)
    requires Acyclic(r.embeddedInto) && tables.Valid() && tables.embeddedInto == r.embeddedInto && Willing(world)
    requires FilterFree(path) && Climbing(tables, path) && Idents(path) && PlainContext(path)
    requires ObjectAt(path) in server.objects && AcceptedFrame(tables, server, tokens, path, |path|, FunctionDelete(path))
    ensures var run := RunLine(r, tables, server, world, [], tokens);
      run.ok && run.stack == []
      && run.server == Removed(r, WithLevels(r, server, ObjectAt(path)), ObjectAt(path))
  {
    hide RunLine, Climbing, Idents, WithLevels, Removed, ParseImpl, Framed, LevelsEntered;
    StillThere(r, server, path);
    FramedLine(r, tables, server, world, tokens, path, |path|, FunctionDelete(path));
  }

  lemma RenamePath(r: D.Relations, tables: Tables, server: Server, world: World, tokens: seq<Token>, path: Stack, newName: Ident)
    requires Acyclic(r.embeddedInto) && tables.Valid() && tables.embeddedInto == r.embeddedInto && Willing(world)
    requires FilterFree(path) && Climbing(tables, path) && Idents(path) && PlainContext(path) && ObjectAt(path) in server.objects
    requires AcceptedFrame(tables, server, tokens, path, |path|, FunctionRename(path, newName))
    ensures var run := RunLine(r, tables, server, world, [], tokens);
      var done := Perform(r, server, Action.Rename(ObjectAt(path), newName));
      run.server == done.server && run.ok == done.ok && (run.ok ==> run.stack == [])
  {
    hide RunLine, Climbing, Idents, WithLevels, RenamedTo, ParseImpl, Framed, LevelsEntered, CanRename;
    StillThere(r, server, path);
    FramedLine(r, tables, server, world, tokens, path, |path|, FunctionRename(path, newName));
  }

  lemma CreatePath(r: D.Relations, tables: Tables, server: Server, world: World, tokens: seq<Token>, path: Stack)
    requires Acyclic(r.embeddedInto) && tables.Valid() && tables.embeddedInto == r.embeddedInto && Willing(world)
    requires FilterFree(path) && Climbing(tables, path) && Idents(path) && PlainContext(path)
    requires AcceptedFrame(tables, server, tokens, path, |path| - 1, Signal.CreateObject(path, Last(path).kind, Last(path).name))
    ensures var run := RunLine(r, tables, server, world, [], tokens);
      var done := Perform(r, server, Action.Create(ObjectAt(path)));
      run.server == done.server && run.ok == done.ok && (run.ok ==> run.stack == [])
  {
    hide RunLine, Climbing, Idents, WithLevels, WithOuter, Created, ParseImpl, Framed, LevelsEntered, CanCreate;
    CreationPossible(r, tables, server, world, path);
    FramedLine(r, tables, server, world, tokens, path, |path| - 1,
      Signal.CreateObject(path, Last(path).kind, Last(path).name));
  }

  /** "delete kind name" */
  lemma DeleteRuns(r: D.Relations, tables: Tables, server: Server, world: World, kind: Ident, name: Ident)
    requires Acyclic(r.embeddedInto) && tables.Valid() && tables.embeddedInto == r.embeddedInto && Willing(world)
    requires Complete(tables, kind, name)
    ensures PathToVector(name).Some?
    ensures var run := RunLine(r, tables, server, world, [], Words(["delete", kind, name]));
      var done := Perform(r, server, Action.Delete(Named(kind, name)));
      run.server == done.server && run.ok == done.ok && (run.ok ==> run.stack == [])
  {
    hide ParseImpl, RunLine, Climbing, Idents, WithLevels, Removed, PlainContext, Framed, WholeName, PathToVector, PathOf;
    var tokens := Words(["delete", kind, name]);
    PathOfComplete(tables, kind, name);
    var path := PathOf(tables, kind, name);
    DeleteLine(tables, Exists(server.objects), kind, name);
    if Named(kind, name) in server.objects {
      FunctionFrame(Mode.Delete, path, FunctionDelete(path));
      DeletePath(r, tables, server, world, tokens, path);
    } else {
      LineRefused(r, tables, server, world, [], tokens);
    }
  }

  /** "rename kind name newName" */
  lemma RenameRuns(r: D.Relations, tables: Tables, server: Server, world: World, kind: Ident, name: Ident, newName: Ident)
    requires Acyclic(r.embeddedInto) && tables.Valid() && tables.embeddedInto == r.embeddedInto && Willing(world)
    requires Complete(tables, kind, name) && IsObjectToken(newName)
    ensures PathToVector(name).Some?
    ensures var run := RunLine(r, tables, server, world, [], Words(["rename", kind, name, newName]));
      var done := Perform(r, server, Action.Rename(Named(kind, name), newName));
      run.server == done.server && run.ok == done.ok && (run.ok ==> run.stack == [])
  {
    hide ParseImpl, RunLine, Climbing, Idents, WithLevels, RenamedTo, PlainContext, Framed, WholeName, PathToVector, PathOf,
      IsObjectToken, CanRename;
    var tokens := Words(["rename", kind, name, newName]);
    PathOfComplete(tables, kind, name);
    var path := PathOf(tables, kind, name);
    RenameLine(tables, Exists(server.objects), kind, name, newName);
    if Named(kind, name) in server.objects {
      FunctionFrame(Mode.Rename, path, FunctionRename(path, newName));
      RenamePath(r, tables, server, world, tokens, path, newName);
    } else {
      LineRefused(r, tables, server, world, [], tokens);
    }
  }

  /** "create kind name" */
  lemma CreateRuns(r: D.Relations, tables: Tables, server: Server, world: World, kind: Ident, name: Ident)
    requires Acyclic(r.embeddedInto) && tables.Valid() && tables.embeddedInto == r.embeddedInto && Willing(world)
    requires Complete(tables, kind, name)
    ensures PathToVector(name).Some?
    ensures var run := RunLine(r, tables, server, world, [], Words(["create", kind, name]));
      var done := Perform(r, server, Action.Create(Named(kind, name)));
      run.server == done.server && run.ok == done.ok && (run.ok ==> run.stack == [])
  {
    hide ParseImpl, RunLine, Climbing, Idents, Perform, PlainContext, Framed, WholeName, PathToVector, PathOf;
    var tokens := Words(["create", kind, name]);
    PathOfComplete(tables, kind, name);
    var path := PathOf(tables, kind, name);
    CreateLine(tables, Exists(server.objects), kind, name);
    CreationFrame(path);
    CreatePath(r, tables, server, world, tokens, path);
  }

  lemma CreationPossible(r: D.Relations, tables: Tables, server: Server, world: World, path: Stack)
    requires Acyclic(r.embeddedInto) && tables.embeddedInto == r.embeddedInto && Willing(world)
    requires FilterFree(path) && path != [] && Climbing(tables, path) && Idents(path)
    ensures var o := ObjectAt(path);
      var outer := LevelsEntered(r, server, path, |path| - 1);
      && outer == WithOuter(r, server, o)
      && (o in outer.objects || CanCreate(r, outer.objects, o))
  {
    hide Climbing, PlainContext, Idents;
    var n := |path|;
    assert path[..n] == path;
    LevelParent(r, tables, path, n);
    LevelFits(r, tables, path, n);
    var signals := Enters(path, n - 1);
    EnterLevels(r, tables, server, world, signals, path, n - 1);
    NamedItself(r, LevelsEntered(r, server, path, n - 1).objects, ObjectAt(path));
  }

  /** "kind name" on an empty stack; it stays at the innermost level. */
  lemma OpenRuns(r: D.Relations, tables: Tables, server: Server, world: World, kind: Ident, name: Ident)
    requires Acyclic(r.embeddedInto) && tables.Valid() && tables.embeddedInto == r.embeddedInto && Willing(world)
    requires Complete(tables, kind, name)
    ensures PathToVector(name).Some?
    ensures RunLine(r, tables, server, world, [], Words([kind, name]))
      == Outcome(PathOf(tables, kind, name), WithLevels(r, server, Named(kind, name)), true)
  {
    hide ParseImpl, RunLine, Climbing, Idents, PlainContext, WholeName, NamedStack, PathToVector, PathOf;
    PathOfComplete(tables, kind, name);
    var path := PathOf(tables, kind, name);
    HeaderLine(tables, Exists(server.objects), kind, name);
    EnteringWhole(Standard, path);
    OpenPath(r, tables, server, world, Words([kind, name]), path);
  }

  lemma OpenPath(r: D.Relations, tables: Tables, server: Server, world: World, tokens: seq<Token>, path: Stack)
    requires Acyclic(r.embeddedInto) && tables.Valid() && tables.embeddedInto == r.embeddedInto && Willing(world)
    requires FilterFree(path) && path != [] && Climbing(tables, path) && Idents(path) && NamedStack(path)
    requires var (st, ok) := ParseImpl(tables, false, Exists(server.objects), [], [Started], tokens);
      ok && st.stack == path && st.out == Sending(Enters(path, |path|))
    ensures RunLine(r, tables, server, world, [], tokens) == Outcome(path, WithLevels(r, server, ObjectAt(path)), true)
  {
    hide ParseImpl, RunLine, Climbing, Idents, PlainContext, NamedStack, WithLevels;
    var signals := Enters(path, |path|);
    assert path[..|path|] == path;
    EnterLevels(r, tables, server, world, signals, path, |path|);
    forall j | 0 <= j < |signals| ensures Determined(signals[j]) {
      EntersPlain(path, j + 1);
    }
    LineRuns(r, tables, server, world, [], tokens, signals);
  }

  /** "end" */
  lemma EndRuns(r: D.Relations, tables: Tables, server: Server, world: World, stack: Stack)
    requires Acyclic(r.embeddedInto) && tables.Valid() && stack != [] && NamedStack(stack)
    requires "end" !in tables.Attributes(Last(stack).kind)
    ensures RunLine(r, tables, server, world, stack, Words(["end"])) == Outcome(DropLast(stack), server, true)
  {
    hide ParseImpl, RunLine;
    EndOfBlock(tables, Exists(server.objects), stack);
    OneSignal(r, server, world, CategoryLeft);
    LineRuns(r, tables, server, world, stack, Words(["end"]), [CategoryLeft]);
  }

  lemma OneSignal(r: D.Relations, server: Server, world: World, signal: Signal)
    requires Acyclic(r.embeddedInto)
    ensures EffectAt(r, server, world, [signal], 0) == EffectOf(r, server, signal, world(0))
    ensures ServerAfter(r, server, world, [signal], 1) == EffectOf(r, server, signal, world(0)).server
    ensures Determined(signal) ==> AllDetermined([signal])
  {
    hide EffectOf, Determined;
    assert ServerAfter(r, server, world, [signal], 0) == server;
  }

  function AttributeWords(m: Modification): seq<Token>
    requires m.SetAttribute?
  {
    if m.value.Some? then Words([m.attribute, Values.Print(m.value.value)]) else Words(["no", m.attribute])
  }

  function AttributeSignal(stack: Stack, m: Modification): Signal
    requires m.SetAttribute?
  {
    if m.value.Some? then Signal.SetAttribute(stack, m.kind, m.attribute, m.value.value)
    else RemoveAttribute(stack, m.kind, m.attribute)
  }

  /** A value of ours is one of the attribute's type that survives printing. */
  predicate Writable(tables: Tables, m: Modification)
    requires m.SetAttribute?
  {
    m.value.Some? ==> Values.Readable(tables.TypeOf(m.kind, m.attribute), m.value.value)
  }

  /** The text of a whole name is the name as it stands in the script. */
  lemma TextOfName(tables: Tables, kind: Ident, name: Ident)
    requires tables.Valid() && WholeName(tables, kind, name)
    ensures PathToVector(name).Some? && Text(Named(kind, name)) == name
  {
    hide IsObjectToken, PathToVector, VectorToPath, IsName;
    ObjectTokens(name);
    var ids :| IsName(ids) && VectorToPath(ids) == name;
    PrintThenRead(ids);
  }

  /** The line of an attribute inside the block of its object. */
  lemma SetRuns(r: D.Relations, tables: Tables, server: Server, world: World, m: Modification)
    requires Acyclic(r.embeddedInto) && tables.Valid() && tables.embeddedInto == r.embeddedInto && Willing(world)
    requires m.SetAttribute? && Complete(tables, m.kind, m.name) && OwnAttribute(tables, m.kind, m.attribute)
    requires Writable(tables, m)
    ensures PathToVector(m.name).Some?
    ensures var path := PathOf(tables, m.kind, m.name);
      var run := RunLine(r, tables, server, world, path, AttributeWords(m));
      var done := Perform(r, server, Set(m));
      run.server == done.server && run.ok == done.ok && (run.ok ==> run.stack == path)
  {
    hide ParseImpl, RunLine, Climbing, Idents, WholeName, NamedStack, OwnAttribute, PlainContext, Values.Read, PathToVector,
      PathOf, Perform, Values.Readable, VectorToPath;
    PathOfComplete(tables, m.kind, m.name);
    TextOfName(tables, m.kind, m.name);
    var path := PathOf(tables, m.kind, m.name);
    if m.value.Some? {
      Values.ValueRoundTrip(tables.TypeOf(m.kind, m.attribute), m.value.value);
      SetLine(tables, Exists(server.objects), path, m.attribute, m.value.value);
    } else {
      RemoveLine(tables, Exists(server.objects), path, m.attribute);
    }
    AttributeRuns(r, tables, server, world, path, m);
  }

  lemma AttributeRuns(r: D.Relations, tables: Tables, server: Server, world: World, path: Stack, m: Modification)
    requires Acyclic(r.embeddedInto) && tables.Valid() && Willing(world) && m.SetAttribute?
    requires PlainContext(path) && NamedStack(path) && Last(path).kind == m.kind
    requires PathToVector(m.name).Some? && ObjectAt(path) == Named(m.kind, m.name) && Text(Named(m.kind, m.name)) == m.name
    requires var (st, ok) := ParseImpl(tables, false, Exists(server.objects), path, [Started], AttributeWords(m));
      ok && st.stack == path && st.out == Sending([AttributeSignal(path, m)])
    ensures var run := RunLine(r, tables, server, world, path, AttributeWords(m));
      var done := Perform(r, server, Set(m));
      run.server == done.server && run.ok == done.ok && (run.ok ==> run.stack == path)
  {
    hide ParseImpl, RunLine, PlainContext, NamedStack, AttributeWords, PathToVector;
    var signal := AttributeSignal(path, m);
    OneSignal(r, server, world, signal);
    if Named(m.kind, m.name) in server.objects {
      LineRuns(r, tables, server, world, path, AttributeWords(m), [signal]);
    } else {
      LineFails(r, tables, server, world, path, AttributeWords(m), [signal], 0);
    }
  }
}
