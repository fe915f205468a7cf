/**
 Executing a script line by line against the server's objects. While a rebase executes its script nobody is asked:
 entering a missing object creates it, and a deletion takes everything inside with it.
 */
module RebaseReplay {
  import opened Core
  import opened Schema
  import opened PathText
  import opened Grammar
  import opened GrammarLaws
  import opened Signals
  import opened Rebase
  import opened Lexer
  import opened ScriptFile
  import opened ScriptLines
  import D = Database
  import E = Existence
  import Values

  /** The objects on the server, and the modifications made in the attached changeset so far. */
  datatype Server = Server(objects: set<Object>, changes: seq<Modification>)

  /**
   What is not determined by the objects: whether the server refuses a request for reasons of its own, and, for signals
   with filters, nameless objects or attributes of contained kinds, everything: the objects afterwards and the
   modifications made. fails tells whether parsingFailed is set.
   */
  datatype Reply = Reply(refuses: bool, confirm: Confirmation, apply: Application, objects: set<Object>,
    made: seq<Modification>, fails: bool)

  /** The replies to the signals of one line. */
  type World = nat -> Reply

  /** The server refuses nothing that the objects allow. */
  ghost predicate Willing(world: World) {
    forall j :: !world(j).refuses
  }

  function Exists(objects: set<Object>): Object -> bool {
    o => o in objects
  }

  function ObjectAt(stack: Stack): Object
    requires stack != [] && FilterFree(stack)
  {
    Object(Last(stack).kind, StackPath(stack))
  }

  function Text(o: Object): Ident {
    VectorToPath(o.name)
  }

  // ---- What the server does ----

  function Created(server: Server, o: Object): Server {
    Server(server.objects + {o}, server.changes + [Modification.CreateObject(o.kind, Text(o))])
  }

  /** Everything embedded in the object, at any depth. */
  function Inside(r: D.Relations, objects: set<Object>, o: Object): set<Object> {
    set x | x in objects && E.Below(r, o, x)
  }

  /** The members of a set, each once, in some order. */
  ghost function InSomeOrder(objects: set<Object>): (r: seq<Object>)
    ensures NoDuplicates(r) && Elements(r) == objects
    decreases objects
  {
    if objects == {} then []
    else
      var o :| o in objects;
      var rest := InSomeOrder(objects - {o});
      assert forall x | x in rest :: x in Elements(rest);
      assert Elements([o] + rest) == {o} + Elements(rest);
      [o] + rest
  }

  function DeletionsOf(objects: seq<Object>): (r: seq<Modification>)
    ensures |r| == |objects| && forall i | 0 <= i < |r| :: r[i] == DeleteObject(objects[i].kind, Text(objects[i]))
  {
    seq(|objects|, i requires 0 <= i < |objects| => DeleteObject(objects[i].kind, Text(objects[i])))
  }

  /** applyFunctionDelete without asking: the object, if it exists, and everything inside. */
  ghost function Removed(r: D.Relations, server: Server, o: Object): Server {
    var inside := Inside(r, server.objects, o);
    var own := if o in server.objects then [DeleteObject(o.kind, Text(o))] else [];
    Server(server.objects - {o} - inside, server.changes + own + DeletionsOf(InSomeOrder(inside)))
  }

  function RenamedTo(r: D.Relations, server: Server, o: Object, newName: Ident): Server
    requires o.name != []
  {
    Server(E.Applied(r, "", server.objects, E.Rename(o, newName)),
           server.changes + [RenameObject(o.kind, Text(o), Text(E.Renamed(o, newName)))])
  }

  predicate CanCreate(r: D.Relations, objects: set<Object>, o: Object)
    requires Acyclic(r.embeddedInto)
  {
    E.Acceptable(r, "", objects, E.Create(o))
  }

  predicate CanRename(r: D.Relations, objects: set<Object>, o: Object, newName: Ident)
    requires Acyclic(r.embeddedInto)
  {
    E.Acceptable(r, "", objects, E.Rename(o, newName))
  }

  // ---- One signal ----

  /** What applying a signal led to. */
  datatype Effect = Effect(reply: Application, server: Server, fails: bool)

  /** The context is one completely named object. */
  predicate PlainContext(context: Stack) {
    context != [] && FilterFree(context) && forall i | 0 <= i < |context| :: IsIdent(context[i].name)
  }

  predicate Determined(signal: Signal) {
    match signal
    case CategoryLeft => true
    case CreateObject(context, _, _) => PlainContext(context)
    case CategoryEntered(context, _, _) => PlainContext(context)
    case FunctionDelete(context) => PlainContext(context)
    case FunctionRename(context, _) => PlainContext(context)
    case SetAttribute(context, kind, _, _) => PlainContext(context) && Last(context).kind == kind
    case RemoveAttribute(context, kind, _) => PlainContext(context) && Last(context).kind == kind
    case _ => false
  }

  function ConfirmOf(signal: Signal, reply: Reply): Confirmation {
    if Determined(signal) then Confirmed else reply.confirm
  }

  function Refusal(server: Server): Effect {
    Effect(Thrown, server, true)
  }

  function Success(server: Server): Effect {
    Effect(Applied(""), server, false)
  }

  /** The apply functions of the user interface in non-interactive mode. */
  ghost function EffectOf(r: D.Relations, server: Server, signal: Signal, reply: Reply): Effect
    requires Acyclic(r.embeddedInto)
  {
    if !Determined(signal) then Effect(reply.apply, Server(reply.objects, server.changes + reply.made), reply.fails)
    else if signal.CategoryLeft? then Success(server)
    else
      var o := ObjectAt(signal.context);
      match signal
      case CategoryEntered(_, _, _) =>
        if o in server.objects then Success(server)
        else if !reply.refuses && CanCreate(r, server.objects, o) then Success(Created(server, o))
        else Refusal(server)
      case CreateObject(_, _, _) =>
        if o in server.objects then Effect(Failed, server, true)
        else if !reply.refuses && CanCreate(r, server.objects, o) then Success(Created(server, o))
        else Refusal(server)
      case FunctionDelete(_) =>
        if reply.refuses then Refusal(server) else Success(Removed(r, server, o))
      case FunctionRename(_, newName) =>
        if !reply.refuses && CanRename(r, server.objects, o, newName) then Success(RenamedTo(r, server, o, newName))
        else Refusal(server)
      case SetAttribute(_, kind, attribute, value) =>
        if reply.refuses || o !in server.objects then Refusal(server)
        else Success(server.(changes := server.changes + [Modification.SetAttribute(kind, Text(o), attribute, Some(value), None)]))
      case RemoveAttribute(_, kind, attribute) =>
        if reply.refuses || o !in server.objects then Refusal(server)
        else Success(server.(changes := server.changes + [Modification.SetAttribute(kind, Text(o), attribute, None, None)]))
  }

  // ---- One line ----

  /** The server after the first n signals were applied. */
  ghost function ServerAfter(r: D.Relations, server: Server, world: World, signals: seq<Signal>, n: nat): Server
    requires Acyclic(r.embeddedInto) && n <= |signals|
    decreases n
  {
    if n == 0 then server
    else EffectOf(r, ServerAfter(r, server, world, signals, n - 1), signals[n - 1], world(n - 1)).server
  }

  ghost function EffectAt(r: D.Relations, server: Server, world: World, signals: seq<Signal>, n: nat): Effect
    requires Acyclic(r.embeddedInto) && n < |signals|
  {
    EffectOf(r, ServerAfter(r, server, world, signals, n), signals[n], world(n))
  }

  /** The replies the signals handler gets. */
  ghost function RepliesOf(r: D.Relations, server: Server, world: World, signals: seq<Signal>): Replies
    requires Acyclic(r.embeddedInto)
  {
    Replies((j: nat) => if j < |signals| then ConfirmOf(signals[j], world(j)) else Confirmed,
            (j: nat) => if j < |signals| then EffectAt(r, server, world, signals, j).reply else Applied(""))
  }

  /** Context stack, server, and whether parsingFailed was left unset. */
  datatype Outcome = Outcome(stack: Stack, server: Server, ok: bool)

  /** One line of the script through the parser and the signals handler. */
  ghost function RunLine(r: D.Relations, tables: Tables, server: Server, world: World, stack: Stack, tokens: seq<Token>): Outcome
    requires Acyclic(r.embeddedInto) && tables.Valid()
  {
    var input := Input(tokens, Exists(server.objects));
    var (_, out) := ParseLine(tables, input.objectExists, stack, tokens);
    var signals := SignalsOf(out);
    var replies := RepliesOf(r, server, world, signals);
    var left := LineResult(tables, stack, input, replies);
    if !ParseImpl(tables, false, input.objectExists, stack, [Started], tokens).1 || !AllConfirmed(signals, replies)
    then Outcome(left, server, false)
    else
      var n := AppliedCount(signals, replies, 0);
      if n == |signals| then Outcome(left, ServerAfter(r, server, world, signals, n), true)
      else
        var e := EffectAt(r, server, world, signals, n);
        Outcome(left, e.server, !e.fails && !e.reply.Thrown?)
  }

  /**
   The loop over the lines of the file: empty and commented lines are skipped, and the first line that sets parsingFailed
   ends it. A line that only stops halfway does not end it. lex takes the lines apart, and worlds(i) is for line i.
   */
  ghost function Run(r: D.Relations, tables: Tables, lex: Lexing, server: Server, worlds: nat -> World, stack: Stack,
      lines: seq<string>, i: nat): Outcome
    requires Acyclic(r.embeddedInto) && tables.Valid()
    decreases |lines|
  {
    if lines == [] then Outcome(stack, server, true)
    else if Skipped(lines[0]) then Run(r, tables, lex, server, worlds, stack, lines[1..], i + 1)
    else
      var first := RunLine(r, tables, server, worlds(i), stack, lex(stack, lines[0]));
      if !first.ok then first
      else Run(r, tables, lex, first.server, worlds, first.stack, lines[1..], i + 1)
  }

  /** The whole file, from an empty context stack, which is emptied again behind the loop. */
  ghost function RunFile(r: D.Relations, tables: Tables, lex: Lexing, server: Server, worlds: nat -> World, text: string): Outcome
    requires Acyclic(r.embeddedInto) && tables.Valid()
  {
    Run(r, tables, lex, server, worlds, [], GetLines(text), 0).(stack := [])
  }

  lemma OneLine(r: D.Relations, tables: Tables, lex: Lexing, server: Server, worlds: nat -> World, stack: Stack, line: string,
      i: nat)
    requires Acyclic(r.embeddedInto) && tables.Valid()
    ensures Run(r, tables, lex, server, worlds, stack, [line], i) ==
      if Skipped(line) then Outcome(stack, server, true)
      else RunLine(r, tables, server, worlds(i), stack, lex(stack, line))
  {
    hide RunLine;
    var first := RunLine(r, tables, server, worlds(i), stack, lex(stack, line));
    assert Run(r, tables, lex, first.server, worlds, first.stack, [], i + 1) == Outcome(first.stack, first.server, true);
    assert Run(r, tables, lex, server, worlds, stack, [], i + 1) == Outcome(stack, server, true);
  }

  lemma {:induction false} RunConcat(r: D.Relations, tables: Tables, lex: Lexing, server: Server, worlds: nat -> World,
      stack: Stack, a: seq<string>, b: seq<string>, i: nat)
    requires Acyclic(r.embeddedInto) && tables.Valid()
    ensures Run(r, tables, lex, server, worlds, stack, a + b, i) ==
      var first := Run(r, tables, lex, server, worlds, stack, a, i);
      if first.ok then Run(r, tables, lex, first.server, worlds, first.stack, b, i + |a|) else first
    decreases |a|
  {
    hide RunLine;
    if a == [] {
      assert a + b == b;
    } else {
      assert (a + b)[1..] == a[1..] + b;
      if Skipped(a[0]) {
        RunConcat(r, tables, lex, server, worlds, stack, a[1..], b, i + 1);
      } else {
        var first := RunLine(r, tables, server, worlds(i), stack, lex(stack, a[0]));
        RunConcat(r, tables, lex, first.server, worlds, first.stack, a[1..], b, i + 1);
      }
    }
  }

  // ---- A line of determined signals ----

  lemma {:induction false} SignalsSent(signals: seq<Signal>)
    ensures SignalsOf(Sending(signals)) == signals
    decreases |signals|
  {
    if signals == [] {
      assert Sending([]) == [Started];
      assert DropLast([Started]) == [];
    } else {
      SignalsSent(DropLast(signals));
      assert DropLast(Sending(signals)) == Sending(DropLast(signals));
      assert Last(Sending(signals)) == Sent(Last(signals));
      assert DropLast(signals) + [Last(signals)] == signals;
    }
  }

  predicate NamedStack(stack: Stack) {
    forall i | 0 <= i < |stack| :: stack[i].Obj? && stack[i].name != ""
  }

  lemma NamedAlike(parsed: Stack, handled: Stack)
    requires NamedStack(parsed) && AlikeStacks(parsed, handled)
    ensures parsed == handled
  {
  }

  predicate AllDetermined(signals: seq<Signal>) {
    forall j | 0 <= j < |signals| :: Determined(signals[j])
  }

  /** The first n signals are all applied. */
  ghost predicate Through(r: D.Relations, server: Server, world: World, signals: seq<Signal>, n: nat)
    requires Acyclic(r.embeddedInto) && n <= |signals|
  {
    forall j | 0 <= j < n :: EffectAt(r, server, world, signals, j).reply.Applied?
  }

  lemma {:induction false} DeterminedConfirmed(signals: seq<Signal>, replies: Replies, n: nat)
    requires n <= |signals| && forall j | 0 <= j < n :: replies.confirm(j) == Confirmed
    ensures ConfirmAll(signals, replies, n).0
    decreases n
  {
    if n > 0 {
      DeterminedConfirmed(signals, replies, n - 1);
    }
  }

  lemma ReplyAt(r: D.Relations, server: Server, world: World, signals: seq<Signal>, j: nat)
    requires Acyclic(r.embeddedInto) && j < |signals|
    ensures RepliesOf(r, server, world, signals).confirm(j) == ConfirmOf(signals[j], world(j))
    ensures RepliesOf(r, server, world, signals).apply(j) == EffectAt(r, server, world, signals, j).reply
  {
    hide EffectOf, Determined;
  }

  lemma AllDeterminedConfirmed(r: D.Relations, server: Server, world: World, signals: seq<Signal>)
    requires Acyclic(r.embeddedInto) && AllDetermined(signals)
    ensures AllConfirmed(signals, RepliesOf(r, server, world, signals))
  {
    hide Determined;
    var replies := RepliesOf(r, server, world, signals);
    forall j | 0 <= j < |signals| ensures replies.confirm(j) == Confirmed {
      ReplyAt(r, server, world, signals, j);
      assert Determined(signals[j]);
    }
    DeterminedConfirmed(signals, replies, |signals|);
  }

  lemma {:induction false} CountUpTo(signals: seq<Signal>, replies: Replies, i: nat, n: nat)
    requires i <= n <= |signals| && forall j | i <= j < n :: replies.apply(j).Applied?
    requires n < |signals| ==> !signals[n].CategoryLeft? && !replies.apply(n).Applied?
    ensures AppliedCount(signals, replies, i) == n
    decreases n - i
  {
    if i < n {
      CountUpTo(signals, replies, i + 1, n);
    }
  }

  /** An accepted line whose signals all go through ends on the parser's stack. */
  lemma LineRuns(r: D.Relations, tables: Tables, server: Server, world: World, stack: Stack, tokens: seq<Token>, signals: seq<Signal>)
    requires Acyclic(r.embeddedInto) && tables.Valid() && AllDetermined(signals)
    requires var (st, ok) := ParseImpl(tables, false, Exists(server.objects), stack, [Started], tokens);
      ok && st.out == Sending(signals) && NamedStack(st.stack)
    requires Through(r, server, world, signals, |signals|)
    ensures RunLine(r, tables, server, world, stack, tokens) ==
      Outcome(ParseImpl(tables, false, Exists(server.objects), stack, [Started], tokens).0.stack,
        ServerAfter(r, server, world, signals, |signals|), true)
  {
    hide ParseImpl, AllConfirmed, AlikeStacks, NamedStack, EffectOf, Exists;
    var st := ParseImpl(tables, false, Exists(server.objects), stack, [Started], tokens).0;
    var replies := RepliesOf(r, server, world, signals);
    SignalsSent(signals);
    assert DropLast(st.out + [Finished]) == st.out;
    assert signals + [] == signals;
    AllDeterminedConfirmed(r, server, world, signals);
    CountUpTo(signals, replies, 0, |signals|);
    AcceptedLine(tables, stack, Input(tokens, Exists(server.objects)), replies);
    NamedAlike(st.stack, LineResult(tables, stack, Input(tokens, Exists(server.objects)), replies));
  }

  /** An accepted line that fails at its n-th signal. */
  lemma LineFails(r: D.Relations, tables: Tables, server: Server, world: World, stack: Stack, tokens: seq<Token>,
      signals: seq<Signal>, n: nat)
    requires Acyclic(r.embeddedInto) && tables.Valid() && AllDetermined(signals) && n < |signals|
    requires var (st, ok) := ParseImpl(tables, false, Exists(server.objects), stack, [Started], tokens);
      ok && st.out == Sending(signals)
    requires Through(r, server, world, signals, n) && !signals[n].CategoryLeft?
    requires var e := EffectAt(r, server, world, signals, n); !e.reply.Applied? && e.fails
    ensures var run := RunLine(r, tables, server, world, stack, tokens);
      !run.ok && run.server == EffectAt(r, server, world, signals, n).server
  {
    hide ParseImpl, AllConfirmed, EffectOf, Exists, LineResult;
    var st := ParseImpl(tables, false, Exists(server.objects), stack, [Started], tokens).0;
    SignalsSent(signals);
    assert DropLast(st.out + [Finished]) == st.out;
    assert signals + [] == signals;
    AllDeterminedConfirmed(r, server, world, signals);
    CountUpTo(signals, RepliesOf(r, server, world, signals), 0, n);
  }

  lemma LineRefused(r: D.Relations, tables: Tables, server: Server, world: World, stack: Stack, tokens: seq<Token>)
    requires Acyclic(r.embeddedInto) && tables.Valid()
    requires !ParseImpl(tables, false, Exists(server.objects), stack, [Started], tokens).1
    ensures var run := RunLine(r, tables, server, world, stack, tokens); !run.ok && run.server == server
  {
    hide ParseImpl, Exists, LineResult, ParseLine;
  }
}
