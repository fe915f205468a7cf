/**
 Executing the printed lines of one modification: a comment, a command, or a header and the lines of its block.
 */
module Blocks {
  import opened Core
  import opened Grammar
  import opened Lexer
  import opened LineBreaks
  import opened PathText
  import opened Plans
  import opened Rebase
  import opened RebaseReplay
  import opened RebaseScript
  import opened RebaseSteps
  import opened ScriptFile
  import opened ScriptLines
  import D = Database
  import Schema
  import Values

  // ---- What is assumed about the two differences ----

  /** The header of a block inside a block of the kind is not taken for anything else. */
  predicate HeadersStand(tables: Tables, outer: Ident) {
    forall k | k in tables.kinds :: k !in KEYWORDS && k !in tables.Attributes(outer)
  }

  /** An object whose block the script can open. */
  predicate BlockObject(tables: Tables, m: Modification)
    requires tables.Valid()
  {
    && Complete(tables, m.kind, m.name) && IsIdent(m.kind) && "end" !in tables.Attributes(m.kind)
    && (m.kind in tables.embeddedInto ==> HeadersStand(tables, tables.embeddedInto[m.kind]))
  }

  /**
   One of our modifications: nothing printed holds a line break, whole names, attributes that can be set and read back, no
   attribute of a deleted object.
   */
  predicate OursFit(tables: Tables, deletions: Deletions, m: Modification)
    requires tables.Valid()
  {
    && SingleLine(m)
    && Complete(tables, m.kind, m.name) && IsIdent(m.kind)
    && (m.RenameObject? ==> IsObjectToken(m.newName))
    && (m.SetAttribute? ==>
          && BlockObject(tables, m) && OwnAttribute(tables, m.kind, m.attribute) && IsIdent(m.attribute)
          && Writable(tables, m) && !Deleted(deletions, m))
  }

  /**
   One of the modifications in the newer revision: only its block headers are executed, unless we deleted the object, and
   its comments stay comments.
   */
  predicate ExternFits(tables: Tables, deletions: Deletions, m: Modification)
    requires tables.Valid()
  {
    SingleLine(m) && (m.SetAttribute? ==> Deleted(deletions, m) || BlockObject(tables, m))
  }

  predicate AllFit(tables: Tables, deletions: Deletions, extern: seq<Modification>, ours: seq<Modification>)
    requires tables.Valid()
  {
    && (forall i | 0 <= i < |ours| :: OursFit(tables, deletions, ours[i]))
    && (forall i | 0 <= i < |extern| :: ExternFits(tables, deletions, extern[i]))
  }

  ghost predicate AllWilling(worlds: nat -> World) {
    forall i :: Willing(worlds(i))
  }

  predicate SameEmbedding(r: D.Relations, tables: Tables) {
    tables.embeddedInto == r.embeddedInto
  }

  // ---- Lines of the script ----

  /** Executing printed lines. */
  ghost function RunScript(r: D.Relations, tables: Tables, server: Server, worlds: nat -> World, stack: Stack, script: Script,
      i: nat): Outcome
    requires Schema.Acyclic(r.embeddedInto) && tables.Valid()
  {
    Run(r, tables, LexerOf(tables), server, worlds, stack, LineTexts(script), i)
  }

  lemma RunNothing(r: D.Relations, tables: Tables, server: Server, worlds: nat -> World, stack: Stack, i: nat)
    requires Schema.Acyclic(r.embeddedInto) && tables.Valid()
    ensures RunScript(r, tables, server, worlds, stack, [], i) == Outcome(stack, server, true)
  {
  }

  lemma ScriptConcat(r: D.Relations, tables: Tables, server: Server, worlds: nat -> World, stack: Stack, a: Script, b: Script,
      i: nat)
    requires Schema.Acyclic(r.embeddedInto) && tables.Valid()
    ensures RunScript(r, tables, server, worlds, stack, a + b, i) ==
      var first := RunScript(r, tables, server, worlds, stack, a, i);
      if first.ok then RunScript(r, tables, first.server, worlds, first.stack, b, i + |a|) else first
  {
    hide Run, LineText;
    assert LineTexts(a + b) == LineTexts(a) + LineTexts(b);
    RunConcat(r, tables, LexerOf(tables), server, worlds, stack, LineTexts(a), LineTexts(b), i);
  }

  /** The first word does not look like a comment. */
  predicate Starts(line: ScriptLine) {
    line.texts != [] && line.texts[0] != "" && line.texts[0][0] != '#'
  }

  lemma CommentsSkipped(line: ScriptLine)
    requires line.commented || Starts(line)
    ensures Skipped(LineText(line)) <==> line.commented
  {
    var text := LineText(line);
    if !line.commented {
      assert Spaced(line.texts)[0] == line.texts[0][0];
      if line.indented {
        assert text[0] == ' ';
      } else {
        assert text == Spaced(line.texts);
      }
    } else {
      assert text[0] == '#';
    }
  }

  lemma OneScriptLine(r: D.Relations, tables: Tables, server: Server, worlds: nat -> World, stack: Stack, line: ScriptLine, i: nat)
    requires Schema.Acyclic(r.embeddedInto) && tables.Valid() && (line.commented || Starts(line))
    ensures RunScript(r, tables, server, worlds, stack, [line], i) ==
      if line.commented then Outcome(stack, server, true)
      else RunLine(r, tables, server, worlds(i), stack, Lex(tables, stack, false, LineText(line)))
  {
    hide RunLine, Lex, LineText, Run, Starts;
    assert LineTexts([line]) == [LineText(line)];
    CommentsSkipped(line);
    OneLine(r, tables, LexerOf(tables), server, worlds, stack, LineText(line), i);
  }

  lemma CommentsDoNothing(r: D.Relations, tables: Tables, server: Server, worlds: nat -> World, stack: Stack, line: ScriptLine, i: nat)
    requires Schema.Acyclic(r.embeddedInto) && tables.Valid() && line.commented
    ensures RunScript(r, tables, server, worlds, stack, [line], i) == Outcome(stack, server, true)
  {
    hide RunLine, Lex, LineText, RunScript;
    OneScriptLine(r, tables, server, worlds, stack, line, i);
  }

  /** A line of words that are no attributes of the open block's kind. */
  lemma PlainLine(r: D.Relations, tables: Tables, server: Server, worlds: nat -> World, stack: Stack, texts: seq<string>, i: nat)
    requires Schema.Acyclic(r.embeddedInto) && tables.Valid()
    requires texts != [] && texts[0] != "" && texts[0][0] != '#' && forall k | 0 <= k < |texts| :: Solid(texts[k])
    requires forall k | 0 <= k < |texts| - 1 :: !IsAttribute(tables, stack, texts[k])
    ensures RunScript(r, tables, server, worlds, stack, [ScriptLine(false, false, texts)], i)
      == RunLine(r, tables, server, worlds(i), stack, Words(texts))
  {
    hide RunLine, Lex, RunScript, Solid, IsAttribute;
    var line := ScriptLine(false, false, texts);
    OneScriptLine(r, tables, server, worlds, stack, line, i);
    assert LineText(line) == Spaced(texts);
    LexWords(tables, stack, false, texts);
  }

  lemma WordsSolid()
    ensures Solid("create") && Solid("delete") && Solid("rename") && Solid("end") && Solid("no")
  {
  }

  // ---- Blocks ----

  /** The block of the last modification was opened. */
  predicate Executed(deletions: Deletions, last: Option<Modification>) {
    last.Some? && last.value.SetAttribute? && !Deleted(deletions, last.value)
  }

  function BlockPath(tables: Tables, m: Modification): Stack
    requires tables.Valid()
  {
    if WholeName(tables, m.kind, m.name) then PathOf(tables, m.kind, m.name) else []
  }

  /** The context stack behind the lines of the last modification; rest is what earlier blocks left open. */
  function Here(tables: Tables, deletions: Deletions, last: Option<Modification>, rest: Stack): Stack
    requires tables.Valid()
  {
    if Executed(deletions, last) then BlockPath(tables, last.value) else rest
  }

  /** The context stack when its block is closed by the single "end". */
  function Behind(tables: Tables, deletions: Deletions, last: Option<Modification>, rest: Stack): Stack
    requires tables.Valid()
  {
    if Executed(deletions, last) && BlockPath(tables, last.value) != [] then DropLast(BlockPath(tables, last.value)) else rest
  }

  /** What is left open behind the lines of the next modification. */
  function Next(tables: Tables, deletions: Deletions, m: Modification, last: Option<Modification>, rest: Stack): Stack
    requires tables.Valid()
  {
    if Executed(deletions, Some(m)) then [] else Behind(tables, deletions, last, rest)
  }

  predicate LeftOpen(tables: Tables, rest: Stack) {
    rest != [] ==> HeadersStand(tables, Last(rest).kind)
  }

  predicate Settled(tables: Tables, deletions: Deletions, last: Option<Modification>, rest: Stack)
    requires tables.Valid()
  {
    && (Executed(deletions, last) ==> rest == [] && BlockObject(tables, last.value))
    && (last.None? || !last.value.SetAttribute? ==> rest == [])
    && LeftOpen(tables, rest)
  }

  /** The next header finds a block open. */
  predicate Stuck(tables: Tables, deletions: Deletions, last: Option<Modification>, rest: Stack) {
    rest != [] || (Executed(deletions, last) && last.value.kind in tables.embeddedInto)
  }

  predicate Fits(tables: Tables, deletions: Deletions, source: Source, m: Modification)
    requires tables.Valid()
  {
    if source == Extern then ExternFits(tables, deletions, m) else OursFit(tables, deletions, m)
  }

  predicate TypesAscend(last: Option<Modification>, m: Modification) {
    last.Some? ==> Type(last.value) <= Type(m)
  }

  /** The path of a block: its last item is the object, and the one in front of it of the embedding kind. */
  lemma BlockShape(tables: Tables, m: Modification)
    requires tables.Valid() && Complete(tables, m.kind, m.name)
    ensures var path := BlockPath(tables, m);
      && path == PathOf(tables, m.kind, m.name)
      && path != [] && NamedStack(path) && Last(path).kind == m.kind
      && (DropLast(path) != [] <==> m.kind in tables.embeddedInto)
      && (m.kind in tables.embeddedInto ==> Last(DropLast(path)).kind == tables.embeddedInto[m.kind])
  {
    hide IsObjectToken, PathToVector, IsIdent, NamedStack;
    PathShape(tables, m.kind, m.name);
    PathOfComplete(tables, m.kind, m.name);
    var path := PathOf(tables, m.kind, m.name);
    assert |path| == |StackPath(path)|;
    if |path| > 1 {
      assert ClimbingAt(tables, path, |path| - 1);
    }
  }

  lemma BehindOpen(tables: Tables, deletions: Deletions, last: Option<Modification>, rest: Stack)
    requires tables.Valid() && Settled(tables, deletions, last, rest)
    ensures var behind := Behind(tables, deletions, last, rest);
      LeftOpen(tables, behind) && (behind != [] <==> Stuck(tables, deletions, last, rest))
  {
    hide Complete, HeadersStand, PathOf, NamedStack, WholeName;
    if Executed(deletions, last) {
      BlockShape(tables, last.value);
    }
  }

  /** "end" leaves the innermost level of the last modification's block, if that is open. */
  lemma RunEnd(r: D.Relations, tables: Tables, deletions: Deletions, server: Server, worlds: nat -> World,
      last: Modification, rest: Stack, i: nat)
    requires Schema.Acyclic(r.embeddedInto) && tables.Valid() && SameEmbedding(r, tables) && AllWilling(worlds)
    requires last.SetAttribute? && Settled(tables, deletions, Some(last), rest)
    ensures RunScript(r, tables, server, worlds, Here(tables, deletions, Some(last), rest), [EndLine(Deleted(deletions, last))], i)
      == Outcome(Behind(tables, deletions, Some(last), rest), server, true)
  {
    hide RunLine, Complete, Willing, RunScript, NamedStack, Solid, HeadersStand;
    var stack := Here(tables, deletions, Some(last), rest);
    if Deleted(deletions, last) {
      CommentsDoNothing(r, tables, server, worlds, stack, EndLine(true), i);
    } else {
      BlockShape(tables, last);
      WordsSolid();
      PlainLine(r, tables, server, worlds, stack, ["end"], i);
      EndRuns(r, tables, server, worlds(i), stack);
    }
  }

  lemma KindsStray(tables: Tables, stack: Stack, kind: Ident)
    requires stack != [] && HeadersStand(tables, Last(stack).kind) && kind in tables.kinds && kind !in FUNCTION_WORDS
    ensures Stray(tables, stack, kind) && !IsAttribute(tables, stack, kind)
  {
  }

  /** A header opens a block on an empty stack; it is refused behind the block of an embedded object. */
  lemma RunHeader(r: D.Relations, tables: Tables, deletions: Deletions, server: Server, worlds: nat -> World,
      m: Modification, stack: Stack, i: nat)
    requires Schema.Acyclic(r.embeddedInto) && tables.Valid() && SameEmbedding(r, tables) && AllWilling(worlds)
    requires m.SetAttribute? && LeftOpen(tables, stack) && (Deleted(deletions, m) || BlockObject(tables, m))
    ensures var run := RunScript(r, tables, server, worlds, stack, [Header(Deleted(deletions, m), m)], i);
      if Deleted(deletions, m) then run == Outcome(stack, server, true)
      else if stack == [] then run == Outcome(BlockPath(tables, m), WithLevels(r, server, ObjectOf(m)), true)
      else !run.ok && run.server == server
  {
    hide RunLine, Willing, WithLevels, PathToVector, PathOf, RunScript, Solid, HeadersStand, IsObjectToken, IsIdent, D.FullName;
    if Deleted(deletions, m) {
      CommentsDoNothing(r, tables, server, worlds, stack, Header(true, m), i);
    } else {
      var texts := [m.kind, m.name];
      assert Willing(worlds(i));
      IdentSolid(m.kind);
      NameSolid(m.name);
      SolidNotEmpty(m.kind);
      if stack != [] {
        KindsStray(tables, stack, m.kind);
        PlainLine(r, tables, server, worlds, stack, texts, i);
        HeaderRefused(tables, Exists(server.objects), stack, m.kind, m.name);
        LineRefused(r, tables, server, worlds(i), stack, Words(texts));
      } else {
        PlainLine(r, tables, server, worlds, stack, texts, i);
        OpenRuns(r, tables, server, worlds(i), m.kind, m.name);
      }
    }
  }

  lemma SolidNotEmpty(s: string)
    requires Solid(s)
    ensures s != ""
  {
  }

  /** What stands in front of a modification of an attribute. */
  function Lead(deletions: Deletions, m: Modification, last: Option<Modification>): Script {
    if last.None? || !last.value.SetAttribute? then [Header(Deleted(deletions, m), m)]
    else if SameObject(m, last.value) then []
    else [EndLine(Deleted(deletions, last.value)), Header(Deleted(deletions, m), m)]
  }

  lemma LeadPlanned(r: D.Relations, deletions: Deletions, server: Server, m: Modification, last: Option<Modification>)
    requires Schema.Acyclic(r.embeddedInto)
    ensures PerformAll(r, server, LeadPlan(deletions, m, last)) ==
      Performed(if Opens(deletions, m, last) then WithLevels(r, server, ObjectOf(m)) else server, true)
  {
    hide WithLevels, Opens;
    PerformOne(r, server, Action.Open(ObjectOf(m)));
  }

  lemma RunLead(r: D.Relations, tables: Tables, deletions: Deletions, server: Server, worlds: nat -> World,
      last: Option<Modification>, m: Modification, rest: Stack, i: nat)
    requires Schema.Acyclic(r.embeddedInto) && tables.Valid() && SameEmbedding(r, tables) && AllWilling(worlds)
    requires m.SetAttribute? && Settled(tables, deletions, last, rest) && (Deleted(deletions, m) || BlockObject(tables, m))
    ensures var run := RunScript(r, tables, server, worlds, Here(tables, deletions, last, rest), Lead(deletions, m, last), i);
      if Opens(deletions, m, last) && Stuck(tables, deletions, last, rest) then !run.ok && run.server == server
      else run == Outcome(Here(tables, deletions, Some(m), Next(tables, deletions, m, last, rest)),
                          PerformAll(r, server, LeadPlan(deletions, m, last)).server, true)
    ensures PerformAll(r, server, LeadPlan(deletions, m, last)).ok
  {
    hide Complete, AllWilling, RunLine, WithLevels, PerformAll, PathToVector, BlockObject, RunScript, BlockPath, LeftOpen,
      HeadersStand;
    LeadPlanned(r, deletions, server, m, last);
    BehindOpen(tables, deletions, last, rest);
    var stack := Here(tables, deletions, last, rest);
    if last.None? || !last.value.SetAttribute? {
      RunHeader(r, tables, deletions, server, worlds, m, stack, i);
    } else if !SameObject(m, last.value) {
      var end, header := EndLine(Deleted(deletions, last.value)), Header(Deleted(deletions, m), m);
      var behind := Behind(tables, deletions, last, rest);
      RunEnd(r, tables, deletions, server, worlds, last.value, rest, i);
      RunHeader(r, tables, deletions, server, worlds, m, behind, i + 1);
      assert [end, header] == [end] + [header];
      ScriptConcat(r, tables, server, worlds, stack, [end], [header], i);
    } else {
      RunNothing(r, tables, server, worlds, stack, i);
      SameBlock(tables, m, last.value);
    }
  }

  lemma SameBlock(tables: Tables, a: Modification, b: Modification)
    requires tables.Valid() && SameObject(a, b)
    ensures BlockPath(tables, a) == BlockPath(tables, b)
  {
  }

  /** The lines of a modification of an attribute: the lead and the attribute itself. */
  lemma AttributeLinesSplit(deletions: Deletions, source: Source, m: Modification, last: Option<Modification>)
    requires m.SetAttribute? && (source != Extern ==> !Deleted(deletions, m))
    ensures Lines(deletions, source, m, last) == Lead(deletions, m, last) + Body(source, m)
  {
    var body := Body(source, m);
    assert [] + body == body;
  }

  /** The command of our attribute is read as it was printed. */
  lemma LexCommand(tables: Tables, m: Modification)
    requires tables.Valid() && m.SetAttribute? && Complete(tables, m.kind, m.name) && Writable(tables, m)
    requires OwnAttribute(tables, m.kind, m.attribute) && IsIdent(m.attribute)
    ensures Lex(tables, BlockPath(tables, m), false, LineText(OurAttribute(m)[1])) == AttributeWords(m)
  {
    hide Complete, Lex, Solid, IsIdent, Values.Readable, ValueLength, Spaced, BlockPath, NamedStack;
    var path := BlockPath(tables, m);
    BlockShape(tables, m);
    IdentSolid(m.attribute);
    var texts := OurAttribute(m)[1].texts;
    assert LineText(OurAttribute(m)[1]) == "     " + Spaced(texts);
    IndentSkipped(tables, path, false, Spaced(texts));
    if m.value.Some? {
      ValueTaken(tables.TypeOf(m.kind, m.attribute), m.value.value);
      LexValue(tables, path, m.attribute, Values.Print(m.value.value));
    } else {
      WordsSolid();
      LexWords(tables, path, false, texts);
    }
  }

  lemma RunOurAttribute(r: D.Relations, tables: Tables, deletions: Deletions, server: Server, worlds: nat -> World,
      m: Modification, i: nat)
    requires Schema.Acyclic(r.embeddedInto) && tables.Valid() && SameEmbedding(r, tables) && AllWilling(worlds)
    requires m.SetAttribute? && OursFit(tables, deletions, m)
    ensures var run := RunScript(r, tables, server, worlds, BlockPath(tables, m), OurAttribute(m), i);
      var done := Perform(r, server, Set(m));
      run.server == done.server && run.ok == done.ok && (run.ok ==> run.stack == BlockPath(tables, m))
  {
    hide Complete, OwnAttribute, Willing, RunLine, Writable, Perform, PathToVector, PathOf, RunScript, Lex, SingleLine, IsIdent,
      LineText, BlockObject;
    var stack := BlockPath(tables, m);
    var note, command := OurAttribute(m)[0], OurAttribute(m)[1];
    assert Willing(worlds(i + 1));
    BlockShape(tables, m);
    CommentsDoNothing(r, tables, server, worlds, stack, note, i);
    CommandStarts(m);
    OneScriptLine(r, tables, server, worlds, stack, command, i + 1);
    LexCommand(tables, m);
    SetRuns(r, tables, server, worlds(i + 1), m);
    assert OurAttribute(m) == [note] + [command];
    ScriptConcat(r, tables, server, worlds, stack, [note], [command], i);
  }

  lemma CommandStarts(m: Modification)
    requires m.SetAttribute? && IsIdent(m.attribute)
    ensures Starts(OurAttribute(m)[1])
  {
    IdentSolid(m.attribute);
  }

  /** The body of a modification of an attribute, in the block of its object. */
  lemma RunBody(r: D.Relations, tables: Tables, deletions: Deletions, server: Server, worlds: nat -> World, source: Source,
      m: Modification, rest: Stack, i: nat)
    requires Schema.Acyclic(r.embeddedInto) && tables.Valid() && SameEmbedding(r, tables) && AllWilling(worlds)
    requires m.SetAttribute? && Fits(tables, deletions, source, m)
    ensures var run := RunScript(r, tables, server, worlds, Here(tables, deletions, Some(m), rest), Body(source, m), i);
      var done := PerformAll(r, server, if source == Ours then [Set(m)] else []);
      run.server == done.server && run.ok == done.ok && (run.ok ==> run.stack == Here(tables, deletions, Some(m), rest))
  {
    hide Complete, OwnAttribute, AllWilling, RunLine, Writable, Perform, OurAttribute, BlockObject, RunScript, SingleLine,
      BlockPath, IsIdent;
    if source == Ours {
      RunOurAttribute(r, tables, deletions, server, worlds, m, i);
      PerformOne(r, server, Set(m));
    } else {
      var note := Body(source, m)[0];
      assert Body(source, m) == [note];
      CommentsDoNothing(r, tables, server, worlds, Here(tables, deletions, Some(m), rest), note, i);
      NothingPlanned(r, server);
    }
  }

  /** The lines of one modification: refused at its header, or its steps of the plan. */
  ghost predicate DoesPlan(r: D.Relations, tables: Tables, deletions: Deletions, server: Server, source: Source, m: Modification,
      last: Option<Modification>, rest: Stack, run: Outcome)
    requires Schema.Acyclic(r.embeddedInto) && tables.Valid()
  {
    if Opens(deletions, m, last) && Stuck(tables, deletions, last, rest) then !run.ok && run.server == server
    else
      var done := PerformAll(r, server, PlanOf(deletions, source, m, last));
      && run.server == done.server && run.ok == done.ok
      && (run.ok ==> run.stack == Here(tables, deletions, Some(m), Next(tables, deletions, m, last, rest)))
  }

  lemma RunAttributeLines(r: D.Relations, tables: Tables, deletions: Deletions, server: Server, worlds: nat -> World,
      source: Source, m: Modification, last: Option<Modification>, rest: Stack, i: nat)
    requires Schema.Acyclic(r.embeddedInto) && tables.Valid() && SameEmbedding(r, tables) && AllWilling(worlds)
    requires m.SetAttribute? && Fits(tables, deletions, source, m) && Settled(tables, deletions, last, rest)
    ensures DoesPlan(r, tables, deletions, server, source, m, last, rest,
      RunScript(r, tables, server, worlds, Here(tables, deletions, last, rest), Lines(deletions, source, m, last), i))
  {
    hide Complete, OwnAttribute, AllWilling, RunLine, Writable, Lead, Lines, RunScript, Body, BlockObject, PerformAll, Opens,
      Settled, Stuck, Here, Next, SingleLine, IsIdent;
    var lead, body := Lead(deletions, m, last), Body(source, m);
    var stack := Here(tables, deletions, last, rest);
    AttributeLinesSplit(deletions, source, m, last);
    RunLead(r, tables, deletions, server, worlds, last, m, rest, i);
    ScriptConcat(r, tables, server, worlds, stack, lead, body, i);
    var plan := LeadPlan(deletions, m, last);
    var led := PerformAll(r, server, plan).server;
    RunBody(r, tables, deletions, led, worlds, source, m, Next(tables, deletions, m, last, rest), i + |lead|);
    PerformConcat(r, server, plan, if source == Ours then [Set(m)] else []);
  }

  /** The command of one of our modifications of a whole object. */
  lemma RunObjectCommand(r: D.Relations, tables: Tables, server: Server, worlds: nat -> World, deletions: Deletions,
      m: Modification, i: nat)
    requires Schema.Acyclic(r.embeddedInto) && tables.Valid() && SameEmbedding(r, tables) && AllWilling(worlds)
    requires !m.SetAttribute? && OursFit(tables, deletions, m)
    ensures var run := RunScript(r, tables, server, worlds, [], OurFirst(m), i);
      var done := Perform(r, server, ActionOf(m));
      run.server == done.server && run.ok == done.ok && (run.ok ==> run.stack == [])
  {
    hide Complete, RunLine, IsObjectToken, RunScript, Perform, PathToVector, SingleLine, Solid, Willing, IsIdent;
    assert Willing(worlds(i));
    var texts := OurFirst(m)[0].texts;
    WordsSolid();
    IdentSolid(m.kind);
    CompleteToken(tables, m.kind, m.name);
    NameSolid(m.name);
    if m.RenameObject? {
      NameSolid(m.newName);
    }
    assert OurFirst(m) == [ScriptLine(false, false, texts)];
    PlainLine(r, tables, server, worlds, [], texts, i);
    match m {
      case CreateObject(_, _) => CreateRuns(r, tables, server, worlds(i), m.kind, m.name);
      case DeleteObject(_, _) => DeleteRuns(r, tables, server, worlds(i), m.kind, m.name);
      case RenameObject(_, _, newName) => RenameRuns(r, tables, server, worlds(i), m.kind, m.name, newName);
    }
  }

  lemma CompleteToken(tables: Tables, kind: Ident, name: Ident)
    requires tables.Valid() && Complete(tables, kind, name)
    ensures IsObjectToken(name) && PathToVector(name).Some?
  {
  }

  /** Modifications of whole objects stand in front of all blocks. */
  lemma RunObjectLines(r: D.Relations, tables: Tables, deletions: Deletions, server: Server, worlds: nat -> World,
      source: Source, m: Modification, last: Option<Modification>, rest: Stack, i: nat)
    requires Schema.Acyclic(r.embeddedInto) && tables.Valid() && SameEmbedding(r, tables) && AllWilling(worlds)
    requires !m.SetAttribute? && Fits(tables, deletions, source, m) && TypesAscend(last, m)
    requires Settled(tables, deletions, last, rest)
    ensures DoesPlan(r, tables, deletions, server, source, m, last, rest,
      RunScript(r, tables, server, worlds, Here(tables, deletions, last, rest), Lines(deletions, source, m, last), i))
  {
    hide Complete, OwnAttribute, Writable, IsObjectToken, RunScript, Perform, BlockObject, SingleLine, PerformAll, AllWilling,
      OursFit, ActionOf, HeadersStand, BlockPath, LineText;
    assert rest == [];
    var lines := Lines(deletions, source, m, last);
    assert |lines| == 1 && lines == [lines[0]];
    if source == Ours {
      assert lines == OurFirst(m);
      PerformOne(r, server, ActionOf(m));
      RunObjectCommand(r, tables, server, worlds, deletions, m, i);
      assert PlanOf(deletions, source, m, last) == [ActionOf(m)];
    } else {
      CommentsDoNothing(r, tables, server, worlds, [], lines[0], i);
      NothingPlanned(r, server);
      assert PlanOf(deletions, source, m, last) == [];
    }
  }
}
