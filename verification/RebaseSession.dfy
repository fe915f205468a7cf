/** The rebase command with its script: what the new changeset holds when it replaces the old one. */
module RebaseSession {
  import opened Core
  import opened Schema
  import opened Grammar
  import opened Rebase
  import opened RebaseScript
  import opened RebaseReplay
  import opened RebaseLaws
  import opened Blocks
  import opened Lexer
  import opened LineBreaks
  import opened Plans
  import opened ScriptFile
  import opened RebaseOutcome
  import opened RebaseExtras
  import opened Changesets
  import D = Database

  // ---- Modifications are only ever added ----

  lemma EffectGrows(r: D.Relations, server: Server, signal: Signal, reply: Reply)
    requires Acyclic(r.embeddedInto)
    ensures server.changes <= EffectOf(r, server, signal, reply).server.changes
  {
    hide CanCreate, CanRename, Inside, InSomeOrder, PlainContext;
  }

  lemma {:induction false} SignalsGrow(r: D.Relations, server: Server, world: World, signals: seq<Signal>, n: nat)
    requires Acyclic(r.embeddedInto) && n <= |signals|
    ensures server.changes <= ServerAfter(r, server, world, signals, n).changes
    decreases n
  {
    hide EffectOf;
    if n > 0 {
      SignalsGrow(r, server, world, signals, n - 1);
      EffectGrows(r, ServerAfter(r, server, world, signals, n - 1), signals[n - 1], world(n - 1));
    }
  }

  lemma LineGrows(r: D.Relations, tables: Tables, server: Server, world: World, stack: Stack, tokens: seq<Token>)
    requires Acyclic(r.embeddedInto) && tables.Valid()
    ensures server.changes <= RunLine(r, tables, server, world, stack, tokens).server.changes
  {
    hide EffectOf, ParseImpl, ServerAfter, RepliesOf;
    var (_, out) := ParseLine(tables, Exists(server.objects), stack, tokens);
    var signals := Signals.SignalsOf(out);
    var n := Signals.AppliedCount(signals, RepliesOf(r, server, world, signals), 0);
    SignalsGrow(r, server, world, signals, n);
    if n < |signals| {
      EffectGrows(r, ServerAfter(r, server, world, signals, n), signals[n], world(n));
    }
  }

  // ---- The executed lines of a script ----

  function Added(before: Server, after: Server): seq<Modification> {
    if |before.changes| <= |after.changes| then after.changes[|before.changes|..] else []
  }

  /** What each line that is executed did, up to the first that fails. */
  ghost function ExecutedLines(r: D.Relations, tables: Tables, lex: Lexing, server: Server, worlds: nat -> World, stack: Stack,
      lines: seq<string>, i: nat): seq<Executed>
    requires Acyclic(r.embeddedInto) && tables.Valid()
    decreases |lines|
  {
    if lines == [] then []
    else if Skipped(lines[0]) then ExecutedLines(r, tables, lex, server, worlds, stack, lines[1..], i + 1)
    else
      var first := RunLine(r, tables, server, worlds(i), stack, lex(stack, lines[0]));
      [Executed(Added(server, first.server), first.ok)]
      + (if first.ok then ExecutedLines(r, tables, lex, first.server, worlds, first.stack, lines[1..], i + 1) else [])
  }

  lemma {:induction false} ChangesInTurn(first: Executed, rest: seq<Executed>)
    ensures AllChanges([first] + rest) == first.changes + AllChanges(rest)
    decreases |rest|
  {
    if rest == [] {
      assert [first] + rest == [first] && DropLast([first]) == [];
    } else {
      ChangesInTurn(first, DropLast(rest));
      assert DropLast([first] + rest) == [first] + DropLast(rest);
    }
  }

  lemma SucceedInTurn(first: Executed, rest: seq<Executed>)
    ensures AllSucceed([first] + rest) <==> first.succeeded && AllSucceed(rest)
  {
    var all := [first] + rest;
    assert all[0] == first && forall i | 0 <= i < |rest| :: all[i + 1] == rest[i];
    if AllSucceed(all) {
      forall i | 0 <= i < |rest| ensures rest[i].succeeded {
        assert all[i + 1].succeeded;
      }
    }
  }

  /** The changes of the executed lines are those of the run, and all lines succeed exactly if it goes through. */
  lemma {:induction false} ExecutedRun(r: D.Relations, tables: Tables, lex: Lexing, server: Server, worlds: nat -> World,
      stack: Stack, lines: seq<string>, i: nat)
    requires Acyclic(r.embeddedInto) && tables.Valid()
    ensures var run := Run(r, tables, lex, server, worlds, stack, lines, i);
      var executed := ExecutedLines(r, tables, lex, server, worlds, stack, lines, i);
      && run.server.changes == server.changes + AllChanges(executed)
      && (AllSucceed(executed) <==> run.ok)
    decreases |lines|
  {
    hide RunLine, AllSucceed, AllChanges;
    if lines == [] {
      NothingExecuted();
    } else if Skipped(lines[0]) {
      ExecutedRun(r, tables, lex, server, worlds, stack, lines[1..], i + 1);
    } else {
      var first := RunLine(r, tables, server, worlds(i), stack, lex(stack, lines[0]));
      LineGrows(r, tables, server, worlds(i), stack, lex(stack, lines[0]));
      var line := Executed(Added(server, first.server), first.ok);
      assert first.server.changes == server.changes + line.changes;
      if first.ok {
        ExecutedRun(r, tables, lex, first.server, worlds, first.stack, lines[1..], i + 1);
        var rest := ExecutedLines(r, tables, lex, first.server, worlds, first.stack, lines[1..], i + 1);
        ChangesInTurn(line, rest);
        SucceedInTurn(line, rest);
      } else {
        NothingExecuted();
        ChangesInTurn(line, []);
        SucceedInTurn(line, []);
        assert [line] + [] == [line];
      }
    }
  }

  lemma NothingExecuted()
    ensures AllChanges([]) == [] && AllSucceed([])
  {
  }

  // ---- The command ----

  /** Nothing fails apart from the script. */
  predicate Faultless(faults: Faults) {
    Smooth(faults, [])
  }

  /** What the executed lines of a file do in a new changeset on the given objects. */
  ghost function FileLines(r: D.Relations, tables: Tables, lex: Lexing, objects: set<Object>, worlds: nat -> World,
      text: string): seq<Executed>
    requires Acyclic(r.embeddedInto) && tables.Valid()
  {
    ExecutedLines(r, tables, lex, Server(objects, []), worlds, [], GetLines(text), 0)
  }

  lemma FileExecuted(r: D.Relations, tables: Tables, lex: Lexing, objects: set<Object>, worlds: nat -> World, text: string)
    requires Acyclic(r.embeddedInto) && tables.Valid()
    ensures var run := RunFile(r, tables, lex, Server(objects, []), worlds, text);
      var lines := FileLines(r, tables, lex, objects, worlds, text);
      run.server.changes == AllChanges(lines) && (AllSucceed(lines) <==> run.ok)
  {
    hide Run, ExecutedLines, AllChanges, AllSucceed, GetLines;
    ExecutedRun(r, tables, lex, Server(objects, []), worlds, [], GetLines(text), 0);
    var changes := AllChanges(FileLines(r, tables, lex, objects, worlds, text));
    assert [] + changes == changes;
  }

  /** The text of the unedited script. */
  function UneditedText(embeddedInto: map<Ident, Ident>, readonly: set<(Ident, Ident)>, externDifference: seq<Modification>,
      ourDifference: seq<Modification>): string
  {
    FileText(RebaseScriptFor(embeddedInto, readonly, externDifference, ourDifference))
  }

  /** Our modifications that are not in the newer revision as well, after preparing the differences. */
  function OurPart(embeddedInto: map<Ident, Ident>, readonly: set<(Ident, Ident)>, externDifference: seq<Modification>,
      ourDifference: seq<Modification>): seq<Modification>
  {
    OnlyOurs(Prepared(embeddedInto, readonly, ourDifference), Prepared(embeddedInto, readonly, externDifference))
  }

  /** What decides whether the unedited script does what it should. */
  predicate Clear(r: D.Relations, readonly: set<(Ident, Ident)>, objects: set<Object>, externDifference: seq<Modification>,
      ourDifference: seq<Modification>)
    requires Acyclic(r.embeddedInto)
  {
    var plan := RebasePlan(r.embeddedInto, readonly, externDifference, ourDifference);
    Undisturbed(r, objects, plan) && EmbeddedLast(r.embeddedInto, plan)
  }

  /**
   The command goes through with a changeset that holds our modifications that are not in the newer revision as well, and
   no others, if and only if nothing else fails, no step of the plan is disturbed on the head's objects, and no block is
   opened behind the block of an embedded object.
   */
  lemma SmoothIffUndisturbed(r: D.Relations, tables: Tables, readonly: set<(Ident, Ident)>, objects: set<Object>,
      worlds: nat -> World, externDifference: seq<Modification>, ourDifference: seq<Modification>, faults: Faults)
    requires Acyclic(r.embeddedInto) && tables.Valid() && SameEmbedding(r, tables) && AllWilling(worlds)
    requires UniqueKeys(externDifference) && UniqueKeys(ourDifference)
    requires PreparedFit(tables, readonly, externDifference, ourDifference)
    ensures var text := UneditedText(r.embeddedInto, readonly, externDifference, ourDifference);
      var lines := FileLines(r, tables, LexerOf(tables), objects, worlds, text);
      Smooth(faults, lines) && AllChanges(lines) == OurPart(r.embeddedInto, readonly, externDifference, ourDifference)
      <==> Faultless(faults) && Clear(r, readonly, objects, externDifference, ourDifference)
  {
    hide PreparedFit, AllWilling, UniqueKeys, Prepared, DeletedObjects, RebasePlan, OnlyOurs, RunFile, RebaseScriptFor,
      Undisturbed, EmbeddedLast, FileLines, AllChanges, FileText;
    var text := UneditedText(r.embeddedInto, readonly, externDifference, ourDifference);
    FileExecuted(r, tables, LexerOf(tables), objects, worlds, text);
    RebasePerformsOurs(r, tables, readonly, Server(objects, []), worlds, externDifference, ourDifference);
    var only := OurPart(r.embeddedInto, readonly, externDifference, ourDifference);
    assert [] + only == only;
    SmoothParts(faults, FileLines(r, tables, LexerOf(tables), objects, worlds, text));
  }

  lemma SmoothParts(faults: Faults, lines: seq<Executed>)
    ensures Smooth(faults, lines) <==> Faultless(faults) && AllSucceed(lines)
  {
  }

  /** Rebasing with whatever the user saved: the new changeset holds what its run did, or the old one stays. */
  method RebaseEdited(session: Session, faults: Faults, ghost r: D.Relations, ghost tables: Tables, ghost lex: Lexing,
      ghost objects: set<Object>, ghost worlds: nat -> World, ghost text: string, lines: seq<Executed>)
    returns (ok: bool)
    requires session.Valid() && session.Wanted("") && Acyclic(r.embeddedInto) && tables.Valid()
    requires lines == FileLines(r, tables, lex, objects, worlds, text)
    modifies session
    ensures session.Valid() && session.head == old(session.head)
    ensures ok == (Faultless(faults) && RunFile(r, tables, lex, Server(objects, []), worlds, text).ok && !faults.unlock)
    ensures var run := RunFile(r, tables, lex, Server(objects, []), worlds, text);
      if Faultless(faults) && run.ok then
        && session.currentChangeset == Some(old(session.nextId))
        && session.pending == (old(session.pending) - {old(session.currentChangeset).value})
             [old(session.nextId) := Changeset(session.head, run.server.changes, faults.unlock)]
      else
        && session.currentChangeset == old(session.currentChangeset)
        && SameButLock(old(session.pending), session.pending, session.currentChangeset)
  {
    hide RunFile, FileLines, AllChanges, Smooth, AllSucceed, Faultless, Acyclic;
    FileExecuted(r, tables, lex, objects, worlds, text);
    SmoothParts(faults, lines);
    ok := session.Rebase("", faults, lines);
  }

  /**
   The command from the two differences on, with the file left as it was written: the new changeset holds our modifications
   that are not in the newer revision as well, and no others, if and only if nothing else fails and the way is clear.
   */
  method RebaseUnedited(session: Session, faults: Faults, ghost r: D.Relations, tables: Tables, readonly: set<(Ident, Ident)>,
      ghost objects: set<Object>, ghost worlds: nat -> World, externDifference: seq<Modification>,
      ourDifference: seq<Modification>, lines: seq<Executed>)
    returns (ok: bool, text: string)
    requires session.Valid() && session.Wanted("")
    requires Acyclic(r.embeddedInto) && tables.Valid() && SameEmbedding(r, tables) && AllWilling(worlds)
    requires UniqueKeys(externDifference) && UniqueKeys(ourDifference)
    requires PreparedFit(tables, readonly, externDifference, ourDifference)
    requires lines == FileLines(r, tables, LexerOf(tables), objects, worlds,
      UneditedText(r.embeddedInto, readonly, externDifference, ourDifference))
    modifies session
    ensures session.Valid()
    ensures text == UneditedText(r.embeddedInto, readonly, externDifference, ourDifference)
    ensures ok == (Smooth(faults, lines) && !faults.unlock)
    ensures session.currentChangeset == Some(old(session.nextId))
        && session.pending[old(session.nextId)].content == OurPart(r.embeddedInto, readonly, externDifference, ourDifference)
      <==> Faultless(faults) && Clear(r, readonly, objects, externDifference, ourDifference)
  {
    hide PreparedFit, AllWilling, UniqueKeys, Prepared, DeletedObjects, OurPart, RunFile, ScriptFor, Clear, FileLines, AllChanges,
      Smooth, AllSucceed, Faultless, FileText;
    text := PrepareScript(tables.embeddedInto, readonly, externDifference, ourDifference);
    SmoothIffUndisturbed(r, tables, readonly, objects, worlds, externDifference, ourDifference, faults);
    FileExecuted(r, tables, LexerOf(tables), objects, worlds, text);
    SmoothParts(faults, lines);
    ok := RebaseEdited(session, faults, r, tables, LexerOf(tables), objects, worlds, text, lines);
  }
}
