/** Where rebase falls short, and exactly when it does not. */
module RebaseLimits {
  import opened Core
  import opened Schema
  import opened PathText
  import opened Grammar
  import opened Rebase
  import opened RebaseScript
  import opened RebaseReplay
  import opened RebaseSteps
  import opened RebaseLaws
  import opened RebaseOutcome
  import opened RebaseExtras
  import opened Blocks
  import opened Lexer
  import opened LineBreaks
  import opened Plans
  import opened ScriptFile
  import opened ScriptLines
  import D = Database
  import E = Existence
  import Values

  // ---- Deletions of nested objects ----

  /** No deletion of an object is listed beside the deletion of its parent. */
  ghost predicate NoNestedDeletions(embeddedInto: map<Ident, Ident>, ms: seq<Modification>) {
    forall a, b | a in ms && b in ms :: !DeletesParent(embeddedInto, a, b)
  }

  /** Whenever a parent's deletion is listed beside the child's, the parent is the first one's object or its direct child. */
  ghost predicate OnlyBesideFirst(embeddedInto: map<Ident, Ident>, ms: seq<Modification>)
    requires ms != []
  {
    forall a, b | a in ms && b in ms && DeletesParent(embeddedInto, a, b) ::
      a == ms[0] || DeletesParent(embeddedInto, ms[0], a)
  }

  /** An object has one parent. */
  lemma OneParent(embeddedInto: map<Ident, Ident>, a: Modification, first: Modification, b: Modification)
    requires DeletesParent(embeddedInto, a, b)
    ensures DeletesParent(embeddedInto, first, b) <==> first == a
  {
  }

  /** The inner iterator is never reset, so clearing is complete exactly if the first modification covers every pair. */
  lemma ClearedIffBesideFirst(embeddedInto: map<Ident, Ident>, ms: seq<Modification>)
    requires ms != []
    ensures NoNestedDeletions(embeddedInto, ChildrenOfFirstCleared(embeddedInto, ms))
      <==> OnlyBesideFirst(embeddedInto, ms)
  {
    hide DeletesParent;
    WithoutMembers(ms, m => DeletesParent(embeddedInto, ms[0], m));
    forall a, b | a in ms && b in ms && DeletesParent(embeddedInto, a, b)
      ensures DeletesParent(embeddedInto, ms[0], b) <==> ms[0] == a
    {
      OneParent(embeddedInto, a, ms[0], b);
    }
  }

  const INTERFACES: map<Ident, Ident> := map["interface" := "host"]

  const TWO_HOSTS: seq<Modification> :=
    [DeleteObject("host", "a"), DeleteObject("host", "b"), DeleteObject("interface", "b->eth0")]

  /** The second host's interface stays in the list. */
  lemma SecondParentIgnored()
    ensures !NoNestedDeletions(INTERFACES, ChildrenOfFirstCleared(INTERFACES, TWO_HOSTS))
    ensures DeletesParent(INTERFACES, TWO_HOSTS[1], TWO_HOSTS[2])
  {
    hide PathToVector, VectorToPath;
    var ids: Name := ["b", "eth0"];
    assert DropLast(ids) == ["b"];
    ReadsAsPair();
    ClearedIffBesideFirst(INTERFACES, TWO_HOSTS);
    assert TWO_HOSTS[1] in TWO_HOSTS && TWO_HOSTS[2] in TWO_HOSTS;
  }

  lemma ReadsAsPair()
    ensures PathToVector("b->eth0") == Some(["b", "eth0"]) && VectorToPath(["b"]) == "b"
  {
    var ids: Name := ["b", "eth0"];
    assert VectorToPath(ids[1..]) == "eth0";
    assert VectorToPath(ids) == "b->eth0";
    PlainIdents();
    PrintThenRead(ids);
  }

  lemma PlainIdents()
    ensures IsIdent("a") && IsIdent("b") && IsIdent("eth0")
  {
  }

  predicate AllDeletions(plan: seq<Action>) {
    forall i | 0 <= i < |plan| :: plan[i].Delete?
  }

  /** Deleting another object brings nothing back. */
  lemma DeletingKeepsEmpty(r: D.Relations, server: Server, o: Object, y: Object)
    requires Acyclic(r.embeddedInto) && E.NothingBelow(r, o, server.objects)
    ensures E.NothingBelow(r, o, Perform(r, server, Action.Delete(y)).server.objects)
  {
    hide InSomeOrder, Inside, WithLevels;
    if y in server.objects {
      LevelsKeepEmpty(r, server, o, y);
    }
  }

  /** Entering something that is not inside the object creates nothing inside it. */
  lemma {:induction false} LevelsKeepEmpty(r: D.Relations, server: Server, o: Object, y: Object)
    requires E.NothingBelow(r, o, server.objects) && !E.Below(r, o, y)
    ensures E.NothingBelow(r, o, WithLevels(r, server, y).objects)
    decreases |y.name|
  {
    if y.kind in r.embeddedInto && |y.name| > 1 {
      LevelsKeepEmpty(r, server, o, D.Parent(r, y));
    }
  }

  lemma DeletingEmpties(r: D.Relations, server: Server, o: Object)
    requires Acyclic(r.embeddedInto) && Perform(r, server, Action.Delete(o)).ok
    ensures E.NothingBelow(r, o, Perform(r, server, Action.Delete(o)).server.objects)
  {
    hide InSomeOrder, WithLevels, E.Below;
  }

  lemma {:induction false} DeletionsKeepEmpty(r: D.Relations, server: Server, o: Object, plan: seq<Action>)
    requires Acyclic(r.embeddedInto) && E.NothingBelow(r, o, server.objects) && AllDeletions(plan)
    ensures E.NothingBelow(r, o, PerformAll(r, server, plan).server.objects)
    decreases |plan|
  {
    hide Perform, E.NothingBelow;
    if plan != [] {
      DeletingKeepsEmpty(r, server, o, plan[0].o);
      DeletionsKeepEmpty(r, Perform(r, server, plan[0]).server, o, plan[1..]);
    }
  }

  /** A nested deletion that stays behind its outer one makes the rebase fail: the object is gone already. */
  lemma NestedDeletionFails(r: D.Relations, server: Server, outer: Object, between: seq<Action>, inner: Object,
      rest: seq<Action>)
    requires Acyclic(r.embeddedInto) && E.Below(r, outer, inner) && AllDeletions(between)
    ensures !PerformAll(r, server, [Action.Delete(outer)] + between + [Action.Delete(inner)] + rest).ok
  {
    hide Perform, PerformAll, E.Below;
    var first := [Action.Delete(outer)];
    PerformConcat(r, server, first + between + [Action.Delete(inner)], rest);
    PerformConcat(r, server, first + between, [Action.Delete(inner)]);
    PerformConcat(r, server, first, between);
    PerformOne(r, server, Action.Delete(outer));
    var done := Perform(r, server, Action.Delete(outer));
    if done.ok {
      DeletingEmpties(r, server, outer);
      DeletionsKeepEmpty(r, done.server, outer, between);
      var emptied := PerformAll(r, done.server, between).server;
      PerformOne(r, emptied, Action.Delete(inner));
      MissingDeletion(r, emptied, inner);
    }
  }

  lemma MissingDeletion(r: D.Relations, server: Server, o: Object)
    requires Acyclic(r.embeddedInto) && o !in server.objects
    ensures !Perform(r, server, Action.Delete(o)).ok
  {
  }

  // ---- Renamed here, changed there ----

  const HOSTS: Tables := Tables({"host"}, map[], map[], map[], map[], map[], map["host" := map["cpu" := "host"]], map[],
    map["host" := map["cpu" := Values.StringType]])

  const NO_RELATIONS: D.Relations := D.Relations(map[], map[], map[], map[], map[])

  const RENAMED: Modification := RenameObject("host", "a", "b")

  const CHANGED: Modification := Modification.SetAttribute("host", "a", "cpu", Some(Values.Str("8")), None)

  /** We renamed host a to b, the newer revision sets its cpu: afterwards both hosts exist. */
  lemma HostComesBack(worlds: nat -> World)
    requires AllWilling(worlds)
    ensures Acyclic(NO_RELATIONS.embeddedInto) && HOSTS.Valid()
    ensures var run := RunFile(NO_RELATIONS, HOSTS, LexerOf(HOSTS), Server({Object("host", ["a"])}, []), worlds,
        FileText(ScriptFor([], [CHANGED], [RENAMED])));
      && run.ok
      && run.server.changes == [RENAMED, Modification.CreateObject("host", "a")]
      && run.server.objects == {Object("host", ["a"]), Object("host", ["b"])}
  {
    hide AllWilling, RunFile, PathToVector, VectorToPath, IsObjectToken, E.Renamed, E.Applied, Blocks.AllFit, IsIdent, FileText;
    NothingEmbedded();
    HostFits();
    HostRenamed();
    var o := Object("host", ["a"]);
    var server := Server({o}, []);
    assert ObjectOf(RENAMED) == o;
    HostText();
    RenamedComesBack(NO_RELATIONS, HOSTS, server, worlds, RENAMED, CHANGED);
  }

  lemma HostRenamed()
    requires Acyclic(NO_RELATIONS.embeddedInto)
    ensures var o := Object("host", ["a"]);
      && CanRename(NO_RELATIONS, {o}, o, "b")
      && E.Renamed(o, "b") == Object("host", ["b"])
      && E.Applied(NO_RELATIONS, "", {o}, E.Rename(o, "b")) == {Object("host", ["b"])}
  {
    hide E.Below;
    var o := Object("host", ["a"]);
    PlainIdents();
    assert DropLast(o.name) + ["b"] == ["b"];
    assert E.Moved(NO_RELATIONS, o, "b", o) == Object("host", ["b"]);
  }

  lemma HostText()
    ensures Text(Object("host", ["b"])) == "b"
  {
  }

  lemma NothingEmbedded()
    ensures Acyclic(NO_RELATIONS.embeddedInto) && HOSTS.Valid()
  {
    assert Ranks(NO_RELATIONS.embeddedInto, (k: Ident) => 0);
    assert HOSTS.embeddedInto == NO_RELATIONS.embeddedInto;
  }

  lemma PlainName(s: Ident)
    requires IsIdent(s) && |s| == 1
    ensures PathToVector(s) == Some([s]) && IsObjectToken(s)
  {
    hide PathToVector, IsObjectToken, IsIdent;
    var ids: Name := [s];
    assert VectorToPath(ids) == s && IsName(ids);
    PrintThenRead(ids);
    ObjectTokens(s);
  }

  lemma HostBlock()
    ensures HOSTS.Valid() && PathToVector("a") == Some(["a"])
    ensures Complete(HOSTS, "host", "a") && BlockObject(HOSTS, CHANGED) && BlockObject(HOSTS, BROKEN)
  {
    hide PathToVector, IsObjectToken;
    NothingEmbedded();
    PlainIdents();
    PlainName("a");
  }

  lemma HostFits()
    ensures HOSTS.Valid() && PathToVector("a") == Some(["a"])
    ensures Blocks.AllFit(HOSTS, [], [CHANGED], [RENAMED])
  {
    hide PathToVector, IsObjectToken, Complete, BlockObject;
    HostBlock();
    PlainIdents();
    PlainName("b");
    assert SingleLine(CHANGED) && SingleLine(RENAMED);
    assert OursFit(HOSTS, [], RENAMED);
  }

  // ---- A comment that breaks ----

  /** A value with a line break. */
  const BROKEN: Modification := Modification.SetAttribute("host", "a", "cpu", Some(Values.Str("x\ny")), None)

  const BEFORE: seq<string> := ["cpu", "set", "from", "(none)", "to", "x"]

  const BEHIND: seq<string> := ["y", "in", "newer", "revision"]

  const COMMENT: string := "#    " + Spaced(BEFORE)

  const REMAINDER: string := Spaced(BEHIND)

  /** Words in front of a line break and behind it. */
  lemma {:induction false} SpacedBreak(before: seq<string>, x: string, y: string, behind: seq<string>)
    ensures Spaced(before + [x + ("\n" + y)] + behind) == Spaced(before + [x]) + ("\n" + Spaced([y] + behind))
    decreases |before|
  {
    if before == [] {
      assert [] + [x + ("\n" + y)] + behind == [x + ("\n" + y)] + behind && [] + [x] == [x];
      BreakFirst(x, y, behind);
    } else {
      SpacedBreak(before[1..], x, y, behind);
      var all := before + [x + ("\n" + y)] + behind;
      assert all[1..] == before[1..] + [x + ("\n" + y)] + behind;
      assert (before + [x])[1..] == before[1..] + [x];
      ScriptFile.Regroup(before[0], " ", Spaced(before[1..] + [x]), "\n" + Spaced([y] + behind));
    }
  }

  lemma BreakFirst(x: string, y: string, behind: seq<string>)
    ensures Spaced([x + ("\n" + y)] + behind) == x + ("\n" + Spaced([y] + behind))
  {
    var broken := x + ("\n" + y);
    assert ([broken] + behind)[1..] == behind && ([y] + behind)[1..] == behind;
    if behind != [] {
      assert broken + (" " + Spaced(behind)) == x + ("\n" + (y + (" " + Spaced(behind))));
    }
  }

  /** The comment on the other side's value becomes two lines, and the second is no comment. */
  lemma CommentInTwo()
    ensures ScriptFor([], [BROKEN], []) ==
      [Header(false, BROKEN)] + TheirAttribute(BROKEN, NEWER) + [EndLine(false)]
    ensures LineText(TheirAttribute(BROKEN, NEWER)[0]) == COMMENT + ("\n" + REMAINDER)
  {
    assert [BROKEN][1..] == [];
    assert Merge([BROKEN], []) == [(Extern, BROKEN)];
    assert Printed([], [], Some((Extern, BROKEN))) == [EndLine(false)];
    BrokenText();
  }

  lemma BrokenText()
    ensures LineText(TheirAttribute(BROKEN, NEWER)[0]) == COMMENT + ("\n" + REMAINDER)
  {
    hide Spaced;
    var before, behind := ["cpu", "set", "from", "(none)", "to"], ["in", "newer", "revision"];
    var texts := TheirAttribute(BROKEN, NEWER)[0].texts;
    assert Values.Print(Values.Str("x\ny")) == "x\ny";
    assert "x\ny" == "x" + ("\n" + "y");
    assert texts == before + ["x" + ("\n" + "y")] + behind;
    SpacedBreak(before, "x", "y", behind);
    assert before + ["x"] == BEFORE && ["y"] + behind == BEHIND;
    assert "#    " + (Spaced(BEFORE) + ("\n" + REMAINDER)) == COMMENT + ("\n" + REMAINDER);
  }

  lemma PartsUnbroken()
    ensures Unbroken("host a") && Unbroken(COMMENT) && Unbroken(REMAINDER)
  {
    hide Spaced;
    SpacedUnbroken(BEFORE);
    SpacedUnbroken(BEHIND);
    UnbrokenTwo("#    ", Spaced(BEFORE));
  }

  lemma ScriptParts(header: ScriptLine, note: ScriptLine, end: ScriptLine, first: string, comment: string, remainder: string)
    requires LineText(header) == first && LineText(note) == comment + ("\n" + remainder)
    ensures FileText([header, note, end]) == first + ("\n" + (comment + ("\n" + (remainder + ("\n" + FileText([end]))))))
  {
    hide LineText;
    assert [header, note, end][1..] == [note, end] && [note, end][1..] == [end];
    var tail := FileText([end]);
    assert (comment + ("\n" + remainder)) + ("\n" + tail) == comment + ("\n" + (remainder + ("\n" + tail)));
  }

  lemma BrokenLines() returns (more: seq<string>)
    ensures GetLines(FileText(ScriptFor([], [BROKEN], []))) == ["host a", COMMENT, REMAINDER] + more
  {
    hide LineText, Spaced, FileText, GetLines, Unbroken;
    CommentInTwo();
    PartsUnbroken();
    HeaderText();
    var header, note, end := Header(false, BROKEN), TheirAttribute(BROKEN, NEWER)[0], EndLine(false);
    assert ScriptFor([], [BROKEN], []) == [header, note, end];
    ScriptParts(header, note, end, "host a", COMMENT, REMAINDER);
    var tail := FileText([end]);
    FirstLine("host a", COMMENT + ("\n" + (REMAINDER + ("\n" + tail))));
    FirstLine(COMMENT, REMAINDER + ("\n" + tail));
    FirstLine(REMAINDER, tail);
    more := GetLines(tail);
    assert ["host a"] + ([COMMENT] + ([REMAINDER] + more)) == ["host a", COMMENT, REMAINDER] + more;
  }

  lemma HeaderText()
    ensures LineText(Header(false, BROKEN)) == "host a"
  {
    assert ["host", "a"][1..] == ["a"];
    assert Spaced(["a"]) == "a";
  }

  lemma RemainderWords(stack: Stack)
    requires stack == [Obj("host", "a")]
    ensures Lex(HOSTS, stack, false, REMAINDER) == Words(BEHIND)
  {
    hide Lex, Spaced;
    LexWords(HOSTS, stack, false, BEHIND);
  }

  /** The remainder of the comment is refused inside the block. */
  lemma RemainderRefused(server: Server, world: World, stack: Stack)
    requires stack == [Obj("host", "a")] && Acyclic(NO_RELATIONS.embeddedInto) && HOSTS.Valid()
    ensures var run := RunLine(NO_RELATIONS, HOSTS, server, world, stack, Lex(HOSTS, stack, false, REMAINDER));
      !run.ok && run.server == server
  {
    hide RunLine, Lex, ParseImpl;
    var ts := Words(BEHIND);
    RemainderWords(stack);
    assert ts[0] == Word("y");
    UnknownWord(HOSTS, Exists(server.objects), stack, ts);
    LineRefused(NO_RELATIONS, HOSTS, server, world, stack, ts);
  }

  lemma BrokenPlan()
    requires Acyclic(NO_RELATIONS.embeddedInto) && PathToVector("a") == Some(["a"])
    ensures PlanFor([], [BROKEN], []) == [Action.Open(Object("host", ["a"]))]
  {
    hide PathToVector;
    assert [BROKEN][1..] == [];
    assert Merge([BROKEN], []) == [(Extern, BROKEN)];
    assert [(Extern, BROKEN)][1..] == [];
    PlanEnds([], Some((Extern, BROKEN)));
    assert Plan([], [(Extern, BROKEN)], None)
      == PlanOf([], Extern, BROKEN, None) + Plan([], [], Some((Extern, BROKEN)));
  }

  /**
   The newer revision sets an attribute of host a to a text with a line break, and we changed nothing. Nothing disturbs the
   plan, but the file is not read back as it was written, and the rebase fails.
   */
  lemma CommentBreaks(worlds: nat -> World)
    requires AllWilling(worlds)
    ensures Acyclic(NO_RELATIONS.embeddedInto) && HOSTS.Valid() && !SingleLine(BROKEN)
    ensures var plan := PlanFor([], [BROKEN], []);
      Undisturbed(NO_RELATIONS, {Object("host", ["a"])}, plan) && EmbeddedLast(NO_RELATIONS.embeddedInto, plan)
    ensures var run := RunFile(NO_RELATIONS, HOSTS, LexerOf(HOSTS), Server({Object("host", ["a"])}, []), worlds,
        FileText(ScriptFor([], [BROKEN], [])));
      !run.ok && run.server.changes == []
  {
    hide AllWilling, RunFile, PathToVector, SingleLine, Undisturbed, EmbeddedLast, PlanFor;
    NothingEmbedded();
    BrokenPlanClear();
    BrokenIsBroken();
    BrokenFails(worlds);
  }

  lemma BrokenIsBroken()
    ensures !SingleLine(BROKEN)
  {
    assert "x\ny"[1] == '\n';
  }

  lemma BrokenPlanClear()
    requires Acyclic(NO_RELATIONS.embeddedInto)
    ensures var plan := PlanFor([], [BROKEN], []);
      Undisturbed(NO_RELATIONS, {Object("host", ["a"])}, plan) && EmbeddedLast(NO_RELATIONS.embeddedInto, plan)
  {
    hide PathToVector, PlanFor;
    HostBlock();
    BrokenPlan();
  }

  lemma BrokenFails(worlds: nat -> World)
    requires AllWilling(worlds) && Acyclic(NO_RELATIONS.embeddedInto) && HOSTS.Valid()
    ensures var run := RunFile(NO_RELATIONS, HOSTS, LexerOf(HOSTS), Server({Object("host", ["a"])}, []), worlds,
        FileText(ScriptFor([], [BROKEN], [])));
      !run.ok && run.server.changes == []
  {
    hide AllWilling, FileText, ScriptFor, GetLines, RunLine, Lex, Run;
    var server := Server({Object("host", ["a"])}, []);
    var more := BrokenLines();
    HeaderOpens(server, worlds);
    RemainderRefused(server, worlds(2), [Obj("host", "a")]);
    BrokenRun(server, worlds, more);
  }

  lemma HeaderOpens(server: Server, worlds: nat -> World)
    requires AllWilling(worlds) && server == Server({Object("host", ["a"])}, [])
    requires Acyclic(NO_RELATIONS.embeddedInto) && HOSTS.Valid()
    ensures RunLine(NO_RELATIONS, HOSTS, server, worlds(0), [], Lex(HOSTS, [], false, "host a"))
      == Outcome([Obj("host", "a")], server, true)
  {
    hide RunLine, PathToVector, IsObjectToken, Lex, PathOf;
    HostBlock();
    assert Willing(worlds(0));
    HeaderText();
    assert ["host", "a"][1..] == ["a"] && Spaced(["host", "a"]) == "host a";
    LexWords(HOSTS, [], false, ["host", "a"]);
    OpenRuns(NO_RELATIONS, HOSTS, server, worlds(0), "host", "a");
    HostPath();
    assert WithLevels(NO_RELATIONS, server, Object("host", ["a"])) == server;
  }

  lemma HostPath()
    requires HOSTS.Valid() && Complete(HOSTS, "host", "a") && PathToVector("a") == Some(["a"])
    ensures PathOf(HOSTS, "host", "a") == [Obj("host", "a")]
  {
    hide PathToVector, IsObjectToken;
  }

  lemma BrokenRun(server: Server, worlds: nat -> World, more: seq<string>)
    requires Acyclic(NO_RELATIONS.embeddedInto) && HOSTS.Valid()
    requires RunLine(NO_RELATIONS, HOSTS, server, worlds(0), [], Lex(HOSTS, [], false, "host a"))
      == Outcome([Obj("host", "a")], server, true)
    requires var run := RunLine(NO_RELATIONS, HOSTS, server, worlds(2), [Obj("host", "a")],
        Lex(HOSTS, [Obj("host", "a")], false, REMAINDER));
      !run.ok && run.server == server
    ensures var run := Run(NO_RELATIONS, HOSTS, LexerOf(HOSTS), server, worlds, [],
        ["host a", COMMENT, REMAINDER] + more, 0);
      !run.ok && run.server == server
  {
    hide RunLine, Lex;
    var lex := LexerOf(HOSTS);
    var lines := ["host a", COMMENT, REMAINDER] + more;
    var inside, last := [COMMENT, REMAINDER] + more, [REMAINDER] + more;
    assert lines[1..] == inside && inside[1..] == last;
    assert lines[0] == "host a" && inside[0] == COMMENT && last[0] == REMAINDER;
    assert COMMENT[0] == '#' && REMAINDER[0] == 'y' by { assert REMAINDER[0] == BEHIND[0][0]; }
    assert Run(NO_RELATIONS, HOSTS, lex, server, worlds, [Obj("host", "a")], inside, 1)
      == Run(NO_RELATIONS, HOSTS, lex, server, worlds, [Obj("host", "a")], last, 2);
  }

  // ---- Blocks of nested objects ----

  lemma {:induction false} BlockOpened(deletions: Deletions, merged: seq<(Source, Modification)>,
      last: Option<(Source, Modification)>, i: nat)
    requires i < |merged| && merged[i].1.SetAttribute? && !Deleted(deletions, merged[i].1)
    ensures Action.Open(ObjectOf(merged[i].1)) in Plan(deletions, merged, last)
      || (last.Some? && last.value.1.SetAttribute? && SameObject(merged[i].1, last.value.1))
    decreases |merged|
  {
    var first := PlanOf(deletions, merged[0].0, merged[0].1, LastOf(last));
    var rest := Plan(deletions, merged[1..], Some(merged[0]));
    assert forall a :: a in first + rest <==> a in first || a in rest;
    if i > 0 {
      BlockOpened(deletions, merged[1..], Some(merged[0]), i - 1);
    }
    if i == 0 || (merged[0].1.SetAttribute? && SameObject(merged[i].1, merged[0].1)) {
      assert Opens(deletions, merged[0].1, LastOf(last)) ==> first[0] == Action.Open(ObjectOf(merged[i].1));
    }
  }

  lemma {:induction false} MergeHolds(extern: seq<Modification>, ours: seq<Modification>, m: Modification) returns (i: nat)
    requires m in extern || m in ours
    ensures i < |Merge(extern, ours)| && Merge(extern, ours)[i].1 == m
    decreases |extern| + |ours|
  {
    hide Less;
    var merged := Merge(extern, ours);
    if merged[0].1 == m {
      i := 0;
    } else {
      var source := merged[0].0;
      var extern' := if source == Ours then extern else extern[1..];
      var ours' := if source == Extern then ours else ours[1..];
      assert merged[1..] == Merge(extern', ours');
      i := MergeHolds(extern', ours', m);
      i := i + 1;
    }
  }

  /**
   The attributes of two embedded objects cannot be touched in one rebase, whichever side changes them: whatever the objects
   are, it fails at the header of the second block at the latest.
   */
  lemma TwoEmbeddedBlocksFail(r: D.Relations, tables: Tables, deletions: Deletions, server: Server, worlds: nat -> World,
      extern: seq<Modification>, ours: seq<Modification>, a: Modification, b: Modification)
    requires Acyclic(r.embeddedInto) && tables.Valid() && SameEmbedding(r, tables) && AllWilling(worlds)
    requires StrictlySorted(extern) && StrictlySorted(ours) && Blocks.AllFit(tables, deletions, extern, ours)
    requires (a in extern || a in ours) && (b in extern || b in ours)
    requires a.SetAttribute? && !Deleted(deletions, a) && a.kind in r.embeddedInto
    requires b.SetAttribute? && !Deleted(deletions, b) && b.kind in r.embeddedInto
    requires ObjectOf(a) != ObjectOf(b)
    ensures !RunFile(r, tables, LexerOf(tables), server, worlds, FileText(ScriptFor(deletions, extern, ours))).ok
  {
    hide RunFile, AllWilling, Blocks.AllFit, StrictlySorted, PerformAll, FileText, ScriptFor, Merge, Plan, PathToVector, Reached;
    var plan := PlanFor(deletions, extern, ours);
    UneditedScript(r, tables, deletions, server, worlds, extern, ours);
    var i := MergeHolds(extern, ours, a);
    var j := MergeHolds(extern, ours, b);
    BlockOpened(deletions, Merge(extern, ours), None, i);
    BlockOpened(deletions, Merge(extern, ours), None, j);
    var p :| 0 <= p < |plan| && plan[p] == Action.Open(ObjectOf(a));
    var q :| 0 <= q < |plan| && plan[q] == Action.Open(ObjectOf(b));
    ReachedIff(r.embeddedInto, plan, false);
    if p < q {
      assert OpensEmbedded(r.embeddedInto, plan[p]) && plan[q].Open?;
    } else {
      assert OpensEmbedded(r.embeddedInto, plan[q]) && plan[p].Open?;
    }
  }

  /** What the parser makes of the two lines, whatever exists and whatever is replied. */
  lemma ParsedBlockClosedIffTopLevel(tables: Tables, opening: Object -> bool, closing: Object -> bool, kind: Ident, name: Ident)
    requires tables.Valid() && WholeName(tables, kind, name) && "end" !in tables.Attributes(kind)
    ensures var (entered, accepted) := ParseImpl(tables, false, opening, [], [Started], Words([kind, name]));
      var (closed, left) := ParseImpl(tables, false, closing, entered.stack, [Started], Words(["end"]));
      && accepted && left
      && |entered.stack| == Depth(tables.embeddedInto, kind) + 1
      && |closed.stack| == Depth(tables.embeddedInto, kind)
      && (closed.stack == [] <==> kind !in tables.embeddedInto)
  {
    hide ParseImpl, IsObjectToken, PathToVector, PathOf, Climbing;
    PathShape(tables, kind, name);
    HeaderLine(tables, opening, kind, name);
    var path := PathOf(tables, kind, name);
    assert |path| == |StackPath(path)|;
    EndOfBlock(tables, closing, path);
  }

  /**
   The block rebase prints for an object has one header and one "end". The header enters every level of the name, creating
   what is missing, and the block is closed again exactly if there is only one.
   */
  lemma BlockClosedIffTopLevel(r: D.Relations, tables: Tables, server: Server, opening: World, closing: World,
      kind: Ident, name: Ident)
    requires Acyclic(r.embeddedInto) && tables.Valid() && SameEmbedding(r, tables) && Willing(opening) && Willing(closing)
    requires Complete(tables, kind, name) && "end" !in tables.Attributes(kind)
    ensures var entered := RunLine(r, tables, server, opening, [], Words([kind, name]));
      var closed := RunLine(r, tables, entered.server, closing, entered.stack, Words(["end"]));
      && entered.ok && closed.ok
      && |entered.stack| == Depth(tables.embeddedInto, kind) + 1
      && |closed.stack| == Depth(tables.embeddedInto, kind)
      && (closed.stack == [] <==> kind !in tables.embeddedInto)
  {
    hide RunLine, IsObjectToken, PathToVector, WithLevels, PathOf, Climbing, PlainContext, NamedStack;
    PathOfComplete(tables, kind, name);
    PathShape(tables, kind, name);
    OpenRuns(r, tables, server, opening, kind, name);
    var entered := RunLine(r, tables, server, opening, [], Words([kind, name]));
    assert |entered.stack| == |StackPath(entered.stack)|;
    EndRuns(r, tables, entered.server, closing, entered.stack);
  }
}
