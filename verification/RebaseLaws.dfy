/**
 What executing the unedited rebase script does: the steps of a plan over the two lists, on whatever objects the server
 holds, from the text of the file on.
 */
module RebaseLaws {
  import opened Blocks
  import opened Core
  import opened Grammar
  import opened Lexer
  import opened LineBreaks
  import opened PathText
  import opened Plans
  import opened Rebase
  import opened RebaseReplay
  import opened RebaseScript
  import opened RebaseSteps
  import opened ScriptFile
  import opened ScriptLines
  import D = Database
  import Schema
  import Sorting

  // ---- The whole script ----

  predicate MergedFits(tables: Tables, deletions: Deletions, merged: seq<(Source, Modification)>)
    requires tables.Valid()
  {
    forall i | 0 <= i < |merged| :: Fits(tables, deletions, merged[i].0, merged[i].1)
  }

  predicate MergedAscends(merged: seq<(Source, Modification)>) {
    forall i, j | 0 <= i < j < |merged| :: Type(merged[i].1) <= Type(merged[j].1)
  }

  lemma RunClosing(r: D.Relations, tables: Tables, deletions: Deletions, server: Server, worlds: nat -> World,
      last: Option<(Source, Modification)>, rest: Stack, i: nat)
    requires Schema.Acyclic(r.embeddedInto) && tables.Valid() && SameEmbedding(r, tables) && AllWilling(worlds)
    requires Settled(tables, deletions, LastOf(last), rest)
    requires last.Some? ==> Fits(tables, deletions, last.value.0, last.value.1)
    ensures var run := RunScript(r, tables, server, worlds, Here(tables, deletions, LastOf(last), rest), Closing(deletions, last), i);
      run.ok && run.server == server
  {
    hide Complete, OwnAttribute, AllWilling, RunLine, Writable, IsObjectToken, BlockObject, RunScript, Settled, Here, SingleLine;
    if last.Some? && last.value.1.SetAttribute? {
      RunEnd(r, tables, deletions, server, worlds, last.value.1, rest, i);
    } else {
      RunNothing(r, tables, server, worlds, Here(tables, deletions, LastOf(last), rest), i);
    }
  }

  lemma RunOneModification(r: D.Relations, tables: Tables, deletions: Deletions, server: Server, worlds: nat -> World,
      source: Source, m: Modification, last: Option<Modification>, rest: Stack, i: nat)
    requires Schema.Acyclic(r.embeddedInto) && tables.Valid() && SameEmbedding(r, tables) && AllWilling(worlds)
    requires Fits(tables, deletions, source, m) && Settled(tables, deletions, last, rest) && TypesAscend(last, m)
    ensures DoesPlan(r, tables, deletions, server, source, m, last, rest,
      RunScript(r, tables, server, worlds, Here(tables, deletions, last, rest), Lines(deletions, source, m, last), i))
  {
    hide Fits, Lines, RunScript, Settled, AllWilling, DoesPlan;
    if m.SetAttribute? {
      RunAttributeLines(r, tables, deletions, server, worlds, source, m, last, rest, i);
    } else {
      RunObjectLines(r, tables, deletions, server, worlds, source, m, last, rest, i);
    }
  }

  /** Where the run goes on, it is settled again, and stuck exactly if the plan so far has made it so. */
  lemma SettledNext(tables: Tables, deletions: Deletions, source: Source, m: Modification, last: Option<Modification>, rest: Stack)
    requires tables.Valid() && Fits(tables, deletions, source, m) && Settled(tables, deletions, last, rest)
    requires TypesAscend(last, m) && !(Opens(deletions, m, last) && Stuck(tables, deletions, last, rest))
    ensures Settled(tables, deletions, Some(m), Next(tables, deletions, m, last, rest))
    ensures Stuck(tables, deletions, Some(m), Next(tables, deletions, m, last, rest))
      == StuckBehind(tables.embeddedInto, PlanOf(deletions, source, m, last), Stuck(tables, deletions, last, rest))
  {
    hide Complete, OwnAttribute, Writable, IsObjectToken, BlockObject, SingleLine, LeftOpen, BlockPath, IsIdent;
    BehindOpen(tables, deletions, last, rest);
    NothingOpen(tables);
    var plan := PlanOf(deletions, source, m, last);
    StuckPlan(tables.embeddedInto, deletions, source, m, last, Stuck(tables, deletions, last, rest));
  }

  lemma NothingOpen(tables: Tables)
    ensures LeftOpen(tables, [])
  {
  }

  lemma StuckPlan(embeddedInto: map<Ident, Ident>, deletions: Deletions, source: Source, m: Modification,
      last: Option<Modification>, stuck: bool)
    ensures StuckBehind(embeddedInto, PlanOf(deletions, source, m, last), stuck)
      == (stuck || (Opens(deletions, m, last) && m.kind in embeddedInto))
  {
    hide Opens;
    var plan := PlanOf(deletions, source, m, last);
    if Opens(deletions, m, last) {
      assert plan[0] == Action.Open(ObjectOf(m));
    }
  }

  lemma ReachedOne(embeddedInto: map<Ident, Ident>, deletions: Deletions, source: Source, m: Modification,
      last: Option<Modification>, stuck: bool)
    ensures var plan := PlanOf(deletions, source, m, last);
      Reached(embeddedInto, plan, stuck) == if Opens(deletions, m, last) && stuck then [] else plan
  {
    hide Opens, OpensEmbedded;
    var plan := PlanOf(deletions, source, m, last);
    var own := if source == Ours then [ActionOf(m)] else [];
    forall s: bool ensures Reached(embeddedInto, own, s) == own {
      if source == Ours {
        assert own[1..] == [];
        assert Reached(embeddedInto, [], s || OpensEmbedded(embeddedInto, own[0])) == [];
      }
    }
    if Opens(deletions, m, last) {
      assert plan[1..] == own;
    } else {
      assert plan == own;
    }
  }

  /** Printing and executing the rest of the merge, from behind the lines of the last modification. */
  lemma {:induction false} RunPrinted(r: D.Relations, tables: Tables, deletions: Deletions, server: Server, worlds: nat -> World,
      merged: seq<(Source, Modification)>, last: Option<(Source, Modification)>, rest: Stack, i: nat)
    requires Schema.Acyclic(r.embeddedInto) && tables.Valid() && SameEmbedding(r, tables) && AllWilling(worlds)
    requires MergedFits(tables, deletions, merged) && MergedAscends(merged)
    requires last.Some? ==> Fits(tables, deletions, last.value.0, last.value.1)
    requires last.Some? && merged != [] ==> Type(last.value.1) <= Type(merged[0].1)
    requires Settled(tables, deletions, LastOf(last), rest)
    ensures var run := RunScript(r, tables, server, worlds, Here(tables, deletions, LastOf(last), rest),
        Printed(deletions, merged, last), i);
      Performed(run.server, run.ok)
      == Executes(r, server, Plan(deletions, merged, last), Stuck(tables, deletions, LastOf(last), rest))
    decreases |merged|
  {
    hide Lines, RunScript, Closing, Fits, PlanOf, PerformAll, Settled, AllWilling, Here, Stuck, Next, Type, Opens, StuckBehind,
      Reached;
    var before := LastOf(last);
    var stuck := Stuck(tables, deletions, before, rest);
    if merged == [] {
      RunClosing(r, tables, deletions, server, worlds, last, rest, i);
      NothingPlanned(r, server);
      ReachedNothing(r.embeddedInto, stuck);
    } else {
      var (source, m) := merged[0];
      var lines := Lines(deletions, source, m, before);
      var plan := PlanOf(deletions, source, m, before);
      var more := Printed(deletions, merged[1..], Some(merged[0]));
      var planned := Plan(deletions, merged[1..], Some(merged[0]));
      RunOneModification(r, tables, deletions, server, worlds, source, m, before, rest, i);
      ScriptConcat(r, tables, server, worlds, Here(tables, deletions, before, rest), lines, more, i);
      ReachedOne(r.embeddedInto, deletions, source, m, before, stuck);
      ReachedConcat(r.embeddedInto, plan, planned, stuck);
      if Opens(deletions, m, before) && stuck {
        OpensFirst(deletions, source, m, before);
        NothingPlanned(r, server);
      } else {
        SettledNext(tables, deletions, source, m, before, rest);
        var next := Next(tables, deletions, m, before, rest);
        var done := PerformAll(r, server, plan);
        var reached := Reached(r.embeddedInto, planned, Stuck(tables, deletions, Some(m), next));
        PerformConcat(r, server, plan, reached);
        SameTail(plan, reached, planned);
        if done.ok {
          RunPrinted(r, tables, deletions, done.server, worlds, merged[1..], Some(merged[0]), next, i + |lines|);
        }
      }
    }
  }

  lemma SameTail(plan: seq<Action>, a: seq<Action>, b: seq<Action>)
    ensures plan + a == plan + b <==> a == b
  {
    if plan + a == plan + b {
      assert a == (plan + a)[|plan|..] && b == (plan + b)[|plan|..];
    }
  }

  lemma OpensFirst(deletions: Deletions, source: Source, m: Modification, last: Option<Modification>)
    requires Opens(deletions, m, last)
    ensures PlanOf(deletions, source, m, last) != []
  {
  }

  // ---- The merge ----

  lemma {:induction false} MergeMembers(tables: Tables, deletions: Deletions, extern: seq<Modification>, ours: seq<Modification>)
    requires tables.Valid() && AllFit(tables, deletions, extern, ours)
    ensures MergedFits(tables, deletions, Merge(extern, ours))
    ensures forall i | 0 <= i < |Merge(extern, ours)| ::
      Merge(extern, ours)[i].1 in extern || Merge(extern, ours)[i].1 in ours
    decreases |extern| + |ours|
  {
    hide OursFit, ExternFits, Less;
    if extern != [] || ours != [] {
      var merged := Merge(extern, ours);
      var source := merged[0].0;
      var extern' := if source == Ours then extern else extern[1..];
      var ours' := if source == Extern then ours else ours[1..];
      assert merged[1..] == Merge(extern', ours');
      MergeMembers(tables, deletions, extern', ours');
      assert forall x | x in extern' :: x in extern;
      assert forall x | x in ours' :: x in ours;
      forall i | 0 <= i < |merged|
        ensures Fits(tables, deletions, merged[i].0, merged[i].1)
        ensures merged[i].1 in extern || merged[i].1 in ours
      {
        if i > 0 {
          assert merged[i] == merged[1..][i - 1];
        }
      }
    }
  }

  lemma {:induction false} MergeAscends(tables: Tables, deletions: Deletions, extern: seq<Modification>, ours: seq<Modification>)
    requires tables.Valid() && AllFit(tables, deletions, extern, ours) && StrictlySorted(extern) && StrictlySorted(ours)
    ensures MergedAscends(Merge(extern, ours))
    decreases |extern| + |ours|
  {
    hide OursFit, ExternFits, Less, Type;
    if extern != [] || ours != [] {
      var merged := Merge(extern, ours);
      var source := merged[0].0;
      var extern' := if source == Ours then extern else extern[1..];
      var ours' := if source == Extern then ours else ours[1..];
      assert merged[1..] == Merge(extern', ours');
      MergeAscends(tables, deletions, extern', ours');
      MergeMembers(tables, deletions, extern', ours');
      FirstIsLeast(extern, ours);
      var rest := merged[1..];
      forall j | 0 <= j < |rest| ensures Type(merged[0].1) <= Type(rest[j].1) {
        assert rest[j].1 in extern' || rest[j].1 in ours';
        assert rest[j].1 in extern || rest[j].1 in ours;
      }
      AscendsCons(merged[0], rest);
      assert merged == [merged[0]] + rest;
    }
  }

  lemma AscendsCons(first: (Source, Modification), rest: seq<(Source, Modification)>)
    requires MergedAscends(rest) && forall j | 0 <= j < |rest| :: Type(first.1) <= Type(rest[j].1)
    ensures MergedAscends([first] + rest)
  {
  }

  lemma FirstIsLeast(extern: seq<Modification>, ours: seq<Modification>)
    requires StrictlySorted(extern) && StrictlySorted(ours) && (extern != [] || ours != [])
    ensures forall x | x in extern || x in ours :: Type(Merge(extern, ours)[0].1) <= Type(x)
  {
    hide Type;
    var first := Merge(extern, ours)[0].1;
    forall x | x in extern || x in ours ensures Type(first) <= Type(x) {
      FirstTypes(extern, ours, x);
    }
  }

  lemma FirstTypes(extern: seq<Modification>, ours: seq<Modification>, x: Modification)
    requires StrictlySorted(extern) && StrictlySorted(ours) && (x in extern || x in ours)
    ensures Type(Merge(extern, ours)[0].1) <= Type(x)
  {
    hide LessSameType;
    if extern != [] && ours != [] {
      Rebase.Trichotomy(extern[0], ours[0]);
      assert Type(Merge(extern, ours)[0].1) <= Type(extern[0]) && Type(Merge(extern, ours)[0].1) <= Type(ours[0]);
    }
    if x in extern {
      var i :| 0 <= i < |extern| && extern[i] == x;
      assert i > 0 ==> Less(extern[0], x);
    } else {
      var i :| 0 <= i < |ours| && ours[i] == x;
      assert i > 0 ==> Less(ours[0], x);
    }
  }

  /** Our modifications that are not in the newer revision as well, in our order. */
  function OnlyOurs(ours: seq<Modification>, extern: seq<Modification>): seq<Modification> {
    if ours == [] then []
    else (if ours[0] in extern then [] else [CommandOf(ours[0])]) + OnlyOurs(ours[1..], extern)
  }

  lemma {:induction false} OnlyOursIgnores(ours: seq<Modification>, e: Modification, extern: seq<Modification>)
    requires e !in ours
    ensures OnlyOurs(ours, [e] + extern) == OnlyOurs(ours, extern)
    decreases |ours|
  {
    if ours != [] {
      OnlyOursIgnores(ours[1..], e, extern);
    }
  }

  lemma BelowAll(x: Modification, ms: seq<Modification>)
    requires StrictlySorted(ms) && ms != [] && Less(x, ms[0])
    ensures x !in ms
  {
    hide Less;
    forall i | 0 <= i < |ms| ensures ms[i] != x {
      if i > 0 {
        Rebase.Transitive(x, ms[0], ms[i]);
      }
      Rebase.Trichotomy(x, ms[i]);
    }
  }

  /** Where the merge prefers our modification, nothing in the newer revision equals it. */
  lemma OursAlone(o: Modification, extern: seq<Modification>)
    requires StrictlySorted(extern) && extern != [] && !Less(extern[0], o) && extern[0] != o
    ensures o !in extern
  {
    hide Less, SameKey;
    Rebase.Trichotomy(extern[0], o);
    forall i | 0 <= i < |extern| ensures extern[i] != o {
      if i > 0 {
        if SameKey(extern[0], o) {
          SameKeyLess(extern[0], o, extern[i]);
        } else {
          Rebase.Transitive(o, extern[0], extern[i]);
        }
        Rebase.Trichotomy(o, extern[i]);
      }
    }
  }

  lemma HeadNotInTail(ms: seq<Modification>)
    requires StrictlySorted(ms) && ms != []
    ensures ms[0] !in ms[1..] && StrictlySorted(ms[1..])
  {
    hide Less;
    forall i | 0 < i < |ms| ensures ms[i] != ms[0] {
      Rebase.Trichotomy(ms[0], ms[i]);
    }
  }

  lemma {:induction false} MergeKeepsOurs(extern: seq<Modification>, ours: seq<Modification>)
    requires StrictlySorted(extern) && StrictlySorted(ours)
    ensures Commands(Merge(extern, ours)) == OnlyOurs(ours, extern)
    decreases |extern| + |ours|
  {
    hide Less, StrictlySorted;
    if extern != [] { HeadNotInTail(extern); }
    if ours != [] { HeadNotInTail(ours); }
    if extern == [] && ours == [] {
    } else if ours == [] {
      MergeKeepsOurs(extern[1..], ours);
    } else if extern == [] {
      MergeKeepsOurs(extern, ours[1..]);
    } else if Less(extern[0], ours[0]) {
      MergeKeepsOurs(extern[1..], ours);
      BelowAll(extern[0], ours);
      assert extern == [extern[0]] + extern[1..];
      OnlyOursIgnores(ours, extern[0], extern[1..]);
    } else if extern[0] == ours[0] {
      MergeKeepsOurs(extern[1..], ours[1..]);
      assert extern == [extern[0]] + extern[1..];
      OnlyOursIgnores(ours[1..], extern[0], extern[1..]);
    } else {
      MergeKeepsOurs(extern, ours[1..]);
      OursAlone(ours[0], extern);
    }
  }

  /** The modifications of the merge that are executed. */
  function Commands(merged: seq<(Source, Modification)>): seq<Modification> {
    if merged == [] then []
    else (if merged[0].0 == Ours then [CommandOf(merged[0].1)] else []) + Commands(merged[1..])
  }

  /** Read back line by line, the file is executed as the printed lines are. */
  lemma FileRuns(r: D.Relations, tables: Tables, server: Server, worlds: nat -> World, deletions: Deletions,
      extern: seq<Modification>, ours: seq<Modification>)
    requires Schema.Acyclic(r.embeddedInto) && tables.Valid() && AllSingle(extern) && AllSingle(ours)
    ensures var script := ScriptFor(deletions, extern, ours);
      RunFile(r, tables, LexerOf(tables), server, worlds, FileText(script))
      == RunScript(r, tables, server, worlds, [], script, 0).(stack := [])
  {
    hide Run, AllSingle, ScriptFor, FileText, GetLines;
    ReadBackIffSingle(deletions, extern, ours);
  }

  lemma FitSingle(tables: Tables, deletions: Deletions, extern: seq<Modification>, ours: seq<Modification>)
    requires tables.Valid() && AllFit(tables, deletions, extern, ours)
    ensures AllSingle(extern) && AllSingle(ours)
  {
    hide SingleLine, Complete, BlockObject, OwnAttribute, Writable, IsObjectToken, IsIdent;
    forall m | m in extern ensures SingleLine(m) {
      var i :| 0 <= i < |extern| && extern[i] == m;
      assert ExternFits(tables, deletions, extern[i]);
    }
    forall m | m in ours ensures SingleLine(m) {
      var i :| 0 <= i < |ours| && ours[i] == m;
      assert OursFit(tables, deletions, ours[i]);
    }
  }

  /**
   The text of the unedited script, read back and executed, does exactly the steps of the plan: our modifications that are
   not in the newer revision as well, in sorted order, and the headers in front of the attributes. It goes through if and
   only if every step does and no block is opened behind the block of an embedded object.
   */
  lemma UneditedScript(r: D.Relations, tables: Tables, deletions: Deletions, server: Server, worlds: nat -> World,
      extern: seq<Modification>, ours: seq<Modification>)
    requires Schema.Acyclic(r.embeddedInto) && tables.Valid() && SameEmbedding(r, tables) && AllWilling(worlds)
    requires StrictlySorted(extern) && StrictlySorted(ours) && AllFit(tables, deletions, extern, ours)
    ensures RunFile(r, tables, LexerOf(tables), server, worlds, FileText(ScriptFor(deletions, extern, ours)))
      == After(Executes(r, server, PlanFor(deletions, extern, ours), false))
  {
    hide RunScript, AllWilling, AllFit, StrictlySorted, Merge, Printed, Executes, Plan, RunFile, FileText, AllSingle;
    MergeMembers(tables, deletions, extern, ours);
    MergeAscends(tables, deletions, extern, ours);
    FitSingle(tables, deletions, extern, ours);
    FileRuns(r, tables, server, worlds, deletions, extern, ours);
    RunPrinted(r, tables, deletions, server, worlds, Merge(extern, ours), None, [], 0);
  }

  /** The outcome of a file that did the steps of a plan. */
  function After(done: Performed): Outcome {
    Outcome([], done.server, done.ok)
  }

  // ---- From the raw differences ----

  lemma {:induction false} WithoutMembers(ms: seq<Modification>, drop: Modification -> bool)
    ensures forall x :: x in Without(ms, drop) <==> x in ms && !drop(x)
    decreases |ms|
  {
    if ms != [] {
      WithoutMembers(ms[1..], drop);
      assert ms == [ms[0]] + ms[1..];
    }
  }

  lemma {:induction false} WithoutUnique(ms: seq<Modification>, drop: Modification -> bool)
    requires UniqueKeys(ms)
    ensures UniqueKeys(Without(ms, drop))
    decreases |ms|
  {
    hide SameKey;
    if ms != [] {
      WithoutUnique(ms[1..], drop);
      WithoutMembers(ms[1..], drop);
      var rest := Without(ms[1..], drop);
      forall j | 0 <= j < |rest| ensures !SameKey(ms[0], rest[j]) {
        assert rest[j] in ms[1..];
      }
    }
  }

  /** Every modification occurs at most once in a list with unique keys. */
  lemma {:induction false} UniqueOnce(ms: seq<Modification>, x: Modification)
    requires UniqueKeys(ms)
    ensures multiset(ms)[x] <= 1
    decreases |ms|
  {
    if ms != [] {
      UniqueOnce(ms[1..], x);
      assert ms == [ms[0]] + ms[1..];
      assert x == ms[0] ==> x !in ms[1..];
      assert x !in ms[1..] ==> x !in multiset(ms[1..]);
    }
  }

  lemma UniquePermuted(a: seq<Modification>, b: seq<Modification>)
    requires UniqueKeys(a) && multiset(a) == multiset(b)
    ensures UniqueKeys(b)
  {
    hide SameKey;
    forall i, j | 0 <= i < j < |b| ensures !SameKey(b[i], b[j]) {
      if b[i] == b[j] {
        UniqueOnce(a, b[i]);
        TwiceInMultiset(b, i, j);
      }
      assert b[i] in multiset(a) && b[j] in multiset(a);
      var k :| 0 <= k < |a| && a[k] == b[i];
      var l :| 0 <= l < |a| && a[l] == b[j];
      SameKeySymmetric(a[k], a[l]);
    }
  }

  lemma SameKeySymmetric(a: Modification, b: Modification)
    ensures SameKey(a, b) == SameKey(b, a)
  {
  }

  lemma TwiceInMultiset(b: seq<Modification>, i: nat, j: nat)
    requires i < j < |b| && b[i] == b[j]
    ensures multiset(b)[b[i]] >= 2
  {
    assert b == b[..i] + [b[i]] + b[i + 1..j] + [b[j]] + b[j + 1..];
  }

  /** What is left of a difference: no attribute the database maintains itself, nothing nested in what the first one deletes. */
  predicate Kept(embeddedInto: map<Ident, Ident>, readonly: set<(Ident, Ident)>, ms: seq<Modification>, m: Modification) {
    && m in ms
    && (m.SetAttribute? ==> (m.kind, m.attribute) !in readonly)
    && !DeletesParent(embeddedInto, ms[0], m)
  }

  /** Sorting loses nothing of what clearing and dropping leave. */
  lemma PreparedMembers(embeddedInto: map<Ident, Ident>, readonly: set<(Ident, Ident)>, ms: seq<Modification>)
    ensures forall x :: x in Prepared(embeddedInto, readonly, ms) <==> Kept(embeddedInto, readonly, ms, x)
  {
    hide Less, DeletesParent;
    var cleared := ChildrenOfFirstCleared(embeddedInto, ms);
    var kept := Without(cleared, m => !Stored(readonly, m));
    var sorted := Sorting.Sort(kept, Less);
    if ms != [] {
      WithoutMembers(ms, m => DeletesParent(embeddedInto, ms[0], m));
    }
    WithoutMembers(cleared, m => !Stored(readonly, m));
    LessIsStrictOrder();
    Sorting.SortSorts(kept, Less);
    forall x ensures x in sorted <==> x in kept {
      assert x in sorted <==> x in multiset(sorted);
      assert x in kept <==> x in multiset(kept);
    }
  }

  /** The list that is merged is strictly sorted and holds the modifications that are kept. */
  lemma PreparedSorted(embeddedInto: map<Ident, Ident>, readonly: set<(Ident, Ident)>, ms: seq<Modification>)
    requires UniqueKeys(ms)
    ensures StrictlySorted(Prepared(embeddedInto, readonly, ms))
    ensures forall x :: x in Prepared(embeddedInto, readonly, ms) <==> Kept(embeddedInto, readonly, ms, x)
  {
    hide Less, SameKey, DeletesParent, UniqueKeys, Stored, Kept;
    var cleared := ChildrenOfFirstCleared(embeddedInto, ms);
    var kept := Without(cleared, m => !Stored(readonly, m));
    var sorted := Sorting.Sort(kept, Less);
    if ms != [] {
      WithoutUnique(ms, m => DeletesParent(embeddedInto, ms[0], m));
    }
    WithoutUnique(cleared, m => !Stored(readonly, m));
    LessIsStrictOrder();
    Sorting.SortSorts(kept, Less);
    UniquePermuted(kept, sorted);
    SortedStrictly(sorted);
    PreparedMembers(embeddedInto, readonly, ms);
  }

  lemma SortedStrictly(sorted: seq<Modification>)
    requires Sorting.Sorted(sorted, Less) && UniqueKeys(sorted)
    ensures StrictlySorted(sorted)
  {
    hide Less, SameKey;
    forall i, j | 0 <= i < j < |sorted| ensures Less(sorted[i], sorted[j]) {
      Rebase.Trichotomy(sorted[i], sorted[j]);
    }
  }

  /** What is merged, after clearing, dropping and sorting, fits the script. */
  predicate PreparedFit(tables: Tables, readonly: set<(Ident, Ident)>, externDifference: seq<Modification>,
      ourDifference: seq<Modification>)
    requires tables.Valid()
  {
    AllFit(tables, DeletedObjects(ourDifference), Prepared(tables.embeddedInto, readonly, externDifference),
      Prepared(tables.embeddedInto, readonly, ourDifference))
  }

  /** The script and the plan for two differences. */
  function RebaseScriptFor(embeddedInto: map<Ident, Ident>, readonly: set<(Ident, Ident)>,
      externDifference: seq<Modification>, ourDifference: seq<Modification>): Script
  {
    ScriptFor(DeletedObjects(ourDifference), Prepared(embeddedInto, readonly, externDifference),
      Prepared(embeddedInto, readonly, ourDifference))
  }

  function RebasePlan(embeddedInto: map<Ident, Ident>, readonly: set<(Ident, Ident)>,
      externDifference: seq<Modification>, ourDifference: seq<Modification>): seq<Action>
  {
    PlanFor(DeletedObjects(ourDifference), Prepared(embeddedInto, readonly, externDifference),
      Prepared(embeddedInto, readonly, ourDifference))
  }

  /** The whole way from the two differences: executing what PrepareScript writes does the steps of the plan. */
  lemma RebaseRunsPlan(r: D.Relations, tables: Tables, readonly: set<(Ident, Ident)>, server: Server, worlds: nat -> World,
      externDifference: seq<Modification>, ourDifference: seq<Modification>)
    requires Schema.Acyclic(r.embeddedInto) && tables.Valid() && SameEmbedding(r, tables) && AllWilling(worlds)
    requires UniqueKeys(externDifference) && UniqueKeys(ourDifference)
    requires PreparedFit(tables, readonly, externDifference, ourDifference)
    ensures RunFile(r, tables, LexerOf(tables), server, worlds,
        FileText(RebaseScriptFor(tables.embeddedInto, readonly, externDifference, ourDifference)))
      == After(Executes(r, server, RebasePlan(tables.embeddedInto, readonly, externDifference, ourDifference), false))
  {
    hide RunFile, AllWilling, AllFit, UniqueKeys, StrictlySorted, Prepared, ScriptFor, DeletedObjects, PlanFor, Executes,
      FileText;
    PreparedSorted(tables.embeddedInto, readonly, externDifference);
    PreparedSorted(tables.embeddedInto, readonly, ourDifference);
    UneditedScript(r, tables, DeletedObjects(ourDifference), server, worlds,
      Prepared(tables.embeddedInto, readonly, externDifference), Prepared(tables.embeddedInto, readonly, ourDifference));
  }
}
