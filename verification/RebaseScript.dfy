/** Merging the two sorted lists and writing the script. */
module RebaseScript {
  import opened Core
  import opened Grammar
  import opened Rebase
  import opened ScriptFile
  import Schema
  import Sorting
  import Values

  /** Objects our changeset deletes. */
  type Deletions = seq<(Ident, Ident)>

  function Command(texts: seq<string>): ScriptLine {
    ScriptLine(false, false, texts)
  }

  function Note(texts: seq<string>): ScriptLine {
    ScriptLine(true, false, texts)
  }

  /** readableAttrPrinter. */
  function Readable(prefix: string, value: Option<Values.Value>): seq<string> {
    [prefix, if value.Some? then Values.Print(value.value) else "(none)"]
  }

  predicate Deleted(deletions: Deletions, m: Modification) {
    (m.kind, m.name) in deletions
  }

  function Header(commented: bool, m: Modification): ScriptLine {
    ScriptLine(commented, false, [m.kind, m.name])
  }

  function EndLine(commented: bool): ScriptLine {
    ScriptLine(commented, false, ["end"])
  }

  predicate SameObject(a: Modification, b: Modification) {
    a.kind == b.kind && a.name == b.name
  }

  // ---- The converters ----

  function OurAttribute(m: Modification): Script
    requires m.SetAttribute?
  {
    [ScriptLine(true, true, [m.attribute, "set"] + Readable("from", m.oldValue)),
     ScriptLine(false, true, if m.value.Some? then [m.attribute, Values.Print(m.value.value)] else ["no", m.attribute])]
  }

  function TheirAttribute(m: Modification, who: seq<string>): Script
    requires m.SetAttribute?
  {
    [ScriptLine(true, true, [m.attribute, "set"] + Readable("from", m.oldValue) + Readable("to", m.value) + who)]
  }

  const NEWER: seq<string> := ["in", "newer", "revision"]
  const BOTH: seq<string> := ["in", "both", "newer", "revision", "and", "our", "changeset"]

  /** OurModificationConverter. */
  function OurFirst(m: Modification): Script {
    match m
    case CreateObject(kind, name) => [Command(["create", kind, name])]
    case DeleteObject(kind, name) => [Command(["delete", kind, name])]
    case RenameObject(kind, name, newName) => [Command(["rename", kind, name, newName])]
    case SetAttribute(_, _, _, _, _) => [Header(false, m)] + OurAttribute(m)
  }

  /** OurModificationConverter2: the last modification tells whether a block is open. */
  function OurNext(deletions: Deletions, m: Modification, last: Modification): Script {
    if !(m.SetAttribute? && last.SetAttribute?) then OurFirst(m)
    else if SameObject(m, last) then OurAttribute(m)
    else [EndLine(Deleted(deletions, last)), Header(false, m)] + OurAttribute(m)
  }

  /** The comments of the Extern and Both converters. */
  function TheirNote(m: Modification, who: seq<string>): Script {
    match m
    case CreateObject(kind, name) => [Note(["created", kind, name] + who)]
    case DeleteObject(kind, name) => [Note(["deleted", kind, name] + who)]
    case RenameObject(kind, name, newName) => [Note(["renamed", kind, name, "to", newName] + who)]
    case SetAttribute(_, _, _, _, _) => TheirAttribute(m, who)
  }

  /** ExternModificationConverter: blocks of objects we delete are commented out. */
  function ExternFirst(deletions: Deletions, m: Modification): Script {
    if m.SetAttribute? then [Header(Deleted(deletions, m), m)] + TheirNote(m, NEWER) else TheirNote(m, NEWER)
  }

  function ExternNext(deletions: Deletions, m: Modification, last: Modification): Script {
    if !(m.SetAttribute? && last.SetAttribute?) then ExternFirst(deletions, m)
    else if SameObject(m, last) then TheirNote(m, NEWER)
    else [EndLine(Deleted(deletions, last)), Header(Deleted(deletions, m), m)] + TheirNote(m, NEWER)
  }

  /** BothModificationConverter: its blocks are never commented out. */
  function BothFirst(m: Modification): Script {
    if m.SetAttribute? then [Header(false, m)] + TheirNote(m, BOTH) else TheirNote(m, BOTH)
  }

  function BothNext(deletions: Deletions, m: Modification, last: Modification): Script {
    if !(m.SetAttribute? && last.SetAttribute?) then BothFirst(m)
    else if SameObject(m, last) then TheirNote(m, BOTH)
    else [EndLine(Deleted(deletions, last)), Header(false, m)] + TheirNote(m, BOTH)
  }

  datatype Source = Extern | Ours | Both

  /** The lines for one merged modification. */
  function Lines(deletions: Deletions, source: Source, m: Modification, last: Option<Modification>): Script {
    match source
    case Extern => if last.Some? then ExternNext(deletions, m, last.value) else ExternFirst(deletions, m)
    case Both => if last.Some? then BothNext(deletions, m, last.value) else BothFirst(m)
    case Ours => if last.Some? then OurNext(deletions, m, last.value) else OurFirst(m)
  }

  // ---- The merge ----

  function Merge(extern: seq<Modification>, ours: seq<Modification>): seq<(Source, Modification)>
    decreases |extern| + |ours|
  {
    if extern == [] && ours == [] then []
    else if ours == [] then [(Extern, extern[0])] + Merge(extern[1..], ours)
    else if extern == [] then [(Ours, ours[0])] + Merge(extern, ours[1..])
    else if Less(extern[0], ours[0]) then [(Extern, extern[0])] + Merge(extern[1..], ours)
    else if extern[0] == ours[0] then [(Both, extern[0])] + Merge(extern[1..], ours[1..])
    else [(Ours, ours[0])] + Merge(extern, ours[1..])
  }

  /** The last block still has to be closed. */
  function Closing(deletions: Deletions, last: Option<(Source, Modification)>): Script {
    if last.None? || !last.value.1.SetAttribute? then []
    else [EndLine(last.value.0 != Ours && Deleted(deletions, last.value.1))]
  }

  function Printed(deletions: Deletions, merged: seq<(Source, Modification)>, last: Option<(Source, Modification)>): Script
    decreases |merged|
  {
    if merged == [] then Closing(deletions, last)
    else
      var before := if last.Some? then Some(last.value.1) else None;
      Lines(deletions, merged[0].0, merged[0].1, before) + Printed(deletions, merged[1..], Some(merged[0]))
  }

  /** The unedited script. */
  function ScriptFor(deletions: Deletions, extern: seq<Modification>, ours: seq<Modification>): Script {
    Printed(deletions, Merge(extern, ours), None)
  }

  /** lastModif: an iterator into one of the two vectors. */
  datatype Iterator = Nowhere | IntoExtern(index: nat) | IntoOurs(index: nat)

  /** The modification written last, as the converters see it: there is none before the first. */
  function Pointee(it: Iterator, extern: seq<Modification>, ours: seq<Modification>): Option<Modification>
    requires it.IntoExtern? ==> it.index < |extern|
    requires it.IntoOurs? ==> it.index < |ours|
  {
    match it
    case Nowhere => None
    case IntoExtern(i) => Some(extern[i])
    case IntoOurs(i) => Some(ours[i])
  }

  /** lastModif stands on the modification written last, which is the last one its vector has given so far. */
  predicate PointsTo(it: Iterator, last: Option<(Source, Modification)>, ite: nat, ito: nat,
                     extern: seq<Modification>, ours: seq<Modification>)
    requires ite <= |extern| && ito <= |ours|
  {
    match it
    case Nowhere => ite == ito == 0 && last == None
    case IntoExtern(i) => i == ite - 1 && last.Some? && last.value.0 != Ours && last.value.1 == extern[i]
    case IntoOurs(i) => i == ito - 1 && last == Some((Ours, ours[i]))
  }

  /** What the three loops keep: the part still to be merged would complete the script. */
  ghost predicate Progress(deletions: Deletions, extern: seq<Modification>, ours: seq<Modification>, ite: nat, ito: nat,
                           it: Iterator, last: Option<(Source, Modification)>, ofs: string)
  {
    && ite <= |extern| && ito <= |ours|
    && PointsTo(it, last, ite, ito, extern, ours)
    && ofs + FileText(Printed(deletions, Merge(extern[ite..], ours[ito..]), last)) == FileText(ScriptFor(deletions, extern, ours))
  }

  lemma Take(deletions: Deletions, extern: seq<Modification>, ours: seq<Modification>, ite: nat, ito: nat,
             it: Iterator, last: Option<(Source, Modification)>, ofs: string, source: Source)
    requires Progress(deletions, extern, ours, ite, ito, it, last, ofs)
    requires source != Ours ==> ite < |extern|
    requires source != Extern ==> ito < |ours|
    requires ite < |extern| && ito < |ours| ==>
      source == if Less(extern[ite], ours[ito]) then Extern else if extern[ite] == ours[ito] then Both else Ours
    requires source == Both ==> ite < |extern| && ito < |ours|
    ensures var m := if source == Ours then ours[ito] else extern[ite];
      Progress(deletions, extern, ours, if source == Ours then ite else ite + 1, if source == Extern then ito else ito + 1,
               if source == Ours then IntoOurs(ito) else IntoExtern(ite), Some((source, m)),
               ofs + FileText(Lines(deletions, source, m, Pointee(it, extern, ours))))
  {
    hide Less, Lines, Printed, FileText, ScriptFor;
    var m := if source == Ours then ours[ito] else extern[ite];
    var ite' := if source == Ours then ite else ite + 1;
    var ito' := if source == Extern then ito else ito + 1;
    MergeStep(extern, ours, ite, ito, source);
    var rest := Merge(extern[ite'..], ours[ito'..]);
    PrintedStep(deletions, (source, m), rest, last);
    var lines := Lines(deletions, source, m, Pointee(it, extern, ours));
    var more := Printed(deletions, rest, Some((source, m)));
    FileConcat(lines, more);
    assert ofs + (FileText(lines) + FileText(more)) == (ofs + FileText(lines)) + FileText(more);
  }

  lemma MergeStep(extern: seq<Modification>, ours: seq<Modification>, ite: nat, ito: nat, source: Source)
    requires ite <= |extern| && ito <= |ours|
    requires source != Ours ==> ite < |extern|
    requires source != Extern ==> ito < |ours|
    requires ite < |extern| && ito < |ours| ==>
      source == if Less(extern[ite], ours[ito]) then Extern else if extern[ite] == ours[ito] then Both else Ours
    requires source == Both ==> ite < |extern| && ito < |ours|
    ensures Merge(extern[ite..], ours[ito..]) ==
      [(source, if source == Ours then ours[ito] else extern[ite])]
      + Merge(extern[if source == Ours then ite else ite + 1..], ours[if source == Extern then ito else ito + 1..])
  {
    hide Less;
    assert ite < |extern| ==> extern[ite..][0] == extern[ite] && extern[ite..][1..] == extern[ite + 1..];
    assert ito < |ours| ==> ours[ito..][0] == ours[ito] && ours[ito..][1..] == ours[ito + 1..];
  }

  lemma PrintedStep(deletions: Deletions, next: (Source, Modification), rest: seq<(Source, Modification)>,
                    last: Option<(Source, Modification)>)
    ensures Printed(deletions, [next] + rest, last) ==
      Lines(deletions, next.0, next.1, if last.Some? then Some(last.value.1) else None) + Printed(deletions, rest, Some(next))
  {
    hide Lines;
    assert ([next] + rest)[1..] == rest;
  }

  /** The merge loops of Rebase::operator(). The case that throws "Last modification not found" is never taken. */
  method WriteScript(deletions: Deletions, externModifications: seq<Modification>, ourModifications: seq<Modification>)
    returns (ofs: string)
    ensures ofs == FileText(ScriptFor(deletions, externModifications, ourModifications))
  {
    hide Less, Lines, Merge;
    var lastModif;
    ghost var last;
    ofs, lastModif, last := WriteMerged(deletions, externModifications, ourModifications);
    MergedAll();
    if ourModifications != [] || externModifications != [] {
      if ourModifications != [] && lastModif == IntoOurs(|ourModifications| - 1) {
        if ourModifications[|ourModifications| - 1].SetAttribute? {
          ofs := ofs + FileText([EndLine(false)]);
        }
      } else if externModifications != [] && lastModif == IntoExtern(|externModifications| - 1) {
        var m := externModifications[|externModifications| - 1];
        if m.SetAttribute? {
          ofs := ofs + FileText([EndLine(Deleted(deletions, m))]);
        }
      } else {
        assert false;
      }
    }
  }

  lemma MergedAll()
    ensures Merge([], []) == []
  {
  }

  method WriteMerged(deletions: Deletions, externModifications: seq<Modification>, ourModifications: seq<Modification>)
    returns (ofs: string, lastModif: Iterator, ghost last: Option<(Source, Modification)>)
    ensures PointsTo(lastModif, last, |externModifications|, |ourModifications|, externModifications, ourModifications)
    ensures ofs + FileText(Printed(deletions, Merge([], []), last)) ==
      FileText(ScriptFor(deletions, externModifications, ourModifications))
  {
    hide Less, Lines, Merge, PointsTo, FileText, Printed, ScriptFor;
    var ite, ito := 0, 0;
    ofs, lastModif, last := "", Nowhere, None;
    Begin(deletions, externModifications, ourModifications);
    while ite < |externModifications| && ito < |ourModifications|
      invariant Progress(deletions, externModifications, ourModifications, ite, ito, lastModif, last, ofs)
      decreases |externModifications| - ite + |ourModifications| - ito
    {
      var e, o := externModifications[ite], ourModifications[ito];
      var source := if Less(e, o) then Extern else if e == o then Both else Ours;
      Take(deletions, externModifications, ourModifications, ite, ito, lastModif, last, ofs, source);
      PointsInside(lastModif, last, ite, ito, externModifications, ourModifications);
      var before := Pointee(lastModif, externModifications, ourModifications);
      match source {
        case Extern =>
          ofs := ofs + FileText(Lines(deletions, Extern, e, before));
          lastModif, last, ite := IntoExtern(ite), Some((Extern, e)), ite + 1;
        case Both =>
          ofs := ofs + FileText(Lines(deletions, Both, e, before));
          lastModif, last, ite, ito := IntoExtern(ite), Some((Both, e)), ite + 1, ito + 1;
        case Ours =>
          ofs := ofs + FileText(Lines(deletions, Ours, o, before));
          lastModif, last, ito := IntoOurs(ito), Some((Ours, o)), ito + 1;
      }
    }
    while ite < |externModifications|
      invariant ite == |externModifications| || ito == |ourModifications|
      invariant Progress(deletions, externModifications, ourModifications, ite, ito, lastModif, last, ofs)
    {
      Take(deletions, externModifications, ourModifications, ite, ito, lastModif, last, ofs, Extern);
      PointsInside(lastModif, last, ite, ito, externModifications, ourModifications);
      var e := externModifications[ite];
      ofs := ofs + FileText(Lines(deletions, Extern, e, Pointee(lastModif, externModifications, ourModifications)));
      lastModif, last, ite := IntoExtern(ite), Some((Extern, e)), ite + 1;
    }
    while ito < |ourModifications|
      invariant ite == |externModifications|
      invariant Progress(deletions, externModifications, ourModifications, ite, ito, lastModif, last, ofs)
    {
      Take(deletions, externModifications, ourModifications, ite, ito, lastModif, last, ofs, Ours);
      PointsInside(lastModif, last, ite, ito, externModifications, ourModifications);
      var o := ourModifications[ito];
      ofs := ofs + FileText(Lines(deletions, Ours, o, Pointee(lastModif, externModifications, ourModifications)));
      lastModif, last, ito := IntoOurs(ito), Some((Ours, o)), ito + 1;
    }
    assert externModifications[ite..] == [] && ourModifications[ito..] == [];
  }

  lemma Begin(deletions: Deletions, extern: seq<Modification>, ours: seq<Modification>)
    ensures Progress(deletions, extern, ours, 0, 0, Nowhere, None, "")
  {
    hide Lines, Merge;
    assert extern[0..] == extern && ours[0..] == ours;
    var script := ScriptFor(deletions, extern, ours);
    assert "" + FileText(script) == FileText(script);
  }

  lemma PointsInside(it: Iterator, last: Option<(Source, Modification)>, ite: nat, ito: nat,
                     extern: seq<Modification>, ours: seq<Modification>)
    requires ite <= |extern| && ito <= |ours| && PointsTo(it, last, ite, ito, extern, ours)
    ensures it.IntoExtern? ==> it.index < |extern|
    ensures it.IntoOurs? ==> it.index < |ours|
  {
  }

  // ---- From the two differences to the script ----

  function DeletedObjects(ms: seq<Modification>): Deletions {
    if ms == [] then []
    else DeletedObjects(DropLast(ms)) + (if Last(ms).DeleteObject? then [(Last(ms).kind, Last(ms).name)] else [])
  }

  /** Every deletion is collected, and nothing else. */
  lemma {:induction false} DeletionsCollected(ms: seq<Modification>)
    ensures forall kind, name :: (kind, name) in DeletedObjects(ms) <==> DeleteObject(kind, name) in ms
    decreases |ms|
  {
    if ms != [] {
      DeletionsCollected(DropLast(ms));
      assert ms == DropLast(ms) + [Last(ms)];
    }
  }

  /** ModificationBackupChecker: attributes the database maintains itself are skipped. */
  predicate Stored(readonly: set<(Ident, Ident)>, m: Modification) {
    m.SetAttribute? ==> (m.kind, m.attribute) !in readonly
  }

  /** What is merged: child deletions of the first element and read-only attributes dropped, then sorted. */
  function Prepared(embeddedInto: map<Ident, Ident>, readonly: set<(Ident, Ident)>, ms: seq<Modification>): seq<Modification> {
    Sorting.Sort(Without(ChildrenOfFirstCleared(embeddedInto, ms), m => !Stored(readonly, m)), Less)
  }

  method EraseReadonly(readonly: set<(Ident, Ident)>, modifications: seq<Modification>) returns (left: seq<Modification>)
    ensures left == Without(modifications, m => !Stored(readonly, m))
  {
    left := modifications;
    ghost var drop := (m: Modification) => !Stored(readonly, m);
    var it := 0;
    assert left[..0] == [];
    while it < |left|
      invariant 0 <= it <= |left|
      invariant forall k | 0 <= k < it :: !drop(left[k])
      invariant Without(left, drop) == Without(modifications, drop)
      decreases |left| - it
    {
      if !Stored(readonly, left[it]) {
        WithoutRemoved(left, drop, it);
        left := left[..it] + left[it + 1..];
      } else {
        it := it + 1;
      }
    }
    WithoutNothing(left, drop);
    SameDrop(modifications, drop, m => !Stored(readonly, m));
  }

  method PrepareScript(embeddedInto: map<Ident, Ident>, readonly: set<(Ident, Ident)>,
                       externDifference: seq<Modification>, ourDifference: seq<Modification>) returns (text: string)
    requires Schema.Acyclic(embeddedInto)
    ensures text == FileText(ScriptFor(DeletedObjects(ourDifference), Prepared(embeddedInto, readonly, externDifference),
                                       Prepared(embeddedInto, readonly, ourDifference)))
  {
    var ourDeletions := [];
    for i := 0 to |ourDifference|
      invariant ourDeletions == DeletedObjects(ourDifference[..i])
    {
      assert DropLast(ourDifference[..i + 1]) == ourDifference[..i];
      if ourDifference[i].DeleteObject? {
        ourDeletions := ourDeletions + [(ourDifference[i].kind, ourDifference[i].name)];
      }
    }
    assert ourDifference[..|ourDifference|] == ourDifference;
    var extern := ClearChildDeletions(embeddedInto, externDifference);
    var ours := ClearChildDeletions(embeddedInto, ourDifference);
    extern := EraseReadonly(readonly, extern);
    ours := EraseReadonly(readonly, ours);
    text := WriteScript(ourDeletions, Sorting.Sort(extern, Less), Sorting.Sort(ours, Less));
  }
}
