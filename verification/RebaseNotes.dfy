/** What the user reads in the unedited rebase script: every modification of the newer revision is told in a comment. */
module RebaseNotes {
  import opened Core
  import opened Rebase
  import opened RebaseScript
  import opened ScriptFile
  import RebaseDeletions
  import Values

  /** A value as a comment shows it. */
  function Shown(value: Option<Values.Value>): string {
    if value.Some? then Values.Print(value.value) else "(none)"
  }

  /** The comment on a modification of the newer revision; shared tells that our changeset makes it as well. */
  predicate Tells(line: ScriptLine, m: Modification, shared: bool) {
    var who := if shared then ["in", "both", "newer", "revision", "and", "our", "changeset"] else ["in", "newer", "revision"];
    line.commented && match m
      case CreateObject(kind, name) => line.texts == ["created", kind, name] + who
      case DeleteObject(kind, name) => line.texts == ["deleted", kind, name] + who
      case RenameObject(kind, name, newName) => line.texts == ["renamed", kind, name, "to", newName] + who
      case SetAttribute(_, _, attribute, value, oldValue) =>
        line.texts == [attribute, "set", "from", Shown(oldValue), "to", Shown(value)] + who
  }

  lemma TheirLine(deletions: Deletions, source: Source, m: Modification, before: Option<Modification>) returns (line: ScriptLine)
    requires source != Ours
    ensures line in Lines(deletions, source, m, before) && Tells(line, m, source == Both)
  {
    var who := if source == Both then BOTH else NEWER;
    line := TheirNote(m, who)[0];
    assert line in TheirNote(m, who);
    if m.SetAttribute? {
      assert line.texts == [m.attribute, "set", "from", Shown(m.oldValue), "to", Shown(m.value)] + who;
    }
  }

  /** Whatever the newer revision changed is told, and whether we change it in the same way. */
  lemma TheirsTold(deletions: Deletions, extern: seq<Modification>, ours: seq<Modification>, m: Modification)
    requires StrictlySorted(extern) && StrictlySorted(ours) && m in extern
    ensures exists line :: line in ScriptFor(deletions, extern, ours) && Tells(line, m, m in ours)
  {
    hide StrictlySorted, Merge, Printed, Lines, Tells;
    RebaseDeletions.MergeSources(extern, ours, m);
    var source := if m in ours then Both else Extern;
    var merged := Merge(extern, ours);
    var i :| 0 <= i < |merged| && merged[i] == (source, m);
    var before := if i > 0 then Some(merged[i - 1].1) else None;
    LineAt(deletions, merged, None, i);
    var line := TheirLine(deletions, source, m, before);
  }

  predicate TellsOld(line: ScriptLine, m: Modification)
    requires m.SetAttribute?
  {
    line.commented && line.texts == [m.attribute, "set", "from", Shown(m.oldValue)]
  }

  /** Beside each attribute of ours that is set or removed stands its old value. */
  lemma OldValuesTold(deletions: Deletions, extern: seq<Modification>, ours: seq<Modification>, m: Modification)
    requires StrictlySorted(extern) && StrictlySorted(ours) && m in ours && m !in extern && m.SetAttribute?
    ensures exists line :: line in ScriptFor(deletions, extern, ours) && TellsOld(line, m)
  {
    hide StrictlySorted, Merge, Printed;
    RebaseDeletions.MergeSources(extern, ours, m);
    var merged := Merge(extern, ours);
    var i :| 0 <= i < |merged| && merged[i] == (Ours, m);
    var before := if i > 0 then Some(merged[i - 1].1) else None;
    LineAt(deletions, merged, None, i);
    var line := OurAttribute(m)[0];
    assert line.texts == [m.attribute, "set", "from", Shown(m.oldValue)];
    assert line in OurAttribute(m);
    assert line in Lines(deletions, Ours, m, before);
    assert TellsOld(line, m);
  }

  /** The first attribute of an object in the merge; the others follow in the same block. */
  predicate Leads(merged: seq<(Source, Modification)>, i: nat)
    requires i < |merged|
  {
    && merged[i].1.SetAttribute?
    && (i == 0 || !merged[i - 1].1.SetAttribute? || merged[i - 1].1.kind != merged[i].1.kind
        || merged[i - 1].1.name != merged[i].1.name)
  }

  lemma {:induction false} LineAt(deletions: Deletions, merged: seq<(Source, Modification)>,
      last: Option<(Source, Modification)>, i: nat)
    requires i < |merged|
    ensures var before := if i > 0 then Some(merged[i - 1].1) else if last.Some? then Some(last.value.1) else None;
      forall line | line in Lines(deletions, merged[i].0, merged[i].1, before) :: line in Printed(deletions, merged, last)
    decreases |merged|
  {
    hide Lines;
    if i > 0 {
      LineAt(deletions, merged[1..], Some(merged[0]), i - 1);
      assert merged[1..][i - 1] == merged[i];
      assert i > 1 ==> merged[1..][i - 2] == merged[i - 1];
    }
  }

  /** A block has its header in front; only the header of an attribute that the newer revision alone changes is a comment. */
  lemma HeaderPrinted(deletions: Deletions, merged: seq<(Source, Modification)>, i: nat)
    requires i < |merged| && Leads(merged, i)
    ensures var (source, m) := merged[i];
      ScriptLine(source == Extern && (m.kind, m.name) in deletions, false, [m.kind, m.name]) in Printed(deletions, merged, None)
  {
    hide Printed;
    LineAt(deletions, merged, None, i);
    var (source, m) := merged[i];
    var before := if i > 0 then Some(merged[i - 1].1) else None;
    var header := Header(source == Extern && (m.kind, m.name) in deletions, m);
    var lines := Lines(deletions, source, m, before);
    assert lines[0] == header || lines[1] == header;
  }
}
