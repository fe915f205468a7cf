/**
 Values are printed with their line breaks, into commands and into comments alike. The file of a rebase is read back as it
 was written exactly if nothing that is printed holds one.
 */
module LineBreaks {
  import opened Core
  import opened Rebase
  import opened RebaseScript
  import opened ScriptFile
  import Values

  predicate UnbrokenValue(value: Option<Values.Value>) {
    value.Some? ==> Unbroken(Values.Print(value.value))
  }

  /** Nothing the converters print of the modification holds a line break; both values of an attribute are printed. */
  predicate SingleLine(m: Modification) {
    && Unbroken(m.kind) && Unbroken(m.name)
    && (m.RenameObject? ==> Unbroken(m.newName))
    && (m.SetAttribute? ==> Unbroken(m.attribute) && UnbrokenValue(m.value) && UnbrokenValue(m.oldValue))
  }

  predicate AllSingle(ms: seq<Modification>) {
    forall m | m in ms :: SingleLine(m)
  }

  // ---- What a printed value holds ----

  lemma QuotedUnbroken(text: string, quote: string)
    requires Unbroken(quote)
    ensures Unbroken(quote + text + quote) <==> Unbroken(text)
  {
    UnbrokenTwo(quote + text, quote);
    UnbrokenTwo(quote, text);
  }

  /** Quoting neither adds nor removes line breaks. */
  lemma StringUnbroken(text: string)
    ensures Unbroken(Values.PrintString(text)) <==> Unbroken(text)
  {
    QuotedUnbroken(text, "'");
    QuotedUnbroken(text, "\"");
  }

  // ---- The lines of one modification ----

  lemma WordsUnbroken(line: ScriptLine)
    ensures Unbroken(LineText(line)) <==> forall t | t in line.texts :: Unbroken(t)
  {
    hide LineText, Unbroken;
    TextUnbroken(line);
  }

  lemma OneUnbroken(line: ScriptLine)
    ensures AllUnbroken([line]) <==> Unbroken(LineText(line))
  {
    hide LineText, Unbroken;
    assert [line][0] == line;
  }

  lemma BothUnbroken(a: Script, b: Script)
    ensures AllUnbroken(a + b) <==> AllUnbroken(a) && AllUnbroken(b)
  {
    hide LineText, Unbroken;
    if AllUnbroken(a + b) {
      forall i | 0 <= i < |a| ensures Unbroken(LineText(a[i])) {
        assert (a + b)[i] == a[i];
      }
      forall i | 0 <= i < |b| ensures Unbroken(LineText(b[i])) {
        assert (a + b)[|a| + i] == b[i];
      }
    }
  }

  lemma ReadableUnbroken(prefix: string, value: Option<Values.Value>)
    requires Unbroken(prefix)
    ensures (forall t | t in Readable(prefix, value) :: Unbroken(t)) <==> UnbrokenValue(value)
  {
    assert Readable(prefix, value)[0] == prefix;
    assert Unbroken("(none)");
    assert Readable(prefix, value)[1] in Readable(prefix, value);
  }

  predicate Fixed(who: seq<string>) {
    forall t | t in who :: Unbroken(t)
  }

  lemma WhoFixed()
    ensures Fixed(NEWER) && Fixed(BOTH)
  {
  }

  /** The two lines of our attribute: the old value in the comment, the new one in the command. */
  lemma OurAttributeUnbroken(m: Modification)
    requires m.SetAttribute?
    ensures AllUnbroken(OurAttribute(m)) <==>
      Unbroken(m.attribute) && UnbrokenValue(m.value) && UnbrokenValue(m.oldValue)
  {
    hide LineText, Unbroken, AllUnbroken, Values.Print;
    var lines := OurAttribute(m);
    var note, command := lines[0], lines[1];
    assert lines == [note] + [command];
    BothUnbroken([note], [command]);
    OneUnbroken(note);
    OneUnbroken(command);
    WordsUnbroken(note);
    WordsUnbroken(command);
    ReadableUnbroken("from", m.oldValue);
    FixedWords();
    assert forall t :: t in note.texts <==> t in [m.attribute, "set"] || t in Readable("from", m.oldValue);
    assert m.attribute in [m.attribute, "set"];
    assert m.attribute in command.texts;
    if m.value.Some? {
      assert Values.Print(m.value.value) in command.texts;
    }
  }

  lemma FixedWords()
    ensures Unbroken("set") && Unbroken("no") && Unbroken("from") && Unbroken("to") && Unbroken("end")
    ensures Unbroken("create") && Unbroken("delete") && Unbroken("rename")
    ensures Unbroken("created") && Unbroken("deleted") && Unbroken("renamed")
  {
  }

  lemma TheirAttributeUnbroken(m: Modification, who: seq<string>)
    requires m.SetAttribute? && Fixed(who)
    ensures AllUnbroken(TheirAttribute(m, who)) <==>
      Unbroken(m.attribute) && UnbrokenValue(m.value) && UnbrokenValue(m.oldValue)
  {
    hide LineText, Unbroken, AllUnbroken, Values.Print;
    var note := TheirAttribute(m, who)[0];
    OneUnbroken(note);
    WordsUnbroken(note);
    FixedWords();
    ReadableUnbroken("from", m.oldValue);
    ReadableUnbroken("to", m.value);
    assert forall t :: t in note.texts <==>
      t in [m.attribute, "set"] || t in Readable("from", m.oldValue) || t in Readable("to", m.value) || t in who;
    assert m.attribute in [m.attribute, "set"];
  }

  lemma HeaderUnbroken(commented: bool, m: Modification)
    ensures AllUnbroken([Header(commented, m)]) <==> Unbroken(m.kind) && Unbroken(m.name)
  {
    hide LineText, Unbroken, AllUnbroken;
    OneUnbroken(Header(commented, m));
    WordsUnbroken(Header(commented, m));
    assert m.kind in Header(commented, m).texts && m.name in Header(commented, m).texts;
  }

  lemma EndUnbroken(commented: bool)
    ensures AllUnbroken([EndLine(commented)])
  {
    hide LineText, Unbroken, AllUnbroken;
    OneUnbroken(EndLine(commented));
    WordsUnbroken(EndLine(commented));
    FixedWords();
  }

  /** The line of a modification of a whole object. */
  lemma ObjectLineUnbroken(m: Modification, line: ScriptLine, first: string, more: seq<string>)
    requires !m.SetAttribute? && Unbroken(first) && Fixed(more)
    requires line.texts ==
      [first, m.kind, m.name] + (if m.RenameObject? then (if more == [] then [m.newName] else ["to", m.newName]) else []) + more
    ensures AllUnbroken([line]) <==> SingleLine(m)
  {
    hide LineText, Unbroken, AllUnbroken;
    OneUnbroken(line);
    WordsUnbroken(line);
    FixedWords();
    assert line.texts[1] == m.kind && line.texts[2] == m.name;
    assert m.kind in line.texts && m.name in line.texts;
    if m.RenameObject? {
      assert line.texts[if more == [] then 3 else 4] == m.newName;
      assert m.newName in line.texts;
    }
  }

  lemma TheirNoteUnbroken(m: Modification, who: seq<string>)
    requires !m.SetAttribute? && Fixed(who) && who != []
    ensures AllUnbroken(TheirNote(m, who)) <==> SingleLine(m)
  {
    hide LineText, Unbroken, AllUnbroken, SingleLine;
    FixedWords();
    var line := TheirNote(m, who)[0];
    assert TheirNote(m, who) == [line];
    match m {
      case CreateObject(_, _) => ObjectLineUnbroken(m, line, "created", who);
      case DeleteObject(_, _) => ObjectLineUnbroken(m, line, "deleted", who);
      case RenameObject(_, _, _) => ObjectLineUnbroken(m, line, "renamed", who);
    }
  }

  lemma OurLineUnbroken(m: Modification)
    requires !m.SetAttribute?
    ensures AllUnbroken(OurFirst(m)) <==> SingleLine(m)
  {
    hide LineText, Unbroken, AllUnbroken, SingleLine;
    FixedWords();
    var line := OurFirst(m)[0];
    assert OurFirst(m) == [line];
    match m {
      case CreateObject(_, _) => ObjectLineUnbroken(m, line, "create", []);
      case DeleteObject(_, _) => ObjectLineUnbroken(m, line, "delete", []);
      case RenameObject(_, _, _) => ObjectLineUnbroken(m, line, "rename", []);
    }
  }

  function Body(source: Source, m: Modification): Script
    requires m.SetAttribute?
  {
    if source == Ours then OurAttribute(m) else TheirAttribute(m, if source == Extern then NEWER else BOTH)
  }

  lemma BodyUnbroken(source: Source, m: Modification)
    requires m.SetAttribute?
    ensures AllUnbroken(Body(source, m)) <==> Unbroken(m.attribute) && UnbrokenValue(m.value) && UnbrokenValue(m.oldValue)
  {
    hide Unbroken, AllUnbroken, UnbrokenValue, OurAttribute, TheirAttribute, Fixed;
    WhoFixed();
    if source == Ours {
      OurAttributeUnbroken(m);
    } else {
      TheirAttributeUnbroken(m, if source == Extern then NEWER else BOTH);
    }
  }

  /** Where the header is not printed again, it was printed for the modification before. */
  lemma LinesUnbroken(deletions: Deletions, source: Source, m: Modification, last: Option<Modification>)
    requires last.Some? ==> Unbroken(last.value.kind) && Unbroken(last.value.name)
    ensures AllUnbroken(Lines(deletions, source, m, last)) <==> SingleLine(m)
  {
    hide Unbroken, AllUnbroken, UnbrokenValue, OurAttribute, TheirAttribute, Fixed;
    WhoFixed();
    if m.SetAttribute? {
      var body := Body(source, m);
      BodyUnbroken(source, m);
      var commented := source == Extern && Deleted(deletions, m);
      var header := [Header(commented, m)];
      HeaderUnbroken(commented, m);
      BothUnbroken(header, body);
      if last.Some? && last.value.SetAttribute? {
        var end := [EndLine(Deleted(deletions, last.value))];
        EndUnbroken(Deleted(deletions, last.value));
        BothUnbroken(end, header + body);
        assert [EndLine(Deleted(deletions, last.value)), Header(commented, m)] + body == end + (header + body);
      }
    } else if source == Ours {
      OurLineUnbroken(m);
    } else {
      TheirNoteUnbroken(m, if source == Extern then NEWER else BOTH);
    }
  }

  // ---- The whole script ----

  predicate AllMergedSingle(merged: seq<(Source, Modification)>) {
    forall i | 0 <= i < |merged| :: SingleLine(merged[i].1)
  }

  lemma FirstAndRest(merged: seq<(Source, Modification)>)
    requires merged != []
    ensures AllMergedSingle(merged) <==> SingleLine(merged[0].1) && AllMergedSingle(merged[1..])
  {
    hide SingleLine;
    var rest := merged[1..];
    if AllMergedSingle(merged) {
      forall i | 0 <= i < |rest| ensures SingleLine(rest[i].1) {
        assert rest[i] == merged[i + 1];
      }
    }
    if SingleLine(merged[0].1) && AllMergedSingle(rest) {
      forall i | 0 <= i < |merged| ensures SingleLine(merged[i].1) {
        assert i > 0 ==> merged[i] == rest[i - 1];
      }
    }
  }

  lemma SingleHead(ms: seq<Modification>)
    requires ms != []
    ensures AllSingle(ms) <==> SingleLine(ms[0]) && AllSingle(ms[1..])
  {
    hide SingleLine;
    assert forall m :: m in ms <==> m == ms[0] || m in ms[1..];
  }

  lemma {:induction false} PrintedUnbroken(deletions: Deletions, merged: seq<(Source, Modification)>,
      last: Option<(Source, Modification)>)
    requires last.Some? ==> Unbroken(last.value.1.kind) && Unbroken(last.value.1.name)
    ensures AllUnbroken(Printed(deletions, merged, last)) <==> AllMergedSingle(merged)
    decreases |merged|
  {
    hide Unbroken, AllUnbroken, UnbrokenValue, Lines;
    if merged == [] {
      ClosingUnbroken(deletions, last);
    } else {
      var before := if last.Some? then Some(last.value.1) else None;
      var lines := Lines(deletions, merged[0].0, merged[0].1, before);
      var rest := Printed(deletions, merged[1..], Some(merged[0]));
      LinesUnbroken(deletions, merged[0].0, merged[0].1, before);
      BothUnbroken(lines, rest);
      FirstAndRest(merged);
      if SingleLine(merged[0].1) {
        PrintedUnbroken(deletions, merged[1..], Some(merged[0]));
      }
    }
  }

  lemma ClosingUnbroken(deletions: Deletions, last: Option<(Source, Modification)>)
    ensures AllUnbroken(Closing(deletions, last))
  {
    hide Unbroken;
    if last.Some? && last.value.1.SetAttribute? {
      EndUnbroken(last.value.0 != Ours && Deleted(deletions, last.value.1));
    }
  }

  lemma {:induction false} MergedSingle(extern: seq<Modification>, ours: seq<Modification>)
    ensures AllMergedSingle(Merge(extern, ours)) <==> AllSingle(extern) && AllSingle(ours)
    decreases |extern| + |ours|
  {
    hide SingleLine, Less, AllSingle, AllMergedSingle;
    NothingSingle();
    if extern != [] || ours != [] {
      var merged := Merge(extern, ours);
      var source := merged[0].0;
      var extern' := if source == Ours then extern else extern[1..];
      var ours' := if source == Extern then ours else ours[1..];
      assert merged[1..] == Merge(extern', ours');
      MergedSingle(extern', ours');
      FirstAndRest(merged);
      if source != Ours {
        SingleHead(extern);
      }
      if source != Extern {
        SingleHead(ours);
      }
    }
  }

  lemma NothingSingle()
    ensures AllSingle([]) && AllMergedSingle([])
  {
  }

  /** The lines getline finds are the lines of the script if and only if nothing that is printed holds a line break. */
  lemma ReadBackIffSingle(deletions: Deletions, extern: seq<Modification>, ours: seq<Modification>)
    ensures var script := ScriptFor(deletions, extern, ours);
      GetLines(FileText(script)) == LineTexts(script) <==> AllSingle(extern) && AllSingle(ours)
  {
    hide AllUnbroken, AllSingle, AllMergedSingle, Printed, Merge, FileText, GetLines, LineTexts;
    ReadBackIffUnbroken(ScriptFor(deletions, extern, ours));
    PrintedUnbroken(deletions, Merge(extern, ours), None);
    MergedSingle(extern, ours);
  }
}
