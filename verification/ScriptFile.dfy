/** The script of a rebase as text: what is written to the file, and the lines that getline finds in it again. */
module ScriptFile {
  import opened Core
  import opened Grammar

  /** A line of the script by its words; lines of attributes are indented, and commented lines begin with "#". */
  datatype ScriptLine = ScriptLine(commented: bool, indented: bool, texts: seq<string>)

  type Script = seq<ScriptLine>

  function Words(texts: seq<string>): seq<Token> {
    seq(|texts|, i requires 0 <= i < |texts| => Word(texts[i]))
  }

  function Spaced(texts: seq<string>): string {
    if texts == [] then "" else if |texts| == 1 then texts[0] else texts[0] + (" " + Spaced(texts[1..]))
  }

  function Lead(line: ScriptLine): string {
    if line.commented then (if line.indented then "#    " else "# ") else if line.indented then "     " else ""
  }

  function LineText(line: ScriptLine): string {
    Lead(line) + Spaced(line.texts)
  }

  function LineTexts(script: Script): seq<string> {
    seq(|script|, i requires 0 <= i < |script| => LineText(script[i]))
  }

  /** Every line is followed by a line break. */
  function FileText(script: Script): string {
    if script == [] then "" else LineText(script[0]) + ("\n" + FileText(script[1..]))
  }

  // ---- getline ----

  function LineLength(text: string): (n: nat)
    ensures n <= |text|
  {
    if text == "" || text[0] == '\n' then 0 else 1 + LineLength(text[1..])
  }

  /** The loop "while (!getline(ifs, line).eof())": what stands behind the last line break is not looked at. */
  function GetLines(text: string): seq<string>
    decreases |text|
  {
    var n := LineLength(text);
    if n == |text| then [] else [text[..n]] + GetLines(text[n + 1..])
  }

  /** Empty lines and lines that begin with "#" are skipped. */
  predicate Skipped(line: string) {
    line == "" || line[0] == '#'
  }

  // ---- Reading back what was written ----

  predicate Unbroken(text: string) {
    '\n' !in text
  }

  lemma {:induction false} LineEnds(line: string, rest: string)
    requires Unbroken(line)
    ensures LineLength(line + ("\n" + rest)) == |line|
    decreases |line|
  {
    var text := line + ("\n" + rest);
    if line == "" {
      assert text[0] == '\n';
    } else {
      assert text[0] == line[0] && line[0] in line;
      assert text[1..] == line[1..] + ("\n" + rest);
      LineEnds(line[1..], rest);
    }
  }

  lemma FirstLine(line: string, rest: string)
    requires Unbroken(line)
    ensures GetLines(line + ("\n" + rest)) == [line] + GetLines(rest)
  {
    hide Unbroken;
    var text := line + ("\n" + rest);
    LineEnds(line, rest);
    assert text[..|line|] == line && text[|line| + 1..] == rest;
  }

  lemma {:induction false} LineUnbroken(text: string)
    ensures Unbroken(text[..LineLength(text)])
    decreases |text|
  {
    if text != "" && text[0] != '\n' {
      LineUnbroken(text[1..]);
      assert text[..LineLength(text)] == [text[0]] + text[1..][..LineLength(text[1..])];
    }
  }

  /** No line that is read holds a line break. */
  lemma {:induction false} LinesUnbroken(text: string)
    ensures forall i | 0 <= i < |GetLines(text)| :: Unbroken(GetLines(text)[i])
    decreases |text|
  {
    hide Unbroken;
    var n := LineLength(text);
    LineUnbroken(text);
    if n < |text| {
      LinesUnbroken(text[n + 1..]);
    }
  }

  /** Each line with its line break. */
  function Terminated(lines: seq<string>): string {
    if lines == [] then "" else lines[0] + ("\n" + Terminated(lines[1..]))
  }

  /** Whatever the user saves: all lines that end with a line break are read, and what stands behind the last is not. */
  lemma {:induction false} EditedText(lines: seq<string>, rest: string)
    requires Unbroken(rest) && forall i | 0 <= i < |lines| :: Unbroken(lines[i])
    ensures GetLines(Terminated(lines) + rest) == lines
    decreases |lines|
  {
    hide Unbroken;
    if lines == [] {
      assert Terminated(lines) + rest == rest;
      NoLineBreak(rest);
    } else {
      EditedText(lines[1..], rest);
      var tail := Terminated(lines[1..]) + rest;
      assert Terminated(lines) + rest == lines[0] + ("\n" + tail);
      FirstLine(lines[0], tail);
      assert lines == [lines[0]] + lines[1..];
    }
  }

  lemma {:induction false} NoLineBreak(text: string)
    requires Unbroken(text)
    ensures LineLength(text) == |text|
    decreases |text|
  {
    if text != "" {
      assert text[0] in text;
      NoLineBreak(text[1..]);
    }
  }

  predicate AllUnbroken(script: Script) {
    forall i | 0 <= i < |script| :: Unbroken(LineText(script[i]))
  }

  lemma {:induction false} UnbrokenReadBack(script: Script)
    requires AllUnbroken(script)
    ensures GetLines(FileText(script)) == LineTexts(script)
    decreases |script|
  {
    hide Unbroken, LineText;
    if script == [] {
      assert FileText(script) == "" && LineLength("") == 0;
    } else {
      UnbrokenReadBack(script[1..]);
      FirstLine(LineText(script[0]), FileText(script[1..]));
      assert LineTexts(script) == [LineText(script[0])] + LineTexts(script[1..]);
    }
  }

  /** The lines that are read are the lines that were written exactly if none of them holds a line break. */
  lemma ReadBackIffUnbroken(script: Script)
    ensures GetLines(FileText(script)) == LineTexts(script) <==> AllUnbroken(script)
  {
    hide Unbroken, LineText, GetLines, FileText;
    if AllUnbroken(script) {
      UnbrokenReadBack(script);
    }
    LinesUnbroken(FileText(script));
    if GetLines(FileText(script)) == LineTexts(script) {
      forall i | 0 <= i < |script| ensures Unbroken(LineText(script[i])) {
        assert GetLines(FileText(script))[i] == LineText(script[i]);
      }
    }
  }

  lemma {:induction false} SpacedUnbroken(texts: seq<string>)
    ensures Unbroken(Spaced(texts)) <==> forall i | 0 <= i < |texts| :: Unbroken(texts[i])
    decreases |texts|
  {
    if |texts| > 1 {
      SpacedUnbroken(texts[1..]);
      assert texts == [texts[0]] + texts[1..];
      UnbrokenTwo(texts[0], " " + Spaced(texts[1..]));
      UnbrokenTwo(" ", Spaced(texts[1..]));
      forall i | 0 <= i < |texts| ensures texts[i] == if i == 0 then texts[0] else texts[1..][i - 1] {
      }
      assert forall i | 0 <= i < |texts[1..]| :: texts[1..][i] == texts[i + 1];
    }
  }

  lemma UnbrokenTwo(a: string, b: string)
    ensures Unbroken(a + b) <==> Unbroken(a) && Unbroken(b)
  {
  }

  /** A line is unbroken exactly if all its words are. */
  lemma TextUnbroken(line: ScriptLine)
    ensures Unbroken(LineText(line)) <==> forall i | 0 <= i < |line.texts| :: Unbroken(line.texts[i])
  {
    SpacedUnbroken(line.texts);
    UnbrokenTwo(Lead(line), Spaced(line.texts));
    assert Unbroken(Lead(line));
  }

  // ---- Writing in parts ----

  lemma {:induction false} FileConcat(a: Script, b: Script)
    ensures FileText(a + b) == FileText(a) + FileText(b)
    decreases |a|
  {
    hide LineText;
    if a == [] {
      assert a + b == b;
    } else {
      assert (a + b)[1..] == a[1..] + b;
      FileConcat(a[1..], b);
      Regroup(LineText(a[0]), "\n", FileText(a[1..]), FileText(b));
    }
  }

  lemma Regroup(a: string, b: string, c: string, d: string)
    ensures a + (b + (c + d)) == (a + (b + c)) + d
  {
  }
}
