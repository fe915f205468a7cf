/**
 Conversion between the text of a qualified name ("host->interface") and its identifiers
 (pathToVector, vectorToPath), together with the identifier rule of the command grammar.
 Scanners return how many characters they consume; zero means the rule does not match.
 */
module PathText {
  import opened Core

  const ARROW: string := "->"

  predicate IsSpace(c: char) {
    c == ' ' || '\t' <= c <= '\r'
  }

  /** ascii::alnum | '_' */
  predicate IsWordChar(c: char) {
    'a' <= c <= 'z' || 'A' <= c <= 'Z' || '0' <= c <= '9' || c == '_'
  }

  predicate IsIdentChar(c: char) {
    IsWordChar(c) || c == '-'
  }

  /** What the rule accepts, said without scanning: no empty identifier and no trailing hyphen. */
  predicate IsIdent(s: string) {
    s != [] && (forall i | 0 <= i < |s| :: IsIdentChar(s[i])) && IsWordChar(s[|s| - 1])
  }

  function Hyphens(s: string): (n: nat)
    ensures n <= |s|
  {
    if s != [] && s[0] == '-' then 1 + Hyphens(s[1..]) else 0
  }

  function WordChars(s: string): (n: nat)
    ensures n <= |s|
  {
    if s != [] && IsWordChar(s[0]) then 1 + WordChars(s[1..]) else 0
  }

  /** *lit('-') >> +(alnum | '_') */
  function Chunk(s: string): (n: nat)
    ensures n <= |s|
  {
    var h := Hyphens(s);
    var w := WordChars(s[h..]);
    if w == 0 then 0 else h + w
  }

  /** +(*lit('-') >> +(alnum | '_')), the greedy repetition. */
  function ScanIdent(s: string): (n: nat)
    ensures n <= |s|
    decreases |s|
  {
    var n := Chunk(s);
    if n == 0 then 0 else n + ScanIdent(s[n..])
  }

  function SkipSpaces(s: string): (n: nat)
    ensures n <= |s|
  {
    if s != [] && IsSpace(s[0]) then 1 + SkipSpaces(s[1..]) else 0
  }

  function Trimmed(s: string): string {
    s[SkipSpaces(s)..]
  }

  predicate StartsWithArrow(s: string) {
    |s| >= 2 && s[..2] == ARROW
  }

  /** tIdentifier % "->" under a skipper: the identifiers and the unread rest. */
  function ScanPath(text: string): (r: Option<(seq<Ident>, string)>)
    ensures r.Some? ==> r.value.0 != [] && |r.value.1| < |text|
    decreases |text|
  {
    var s := Trimmed(text);
    var n := ScanIdent(s);
    if n == 0 then None
    else
      var rest := Trimmed(s[n..]);
      var more := if StartsWithArrow(rest) then ScanPath(rest[2..]) else None;
      // A "->" without an identifier behind it is given back.
      if more.Some? then Some(([s[..n]] + more.value.0, more.value.1)) else Some(([s[..n]], s[n..]))
  }

  /** pathToVector; None stands for ContextStackConversionError. */
  function PathToVector(path: string): (r: Option<Name>)
    ensures r.Some? ==> r.value != []
  {
    var scanned := ScanPath(path);
    if scanned.None? then None
    else
      var (ids, unread) := scanned.value;
      var rest := Trimmed(unread);
      if rest == [] then Some(ids)
      else if StartsWithArrow(rest) && Trimmed(rest[2..]) == [] then Some(ids + [""])
      else None
  }

  /** vectorToPath. */
  function VectorToPath(ids: Name): string {
    if ids == [] then ""
    else if |ids| == 1 then ids[0]
    else ids[0] + ARROW + VectorToPath(ids[1..])
  }

  /** Names made of valid identifiers; only the last one may still be missing. */
  predicate IsName(ids: Name) {
    && ids != []
    && (forall i | 0 <= i < |ids| - 1 :: IsIdent(ids[i]))
    && (IsIdent(Last(ids)) || (|ids| > 1 && Last(ids) == ""))
  }

  function Strip(s: string): string {
    if s == [] then ""
    else if IsSpace(s[0]) then Strip(s[1..])
    else [s[0]] + Strip(s[1..])
  }

  // ---- The identifier scanner ----

  /** What may follow an identifier so that the greedy scanner stops exactly behind it. */
  predicate EndsIdent(rest: string) {
    rest == [] || !IsIdentChar(rest[0]) || StartsWithArrow(rest)
  }

  lemma {:induction false} HyphenRun(s: string)
    ensures forall i | 0 <= i < Hyphens(s) :: s[i] == '-'
    ensures Hyphens(s) < |s| ==> s[Hyphens(s)] != '-'
  {
    if s != [] && s[0] == '-' {
      HyphenRun(s[1..]);
    }
  }

  lemma {:induction false} WordRun(s: string)
    ensures forall i | 0 <= i < WordChars(s) :: IsWordChar(s[i])
    ensures WordChars(s) < |s| ==> !IsWordChar(s[WordChars(s)])
  {
    if s != [] && IsWordChar(s[0]) {
      WordRun(s[1..]);
    }
  }

  /** The first chunk of an identifier stays inside it. */
  lemma ChunkInside(v: string, rest: string)
    requires IsIdent(v) && EndsIdent(rest)
    ensures 0 < Chunk(v + rest) <= |v|
  {
    var s := v + rest;
    HyphenRun(s);
    var h := Hyphens(s);
    assert s[|v| - 1] == v[|v| - 1];
    assert h < |v|;
    assert s[h] == v[h] && IsIdentChar(v[h]);
    var t := s[h..];
    assert t[0] == v[h];
    WordRun(t);
    assert rest != [] ==> t[|v| - h] == rest[0] && !IsWordChar(rest[0]);
  }

  lemma ChunkNone(rest: string)
    requires EndsIdent(rest)
    ensures Chunk(rest) == 0
  {
    if StartsWithArrow(rest) {
      assert rest == "->" + rest[2..];
      assert rest[1..][0] == '>';
      assert Hyphens(rest[1..]) == 0;
    }
  }

  lemma {:induction false} ScanIdentStops(v: string, rest: string)
    requires IsIdent(v) && EndsIdent(rest)
    ensures ScanIdent(v + rest) == |v|
    decreases |v|
  {
    var s := v + rest;
    ChunkInside(v, rest);
    var n := Chunk(s);
    if n == |v| {
      assert s[n..] == rest;
      ChunkNone(rest);
    } else {
      assert s[n..] == v[n..] + rest;
      ScanIdentStops(v[n..], rest);
    }
  }

  lemma ChunkSound(s: string)
    requires Chunk(s) > 0
    ensures IsIdent(s[..Chunk(s)])
  {
    HyphenRun(s);
    var h := Hyphens(s);
    var t := s[h..];
    WordRun(t);
    var w := WordChars(t);
    assert forall i | h <= i < h + w :: s[i] == t[i - h];
  }

  lemma IdentConcat(a: string, b: string)
    requires IsIdent(a) && IsIdent(b)
    ensures IsIdent(a + b)
  {
  }

  lemma {:induction false} ScanIdentSound(s: string)
    requires ScanIdent(s) > 0
    ensures IsIdent(s[..ScanIdent(s)])
    decreases |s|
  {
    var n := Chunk(s);
    var t := s[n..];
    assert n > 0 && ScanIdent(s) == n + ScanIdent(t);
    ChunkSound(s);
    if ScanIdent(t) > 0 {
      ScanIdentSound(t);
      IdentGlue(s, n, ScanIdent(t));
    }
  }

  lemma IdentGlue(s: string, n: nat, m: nat)
    requires n + m <= |s| && IsIdent(s[..n]) && IsIdent(s[n..][..m])
    ensures IsIdent(s[..n + m])
  {
    IdentConcat(s[..n], s[n..][..m]);
    assert s[..n + m] == s[..n] + s[n..][..m];
  }

  lemma TrimmedSolid(s: string)
    requires s == [] || !IsSpace(s[0])
    ensures Trimmed(s) == s
  {
  }

  // ---- vectorToPath, then pathToVector ----

  /** One round of the list rule: an identifier, then whatever the rest allows. */
  lemma ScanPathStep(v: Ident, rest: string)
    requires IsIdent(v) && EndsIdent(rest)
    ensures ScanPath(v + rest) ==
      var r := Trimmed(rest);
      var more := if StartsWithArrow(r) then ScanPath(r[2..]) else None;
      if more.Some? then Some(([v] + more.value.0, more.value.1)) else Some(([v], rest))
  {
    hide ScanIdent, Chunk;
    var s := v + rest;
    assert IsIdentChar(s[0]);
    TrimmedSolid(s);
    ScanIdentStops(v, rest);
    assert s[..|v|] == v && s[|v|..] == rest;
  }

  lemma {:induction false} ScanPrinted(ids: Name, tail: string)
    requires ids != [] && (forall i | 0 <= i < |ids| :: IsIdent(ids[i]))
    requires tail == "" || tail == ARROW
    ensures ScanPath(VectorToPath(ids) + tail) == Some((ids, tail))
    decreases |ids|
  {
    hide IsIdent, ScanPath;
    if |ids| == 1 {
      ScanPathStep(ids[0], tail);
      TrimmedSolid(tail);
      NothingScanned();
      assert tail == ARROW ==> tail[2..] == "";
      assert ids == [ids[0]];
    } else {
      var rest := ARROW + (VectorToPath(ids[1..]) + tail);
      assert VectorToPath(ids) + tail == ids[0] + rest;
      ArrowPrefix(VectorToPath(ids[1..]) + tail);
      TrimmedSolid(rest);
      ScanPathStep(ids[0], rest);
      ScanPrinted(ids[1..], tail);
      assert [ids[0]] + ids[1..] == ids;
    }
  }

  lemma NothingScanned()
    ensures ScanPath("").None?
  {
    assert Trimmed("") == "";
  }

  lemma ArrowPrefix(more: string)
    ensures StartsWithArrow(ARROW + more) && (ARROW + more)[2..] == more
  {
  }

  lemma {:induction false} PrintMissingLast(ids: Name)
    requires |ids| > 1 && Last(ids) == ""
    ensures VectorToPath(ids) == VectorToPath(DropLast(ids)) + ARROW
    decreases |ids|
  {
    if |ids| > 2 {
      PrintMissingLast(ids[1..]);
      assert DropLast(ids)[1..] == DropLast(ids[1..]);
    } else {
      assert ids[1..] == [ids[1]] && DropLast(ids) == [ids[0]];
    }
  }

  /** Printing a name and reading the text back gives the name, hyphens and missing last part included. */
  lemma {:induction false} PrintThenRead(ids: Name)
    requires IsName(ids)
    ensures PathToVector(VectorToPath(ids)) == Some(ids)
  {
    hide ScanPath, VectorToPath;
    if Last(ids) == "" {
      PrintMissingLast(ids);
      ScanPrinted(DropLast(ids), ARROW);
      TrimmedSolid(ARROW);
      assert ARROW[2..] == "" && Trimmed("") == "";
      assert DropLast(ids) + [""] == ids;
    } else {
      ScanPrinted(ids, "");
      assert VectorToPath(ids) + "" == VectorToPath(ids);
    }
  }

  /** Distinct names have distinct texts. */
  lemma NamesFromText(a: Name, b: Name)
    requires IsName(a) && IsName(b) && VectorToPath(a) == VectorToPath(b)
    ensures a == b
  {
    PrintThenRead(a);
    PrintThenRead(b);
  }

  // ---- pathToVector, then vectorToPath ----

  lemma {:induction false} StripConcat(a: string, b: string)
    ensures Strip(a + b) == Strip(a) + Strip(b)
    decreases |a|
  {
    if a == [] {
      assert a + b == b;
    } else {
      StripConcat(a[1..], b);
      assert (a + b)[1..] == a[1..] + b;
      assert [a[0]] + (Strip(a[1..]) + Strip(b)) == ([a[0]] + Strip(a[1..])) + Strip(b);
    }
  }

  lemma {:induction false} StripLength(s: string)
    ensures |Strip(s)| <= |s|
    ensures |Strip(s)| == |s| ==> forall c | c in s :: !IsSpace(c)
  {
    if s != [] {
      StripLength(s[1..]);
      assert s == [s[0]] + s[1..];
    }
  }

  lemma {:induction false} StripSolid(s: string)
    requires forall c | c in s :: !IsSpace(c)
    ensures Strip(s) == s
    decreases |s|
  {
    if s != [] {
      StripSolid(s[1..]);
    }
  }

  lemma {:induction false} StripTrimmed(s: string)
    ensures Strip(Trimmed(s)) == Strip(s)
    decreases |s|
  {
    if s != [] && IsSpace(s[0]) {
      StripTrimmed(s[1..]);
      assert Trimmed(s) == Trimmed(s[1..]);
    }
  }

  lemma StripArrow(s: string)
    requires StartsWithArrow(s)
    ensures Strip(s) == ARROW + Strip(s[2..])
  {
    assert s == ARROW + s[2..];
    StripConcat(ARROW, s[2..]);
    StripSolid(ARROW);
  }

  lemma {:induction false} PrintPrepend(v: Ident, ids: Name)
    requires ids != []
    ensures VectorToPath([v] + ids) == v + ARROW + VectorToPath(ids)
  {
    assert ([v] + ids)[1..] == ids;
  }

  lemma {:induction false} ScanSound(text: string)
    requires ScanPath(text).Some?
    ensures var (ids, unread) := ScanPath(text).value;
      && (forall i | 0 <= i < |ids| :: IsIdent(ids[i]))
      && VectorToPath(ids) + Strip(unread) == Strip(text)
    decreases |text|
  {
    hide IsIdent, ScanIdent, Strip, VectorToPath;
    var s := Trimmed(text);
    var n := ScanIdent(s);
    var v := s[..n];
    ScanIdentSound(s);
    StripTrimmed(text);
    StripAfterIdent(s, n);
    var rest := Trimmed(s[n..]);
    StripTrimmed(s[n..]);
    if StartsWithArrow(rest) && ScanPath(rest[2..]).Some? {
      var (ids, unread) := ScanPath(rest[2..]).value;
      ScanSound(rest[2..]);
      StripArrow(rest);
      PrintPrepend(v, ids);
      Regroup(v, VectorToPath(ids), Strip(unread));
    } else {
      assert VectorToPath([v]) == v by { PrintOne(v); }
    }
  }

  lemma PrintOne(v: Ident)
    ensures VectorToPath([v]) == v
  {
  }

  lemma Regroup(v: string, p: string, u: string)
    ensures (v + ARROW + p) + u == v + (ARROW + (p + u))
  {
  }

  lemma StripAfterIdent(s: string, n: nat)
    requires n <= |s| && IsIdent(s[..n])
    ensures Strip(s) == s[..n] + Strip(s[n..])
  {
    assert s == s[..n] + s[n..];
    StripConcat(s[..n], s[n..]);
    StripSolid(s[..n]);
  }

  lemma NameWithMissingLast(ids: Name)
    requires ids != [] && (forall i | 0 <= i < |ids| :: IsIdent(ids[i]))
    ensures IsName(ids + [""]) && VectorToPath(ids + [""]) == VectorToPath(ids) + ARROW
  {
    hide IsIdent, VectorToPath;
    var all := ids + [""];
    assert DropLast(all) == ids && Last(all) == "";
    forall i | 0 <= i < |all| - 1 ensures IsIdent(all[i]) {
      assert all[i] == ids[i];
    }
    PrintMissingLast(all);
  }

  lemma StripTail(unread: string)
    requires Trimmed(unread) == [] || (StartsWithArrow(Trimmed(unread)) && Trimmed(Trimmed(unread)[2..]) == [])
    ensures Strip(unread) == if Trimmed(unread) == [] then "" else ARROW
  {
    var rest := Trimmed(unread);
    StripTrimmed(unread);
    if rest != [] {
      StripArrow(rest);
      StripTrimmed(rest[2..]);
      assert ARROW + "" == ARROW;
    }
  }

  /** A path that is read at all is a name, and printing it drops the path's white space and nothing else. */
  lemma {:induction false} ReadThenPrint(path: string)
    requires PathToVector(path).Some?
    ensures IsName(PathToVector(path).value)
    ensures VectorToPath(PathToVector(path).value) == Strip(path)
    ensures VectorToPath(PathToVector(path).value) == path <==> forall c | c in path :: !IsSpace(c)
  {
    hide IsIdent, ScanPath, VectorToPath, Strip, Trimmed, StartsWithArrow;
    ScanSound(path);
    var (ids, unread) := ScanPath(path).value;
    StripTail(unread);
    NameWithMissingLast(ids);
    assert VectorToPath(ids) + "" == VectorToPath(ids);
    StripLength(path);
    if forall c | c in path :: !IsSpace(c) {
      StripSolid(path);
    }
  }

  /** Exactly the printed names are readable, among the texts without white space. */
  lemma ReadableTexts(path: string)
    requires forall c | c in path :: !IsSpace(c)
    ensures PathToVector(path).Some? <==> exists ids :: IsName(ids) && VectorToPath(ids) == path
  {
    if PathToVector(path).Some? {
      ReadThenPrint(path);
    } else if ids :| IsName(ids) && VectorToPath(ids) == path {
      PrintThenRead(ids);
    }
  }

  // ---- The identifier token of the command grammar ----

  const WHERE: string := "where"

  /** (identifier % "->") >> -lit("->") without a skipper. */
  function ScanSolidPath(s: string): (n: nat)
    ensures n <= |s|
    decreases |s|
  {
    var n := ScanIdent(s);
    if n == 0 || !StartsWithArrow(s[n..]) then n
    else n + 2 + ScanSolidPath(s[n + 2..])
  }

  /** tIdentifier: the keyword "where" may not begin an identifier. */
  function ScanQualified(s: string): (n: nat)
    ensures n <= |s|
  {
    if WHERE <= s then 0 else ScanSolidPath(s)
  }

  /** The whole token is an object name. */
  predicate IsObjectToken(s: string) {
    s != [] && ScanQualified(s) == |s|
  }

  lemma {:induction false} SolidPathIsName(s: string) returns (ids: Name)
    requires s != [] && ScanSolidPath(s) == |s|
    ensures IsName(ids) && VectorToPath(ids) == s
    decreases |s|
  {
    hide ScanIdent, IsIdent;
    var n := ScanIdent(s);
    ScanIdentSound(s);
    var v := s[..n];
    if n == |s| {
      ids := [v];
      assert s == v;
    } else {
      var rest := s[n + 2..];
      assert s == v + ARROW + rest;
      if rest == [] {
        ids := [v, ""];
        assert ids == [v] + [""];
        PrintPrepend(v, [""]);
      } else {
        var more := SolidPathIsName(rest);
        ids := [v] + more;
        PrintPrepend(v, more);
        assert Last(ids) == Last(more);
      }
    }
  }

  lemma ScanSolidStep(v: Ident, rest: string)
    requires IsIdent(v) && EndsIdent(rest)
    ensures ScanSolidPath(v + rest) == if StartsWithArrow(rest) then |v| + 2 + ScanSolidPath(rest[2..]) else |v|
  {
    hide ScanIdent;
    var s := v + rest;
    ScanIdentStops(v, rest);
    assert s[|v|..] == rest;
    if StartsWithArrow(rest) {
      assert s[|v| + 2..] == rest[2..];
    }
  }

  /** The separators behind which a name may end: anything that cannot continue it. */
  predicate EndsName(tail: string) {
    tail == [] || (!IsIdentChar(tail[0]) && tail[0] != '>')
  }

  lemma {:induction false} NameIsSolidPath(ids: Name, tail: string)
    requires IsName(ids) && EndsName(tail)
    ensures ScanSolidPath(VectorToPath(ids) + tail) == |VectorToPath(ids)|
    decreases |ids|
  {
    hide IsIdent, ScanSolidPath;
    if |ids| == 1 {
      ScanSolidStep(ids[0], tail);
    } else {
      var more := VectorToPath(ids[1..]) + tail;
      assert VectorToPath(ids) + tail == ids[0] + (ARROW + more);
      ArrowPrefix(more);
      ScanSolidStep(ids[0], ARROW + more);
      if |ids| == 2 && ids[1] == "" {
        assert ids[1..] == [""];
        assert more == tail;
        NoName(tail);
      } else {
        assert Last(ids[1..]) == Last(ids);
        NameIsSolidPath(ids[1..], tail);
      }
    }
  }

  lemma NoName(tail: string)
    requires EndsName(tail)
    ensures ScanSolidPath(tail) == 0
  {
    ChunkNone(tail);
  }

  lemma {:induction false} NameTextSolid(ids: Name)
    requires IsName(ids)
    ensures VectorToPath(ids) != [] && forall c | c in VectorToPath(ids) :: !IsSpace(c)
  {
    PrintThenRead(ids);
    ReadThenPrint(VectorToPath(ids));
  }

  /** Object tokens are exactly the texts of names that do not begin with "where". */
  lemma ObjectTokens(s: string)
    ensures IsObjectToken(s) <==> !(WHERE <= s) && exists ids :: IsName(ids) && VectorToPath(ids) == s
    ensures IsObjectToken(s) ==> PathToVector(s).Some? && IsName(PathToVector(s).value)
  {
    hide ScanSolidPath, IsName, PathToVector, VectorToPath;
    if IsObjectToken(s) {
      var ids := SolidPathIsName(s);
      PrintThenRead(ids);
    }
    forall ids | IsName(ids) && VectorToPath(ids) == s && !(WHERE <= s)
      ensures IsObjectToken(s)
    {
      NameTextSolid(ids);
      NameIsSolidPath(ids, "");
      assert s + "" == s;
    }
  }

  // ---- The loops of vectorToPath and contextStackToPath ----

  lemma {:induction false} PrintAppend(ids: Name, v: Ident)
    requires ids != []
    ensures VectorToPath(ids + [v]) == VectorToPath(ids) + ARROW + v
    decreases |ids|
  {
    if |ids| == 1 {
      assert (ids + [v])[1..] == [v];
    } else {
      PrintAppend(ids[1..], v);
      assert (ids + [v])[1..] == ids[1..] + [v];
      assert ids[0] + ARROW + (VectorToPath(ids[1..]) + ARROW + v) == (ids[0] + ARROW + VectorToPath(ids[1..])) + ARROW + v;
    }
  }

  method PrintVector(identifiers: Name) returns (text: string)
    ensures text == VectorToPath(identifiers)
  {
    text := "";
    for i := 0 to |identifiers|
      invariant text == VectorToPath(identifiers[..i])
    {
      if i != 0 {
        PrintAppend(identifiers[..i], identifiers[i]);
        text := text + ARROW;
      }
      text := text + identifiers[i];
      assert identifiers[..i + 1] == identifiers[..i] + [identifiers[i]];
    }
    assert identifiers[..|identifiers|] == identifiers;
  }

  /** contextStackToPath; None stands for ContextStackConversionError. */
  method PrintStack(contextStack: Stack) returns (text: Option<string>)
    ensures text.Some? <==> FilterFree(contextStack)
    ensures text.Some? ==> text.value == VectorToPath(StackPath(contextStack))
  {
    var ss := "";
    ghost var names: Name := [];
    for i := 0 to |contextStack|
      invariant |names| == i
      invariant forall j | 0 <= j < i :: contextStack[j].Obj? && names[j] == contextStack[j].name
      invariant ss == VectorToPath(names)
    {
      if i != 0 {
        ss := ss + ARROW;
      }
      if contextStack[i].Flt? {
        return None;
      }
      if i != 0 {
        PrintAppend(names, contextStack[i].name);
      }
      ss := ss + contextStack[i].name;
      names := names + [contextStack[i].name];
    }
    assert names == StackPath(contextStack);
    return Some(ss);
  }
}
