/**
 Attribute values: how they are printed (NonOptionalValuePrettyPrint and the stream operator for sets) and how the
 rules for strings and identifier sets read them. The rule for strings collects characters in one attribute that
 backtracking does not clear, so a failed quoted alternative leaves its characters behind.
 */
module Values {
  import opened Core
  import opened PathText
  import opened StringOrder

  /** Strings and identifier sets; values of the other types are represented by their text. */
  datatype Value = Str(text: string) | IdSet(ids: set<Ident>) | Other(text: string)

  // ---- Strings ----

  predicate IsAscii(c: char) {
    c < 128 as char
  }

  predicate HasBlank(s: string) {
    ' ' in s || '\t' in s
  }

  /** Strings with blanks are wrapped in the kind of quotes they do not contain. */
  function PrintString(value: string): string {
    if !HasBlank(value) then value
    else if '"' in value then "'" + value + "'"
    else "\"" + value + "\""
  }

  /** +(char_ - quote): how many characters it takes. */
  function Unquoted(s: string, quote: char): (n: nat)
    ensures n <= |s|
  {
    if s != [] && s[0] != quote && IsAscii(s[0]) then 1 + Unquoted(s[1..], quote) else 0
  }

  /** +(char_ - space). */
  function Solid(s: string): (n: nat)
    ensures n <= |s|
  {
    if s != [] && !IsSpace(s[0]) && IsAscii(s[0]) then 1 + Solid(s[1..]) else 0
  }

  /** One quoted alternative: whether it matched, what it has put into the attribute, what is left. */
  function Quoted(text: string, quote: char): (bool, string, string) {
    if text == [] || text[0] != quote then (false, "", text)
    else
      var n := Unquoted(text[1..], quote);
      if n > 0 && n + 1 < |text| && text[n + 1] == quote then (true, text[1..n + 1], text[n + 2..])
      else (false, text[1..n + 1], text)
  }

  /** tQuotedString | tSimpleString. */
  function ReadString(text: string): Option<(string, string)> {
    var s := Trimmed(text);
    var (double, a, afterDouble) := Quoted(s, '"');
    if double then Some((a, afterDouble))
    else
      var (single, b, afterSingle) := Quoted(s, '\'');
      if single then Some((a + b, afterSingle))
      else if Solid(s) == 0 then None
      else Some((a + b + s[..Solid(s)], s[Solid(s)..]))
  }

  predicate StringReadsBack(value: string) {
    ReadString(PrintString(value)) == Some((value, ""))
  }

  predicate StartsQuoted(s: string) {
    s != [] && (s[0] == '"' || s[0] == '\'')
  }

  /** Exactly these strings survive printing and reading. */
  predicate Printable(value: string) {
    && value != []
    && (forall i | 0 <= i < |value| :: IsAscii(value[i]))
    && if HasBlank(value) then !('"' in value && '\'' in value)
       else (forall i | 0 <= i < |value| :: !IsSpace(value[i]))
            && (StartsQuoted(value) ==> |value| == 1 || value[1] == value[0])
  }

  lemma {:induction false} UnquotedAll(s: string, quote: char, rest: string)
    requires forall i | 0 <= i < |s| :: s[i] != quote && IsAscii(s[i])
    requires rest == [] || rest[0] == quote
    ensures Unquoted(s + rest, quote) == |s|
    decreases |s|
  {
    if s == [] {
      assert s + rest == rest;
    } else {
      UnquotedAll(s[1..], quote, rest);
      assert (s + rest)[1..] == s[1..] + rest;
    }
  }

  lemma {:induction false} UnquotedRun(s: string, quote: char)
    ensures forall i | 0 <= i < Unquoted(s, quote) :: s[i] != quote && IsAscii(s[i])
  {
    if s != [] && s[0] != quote && IsAscii(s[0]) {
      UnquotedRun(s[1..], quote);
    }
  }

  lemma {:induction false} SolidRun(s: string)
    ensures forall i | 0 <= i < Solid(s) :: !IsSpace(s[i]) && IsAscii(s[i])
    ensures Solid(s) < |s| ==> IsSpace(s[Solid(s)]) || !IsAscii(s[Solid(s)])
  {
    if s != [] && !IsSpace(s[0]) && IsAscii(s[0]) {
      SolidRun(s[1..]);
    }
  }

  lemma QuotedReads(value: string, quote: char)
    requires value != [] && forall i | 0 <= i < |value| :: value[i] != quote && IsAscii(value[i])
    ensures Quoted([quote] + value + [quote], quote) == (true, value, "")
  {
    var text := [quote] + value + [quote];
    assert text[1..] == value + [quote];
    UnquotedAll(value, quote, [quote]);
    assert text[1..|value| + 1] == value && text[|value| + 2..] == "";
  }

  /** Whatever a wrapped text is read as, it is not read as the value unless the value avoids the quote. */
  lemma QuotedFaithful(value: string, quote: char)
    requires Quoted([quote] + value + [quote], quote) == (true, value, "")
    ensures value != [] && forall i | 0 <= i < |value| :: value[i] != quote && IsAscii(value[i])
  {
    var text := [quote] + value + [quote];
    UnquotedRun(text[1..], quote);
    assert text[1..] == value + [quote];
    assert forall i | 0 <= i < |value| :: value[i] == text[1..][i];
  }

  lemma QuotedOther(text: string, quote: char)
    requires text == [] || text[0] != quote
    ensures Quoted(text, quote) == (false, "", text)
  {
  }

  lemma BlankStopsSolid(s: string)
    requires HasBlank(s)
    ensures Solid(s) < |s|
  {
    SolidRun(s);
    var i :| 0 <= i < |s| && (s[i] == ' ' || s[i] == '\t');
    assert IsSpace(s[i]);
  }

  /** Text that starts with a quote is read by the quoted alternative or not to its end. */
  lemma WrappedRead(value: string, quote: char)
    requires HasBlank(value) && (quote == '"' || quote == '\'')
    ensures ReadString([quote] + value + [quote]) == Some((value, "")) <==>
            Quoted([quote] + value + [quote], quote) == (true, value, "")
  {
    hide Solid, Unquoted, IsAscii;
    var text := [quote] + value + [quote];
    assert text[0] == quote && !IsSpace(quote);
    TrimmedSolid(text);
    QuotedOther(text, if quote == '"' then '\'' else '"');
    assert HasBlank(text) by {
      assert forall i | 0 <= i < |value| :: value[i] == text[i + 1];
    }
    BlankStopsSolid(text);
    assert text[Solid(text)..] != "";
    var (_, a, _) := Quoted(text, quote);
    assert "" + a == a;
  }

  lemma PrintableWrapped(value: string)
    requires HasBlank(value)
    ensures StringReadsBack(value) <==> Printable(value)
  {
    hide ReadString, Quoted;
    var quote := if '"' in value then '\'' else '"';
    assert PrintString(value) == [quote] + value + [quote];
    WrappedRead(value, quote);
    if Printable(value) {
      QuotedReads(value, quote);
    }
    if Quoted([quote] + value + [quote], quote) == (true, value, "") {
      QuotedFaithful(value, quote);
    }
  }

  lemma {:induction false} SolidAll(s: string)
    requires forall i | 0 <= i < |s| :: !IsSpace(s[i]) && IsAscii(s[i])
    ensures Solid(s) == |s|
    decreases |s|
  {
    if s != [] {
      SolidAll(s[1..]);
    }
  }

  /** Reading a text without blanks: a first quote not followed by its twin spoils the result. */
  lemma PrintableBare(value: string)
    requires !HasBlank(value)
    ensures StringReadsBack(value) <==> Printable(value)
  {
    if Printable(value) {
      TrimmedSolid(value);
      SolidAll(value);
      BareQuotes(value);
      assert "" + "" + value[..|value|] == value && value[|value|..] == "";
    }
    if StringReadsBack(value) {
      BareReadSound(value);
    }
  }

  lemma BareQuotes(value: string)
    requires value != [] && (StartsQuoted(value) ==> |value| == 1 || value[1] == value[0])
    ensures Quoted(value, '"') == (false, "", value) && Quoted(value, '\'') == (false, "", value)
  {
    assert Unquoted("", '"') == Unquoted("", '\'') == 0;
    if |value| > 1 {
      assert value[1..][0] == value[1];
    } else {
      assert value[1..] == "";
    }
    assert value[1..1] == "";
  }

  lemma BareReadSound(value: string)
    requires ReadString(value) == Some((value, ""))
    ensures value != [] && (forall i | 0 <= i < |value| :: IsAscii(value[i]) && !IsSpace(value[i]))
    ensures StartsQuoted(value) ==> |value| == 1 || value[1] == value[0]
  {
    var s := Trimmed(value);
    assert |s| <= |value|;
    var (double, a, _) := Quoted(s, '"');
    var (single, b, _) := Quoted(s, '\'');
    QuotedShorter(s, '"');
    QuotedShorter(s, '\'');
    SolidRun(s);
    assert !double && !single;
    assert |value| == |a| + |b| + Solid(s);
    assert Solid(s) == |s| == |value| && s == value;
    assert a == "" && b == "";
    assert |s| > 1 ==> IsAscii(s[1]);
  }

  lemma QuotedShorter(s: string, quote: char)
    ensures var (matched, attribute, rest) := Quoted(s, quote);
      && (matched ==> |attribute| < |s|)
      && (s != [] && s[0] == quote && |s| > 1 && s[1] != quote && IsAscii(s[1]) ==> attribute != "")
  {
    if s != [] && s[0] == quote {
      var n := Unquoted(s[1..], quote);
      assert Quoted(s, quote).1 == s[1..n + 1] && |s[1..n + 1]| == n;
      if |s| > 1 {
        assert s[1..][0] == s[1];
      }
    }
  }

  /** A string value is read back unchanged exactly when it is printable. */
  lemma StringRoundTrip(value: string)
    ensures StringReadsBack(value) <==> Printable(value)
  {
    if HasBlank(value) {
      PrintableWrapped(value);
    } else {
      PrintableBare(value);
    }
  }

  // ---- Identifier sets ----

  predicate IsLeast(x: Ident, s: set<Ident>) {
    x in s && forall y | y in s :: y == x || Less(x, y)
  }

  lemma {:induction false} LeastExists(s: set<Ident>)
    requires s != {}
    ensures exists x :: IsLeast(x, s)
    decreases |s|
  {
    var x :| x in s;
    if s == {x} {
      assert IsLeast(x, s);
    } else {
      var rest := s - {x};
      LeastExists(rest);
      var y :| IsLeast(y, rest);
      Trichotomy(x, y);
      if Less(x, y) {
        forall z | z in s ensures z == x || Less(x, z) {
          if z != x && z != y { Transitive(x, y, z); }
        }
        assert IsLeast(x, s);
      } else {
        assert IsLeast(y, s);
      }
    }
  }

  lemma LeastUnique(s: set<Ident>, x: Ident, y: Ident)
    requires IsLeast(x, s) && IsLeast(y, s)
    ensures x == y
  {
    Trichotomy(x, y);
  }

  lemma OneLeast(s: set<Ident>)
    requires s != {}
    ensures exists x :: IsLeast(x, s)
    ensures forall x, y | IsLeast(x, s) && IsLeast(y, s) :: x == y
  {
    hide IsLeast;
    LeastExists(s);
    forall x, y | IsLeast(x, s) && IsLeast(y, s) ensures x == y {
      LeastUnique(s, x, y);
    }
  }

  lemma LeastFirst(s: set<Ident>, x: Ident, rest: seq<Ident>)
    requires IsLeast(x, s) && Elements(rest) == s - {x}
    requires forall i, j | 0 <= i < j < |rest| :: Less(rest[i], rest[j])
    ensures Elements([x] + rest) == s
    ensures forall i, j | 0 <= i < j < |[x] + rest| :: Less(([x] + rest)[i], ([x] + rest)[j])
  {
    hide Less;
    assert Elements([x] + rest) == {x} + Elements(rest);
    forall j | 0 <= j < |rest| ensures Less(x, rest[j]) {
      assert rest[j] in Elements(rest);
    }
  }

  /** The order in which std::set lists its members. */
  function Listed(s: set<Ident>): (r: seq<Ident>)
    ensures Elements(r) == s
    ensures forall i, j | 0 <= i < j < |r| :: Less(r[i], r[j])
    decreases |s|
  {
    hide IsLeast, Less;
    if s == {} then []
    else
      OneLeast(s);
      var x :| IsLeast(x, s);
      LeastIn(s, x);
      var rest := Listed(s - {x});
      LeastFirst(s, x, rest);
      [x] + rest
  }

  lemma LeastIn(s: set<Ident>, x: Ident)
    requires IsLeast(x, s)
    ensures x in s
  {
  }

  function Joined(ids: seq<Ident>): string {
    if ids == [] then "" else if |ids| == 1 then ids[0] else ids[0] + ", " + Joined(ids[1..])
  }

  function PrintSet(s: set<Ident>): string {
    "[" + Joined(Listed(s)) + "]"
  }

  predicate StartsWith(s: string, c: char) {
    s != [] && s[0] == c
  }

  /** tIdentifier % "," under a skipper; a comma without an identifier behind it is given back. */
  function ReadIds(text: string): (r: Option<(seq<Ident>, string)>)
    ensures r.Some? ==> r.value.0 != []
    decreases |text|
  {
    var s := Trimmed(text);
    var n := ScanQualified(s);
    if n == 0 then None
    else
      var rest := Trimmed(s[n..]);
      var more := if StartsWith(rest, ',') then ReadIds(rest[1..]) else None;
      if more.Some? then Some(([s[..n]] + more.value.0, more.value.1)) else Some(([s[..n]], s[n..]))
  }

  /** tIdentifierSet and vectorToSet. */
  function ReadSet(text: string): Option<(set<Ident>, string)> {
    var s := Trimmed(text);
    if !StartsWith(s, '[') then None
    else
      var ids := ReadIds(s[1..]);
      if ids.None? || !StartsWith(Trimmed(ids.value.1), ']') then None
      else Some((Elements(ids.value.0), Trimmed(ids.value.1)[1..]))
  }

  method VectorToSet(identifiersVector: seq<Ident>) returns (identifiersSet: set<Ident>)
    ensures identifiersSet == Elements(identifiersVector)
  {
    identifiersSet := {};
    for i := 0 to |identifiersVector|
      invariant identifiersSet == Elements(identifiersVector[..i])
    {
      identifiersSet := identifiersSet + {identifiersVector[i]};
      assert identifiersVector[..i + 1] == identifiersVector[..i] + [identifiersVector[i]];
    }
    assert identifiersVector[..|identifiersVector|] == identifiersVector;
  }

  lemma ObjectTokenScan(id: Ident, tail: string)
    requires IsObjectToken(id) && EndsName(tail)
    ensures ScanQualified(id + tail) == |id|
  {
    hide ScanSolidPath, PathToVector;
    ObjectTokens(id);
    var ids :| IsName(ids) && VectorToPath(ids) == id;
    NameIsSolidPath(ids, tail);
    if WHERE <= id + tail {
      WhereInside(ids, id, tail);
    }
  }

  /** "where" cannot end in the separator behind an identifier. */
  lemma WhereInside(ids: Name, id: string, tail: string)
    requires IsName(ids) && VectorToPath(ids) == id && EndsName(tail) && WHERE <= id + tail
    ensures WHERE <= id
  {
    assert forall i | 0 <= i < 5 :: IsIdentChar(WHERE[i]) && (id + tail)[i] == WHERE[i];
    assert |id| < |id + tail| ==> (id + tail)[|id|] == tail[0];
    assert (id + tail)[..5] == id[..5];
  }

  lemma ObjectTokenSolid(id: Ident)
    requires IsObjectToken(id)
    ensures !IsSpace(id[0])
  {
    hide IsObjectToken, PathToVector, VectorToPath;
    ObjectTokens(id);
    var ids :| IsName(ids) && VectorToPath(ids) == id;
    NameTextSolid(ids);
    assert id[0] in id;
  }

  lemma ReadIdsStep(id: Ident, tail: string)
    requires IsObjectToken(id) && EndsName(tail)
    ensures ReadIds(id + tail) ==
      var rest := Trimmed(tail);
      var more := if StartsWith(rest, ',') then ReadIds(rest[1..]) else None;
      if more.Some? then Some(([id] + more.value.0, more.value.1)) else Some(([id], tail))
  {
    hide ScanQualified;
    ObjectTokenSolid(id);
    ObjectTokenScan(id, tail);
    TrimmedSolid(id + tail);
    assert (id + tail)[..|id|] == id && (id + tail)[|id|..] == tail;
  }

  lemma ReadIdsComma(id: Ident, more: string)
    requires IsObjectToken(id) && more != [] && !IsSpace(more[0]) && ReadIds(more).Some?
    ensures ReadIds(id + (", " + more)) == Some(([id] + ReadIds(more).value.0, ReadIds(more).value.1))
  {
    hide IsObjectToken, ReadIds;
    ReadIdsStep(id, ", " + more);
    TrimmedSolid(", " + more);
    assert (", " + more)[1..] == " " + more;
    ReadIdsSkips(more);
  }

  lemma ReadOnlyId(id: Ident)
    requires IsObjectToken(id)
    ensures ReadIds(id + "]") == Some(([id], "]"))
  {
    hide IsObjectToken, ReadIds;
    ReadIdsStep(id, "]");
    ClosingBracket();
  }

  lemma Regrouped(a: string, b: string, c: string, d: string)
    ensures ((a + b) + c) + d == a + (b + (c + d))
  {
  }

  lemma FirstOfTwo(a: string, b: string)
    requires a != []
    ensures (a + b)[0] == a[0]
  {
  }

  lemma JoinedParts(ids: seq<Ident>)
    requires ids != [] && ids[0] != []
    ensures Joined(ids) + "]" == if |ids| == 1 then ids[0] + "]" else ids[0] + (", " + (Joined(ids[1..]) + "]"))
    ensures (Joined(ids) + "]")[0] == ids[0][0]
  {
    if |ids| > 1 {
      Regrouped(ids[0], ", ", Joined(ids[1..]), "]");
      FirstOfTwo(ids[0], ", " + (Joined(ids[1..]) + "]"));
    } else {
      FirstOfTwo(ids[0], "]");
    }
  }

  lemma {:induction false} ReadPrintedIds(ids: seq<Ident>)
    requires ids != [] && forall i | 0 <= i < |ids| :: IsObjectToken(ids[i])
    ensures ReadIds(Joined(ids) + "]") == Some((ids, "]"))
    ensures !IsSpace((Joined(ids) + "]")[0])
    decreases |ids|
  {
    hide IsObjectToken, ReadIds, IsSpace, Joined;
    ObjectTokenSolid(ids[0]);
    ObjectTokenNonempty(ids[0]);
    JoinedParts(ids);
    if |ids| == 1 {
      ReadOnlyId(ids[0]);
      assert ids == [ids[0]];
    } else {
      ReadPrintedIds(ids[1..]);
      ReadIdsComma(ids[0], Joined(ids[1..]) + "]");
      assert [ids[0]] + ids[1..] == ids;
    }
  }

  lemma ClosingBracket()
    ensures Trimmed("]") == "]"
  {
  }

  lemma ObjectTokenNonempty(id: Ident)
    requires IsObjectToken(id)
    ensures id != []
  {
  }

  lemma ReadIdsSkips(text: string)
    requires text != [] && !IsSpace(text[0])
    ensures ReadIds(" " + text) == ReadIds(text)
  {
    hide ScanQualified;
    assert (" " + text)[1..] == text;
    assert SkipSpaces(" " + text) == 1 + SkipSpaces(text);
    TrimmedSolid(text);
  }

  lemma {:induction false} ReadIdsSound(text: string)
    requires ReadIds(text).Some?
    ensures forall i | 0 <= i < |ReadIds(text).value.0| :: IsObjectToken(ReadIds(text).value.0[i])
    decreases |text|
  {
    hide ScanQualified, IsObjectToken;
    var s := Trimmed(text);
    var n := ScanQualified(s);
    ScannedIsToken(s);
    var rest := Trimmed(s[n..]);
    if StartsWith(rest, ',') && ReadIds(rest[1..]).Some? {
      ReadIdsSound(rest[1..]);
    }
  }

  lemma {:induction false} ScannedIsToken(s: string)
    requires ScanQualified(s) > 0
    ensures IsObjectToken(s[..ScanQualified(s)])
  {
    hide IsIdent;
    var n := ScanSolidPath(s);
    ScanPrefix(s);
    assert WHERE <= s[..n] ==> WHERE <= s;
  }

  /** What the scanner takes, it takes again when nothing follows. */
  lemma {:induction false} ScanPrefix(s: string)
    requires ScanSolidPath(s) > 0
    ensures ScanSolidPath(s[..ScanSolidPath(s)]) == ScanSolidPath(s)
    decreases |s|
  {
    hide ScanIdent, IsIdent;
    var n := ScanIdent(s);
    var m := ScanSolidPath(s);
    ScanIdentSound(s);
    var v := s[..n];
    if m == n {
      assert v + "" == v;
      ScanSolidStep(v, "");
    } else {
      var rest := s[n + 2..];
      var k := ScanSolidPath(rest);
      assert s[n..] == ARROW + rest;
      assert s[..m] == v + (ARROW + rest[..k]);
      ArrowPrefix(rest[..k]);
      ScanSolidStep(v, ARROW + rest[..k]);
      if k > 0 {
        ScanPrefix(rest);
      } else {
        assert rest[..k] == "";
      }
    }
  }

  lemma ListedGood(s: set<Ident>)
    requires s != {} && forall x | x in s :: IsObjectToken(x)
    ensures Listed(s) != [] && forall i | 0 <= i < |Listed(s)| :: IsObjectToken(Listed(s)[i])
  {
    hide IsObjectToken, Listed;
    var ids := Listed(s);
    assert Elements(ids) == s;
    assert forall i | 0 <= i < |ids| :: ids[i] in Elements(ids);
  }

  lemma BracketsRead(text: string, ids: seq<Ident>)
    requires StartsWith(text, '[') && ReadIds(text[1..]) == Some((ids, "]"))
    ensures ReadSet(text) == Some((Elements(ids), ""))
  {
    hide ReadIds, Trimmed;
    TrimmedSolid(text);
    ClosingBracket();
    assert "]"[1..] == "";
  }

  lemma GoodSetReads(s: set<Ident>)
    requires s != {} && forall x | x in s :: IsObjectToken(x)
    ensures ReadSet(PrintSet(s)) == Some((s, ""))
  {
    hide IsObjectToken, ReadIds, Joined, Listed, ReadSet;
    ListedGood(s);
    ReadPrintedIds(Listed(s));
    assert PrintSet(s)[1..] == Joined(Listed(s)) + "]";
    BracketsRead(PrintSet(s), Listed(s));
  }

  lemma ReadSetSound(text: string)
    ensures ReadSet(text).Some? ==>
      ReadSet(text).value.0 != {} && forall x | x in ReadSet(text).value.0 :: IsObjectToken(x)
  {
    hide IsObjectToken, ReadIds;
    if ReadSet(text).None? {
      return;
    }
    var rest := Trimmed(text)[1..];
    ReadIdsSound(rest);
    var read := ReadIds(rest).value.0;
    assert read[0] in Elements(read);
  }

  /** A set is read back unchanged exactly when it is not empty and all its members are object names. */
  lemma SetRoundTrip(s: set<Ident>)
    ensures ReadSet(PrintSet(s)) == Some((s, "")) <==> s != {} && forall x | x in s :: IsObjectToken(x)
  {
    hide IsObjectToken, ReadSet, PrintSet;
    if s != {} && forall x | x in s :: IsObjectToken(x) {
      GoodSetReads(s);
    }
    if ReadSet(PrintSet(s)) == Some((s, "")) {
      ReadSetSound(PrintSet(s));
    }
  }

  // ---- Values of all types ----

  function Print(value: Value): string {
    match value
    case Str(text) => PrintString(text)
    case IdSet(ids) => PrintSet(ids)
    case Other(text) => text
  }

  /** How an attribute of a kind is typed; the rules for the other types are not part of this model. */
  datatype Type = StringType | SetType | OtherType

  /** The value a whole token stands for. */
  function Read(type_: Type, text: string): Option<Value> {
    match type_
    case StringType =>
      var read := ReadString(text);
      if read.Some? && read.value.1 == "" then Some(Str(read.value.0)) else None
    case SetType =>
      var read := ReadSet(text);
      if read.Some? && read.value.1 == "" then Some(IdSet(read.value.0)) else None
    case OtherType => if Trimmed(text) == "" then None else Some(Other(Trimmed(text)))
  }

  /** A value of the type, printable as such. */
  predicate Readable(type_: Type, value: Value) {
    match value
    case Str(text) => type_ == StringType && Printable(text)
    case IdSet(ids) => type_ == SetType && ids != {} && forall x | x in ids :: IsObjectToken(x)
    case Other(text) => type_ == OtherType && text != "" && !IsSpace(text[0])
  }

  /** A printed value is read back unchanged exactly if it is readable as a value of its type. */
  lemma ValueRoundTrip(type_: Type, value: Value)
    ensures Read(type_, Print(value)) == Some(value) <==> Readable(type_, value)
  {
    hide ReadString, ReadSet, PrintString, PrintSet, Printable, IsObjectToken;
    match value {
      case Str(text) => StringRoundTrip(text);
      case IdSet(ids) => SetRoundTrip(ids);
      case Other(text) => TrimmedIff(text);
    }
  }

  lemma TrimmedIff(text: string)
    ensures text != "" && Trimmed(text) == text <==> text != "" && !IsSpace(text[0])
  {
    if text != "" && IsSpace(text[0]) {
      assert |Trimmed(text)| < |text|;
    }
  }

  /** No printed string begins with white space. */
  lemma PrintedHead(value: string)
    requires Printable(value)
    ensures PrintString(value) != "" && !IsSpace(PrintString(value)[0])
  {
  }

  lemma PrintedSetHead(ids: set<Ident>)
    ensures PrintSet(ids) != "" && !IsSpace(PrintSet(ids)[0])
  {
    hide Joined, Listed;
    assert PrintSet(ids)[0] == '[';
  }
}
