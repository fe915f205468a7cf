/**
 From the text of a line to tokens, as the rules of the parser take a line apart: words are separated by white space, and
 behind an attribute of the kind whose block is open the rule of its type decides how far the value reaches.
 */
module Lexer {
  import opened Core
  import opened PathText
  import opened Grammar
  import opened ScriptFile
  import Values

  /** The tokens of a line, for the context stack it finds. */
  type Lexing = (Stack, string) -> seq<Token>

  function WordLength(s: string): (n: nat)
    ensures n <= |s| && (s != "" && !IsSpace(s[0]) ==> n > 0)
  {
    if s == "" || IsSpace(s[0]) then 0 else 1 + WordLength(s[1..])
  }

  /** What is taken when the given rest is left. */
  function Taken(s: string, left: string): (n: nat)
    ensures n <= |s|
  {
    if |left| <= |s| then |s| - |left| else 0
  }

  /** The rules of the other types are not part of this model: their values reach to the end of the line. */
  function ValueLength(type_: Values.Type, s: string): (n: nat)
    ensures n <= |s|
  {
    match type_
    case StringType =>
      var read := Values.ReadString(s);
      if read.Some? then Taken(s, read.value.1) else 0
    case SetType =>
      var read := Values.ReadSet(s);
      if read.Some? then Taken(s, read.value.1) else 0
    case OtherType => |s|
  }

  predicate IsAttribute(tables: Tables, stack: Stack, word: string) {
    stack != [] && word in tables.Attributes(Last(stack).kind)
  }

  function AttributeType(tables: Tables, stack: Stack, word: string): Values.Type
    requires IsAttribute(tables, stack, word)
  {
    tables.TypeOf(tables.Attributes(Last(stack).kind)[word], word)
  }

  /** bare: behind "no" stands an attribute without a value. */
  function Lex(tables: Tables, stack: Stack, bare: bool, text: string): seq<Token>
    decreases |text|
  {
    var s := Trimmed(text);
    TrimmedHead(text);
    if s == "" then []
    else
      var word, rest := s[..WordLength(s)], Trimmed(s[WordLength(s)..]);
      var n := if !bare && IsAttribute(tables, stack, word) then ValueLength(AttributeType(tables, stack, word), rest) else 0;
      if n == 0 then [Word(word)] + Lex(tables, stack, word == "no", rest)
      else [Word(word), Word(rest[..n])] + Lex(tables, stack, false, rest[n..])
  }

  function LexerOf(tables: Tables): Lexing {
    (stack: Stack, text: string) => Lex(tables, stack, false, text)
  }

  lemma {:induction false} TrimmedHead(text: string)
    ensures var s := Trimmed(text); |s| <= |text| && (s != "" ==> !IsSpace(s[0]))
    decreases |text|
  {
    if text != "" && IsSpace(text[0]) {
      TrimmedHead(text[1..]);
      assert Trimmed(text) == Trimmed(text[1..]);
    }
  }

  // ---- Reading printed words ----

  predicate Solid(s: string) {
    s != "" && forall i | 0 <= i < |s| :: !IsSpace(s[i])
  }

  lemma {:induction false} WordEnds(word: string, tail: string)
    requires Solid(word) && (tail == "" || IsSpace(tail[0]))
    ensures WordLength(word + tail) == |word|
    decreases |word|
  {
    var s := word + tail;
    assert s[0] == word[0];
    if |word| == 1 {
      assert s[1..] == tail;
    } else {
      assert s[1..] == word[1..] + tail;
      WordEnds(word[1..], tail);
    }
  }

  lemma BlankSkipped(s: string)
    ensures Trimmed(" " + s) == Trimmed(s)
  {
    assert (" " + s)[1..] == s;
  }

  lemma IndentTrimmed(s: string)
    ensures Trimmed("     " + s) == Trimmed(s)
  {
    hide Trimmed;
    var one, two, three, four := " " + s, "  " + s, "   " + s, "    " + s;
    assert two == " " + one && three == " " + two && four == " " + three && "     " + s == " " + four;
    BlankSkipped(s);
    BlankSkipped(one);
    BlankSkipped(two);
    BlankSkipped(three);
    BlankSkipped(four);
  }

  /** A word that is not followed by a value. */
  lemma LexWord(tables: Tables, stack: Stack, bare: bool, word: string, tail: string)
    requires Solid(word) && (tail == "" || IsSpace(tail[0]))
    requires tail == "" || bare || !IsAttribute(tables, stack, word)
    ensures Lex(tables, stack, bare, word + tail) == [Word(word)] + Lex(tables, stack, word == "no", Trimmed(tail))
  {
    hide IsAttribute, ValueLength;
    var s := word + tail;
    assert s[0] == word[0];
    TrimmedSolid(s);
    WordEnds(word, tail);
    assert s[..|word|] == word && s[|word|..] == tail;
    if tail == "" {
      TrimmedSolid(tail);
    }
  }

  lemma LexTrimmed(tables: Tables, stack: Stack, bare: bool, text: string)
    ensures Lex(tables, stack, bare, Trimmed(text)) == Lex(tables, stack, bare, text)
  {
    hide IsAttribute, ValueLength;
    TrimmedHead(text);
    TrimmedSolid(Trimmed(text));
  }

  lemma IndentSkipped(tables: Tables, stack: Stack, bare: bool, s: string)
    ensures Lex(tables, stack, bare, "     " + s) == Lex(tables, stack, bare, s)
  {
    hide Lex;
    IndentTrimmed(s);
    LexTrimmed(tables, stack, bare, "     " + s);
    LexTrimmed(tables, stack, bare, s);
  }

  lemma LexNothing(tables: Tables, stack: Stack, bare: bool)
    ensures Lex(tables, stack, bare, "") == []
  {
    TrimmedSolid("");
  }

  /** Words without values are read as they are. */
  lemma {:induction false} LexWords(tables: Tables, stack: Stack, bare: bool, texts: seq<string>)
    requires forall i | 0 <= i < |texts| :: Solid(texts[i])
    requires forall i | 0 <= i < |texts| - 1 :: !IsAttribute(tables, stack, texts[i])
    ensures Lex(tables, stack, bare, Spaced(texts)) == Words(texts)
    decreases |texts|
  {
    hide Lex, Solid, IsAttribute;
    if texts == [] {
      LexNothing(tables, stack, bare);
    } else if |texts| == 1 {
      assert texts[0] + "" == texts[0];
      LexWord(tables, stack, bare, texts[0], "");
      TrimmedSolid("");
      LexNothing(tables, stack, texts[0] == "no");
      assert Words(texts) == [Word(texts[0])];
    } else {
      var tail := " " + Spaced(texts[1..]);
      LexWord(tables, stack, bare, texts[0], tail);
      LexTrimmed(tables, stack, texts[0] == "no", tail);
      BlankSkipped(Spaced(texts[1..]));
      LexTrimmed(tables, stack, texts[0] == "no", Spaced(texts[1..]));
      LexWords(tables, stack, texts[0] == "no", texts[1..]);
      assert Words(texts) == [Word(texts[0])] + Words(texts[1..]);
    }
  }

  /** An attribute and its value, as far as the rule of its type takes it. */
  lemma LexValue(tables: Tables, stack: Stack, attribute: Ident, value: string)
    requires Solid(attribute) && IsAttribute(tables, stack, attribute)
    requires value != "" && !IsSpace(value[0]) && ValueLength(AttributeType(tables, stack, attribute), value) == |value|
    ensures Lex(tables, stack, false, Spaced([attribute, value])) == Words([attribute, value])
  {
    hide IsAttribute, ValueLength, AttributeType;
    var tail := " " + value;
    var s := attribute + tail;
    assert [attribute, value][1..] == [value] && Spaced([value]) == value;
    assert Spaced([attribute, value]) == s;
    assert s[0] == attribute[0];
    TrimmedSolid(s);
    WordEnds(attribute, tail);
    assert s[..|attribute|] == attribute && s[|attribute|..] == tail;
    BlankSkipped(value);
    TrimmedSolid(value);
    assert value[..|value|] == value && value[|value|..] == "";
    LexNothing(tables, stack, false);
    assert Words([attribute, value]) == [Word(attribute), Word(value)];
  }

  // ---- Names, kinds and values ----

  lemma IdentSolid(s: Ident)
    requires IsIdent(s)
    ensures Solid(s) && s[0] != '#'
  {
  }

  lemma NameSolid(s: Ident)
    requires IsObjectToken(s)
    ensures Solid(s)
  {
    hide IsObjectToken, PathToVector, VectorToPath, IsSpace, IsName;
    ObjectTokens(s);
    var ids :| IsName(ids) && VectorToPath(ids) == s;
    NameTextSolid(ids);
    forall i | 0 <= i < |s| ensures !IsSpace(s[i]) {
      assert s[i] in s;
    }
  }

  /** A readable value is taken as a whole. */
  lemma ValueTaken(type_: Values.Type, value: Values.Value)
    requires Values.Readable(type_, value)
    ensures var text := Values.Print(value);
      text != "" && !IsSpace(text[0]) && ValueLength(type_, text) == |text|
  {
    hide Values.ReadString, Values.ReadSet, Values.PrintSet, IsObjectToken;
    Values.ValueRoundTrip(type_, value);
    match value {
      case Str(text) => hide Values.Printable; Values.PrintedHead(text);
      case IdSet(ids) => Values.PrintedSetHead(ids);
      case Other(_) =>
    }
  }
}
