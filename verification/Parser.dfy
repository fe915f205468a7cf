/** ParserImpl: the object that parses lines, keeping a context stack and a few flags between and during them. */
module Parser {
  import opened Core
  import opened Schema
  import opened PathText
  import G = Grammar
  import GrammarLaws

  class Parser {
    const tables: G.Tables
    var contextStack: Stack
    var dryRun: bool
    var parsingMode: G.Mode
    var singleKind: bool
    var parsingSucceededActions: bool
    /** Everything sent since parsing of the current line started. */
    var sent: seq<G.Event>

    constructor (tables: G.Tables)
      ensures this.tables == tables && contextStack == [] && sent == []
    {
      this.tables := tables;
      contextStack := [];
      dryRun := false;
      parsingMode := G.Standard;
      singleKind := false;
      parsingSucceededActions := true;
      sent := [];
    }

    function Now(): G.State
      reads this
    {
      G.State(contextStack, parsingSucceededActions, singleKind, sent)
    }

    function Line(objectExists: Object -> bool): G.Line
      reads this
    {
      G.Line(tables, parsingMode, dryRun, objectExists)
    }

    // ---- Semantic actions ----

    method Send(signal: G.Signal)
      modifies `sent
      ensures sent == if dryRun then old(sent) else old(sent) + [G.Sent(signal)]
    {
      if !dryRun {
        sent := sent + [G.Sent(signal)];
      }
    }

    /** Collects the pairs of kinds and names a qualified name stands for, innermost first. */
    method PairNames(kind: Ident, objectNames: Name) returns (objects: seq<Item>, complete: bool)
      requires objectNames != []
      ensures forall i | 0 <= i < |objects| :: objects[i].Obj?
      ensures complete ==> G.Chain(tables, kind, objectNames) == Some(objects)
      ensures !complete ==> G.Chain(tables, kind, objectNames) == None
    {
      var i := |objectNames| - 1;
      objects := [Obj(kind, objectNames[i])];
      assert objectNames[..i + 1] == objectNames;
      G.ContinuedStarts(tables, objects[0], objectNames);
      while i > 0
        invariant 0 <= i < |objectNames| && |objects| == |objectNames| - i
        invariant forall j | 0 <= j < |objects| :: objects[j].Obj?
        invariant Last(objects).name == objectNames[i]
        invariant G.Chain(tables, kind, objectNames) == G.Continued(tables, objects, objectNames[..i + 1])
      {
        var above := Last(objects).kind;
        ghost var names := objectNames[..i + 1];
        assert DropLast(names) == objectNames[..i] && Last(names) == objectNames[i];
        G.ContinuedStep(tables, objects, names);
        if above !in tables.embeddedInto {
          return objects, false;
        }
        i := i - 1;
        objects := objects + [Obj(tables.embeddedInto[above], objectNames[i])];
      }
      assert objectNames[..1] == [objectNames[0]];
      assert objects == DropLast(objects) + [Last(objects)];
      return objects, true;
    }

    method CategoryEntered(kind: Ident, name: Ident, ghost objectExists: Object -> bool)
      requires tables.Valid() && IsObjectToken(name)
      modifies `contextStack, `parsingSucceededActions, `sent
      ensures Now() == G.EnterKind(Line(objectExists), old(Now()), kind, name)
    {
      hide G.EnterChain, G.Chain, IsObjectToken, PathToVector;
      ObjectTokens(name);
      var objectNames := PathToVector(name).value;
      var eDepth := MeasureDepth(tables.embeddedInto, kind);
      if |contextStack| + |objectNames| - 1 != eDepth {
        parsingSucceededActions := false;
        return;
      }
      var objects, complete := PairNames(kind, objectNames);
      if !complete {
        parsingSucceededActions := false;
        return;
      }
      var outermost := Last(objects).kind;
      if outermost in tables.embeddedInto {
        if contextStack == [] || Last(contextStack).kind !in tables.Embedding(outermost) {
          parsingSucceededActions := false;
          return;
        }
      }
      PushObjects(objects, objectExists);
    }

    method PushObjects(objects: seq<Item>, ghost objectExists: Object -> bool)
      requires forall i | 0 <= i < |objects| :: objects[i].Obj?
      modifies `contextStack, `sent
      ensures Now() == G.EnterChain(Line(objectExists), old(Now()), objects)
    {
      var n := |objects|;
      assert objects[..n] == objects;
      while n > 0
        invariant 0 <= n <= |objects|
        invariant G.EnterChain(Line(objectExists), Now(), objects[..n])
               == G.EnterChain(Line(objectExists), old(Now()), objects)
      {
        var item := objects[n - 1];
        assert Last(objects[..n]) == item && DropLast(objects[..n]) == objects[..n - 1];
        contextStack := contextStack + [item];
        if n == 1 && parsingMode == G.Create {
          Send(G.CreateObject(contextStack, item.kind, item.name));
        } else {
          Send(G.CategoryEntered(contextStack, item.kind, item.name));
        }
        n := n - 1;
      }
    }

    method CategoryLeft(ghost objectExists: Object -> bool)
      requires contextStack != []
      modifies `contextStack, `sent
      ensures Now() == G.LeaveKind(Line(objectExists), old(Now()))
    {
      contextStack := contextStack[..|contextStack| - 1];
      Send(G.CategoryLeft);
    }

    method NewObject(kind: Ident, ghost objectExists: Object -> bool)
      modifies `contextStack, `sent
      ensures Now() == G.NewObject(Line(objectExists), old(Now()), kind)
    {
      contextStack := contextStack + [Obj(kind, "")];
      Send(G.CreateObject(contextStack, kind, ""));
    }

    method FilterObjects(kind: Ident, filter: Option<Filter>, ghost objectExists: Object -> bool)
      modifies `contextStack, `sent
      ensures Now() == G.FilterObjects(Line(objectExists), old(Now()), kind, filter)
    {
      contextStack := contextStack + [Flt(kind, filter)];
      Send(G.ObjectsFilter(contextStack, kind, filter));
    }

    // ---- Grammar rules ----

    method KindsOnly(ts: seq<G.Token>, kinds: set<Ident>, ghost objectExists: Object -> bool)
      returns (rest: seq<G.Token>, matched: bool)
      requires tables.Valid()
      modifies `contextStack, `parsingSucceededActions, `sent
      ensures G.Match(Now(), rest, matched) == G.KindsOnly(Line(objectExists), old(Now()), ts, kinds)
    {
      if G.WordIn(ts, 0, kinds) && G.NameAt(ts, 1) {
        CategoryEntered(ts[0].text, ts[1].text, objectExists);
        return ts[2..], true;
      }
      return ts, false;
    }

    method KindsFilters(ts: seq<G.Token>, kinds: set<Ident>, ghost objectExists: Object -> bool)
      returns (rest: seq<G.Token>, matched: bool)
      modifies `contextStack, `sent
      ensures G.Match(Now(), rest, matched) == G.KindsFilters(Line(objectExists), old(Now()), ts, kinds)
    {
      if G.WordIn(ts, 0, {"all"}) && G.WordIn(ts, 1, kinds) {
        FilterObjects(ts[1].text, None, objectExists);
        return ts[2..], true;
      }
      if G.WordIn(ts, 0, kinds) && G.WordIn(ts, 1, {WHERE}) && |ts| > 2 && ts[2].Parens? {
        FilterObjects(ts[0].text, Some(ts[2].filter), objectExists);
        return ts[3..], true;
      }
      return ts, false;
    }

    method Kinds(ts: seq<G.Token>, kind: Ident, ghost objectExists: Object -> bool)
      returns (rest: seq<G.Token>, matched: bool)
      requires tables.Valid()
      modifies `contextStack, `parsingSucceededActions, `sent
      ensures G.Match(Now(), rest, matched) == G.Kinds(Line(objectExists), old(Now()), ts, kind)
    {
      rest, matched := KindsOnly(ts, tables.NestedKinds(kind), objectExists);
      if matched {
        return;
      }
      rest, matched := KindsFilters(ts, tables.NestedFilters(kind), objectExists);
      if matched {
        return;
      }
      if G.WordIn(ts, 0, {"new"}) && G.WordIn(ts, 1, tables.NestedNew(kind)) {
        NewObject(ts[1].text, objectExists);
        return ts[2..], true;
      }
      return ts, false;
    }

    method TopLevel(ts: seq<G.Token>, ghost objectExists: Object -> bool)
      returns (rest: seq<G.Token>, matched: bool)
      requires tables.Valid()
      modifies `contextStack, `parsingSucceededActions, `singleKind, `sent
      ensures G.Match(Now(), rest, matched) == G.TopLevel(Line(objectExists), old(Now()), ts)
    {
      rest, matched := KindsOnly(ts, tables.kinds, objectExists);
      if !matched {
        rest, matched := KindsFilters(ts, tables.kinds, objectExists);
      }
      if matched {
        singleKind := true;
      }
    }

    method Attribute(ts: seq<G.Token>, kind: Ident, ghost objectExists: Object -> bool)
      returns (rest: seq<G.Token>, matched: bool)
      modifies `sent
      ensures G.Match(Now(), rest, matched) == G.Attribute(Line(objectExists), old(Now()), ts, kind)
    {
      var attributes := tables.Attributes(kind);
      var sets := tables.IdentifierSets(kind);
      if G.WordIn(ts, 0, attributes.Keys) && |ts| > 1 && ts[1].Word? {
        var owner := attributes[ts[0].text];
        var value := tables.ReadValue(owner, ts[0].text, ts[1].text);
        if value.Some? {
          Send(G.SetAttribute(contextStack, owner, ts[0].text, value.value));
          return ts[2..], true;
        }
      }
      if G.WordIn(ts, 0, {"no"}) && G.WordIn(ts, 1, attributes.Keys) {
        Send(G.RemoveAttribute(contextStack, attributes[ts[1].text], ts[1].text));
        return ts[2..], true;
      }
      if G.WordIn(ts, 0, {"add"}) && G.WordIn(ts, 1, sets.Keys) && G.NameAt(ts, 2) {
        Send(G.SetAttributeInsert(contextStack, sets[ts[1].text], ts[1].text, ts[2].text));
        return ts[3..], true;
      }
      if G.WordIn(ts, 0, {"remove"}) && G.WordIn(ts, 1, sets.Keys) && G.NameAt(ts, 2) {
        Send(G.SetAttributeRemove(contextStack, sets[ts[1].text], ts[1].text, ts[2].text));
        return ts[3..], true;
      }
      return ts, false;
    }

    method AttributeStar(ts: seq<G.Token>, kind: Ident, ghost objectExists: Object -> bool)
      returns (rest: seq<G.Token>)
      modifies `sent
      ensures G.Match(Now(), rest, true) == G.AttributeStar(Line(objectExists), old(Now()), ts, kind)
    {
      rest := ts;
      var matched := true;
      while matched
        invariant matched ==>
          G.AttributeStar(Line(objectExists), Now(), rest, kind) == G.AttributeStar(Line(objectExists), old(Now()), ts, kind)
        invariant !matched ==>
          G.Match(Now(), rest, true) == G.AttributeStar(Line(objectExists), old(Now()), ts, kind)
        decreases |rest|, matched
      {
        rest, matched := Attribute(rest, kind, objectExists);
      }
    }

    method WholeKind(ts: seq<G.Token>, ghost objectExists: Object -> bool)
      returns (rest: seq<G.Token>, matched: bool)
      requires tables.Valid() && contextStack != []
      modifies `contextStack, `parsingSucceededActions, `singleKind, `sent
      ensures G.Match(Now(), rest, matched) == G.WholeKind(Line(objectExists), old(Now()), ts)
    {
      var kind := contextStack[|contextStack| - 1].kind;
      rest, matched := Attribute(ts, kind, objectExists);
      if matched {
        rest := AttributeStar(rest, kind, objectExists);
        rest, matched := Kinds(rest, kind, objectExists);
        return rest, true;
      }
      rest, matched := Kinds(ts, kind, objectExists);
      if matched {
        singleKind := true;
      } else if G.WordIn(ts, 0, {"end"}) {
        CategoryLeft(objectExists);
        return ts[1..], true;
      }
    }

    // ---- parseLineImpl ----

    method Round(ts: seq<G.Token>, ghost objectExists: Object -> bool) returns (rest: seq<G.Token>, matched: bool)
      requires tables.Valid()
      modifies `contextStack, `parsingSucceededActions, `singleKind, `sent
      ensures G.Match(Now(), rest, matched) == G.Round(Line(objectExists), old(Now()), ts)
    {
      singleKind := false;
      if contextStack == [] {
        rest, matched := TopLevel(ts, objectExists);
        return;
      }
      var kind := contextStack[|contextStack| - 1].kind;
      match parsingMode {
        case Standard => rest, matched := WholeKind(ts, objectExists);
        case Create => rest, matched := KindsOnly(ts, tables.NestedKinds(kind), objectExists);
        case _ => rest, matched := Kinds(ts, kind, objectExists);
      }
    }

    /** The main loop; parsingSucceeded and nonexistantObject are the two flags it leaves behind. */
    method Rounds(ts: seq<G.Token>, objectExists: Object -> bool)
      returns (rest: seq<G.Token>, parsingSucceeded: bool, nonexistantObject: bool)
      requires tables.Valid()
      modifies `contextStack, `parsingSucceededActions, `singleKind, `sent
      ensures G.LoopEnd(Now(), rest, parsingSucceeded, nonexistantObject)
           == G.Rounds(Line(objectExists), old(Now()), ts)
    {
      rest, parsingSucceeded, nonexistantObject := ts, true, false;
      while rest != []
        invariant parsingSucceeded && !nonexistantObject
        invariant G.Rounds(Line(objectExists), Now(), rest) == G.Rounds(Line(objectExists), old(Now()), ts)
        decreases |rest|
      {
        G.RoundConsumes(Line(objectExists), Now(), rest);
        rest, parsingSucceeded := Round(rest, objectExists);
        if contextStack != [] && parsingSucceeded && parsingSucceededActions
           && parsingMode in {G.Delete, G.Show, G.Rename} && FilterFree(contextStack) {
          var back := contextStack[|contextStack| - 1];
          if !objectExists(Object(back.kind, StackPath(contextStack))) {
            parsingSucceeded := false;
            nonexistantObject := true;
          }
        }
        if !(parsingSucceeded && parsingSucceededActions) {
          break;
        }
      }
    }

    method LeaveBlocks(previousContextStackSize: nat, parsingSucceeded: bool, ghost objectExists: Object -> bool)
      modifies `contextStack, `sent
      ensures Now() == G.Unwind(Line(objectExists), old(Now()), previousContextStackSize, parsingSucceeded)
    {
      while |contextStack| > previousContextStackSize
        invariant G.Unwind(Line(objectExists), Now(), previousContextStackSize, parsingSucceeded)
               == G.Unwind(Line(objectExists), old(Now()), previousContextStackSize, parsingSucceeded)
        decreases |contextStack|
      {
        if parsingSucceeded {
          CategoryLeft(objectExists);
        } else {
          contextStack := contextStack[..|contextStack| - 1];
        }
      }
    }

    /** Everything behind the main loop: the new name, the function's signal, errors and leaving blocks. */
    method Conclude(previousContextStackSize: nat, rest: seq<G.Token>, succeeded: bool, nonexistantObject: bool,
                    ghost objectExists: Object -> bool) returns (ok: bool)
      modifies `contextStack, `sent
      ensures (Now(), ok) == G.Conclude(Line(objectExists), previousContextStackSize,
                                        G.LoopEnd(old(Now()), rest, succeeded, nonexistantObject))
    {
      var parsingSucceeded := succeeded;
      var newName := "";
      if parsingMode == G.Rename && |contextStack| > previousContextStackSize && parsingSucceededActions
         && !nonexistantObject {
        parsingSucceeded := G.NameAt(rest, 0) && |rest| == 1;
      }
      if rest != [] && rest[0].Word? {
        newName := rest[0].text;
      }
      ok := parsingSucceeded && parsingSucceededActions;
      if ok {
        match parsingMode {
          case Delete => Send(G.FunctionDelete(contextStack));
          case Show => Send(G.FunctionShow(contextStack));
          case Rename => Send(G.FunctionRename(contextStack, newName));
          case _ =>
        }
      } else if !dryRun {
        sent := sent + [G.ErrorReported];
      }
      if !((parsingMode == G.Standard && singleKind) || dryRun) {
        LeaveBlocks(previousContextStackSize, parsingSucceeded, objectExists);
      }
    }

    method ParseLineImpl(ts: seq<G.Token>, objectExists: Object -> bool) returns (ok: bool)
      requires tables.Valid()
      modifies this
      ensures dryRun == old(dryRun)
      ensures var (st, accepted) := G.ParseImpl(tables, dryRun, objectExists, old(contextStack), old(sent), ts);
        contextStack == st.stack && sent == st.out && ok == accepted
    {
      if ts == [] {
        return true;
      }
      parsingMode := G.FunctionWord(ts);
      parsingSucceededActions := true;
      singleKind := false;
      var previousContextStackSize := |contextStack|;
      if parsingMode != G.Standard && |ts| == 1 {
        if parsingMode == G.Show {
          Send(G.FunctionShow(contextStack));
          return true;
        }
        ok := Conclude(previousContextStackSize, [], false, false, objectExists);
        return;
      }
      var rest, parsingSucceeded, nonexistantObject :=
        Rounds(if parsingMode == G.Standard then ts else ts[1..], objectExists);
      ok := Conclude(previousContextStackSize, rest, parsingSucceeded, nonexistantObject, objectExists);
    }

    method ParseLine(ts: seq<G.Token>, objectExists: Object -> bool) returns (finished: bool)
      requires tables.Valid()
      modifies this
      ensures (contextStack, sent) == G.ParseLine(tables, objectExists, old(contextStack), ts)
      ensures finished == G.ParseImpl(tables, false, objectExists, old(contextStack), [G.Started], ts).1
    {
      hide G.ParseImpl;
      sent := [G.Started];
      dryRun := false;
      finished := ParseLineImpl(ts, objectExists);
      if finished {
        sent := sent + [G.Finished];
      }
    }

    /** The dry run behind tab completion; what it would suggest is left out. */
    method TabCompletion(ts: seq<G.Token>, objectExists: Object -> bool)
      requires tables.Valid()
      modifies this
      ensures contextStack == old(contextStack) && sent == old(sent)
    {
      var contextStackBackup := contextStack;
      if ts != [] {
        GrammarLaws.DryRunIsSilent(tables, objectExists, contextStack, sent, ts);
        dryRun := true;
        var _ := ParseLineImpl(ts, objectExists);
      }
      contextStack := contextStackBackup;
    }
  }

  // ---- Lines and completions in any order ----

  datatype Request = ParseRequest(line: G.Input) | CompletionRequest(line: G.Input)

  function OnlyLines(requests: seq<Request>): seq<G.Input> {
    if requests == [] then []
    else
      var before := OnlyLines(DropLast(requests));
      if Last(requests).ParseRequest? then before + [Last(requests).line] else before
  }

  /** What a parser that is only given lines sends, line by line, and where its context stack ends. */
  function LinesAlone(tables: G.Tables, stack: Stack, lines: seq<G.Input>): (Stack, seq<seq<G.Event>>)
    requires tables.Valid()
  {
    if lines == [] then (stack, [])
    else
      var (before, trace) := LinesAlone(tables, stack, DropLast(lines));
      var (after, out) := G.ParseLine(tables, Last(lines).objectExists, before, Last(lines).tokens);
      (after, trace + [out])
  }

  /** Completions in between change neither what the lines send nor where the context stack ends. */
  method Serve(parser: Parser, requests: seq<Request>) returns (trace: seq<seq<G.Event>>)
    requires parser.tables.Valid()
    modifies parser
    ensures (parser.contextStack, trace) == LinesAlone(parser.tables, old(parser.contextStack), OnlyLines(requests))
  {
    trace := [];
    for i := 0 to |requests|
      invariant (parser.contextStack, trace)
             == LinesAlone(parser.tables, old(parser.contextStack), OnlyLines(requests[..i]))
    {
      assert DropLast(requests[..i + 1]) == requests[..i] && Last(requests[..i + 1]) == requests[i];
      ghost var lines := OnlyLines(requests[..i]);
      match requests[i] {
        case ParseRequest(line) =>
          assert DropLast(lines + [line]) == lines;
          var _ := parser.ParseLine(line.tokens, line.objectExists);
          trace := trace + [parser.sent];
        case CompletionRequest(line) =>
          parser.TabCompletion(line.tokens, line.objectExists);
      }
    }
    assert requests[..|requests|] == requests;
  }
}
