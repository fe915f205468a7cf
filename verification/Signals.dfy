/**
 SignalsHandler: it collects the signals of one line and, once the line was accepted, first has all of them confirmed
 and then applies them one by one on its own copy of the context stack, which finally becomes the parser's stack.
 */
module Signals {
  import opened Core
  import opened Grammar
  import opened GrammarLaws
  import Parser

  /** The user interface's reply to a confirmation; Asked means that the user was asked about creating the object. */
  datatype Confirmation = Confirmed | Refused | Asked(agreed: bool)

  /** How the database took a signal; a created object may have got its name from the server. */
  datatype Application = Applied(generated: Ident) | Failed | Thrown

  /** The replies to the i-th signal of the line. */
  datatype Replies = Replies(confirm: nat -> Confirmation, apply: nat -> Application)

  // ---- What confirming and applying amounts to ----

  /** One confirmation: the result and the new autoCreate flag. */
  function ConfirmOne(signal: Signal, reply: Confirmation, autoCreate: bool): (bool, bool) {
    match signal
    case CategoryLeft => (true, false)
    case CategoryEntered(_, _, _) =>
      if autoCreate then (true, true)
      else (match reply case Confirmed => (true, false) case Refused => (false, false) case Asked(b) => (b, b))
    case _ => (reply == Confirmed || reply == Asked(true), autoCreate)
  }

  /** The first n signals are all confirmed, and the flag they leave. */
  function ConfirmAll(signals: seq<Signal>, replies: Replies, n: nat): (bool, bool)
    requires n <= |signals|
  {
    if n == 0 then (true, false)
    else
      var (ok, autoCreate) := ConfirmAll(signals, replies, n - 1);
      if ok then ConfirmOne(signals[n - 1], replies.confirm(n - 1), autoCreate) else (false, autoCreate)
  }

  predicate IsFunction(signal: Signal) {
    signal.FunctionShow? || signal.FunctionDelete? || signal.FunctionRename?
  }

  /** The item a signal pushes; objects without a name get the generated one. */
  function PushedItem(signal: Signal, generated: Ident): Option<Item> {
    match signal
    case CreateObject(_, kind, name) => Some(Obj(kind, if name == "" then generated else name))
    case CategoryEntered(_, kind, name) => Some(Obj(kind, if name == "" then generated else name))
    case ObjectsFilter(_, kind, filter) => Some(Flt(kind, filter))
    case _ => None
  }

  function ApplyOne(stack: Stack, signal: Signal, generated: Ident): Stack {
    match PushedItem(signal, generated)
    case Some(item) => stack + [item]
    case None => if signal.CategoryLeft? && stack != [] then DropLast(stack) else stack
  }

  /** How many signals are applied before one of them fails, throws, or the list ends. */
  function AppliedCount(signals: seq<Signal>, replies: Replies, i: nat): (n: nat)
    requires i <= |signals|
    ensures i <= n <= |signals|
    ensures forall j | i <= j < n :: signals[j].CategoryLeft? || replies.apply(j).Applied?
    ensures n < |signals| ==> !signals[n].CategoryLeft? && !replies.apply(n).Applied?
    decreases |signals| - i
  {
    if i == |signals| then i
    else if signals[i].CategoryLeft? || replies.apply(i).Applied? then AppliedCount(signals, replies, i + 1)
    else i
  }

  function Generated(reply: Application): Ident {
    if reply.Applied? then reply.generated else ""
  }

  /** The handler's stack after it applied the first n signals. */
  function ApplyFirst(stack: Stack, signals: seq<Signal>, replies: Replies, n: nat): Stack
    requires n <= |signals|
  {
    if n == 0 then stack
    else ApplyOne(ApplyFirst(stack, signals, replies, n - 1), signals[n - 1], Generated(replies.apply(n - 1)))
  }

  // ---- Handler and parser agree ----

  function SignalsOf(out: seq<Event>): seq<Signal> {
    if out == [] then []
    else SignalsOf(DropLast(out)) + (if Last(out).Sent? then [Last(out).signal] else [])
  }

  function Events(signals: seq<Signal>): seq<Event> {
    seq(|signals|, i requires 0 <= i < |signals| => Sent(signals[i]))
  }

  lemma {:induction false} ReplaySignals(stack: Stack, out: seq<Event>)
    requires Replay(stack, out).Some?
    ensures Replay(stack, Events(SignalsOf(out))) == Replay(stack, out)
    decreases |out|
  {
    if out != [] {
      ReplaySignals(stack, DropLast(out));
      var before := SignalsOf(DropLast(out));
      if Last(out).Sent? {
        assert Events(before + [Last(out).signal]) == Events(before) + [Last(out)];
        ReplaySent(stack, Events(before), Last(out));
      } else {
        assert before + [] == before;
      }
    }
  }

  lemma {:induction false} ReplayPrefix(stack: Stack, signals: seq<Signal>, n: nat)
    requires n <= |signals| && Replay(stack, Events(signals)).Some?
    ensures Replay(stack, Events(signals[..n])).Some?
    ensures n < |signals| ==>
      Replay(stack, Events(signals[..n + 1])) == Follow(Replay(stack, Events(signals[..n])).value, Sent(signals[n]))
    decreases |signals| - n
  {
    if n < |signals| {
      ReplayPrefix(stack, signals, n + 1);
      assert Events(signals[..n + 1]) == Events(signals[..n]) + [Sent(signals[n])];
      ReplaySent(stack, Events(signals[..n]), Sent(signals[n]));
    } else {
      assert signals[..n] == signals;
    }
  }

  /** Equal items, except that the parser does not know generated names. */
  predicate Alike(parsed: Item, handled: Item) {
    parsed == handled || (parsed.Obj? && handled.Obj? && parsed.kind == handled.kind && parsed.name == "")
  }

  predicate AlikeStacks(parsed: Stack, handled: Stack) {
    |parsed| == |handled| && forall i | 0 <= i < |parsed| :: Alike(parsed[i], handled[i])
  }

  lemma StepAlike(parsed: Stack, handled: Stack, signal: Signal, generated: Ident)
    requires AlikeStacks(parsed, handled) && Follow(parsed, Sent(signal)).Some?
    ensures AlikeStacks(Follow(parsed, Sent(signal)).value, ApplyOne(handled, signal, generated))
    ensures signal.CategoryLeft? ==> handled != []
  {
  }

  /** Applying the signals mirrors the parser's own steps, signal by signal. */
  lemma {:induction false} AppliedAlike(stack: Stack, signals: seq<Signal>, replies: Replies, n: nat)
    requires n <= |signals| && Replay(stack, Events(signals)).Some?
    ensures Replay(stack, Events(signals[..n])).Some?
    ensures AlikeStacks(Replay(stack, Events(signals[..n])).value, ApplyFirst(stack, signals, replies, n))
    ensures n < |signals| && signals[n].CategoryLeft? ==> ApplyFirst(stack, signals, replies, n) != []
    decreases n
  {
    hide Follow, ApplyOne;
    ReplayPrefix(stack, signals, n);
    if n > 0 {
      AppliedAlike(stack, signals, replies, n - 1);
      ReplayPrefix(stack, signals, n - 1);
      StepAlike(Replay(stack, Events(signals[..n - 1])).value, ApplyFirst(stack, signals, replies, n - 1),
        signals[n - 1], Generated(replies.apply(n - 1)));
    } else {
      assert Events(signals[..0]) == [];
    }
    if n < |signals| {
      ReplayPrefix(stack, signals, n + 1);
      StepAlike(Replay(stack, Events(signals[..n])).value, ApplyFirst(stack, signals, replies, n), signals[n], "");
    }
  }

  /** The item a signal announces, once it was applied: a missing name is the one the server has generated. */
  predicate Announced(signal: Signal, reply: Application, item: Item) {
    match signal
    case CreateObject(_, kind, name) => Called(item, kind, name, reply)
    case CategoryEntered(_, kind, name) => Called(item, kind, name, reply)
    case ObjectsFilter(_, kind, filter) => item == Flt(kind, filter)
    case _ => true
  }

  predicate Called(item: Item, kind: Ident, name: Ident, reply: Application) {
    && item.Obj? && item.kind == kind
    && (if name != "" then item.name == name else reply.Applied? ==> item.name == reply.generated)
  }

  /** What a signal pushes stays on the handler's stack as it was pushed until a signal behind it leaves the block. */
  lemma {:induction false} PushedStays(stack: Stack, signals: seq<Signal>, replies: Replies, j: nat, n: nat)
    requires j < n <= |signals| && (signals[j].CreateObject? || signals[j].CategoryEntered? || signals[j].ObjectsFilter?)
    requires forall m | j < m <= n :: |ApplyFirst(stack, signals, replies, m)| > |ApplyFirst(stack, signals, replies, j)|
    ensures Announced(signals[j], replies.apply(j),
      ApplyFirst(stack, signals, replies, n)[|ApplyFirst(stack, signals, replies, j)|])
    decreases n
  {
    if j < n - 1 {
      PushedStays(stack, signals, replies, j, n - 1);
    }
  }

  class SignalsHandler {
    const parser: Parser.Parser
    var signalsStack: seq<Signal>
    var contextStack: Stack
    var contextStackBackup: Stack
    var autoCreate: bool
    var functionWord: bool

    constructor (parser: Parser.Parser)
      ensures this.parser == parser
    {
      this.parser := parser;
      signalsStack, contextStack, contextStackBackup, autoCreate, functionWord := [], [], [], false, false;
    }

    /** slotParsingStarted. */
    method ParsingStarted()
      modifies this
      ensures signalsStack == [] && contextStack == contextStackBackup == parser.contextStack
      ensures !autoCreate && !functionWord
    {
      autoCreate := false;
      functionWord := false;
      signalsStack := [];
      contextStack := parser.contextStack;
      contextStackBackup := parser.contextStack;
    }

    /** The slots of the single signals: each appends its signal. */
    method Collect(out: seq<Event>)
      modifies `signalsStack
      ensures signalsStack == old(signalsStack) + SignalsOf(out)
    {
      for i := 0 to |out|
        invariant signalsStack == old(signalsStack) + SignalsOf(out[..i])
      {
        assert DropLast(out[..i + 1]) == out[..i] && Last(out[..i + 1]) == out[i];
        if out[i].Sent? {
          signalsStack := signalsStack + [out[i].signal];
        }
      }
      assert out[..|out|] == out;
    }

    method Confirm(signal: Signal, reply: Confirmation) returns (ok: bool)
      modifies `autoCreate
      ensures (ok, autoCreate) == ConfirmOne(signal, reply, old(autoCreate))
    {
      match signal {
        case CategoryLeft =>
          autoCreate := false;
          return true;
        case CategoryEntered(_, _, _) =>
          if autoCreate {
            return true;
          }
          match reply {
            case Confirmed => return true;
            case Refused => return false;
            case Asked(agreed) =>
              autoCreate := agreed;
              return agreed;
          }
        case _ => return reply == Confirmed || reply == Asked(true);
      }
    }

    /** Applies one signal; leaving a block needs a block to leave. */
    method Apply(signal: Signal, reply: Application) returns (ok: bool)
      requires signal.CategoryLeft? ==> contextStack != []
      modifies `contextStack, `functionWord
      ensures ok == (signal.CategoryLeft? || reply.Applied?)
      ensures contextStack == if ok then ApplyOne(old(contextStack), signal, Generated(reply)) else old(contextStack)
      ensures functionWord == (old(functionWord) || IsFunction(signal))
    {
      if signal.CategoryLeft? {
        contextStack := contextStack[..|contextStack| - 1];
        return true;
      }
      if IsFunction(signal) {
        functionWord := true;
      }
      if !reply.Applied? {
        return false;
      }
      match PushedItem(signal, reply.generated) {
        case Some(item) => contextStack := contextStack + [item];
        case None =>
      }
      return true;
    }

    method ConfirmEach(replies: Replies) returns (allConfirmed: bool)
      requires !autoCreate
      modifies `autoCreate
      ensures allConfirmed == ConfirmAll(signalsStack, replies, |signalsStack|).0
    {
      for i := 0 to |signalsStack|
        invariant ConfirmAll(signalsStack, replies, i) == (true, autoCreate)
      {
        var ok := Confirm(signalsStack[i], replies.confirm(i));
        if !ok {
          RefusedStays(signalsStack, replies, i + 1, |signalsStack|);
          return false;
        }
      }
      return true;
    }

    /** Applies the signals until one fails; count is how many were applied. */
    method ApplyEach(replies: Replies) returns (ghost count: nat, allPerformed: bool, thrown: bool)
      requires !functionWord && Replay(contextStack, Events(signalsStack)).Some?
      modifies `contextStack, `functionWord
      ensures count == AppliedCount(signalsStack, replies, 0)
      ensures contextStack == ApplyFirst(old(contextStack), signalsStack, replies, count)
      ensures allPerformed == (count == |signalsStack|)
      ensures thrown == (count < |signalsStack| && replies.apply(count).Thrown?)
      ensures functionWord == FunctionReached(signalsStack, count)
    {
      hide Follow, ApplyOne, Replay, AlikeStacks, IsFunction, SomeFunction, PushedItem;
      NoFunction(signalsStack);
      var i := 0;
      while i < |signalsStack|
        invariant 0 <= i <= |signalsStack|
        invariant AppliedCount(signalsStack, replies, 0) == AppliedCount(signalsStack, replies, i)
        invariant contextStack == ApplyFirst(old(contextStack), signalsStack, replies, i)
        invariant functionWord == SomeFunction(signalsStack, i)
      {
        AppliedAlike(old(contextStack), signalsStack, replies, i);
        OneMoreFunction(signalsStack, i);
        var ok := Apply(signalsStack[i], replies.apply(i));
        if !ok {
          return i, false, replies.apply(i).Thrown?;
        }
        i := i + 1;
      }
      return i, true, false;
    }

    /** slotParsingFinished; an exception leaves it before the parser's stack is set. */
    method ParsingFinished(replies: Replies) returns (thrown: bool)
      requires !autoCreate && !functionWord && contextStack == contextStackBackup
      requires Replay(contextStack, Events(signalsStack)).Some?
      modifies this, parser`contextStack
      ensures signalsStack == old(signalsStack)
      ensures var n := AppliedCount(signalsStack, replies, 0);
        thrown == (AllConfirmed(signalsStack, replies) && n < |signalsStack| && replies.apply(n).Thrown?)
      ensures !thrown ==> parser.contextStack == HandledStack(old(contextStack), signalsStack, replies)
      ensures thrown ==> parser.contextStack == old(parser.contextStack)
    {
      var allConfirmed := ConfirmEach(replies);
      var allPerformed := true;
      if allConfirmed {
        ghost var count;
        count, allPerformed, thrown := ApplyEach(replies);
        if thrown {
          return;
        }
      }
      thrown := false;
      parser.contextStack := if !allPerformed && functionWord then contextStackBackup else contextStack;
    }
  }

  lemma {:induction false} RefusedStays(signals: seq<Signal>, replies: Replies, n: nat, m: nat)
    requires n <= m <= |signals| && !ConfirmAll(signals, replies, n).0
    ensures !ConfirmAll(signals, replies, m).0
    decreases m
  {
    if n < m {
      RefusedStays(signals, replies, n, m - 1);
    }
  }

  predicate AllConfirmed(signals: seq<Signal>, replies: Replies) {
    ConfirmAll(signals, replies, |signals|).0
  }

  /** The user agreed to create an object that was entered before, and no block has been left since. */
  predicate CreatesOn(signals: seq<Signal>, replies: Replies, n: nat)
    requires n <= |signals|
  {
    exists j :: 0 <= j < n && CreatesFrom(signals, replies, j, n)
  }

  predicate CreatesFrom(signals: seq<Signal>, replies: Replies, j: nat, n: nat)
    requires j < n <= |signals|
  {
    && signals[j].CategoryEntered? && replies.confirm(j) == Asked(true)
    && forall k | j < k < n :: !signals[k].CategoryLeft?
  }

  /** The signal leaves a block, the user interface or the user agrees, or it enters a block after such a creation. */
  predicate Agreed(signals: seq<Signal>, replies: Replies, i: nat)
    requires i < |signals|
  {
    || signals[i].CategoryLeft?
    || replies.confirm(i) == Confirmed || replies.confirm(i) == Asked(true)
    || (signals[i].CategoryEntered? && CreatesOn(signals, replies, i))
  }

  lemma CreatesOnNext(signals: seq<Signal>, replies: Replies, n: nat)
    requires n < |signals|
    ensures CreatesOn(signals, replies, n + 1) <==>
      && !signals[n].CategoryLeft?
      && (CreatesOn(signals, replies, n) || (signals[n].CategoryEntered? && replies.confirm(n) == Asked(true)))
  {
    var m := n + 1;
    if j :| 0 <= j < m && CreatesFrom(signals, replies, j, m) {
      assert j < n ==> CreatesFrom(signals, replies, j, n);
    }
    if !signals[n].CategoryLeft? {
      if j :| 0 <= j < n && CreatesFrom(signals, replies, j, n) {
        assert CreatesFrom(signals, replies, j, m);
      }
      if signals[n].CategoryEntered? && replies.confirm(n) == Asked(true) {
        assert CreatesFrom(signals, replies, n, m);
      }
    }
  }

  lemma {:induction false} FirstConfirmed(signals: seq<Signal>, replies: Replies, n: nat)
    requires n <= |signals|
    ensures ConfirmAll(signals, replies, n).0 <==> forall i | 0 <= i < n :: Agreed(signals, replies, i)
    ensures ConfirmAll(signals, replies, n).0 ==> ConfirmAll(signals, replies, n).1 == CreatesOn(signals, replies, n)
    decreases n
  {
    hide CreatesOn;
    if n > 0 {
      FirstConfirmed(signals, replies, n - 1);
      CreatesOnNext(signals, replies, n - 1);
      var (ok, autoCreate) := ConfirmAll(signals, replies, n - 1);
      assert ok ==> ConfirmOne(signals[n - 1], replies.confirm(n - 1), autoCreate).0 == Agreed(signals, replies, n - 1);
    } else {
      assert !CreatesOn(signals, replies, 0) by { NothingCreated(signals, replies); }
    }
  }

  lemma NothingCreated(signals: seq<Signal>, replies: Replies)
    ensures !CreatesOn(signals, replies, 0)
  {
  }

  /** Every signal is agreed to; one agreement covers what is entered until the next block is left, and no further. */
  lemma ConfirmedIffAgreed(signals: seq<Signal>, replies: Replies)
    ensures AllConfirmed(signals, replies) <==> forall i | 0 <= i < |signals| :: Agreed(signals, replies, i)
  {
    FirstConfirmed(signals, replies, |signals|);
  }

  /** One of the first n signals, or the one that failed after them, belongs to a function word. */
  predicate FunctionReached(signals: seq<Signal>, n: nat)
    requires n <= |signals|
  {
    SomeFunction(signals, if n < |signals| then n + 1 else n)
  }

  predicate SomeFunction(signals: seq<Signal>, n: nat)
    requires n <= |signals|
  {
    exists j :: 0 <= j < n && IsFunction(signals[j])
  }

  lemma NoFunction(signals: seq<Signal>)
    ensures !SomeFunction(signals, 0)
  {
  }

  lemma OneMoreFunction(signals: seq<Signal>, n: nat)
    requires n < |signals|
    ensures SomeFunction(signals, n + 1) <==> SomeFunction(signals, n) || IsFunction(signals[n])
  {
    hide IsFunction;
  }

  /** The stack slotParsingFinished gives to the parser. */
  function HandledStack(stack: Stack, signals: seq<Signal>, replies: Replies): Stack {
    var n := AppliedCount(signals, replies, 0);
    if !AllConfirmed(signals, replies) then stack
    else if n < |signals| && FunctionReached(signals, n) then stack
    else ApplyFirst(stack, signals, replies, n)
  }

  /** One line typed by the user, as the main loop handles it; after an exception the old stack is put back. */
  method ProcessLine(handler: SignalsHandler, line: Input, replies: Replies) returns (thrown: bool)
    requires handler.parser.tables.Valid()
    modifies handler, handler.parser
    ensures handler.parser.contextStack ==
      LineResult(handler.parser.tables, old(handler.parser.contextStack), line, replies)
  {
    var parser := handler.parser;
    var previousContextStack := parser.contextStack;
    handler.ParsingStarted();
    var finished := parser.ParseLine(line.tokens, line.objectExists);
    handler.Collect(parser.sent);
    thrown := false;
    if finished {
      AcceptedLineReplays(parser.tables, line.objectExists, previousContextStack, line.tokens);
      ReplaySignals(previousContextStack, parser.sent);
      assert [] + SignalsOf(parser.sent) == SignalsOf(parser.sent);
      thrown := handler.ParsingFinished(replies);
      if thrown {
        parser.contextStack := previousContextStack;
      }
    }
  }

  /** The context stack after one line went through the parser, the handler and the main loop. */
  function LineResult(tables: Tables, stack: Stack, line: Input, replies: Replies): Stack
    requires tables.Valid()
  {
    var (parsed, out) := ParseLine(tables, line.objectExists, stack, line.tokens);
    var signals := SignalsOf(out);
    var n := AppliedCount(signals, replies, 0);
    if !ParseImpl(tables, false, line.objectExists, stack, [Started], line.tokens).1 then parsed
    else if AllConfirmed(signals, replies) && n < |signals| && replies.apply(n).Thrown? then stack
    else HandledStack(stack, signals, replies)
  }

  /** Up to the n-th signal the line shows, deletes or renames something. */
  predicate AsksFunction(signals: seq<Signal>, n: nat) {
    exists j | 0 <= j < |signals| && j <= n ::
      signals[j].FunctionShow? || signals[j].FunctionDelete? || signals[j].FunctionRename?
  }

  /**
   An accepted line: when every signal is confirmed and applied, the stack the handler computed by replaying the signals
   is the parser's own, up to generated names; when one confirmation is refused, or a function word's line does not
   complete, the stack is the one from before the line.
   */
  lemma AcceptedLine(tables: Tables, stack: Stack, line: Input, replies: Replies)
    requires tables.Valid()
    ensures !ParseImpl(tables, false, line.objectExists, stack, [Started], line.tokens).1 ==>
      LineResult(tables, stack, line, replies) == ParseLine(tables, line.objectExists, stack, line.tokens).0
    ensures ParseImpl(tables, false, line.objectExists, stack, [Started], line.tokens).1 ==>
      var (parsed, out) := ParseLine(tables, line.objectExists, stack, line.tokens);
      var signals := SignalsOf(out);
      var n := AppliedCount(signals, replies, 0);
      var result := LineResult(tables, stack, line, replies);
      && (AllConfirmed(signals, replies) && n == |signals| ==> AlikeStacks(parsed, result))
      && (!AllConfirmed(signals, replies) ==> result == stack)
      && (n < |signals| && (replies.apply(n).Thrown? || AsksFunction(signals, n)) ==> result == stack)
      && (AllConfirmed(signals, replies) && n < |signals| && !replies.apply(n).Thrown? && !AsksFunction(signals, n)
          ==> Replay(stack, Events(signals[..n])).Some?
              && AlikeStacks(Replay(stack, Events(signals[..n])).value, result))
  {
    if !ParseImpl(tables, false, line.objectExists, stack, [Started], line.tokens).1 {
      return;
    }
    hide ParseLine, ParseImpl, ConfirmAll, Replay, ApplyFirst;
    var (parsed, out) := ParseLine(tables, line.objectExists, stack, line.tokens);
    var signals := SignalsOf(out);
    AcceptedLineReplays(tables, line.objectExists, stack, line.tokens);
    ReplaySignals(stack, out);
    var n := AppliedCount(signals, replies, 0);
    AppliedAlike(stack, signals, replies, n);
    assert signals[..|signals|] == signals;
  }
}
