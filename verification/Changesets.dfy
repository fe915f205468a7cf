/**
 Changesets as the commands start, resume, commit, detach, abort and rebase move them between the server and the user
 interface. What can fail where the code looks for failures is a parameter of the command.
 */
module Changesets {
  import opened Core
  import opened Rebase

  type Id = nat
  type Revision = nat

  datatype Changeset = Changeset(parent: Revision, content: seq<Modification>, locked: bool)

  /** The failures rebase is prepared for. */
  datatype Faults = Faults(lockOld: bool, lockNew: bool, createTemp: bool, openTemp: bool, reopenTemp: bool, unlock: bool)

  /** One executed line of the edited script: what it changed, and whether it succeeded. */
  datatype Executed = Executed(changes: seq<Modification>, succeeded: bool)

  function AllChanges(lines: seq<Executed>): seq<Modification> {
    if lines == [] then [] else AllChanges(DropLast(lines)) + Last(lines).changes
  }

  predicate AllSucceed(lines: seq<Executed>) {
    forall i | 0 <= i < |lines| :: lines[i].succeeded
  }

  /** Nothing goes wrong on the way to the script, and all its lines succeed. */
  predicate Smooth(faults: Faults, lines: seq<Executed>) {
    ScriptReady(faults) && AllSucceed(lines)
  }

  /** The script is reached: nothing fails in front of it. */
  predicate ScriptReady(faults: Faults) {
    !faults.lockOld && !faults.lockNew && !faults.createTemp && !faults.openTemp && !faults.reopenTemp
  }

  /** The server and the user interface between two commands. */
  datatype Snapshot = Snapshot(pending: map<Id, Changeset>, head: Revision, nextId: Id, current: Option<Id>,
    contextStack: Stack, nonInteractive: bool)

  class Session {
    // The server
    var pending: map<Id, Changeset>
    var attached: Option<Id>
    var head: Revision
    var nextId: Id
    // The user interface
    var currentChangeset: Option<Id>
    var contextStack: Stack
    var nonInteractiveMode: bool

    /** Between two commands the user interface knows which changeset the server has attached. */
    predicate Valid()
      reads this
    {
      && currentChangeset == attached
      && ServerValid()
    }

    predicate ServerValid()
      reads this
    {
      && (attached.Some? ==> attached.value in pending)
      && (forall id | id in pending :: id < nextId)
    }

    ghost function State(): Snapshot
      reads this
    {
      Snapshot(pending, head, nextId, currentChangeset, contextStack, nonInteractiveMode)
    }

    constructor (head: Revision)
      ensures Valid() && currentChangeset == None && pending == map[] && this.head == head && contextStack == []
    {
      pending, attached, this.head, nextId := map[], None, head, 0;
      currentChangeset, contextStack, nonInteractiveMode := None, [], false;
    }

    // ---- The server's side, as DbInteraction passes it on ----

    method CreateNewChangeset() returns (id: Id)
      requires ServerValid() && attached == None
      modifies `pending, `attached, `nextId
      ensures ServerValid() && id == old(nextId) && nextId == id + 1 && attached == Some(id)
      ensures pending == old(pending)[id := Changeset(head, [], false)]
    {
      id := nextId;
      nextId := nextId + 1;
      pending := pending[id := Changeset(head, [], false)];
      attached := Some(id);
    }

    /** A changeset that does not exist cannot be resumed. */
    method ResumeChangeset(id: Id) returns (ok: bool)
      requires ServerValid() && attached == None
      modifies `attached
      ensures ServerValid() && ok == (id in pending) && attached == if ok then Some(id) else None
    {
      ok := id in pending;
      if ok {
        attached := Some(id);
      }
    }

    method DetachFromChangeset()
      requires ServerValid() && attached.Some?
      modifies `attached
      ensures ServerValid() && attached == None
    {
      attached := None;
    }

    method AbortChangeset()
      requires ServerValid() && attached.Some?
      modifies `pending, `attached
      ensures ServerValid() && attached == None && pending == old(pending) - {old(attached).value}
    {
      pending := pending - {attached.value};
      attached := None;
    }

    /** Locks or unlocks the attached changeset unless that fails. */
    method SetLock(locked: bool, fails: bool) returns (ok: bool)
      requires ServerValid() && attached.Some?
      modifies `pending
      ensures ServerValid() && ok == !fails
      ensures pending == if ok then old(pending)[attached.value := old(pending)[attached.value].(locked := locked)] else old(pending)
    {
      ok := !fails;
      if ok {
        pending := pending[attached.value := pending[attached.value].(locked := locked)];
      }
    }

    method Modify(changes: seq<Modification>)
      requires ServerValid() && attached.Some?
      modifies `pending
      ensures ServerValid()
      ensures var was := old(pending)[attached.value];
        pending == old(pending)[attached.value := was.(content := was.content + changes)]
    {
      var changeset := pending[attached.value];
      pending := pending[attached.value := changeset.(content := changeset.content + changes)];
    }

    // ---- Commands ----

    method Start(params: string) returns (ok: bool)
      requires Valid()
      modifies `pending, `attached, `nextId, `currentChangeset
      ensures Valid()
      ensures ok == (params == "" && old(currentChangeset) == None)
      ensures nextId == old(nextId) + (if ok then 1 else 0)
      ensures if ok then currentChangeset == Some(old(nextId))
                         && pending == old(pending)[old(nextId) := Changeset(head, [], false)]
              else currentChangeset == old(currentChangeset) && pending == old(pending)
    {
      if params != "" || currentChangeset.Some? {
        return false;
      }
      var id := CreateNewChangeset();
      currentChangeset := Some(id);
      return true;
    }

    /** refused: the server will not let this session have the changeset. */
    method Resume(id: Id, refused: bool) returns (ok: bool)
      requires Valid()
      modifies `attached, `currentChangeset
      ensures Valid()
      ensures ok == (old(currentChangeset) == None && !refused && id in pending)
      ensures currentChangeset == if ok then Some(id) else old(currentChangeset)
    {
      if currentChangeset.Some? || refused {
        return false;
      }
      ok := ResumeChangeset(id);
      if ok {
        currentChangeset := Some(id);
      }
    }

    /** violated: a constraint does not hold; a changeset whose parent is not the head cannot be committed either. */
    method Commit(params: string, violated: bool) returns (ok: bool)
      requires Valid()
      modifies `pending, `attached, `head, `currentChangeset, `contextStack
      ensures Valid()
      ensures ok == (old(currentChangeset).Some? && !(params == "" && nonInteractiveMode) && !violated
                     && old(pending[currentChangeset.value].parent) == old(head))
      ensures if ok then currentChangeset == None && pending == old(pending) - {old(currentChangeset).value}
                         && head == old(head) + 1 && contextStack == []
              else currentChangeset == old(currentChangeset) && pending == old(pending) && head == old(head)
                   && contextStack == old(contextStack)
    {
      if currentChangeset.None? || (params == "" && nonInteractiveMode) {
        return false;
      }
      if violated || pending[attached.value].parent != head {
        return false;
      }
      pending := pending - {attached.value};
      attached := None;
      head := head + 1;
      currentChangeset := None;
      contextStack := [];
      return true;
    }

    method Detach(params: string) returns (ok: bool)
      requires Valid()
      modifies `attached, `currentChangeset, `contextStack
      ensures Valid()
      ensures ok == (old(currentChangeset).Some? && !(params == "" && nonInteractiveMode))
      ensures if ok then currentChangeset == None && contextStack == []
              else currentChangeset == old(currentChangeset) && contextStack == old(contextStack)
    {
      if currentChangeset.None? || (params == "" && nonInteractiveMode) {
        return false;
      }
      DetachFromChangeset();
      currentChangeset := None;
      contextStack := [];
      return true;
    }

    method Abort(params: string, confirmed: bool) returns (ok: bool)
      requires Valid()
      modifies `pending, `attached, `currentChangeset, `contextStack
      ensures Valid()
      ensures ok == (params == "" && old(currentChangeset).Some? && (nonInteractiveMode || confirmed))
      ensures if ok then currentChangeset == None && contextStack == [] && pending == old(pending) - {old(currentChangeset).value}
              else currentChangeset == old(currentChangeset) && contextStack == old(contextStack) && pending == old(pending)
    {
      if params != "" || currentChangeset.None? {
        return false;
      }
      if !nonInteractiveMode && !confirmed {
        return false;
      }
      AbortChangeset();
      currentChangeset := None;
      contextStack := [];
      return true;
    }

    // ---- Rebase ----

    /** Gives up: the new changeset is aborted and the old one resumed and unlocked. */
    method BackToOld(oldChangeset: Id, faults: Faults)
      requires ServerValid() && attached.Some? && attached.value != oldChangeset && oldChangeset in pending
      modifies `pending, `attached
      ensures ServerValid() && attached == Some(oldChangeset)
      ensures var rest := old(pending) - {old(attached).value};
        pending == if faults.unlock then rest else rest[oldChangeset := rest[oldChangeset].(locked := false)]
    {
      AbortChangeset();
      var resumed := ResumeChangeset(oldChangeset);
      var _ := SetLock(false, faults.unlock);
    }

    /** Executes the edited script in the attached changeset up to the first line that fails. */
    method ExecuteScript(lines: seq<Executed>) returns (parsingFailed: bool, ghost executed: nat)
      requires ServerValid() && attached.Some?
      modifies `pending, `contextStack, `nonInteractiveMode
      ensures ServerValid() && contextStack == [] && !nonInteractiveMode
      ensures parsingFailed == !AllSucceed(lines)
      ensures executed <= |lines| && forall i | 0 <= i < executed - 1 :: lines[i].succeeded
      ensures if parsingFailed then executed > 0 && !lines[executed - 1].succeeded else executed == |lines|
      ensures var was := old(pending)[attached.value];
        pending == old(pending)[attached.value := was.(content := was.content + AllChanges(lines[..executed]))]
    {
      nonInteractiveMode := true;
      contextStack := [];
      parsingFailed := false;
      var lineNumber := 0;
      assert lines[..0] == [];
      NothingAppended(pending, attached.value);
      while lineNumber < |lines| && !parsingFailed
        invariant 0 <= lineNumber <= |lines| && ServerValid() && attached == old(attached)
        invariant parsingFailed ==> lineNumber > 0 && !lines[lineNumber - 1].succeeded
        invariant forall i | 0 <= i < lineNumber - 1 :: lines[i].succeeded
        invariant !parsingFailed ==> forall i | 0 <= i < lineNumber :: lines[i].succeeded
        invariant var was := old(pending)[attached.value];
          pending == old(pending)[attached.value := was.(content := was.content + AllChanges(lines[..lineNumber]))]
        decreases |lines| - lineNumber
      {
        ghost var was := old(pending)[attached.value];
        AppendChanges(was.content, lines, lineNumber);
        Modify(lines[lineNumber].changes);
        parsingFailed := !lines[lineNumber].succeeded;
        lineNumber := lineNumber + 1;
      }
      executed := lineNumber;
      contextStack := [];
      nonInteractiveMode := false;
    }

    /** Whether there is anything to do and it may be done. */
    predicate Wanted(params: string)
      reads this
      requires Valid()
    {
      params == "" && currentChangeset.Some? && pending[currentChangeset.value].parent != head && !nonInteractiveMode
    }

    /**
     Either the old changeset stays attached, its content and all others unchanged, or it has been replaced by a new one on
     top of the head that holds exactly what the script did; the latter exactly when nothing failed on the way.
     */
    method Rebase(params: string, faults: Faults, lines: seq<Executed>) returns (ok: bool)
      requires Valid()
      modifies this
      ensures Valid() && head == old(head) && nonInteractiveMode == old(nonInteractiveMode)
      ensures nextId == old(nextId) + (if old(Wanted(params)) && !faults.lockOld then 1 else 0)
      ensures contextStack == if old(Wanted(params)) && ScriptReady(faults) then [] else old(contextStack)
      ensures old(Wanted(params)) && Smooth(faults, lines) ==>
        && currentChangeset == Some(old(nextId))
        && pending == (old(pending) - {old(currentChangeset).value})
                      [old(nextId) := Changeset(head, AllChanges(lines), faults.unlock)]
        && ok == !faults.unlock
      ensures !(old(Wanted(params)) && Smooth(faults, lines)) ==>
        && currentChangeset == old(currentChangeset)
        && SameButLock(old(pending), pending, currentChangeset)
        && (ok <==> params == "" && currentChangeset.Some? && pending[currentChangeset.value].parent == head)
      ensures !(old(Wanted(params)) && Smooth(faults, lines)) && currentChangeset.Some? ==>
        pending[currentChangeset.value].locked ==
          (if old(Wanted(params)) && !faults.lockOld then faults.unlock else old(pending[currentChangeset.value].locked))
    {
      if params != "" || currentChangeset.None? {
        return false;
      }
      if head == pending[currentChangeset.value].parent {
        return true;
      }
      if nonInteractiveMode {
        return false;
      }
      ok := RebaseOnHead(faults, lines);
    }

    /** From the first lock on. */
    method RebaseOnHead(faults: Faults, lines: seq<Executed>) returns (ok: bool)
      requires Valid() && currentChangeset.Some? && !nonInteractiveMode
      modifies this
      ensures Valid() && head == old(head) && nonInteractiveMode == old(nonInteractiveMode)
      ensures nextId == old(nextId) + (if faults.lockOld then 0 else 1)
      ensures contextStack == if ScriptReady(faults) then [] else old(contextStack)
      ensures Smooth(faults, lines) ==>
        && currentChangeset == Some(old(nextId))
        && pending == (old(pending) - {old(currentChangeset).value})
                      [old(nextId) := Changeset(head, AllChanges(lines), faults.unlock)]
        && ok == !faults.unlock
      ensures !Smooth(faults, lines) ==>
        && !ok && currentChangeset == old(currentChangeset)
        && SameButLock(old(pending), pending, currentChangeset)
        && pending[currentChangeset.value].locked ==
             (if faults.lockOld then old(pending[currentChangeset.value].locked) else faults.unlock)
    {
      hide AllSucceed, AllChanges, SameButLock;
      var oldChangeset := currentChangeset.value;
      ghost var before := pending;
      var locked := SetLock(true, faults.lockOld);
      if !locked {
        SameMap(before, currentChangeset);
        return false;
      }
      DetachFromChangeset();
      var newChangeset := CreateNewChangeset();
      locked := SetLock(true, faults.lockNew);
      ok := InNew(before, oldChangeset, newChangeset, locked, faults, lines);
    }

    /** With the new changeset attached. */
    method InNew(ghost before: map<Id, Changeset>, oldChangeset: Id, newChangeset: Id, locked: bool, faults: Faults,
        lines: seq<Executed>)
      returns (ok: bool)
      requires locked == !faults.lockNew
      requires ServerValid() && attached == Some(newChangeset) && currentChangeset == Some(oldChangeset)
      requires oldChangeset in before && newChangeset !in before && pending.Keys == before.Keys + {newChangeset}
      requires forall id | id in before && id != oldChangeset :: pending[id] == before[id]
      requires pending[oldChangeset] == before[oldChangeset].(locked := true)
      requires pending[newChangeset] == Changeset(head, [], !faults.lockNew)
      requires !faults.lockOld && !nonInteractiveMode
      modifies this
      ensures Valid() && head == old(head) && nextId == old(nextId) && !nonInteractiveMode
      ensures contextStack == if ScriptReady(faults) then [] else old(contextStack)
      ensures Smooth(faults, lines) ==>
        && currentChangeset == Some(newChangeset)
        && pending == (before - {oldChangeset})[newChangeset := Changeset(head, AllChanges(lines), faults.unlock)]
        && ok == !faults.unlock
      ensures !Smooth(faults, lines) ==>
        && !ok && currentChangeset == Some(oldChangeset)
        && SameButLock(before, pending, currentChangeset)
        && pending[oldChangeset].locked == faults.unlock
    {
      hide AllSucceed, AllChanges, SameButLock;
      ghost var during := pending;
      if !locked || faults.createTemp || faults.openTemp || faults.reopenTemp {
        BackToOld(oldChangeset, faults);
        OnlyLocked(before, pending, oldChangeset);
        return false;
      }
      ok := ApplyScript(oldChangeset, newChangeset, faults, lines);
      if AllSucceed(lines) {
        Replaced(before, during, oldChangeset, newChangeset, Changeset(head, AllChanges(lines), faults.unlock));
      } else {
        OnlyLocked(before, pending, oldChangeset);
      }
    }

    /** Executes the script in the new changeset, and lets it replace the old one if it went through. */
    method ApplyScript(oldChangeset: Id, newChangeset: Id, faults: Faults, lines: seq<Executed>) returns (ok: bool)
      requires ServerValid() && attached == Some(newChangeset) && oldChangeset in pending && newChangeset != oldChangeset
      requires currentChangeset == Some(oldChangeset)
      requires pending[newChangeset].content == [] && pending[newChangeset].locked
      modifies this
      ensures Valid() && head == old(head) && nextId == old(nextId) && !nonInteractiveMode && contextStack == []
      ensures AllSucceed(lines) ==>
        && currentChangeset == Some(newChangeset)
        && pending == (old(pending) - {oldChangeset})
                      [newChangeset := Changeset(old(pending)[newChangeset].parent, AllChanges(lines), faults.unlock)]
        && ok == !faults.unlock
      ensures !AllSucceed(lines) ==>
        && !ok && currentChangeset == old(currentChangeset)
        && pending.Keys == old(pending).Keys - {newChangeset}
        && (forall id | id in pending && id != oldChangeset :: pending[id] == old(pending)[id])
        && pending[oldChangeset] == (if faults.unlock then old(pending)[oldChangeset]
                                     else old(pending)[oldChangeset].(locked := false))
    {
      var parsingFailed, executed := ExecuteScript(lines);
      assert lines[..|lines|] == lines;
      if parsingFailed {
        BackToOld(oldChangeset, faults);
        return false;
      }
      assert [] + AllChanges(lines) == AllChanges(lines);
      DetachFromChangeset();
      var resumed := ResumeChangeset(oldChangeset);
      AbortChangeset();
      resumed := ResumeChangeset(newChangeset);
      currentChangeset := Some(newChangeset);
      ok := SetLock(false, faults.unlock);
    }
  }

  lemma NothingAppended(pending: map<Id, Changeset>, id: Id)
    requires id in pending
    ensures pending[id := pending[id].(content := pending[id].content + AllChanges([]))] == pending
  {
    assert pending[id].content + [] == pending[id].content;
  }

  lemma AppendChanges(content: seq<Modification>, lines: seq<Executed>, n: nat)
    requires n < |lines|
    ensures content + AllChanges(lines[..n + 1]) == (content + AllChanges(lines[..n])) + lines[n].changes
  {
    assert DropLast(lines[..n + 1]) == lines[..n] && Last(lines[..n + 1]) == lines[n];
  }

  /** The same changesets with the same parents and contents; only the lock of the given one may differ. */
  predicate SameButLock(before: map<Id, Changeset>, after: map<Id, Changeset>, current: Option<Id>) {
    && after.Keys == before.Keys
    && (forall id | id in after :: after[id].parent == before[id].parent && after[id].content == before[id].content)
    && (forall id | id in after && Some(id) != current :: after[id] == before[id])
  }

  lemma SameMap(pending: map<Id, Changeset>, current: Option<Id>)
    ensures SameButLock(pending, pending, current)
  {
  }

  /** All is as before, but for the lock of one. */
  lemma OnlyLocked(before: map<Id, Changeset>, after: map<Id, Changeset>, id: Id)
    requires id in before && after.Keys == before.Keys && after[id] == before[id].(locked := after[id].locked)
    requires forall other | other in after && other != id :: after[other] == before[other]
    ensures SameButLock(before, after, Some(id))
  {
  }

  /** Locking the old one and creating the new one leave no trace when the new one has taken its place. */
  lemma Replaced(before: map<Id, Changeset>, during: map<Id, Changeset>, oldId: Id, newId: Id, changeset: Changeset)
    requires oldId in before && newId !in before && during.Keys == before.Keys + {newId}
    requires forall other | other in before && other != oldId :: during[other] == before[other]
    ensures (during - {oldId})[newId := changeset] == (before - {oldId})[newId := changeset]
  {
  }

  datatype Command =
    | StartCommand(params: string)
    | ResumeCommand(id: Id, refused: bool)
    | CommitCommand(params: string, violated: bool)
    | DetachCommand(params: string)
    | AbortCommand(params: string, confirmed: bool)
    | RebaseCommand(params: string, faults: Faults, lines: seq<Executed>)

  /** What a command does; a rebase that gives up may leave the old changeset's lock changed, and uses up an id. */
  predicate Does(command: Command, before: Snapshot, after: Snapshot)
    requires before.current.Some? ==> before.current.value in before.pending
  {
    match command
    case StartCommand(params) =>
      after == if params == "" && before.current.None? then before.(current := Some(before.nextId),
        pending := before.pending[before.nextId := Changeset(before.head, [], false)], nextId := before.nextId + 1) else before
    case ResumeCommand(id, refused) =>
      after == if before.current.None? && !refused && id in before.pending then before.(current := Some(id)) else before
    case CommitCommand(params, violated) =>
      after == if before.current.Some? && !(params == "" && before.nonInteractive) && !violated
                  && before.pending[before.current.value].parent == before.head
               then Left(before).(head := before.head + 1, pending := before.pending - {before.current.value}) else before
    case DetachCommand(params) =>
      after == if before.current.Some? && !(params == "" && before.nonInteractive) then Left(before) else before
    case AbortCommand(params, confirmed) =>
      after == if params == "" && before.current.Some? && (before.nonInteractive || confirmed)
               then Left(before).(pending := before.pending - {before.current.value}) else before
    case RebaseCommand(params, faults, lines) =>
      var wanted := params == "" && before.current.Some? && !before.nonInteractive
        && before.pending[before.current.value].parent != before.head;
      if !wanted then after == before
      else
        var stack := if ScriptReady(faults) then [] else before.contextStack;
        if Smooth(faults, lines) then
          after == Snapshot(
            (before.pending - {before.current.value})[before.nextId := Changeset(before.head, AllChanges(lines), faults.unlock)],
            before.head, before.nextId + 1, Some(before.nextId), stack, false)
        else
          && SameButLock(before.pending, after.pending, before.current)
          && after == before.(pending := after.pending, contextStack := stack,
                nextId := before.nextId + (if faults.lockOld then 0 else 1))
  }

  /** Out of the changeset, which also closes all blocks. */
  function Left(before: Snapshot): Snapshot {
    before.(current := None, contextStack := [])
  }

  /** What holds between any two commands. */
  predicate Settled(s: Snapshot) {
    && (s.current.Some? ==> s.current.value in s.pending)
    && forall id | id in s.pending :: id < s.nextId
  }

  /** One snapshot in front of the commands and one behind each. */
  predicate Trace(commands: seq<Command>, states: seq<Snapshot>) {
    && |states| == |commands| + 1
    && (forall i | 0 <= i < |states| :: Settled(states[i]))
    && forall i, j | 0 <= i < |commands| && j == i + 1 :: Does(commands[i], states[i], states[j])
  }

  /** One command does what it should. */
  method ExecuteOne(session: Session, command: Command)
    requires session.Valid()
    modifies session
    ensures session.Valid() && Settled(old(session.State())) && Does(command, old(session.State()), session.State())
    ensures Settled(session.State())
  {
    hide Smooth, SameButLock, ScriptReady;
    match command {
      case StartCommand(params) => var _ := session.Start(params);
      case ResumeCommand(id, refused) => var _ := session.Resume(id, refused);
      case CommitCommand(params, violated) => var _ := session.Commit(params, violated);
      case DetachCommand(params) => var _ := session.Detach(params);
      case AbortCommand(params, confirmed) => var _ := session.Abort(params, confirmed);
      case RebaseCommand(params, faults, lines) => var _ := session.Rebase(params, faults, lines);
    }
  }

  /** Every command of a sequence is executed, and in between user interface and server agree on the attached changeset. */
  method Execute(session: Session, commands: seq<Command>) returns (ghost states: seq<Snapshot>)
    requires session.Valid()
    modifies session
    ensures session.Valid()
    ensures Trace(commands, states) && states[0] == old(session.State()) && Last(states) == session.State()
  {
    hide Does;
    states := [session.State()];
    for i := 0 to |commands|
      invariant session.Valid() && Trace(commands[..i], states)
      invariant states[0] == old(session.State()) && Last(states) == session.State()
    {
      ExecuteOne(session, commands[i]);
      ghost var more := states + [session.State()];
      forall j, k | 0 <= j < i + 1 && k == j + 1 ensures Does(commands[..i + 1][j], more[j], more[k]) {
        if j < i {
          assert commands[..i][j] == commands[..i + 1][j];
        }
      }
      states := more;
    }
    assert commands[..|commands|] == commands;
  }

  // ---- Whole runs ----

  /** One command keeps what it does not work on, never gives an id again, and moves the head only by a commit. */
  lemma OneCommand(command: Command, before: Snapshot, after: Snapshot, id: Id)
    requires Settled(before) && Does(command, before, after)
    ensures id in before.pending && before.current != Some(id) ==> id in after.pending && after.pending[id] == before.pending[id]
    ensures id < before.nextId && id !in before.pending ==> id !in after.pending
    ensures before.nextId <= after.nextId
    ensures after.head == before.head || (command.CommitCommand? && after.head == before.head + 1)
    ensures after.current == Some(id) && before.current != Some(id) ==>
      (before.current.None? && id in before.pending) || id == before.nextId
  {
  }

  /** Over any run a changeset that is never attached stays as it was, and an id that has been used up never returns. */
  lemma {:induction false} OthersUntouched(commands: seq<Command>, states: seq<Snapshot>, id: Id)
    requires Trace(commands, states) && id < states[0].nextId
    requires id in states[0].pending ==> forall i | 0 <= i < |commands| :: states[i].current != Some(id)
    ensures if id in states[0].pending then id in Last(states).pending && Last(states).pending[id] == states[0].pending[id]
      else id !in Last(states).pending
    ensures states[0].nextId <= Last(states).nextId
    decreases |commands|
  {
    hide Does, Settled;
    if commands != [] {
      var n := |commands|;
      ShorterTrace(commands, states);
      assert DropLast(states)[0] == states[0] && Last(DropLast(states)) == states[n - 1];
      assert forall i | 0 <= i < n - 1 :: DropLast(states)[i] == states[i];
      OthersUntouched(DropLast(commands), DropLast(states), id);
      OneCommand(commands[n - 1], states[n - 1], states[n], id);
    }
  }

  lemma ShorterTrace(commands: seq<Command>, states: seq<Snapshot>)
    requires Trace(commands, states) && commands != []
    ensures Trace(DropLast(commands), DropLast(states))
    ensures var n := |commands|;
      Settled(states[n - 1]) && Settled(states[n]) && Does(commands[n - 1], states[n - 1], states[n])
  {
    hide Does, Settled;
  }

  function Commits(commands: seq<Command>): nat {
    if commands == [] then 0 else Commits(DropLast(commands)) + if Last(commands).CommitCommand? then 1 else 0
  }

  /** No changeset is based on a revision that does not exist, and the head moves by at most one for each commit. */
  lemma {:induction false} HeadMovesByCommits(commands: seq<Command>, states: seq<Snapshot>)
    requires Trace(commands, states) && Based(states[0])
    ensures Based(Last(states))
    ensures states[0].head <= Last(states).head <= states[0].head + Commits(commands)
    decreases |commands|
  {
    hide Does, Settled, Based;
    if commands != [] {
      var n := |commands|;
      ShorterTrace(commands, states);
      assert DropLast(states)[0] == states[0] && Last(DropLast(states)) == states[n - 1];
      HeadMovesByCommits(DropLast(commands), DropLast(states));
      OneCommand(commands[n - 1], states[n - 1], states[n], 0);
      StaysBased(commands[n - 1], states[n - 1], states[n]);
    }
  }

  predicate Based(s: Snapshot) {
    forall id | id in s.pending :: s.pending[id].parent <= s.head
  }

  lemma StaysBased(command: Command, before: Snapshot, after: Snapshot)
    requires Settled(before) && Does(command, before, after) && Based(before)
    ensures Based(after)
  {
  }
}
