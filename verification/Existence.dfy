/**
 The modifications the client sends to the server, and what they mean for a cache of existence answers. The cache is
 sound when every cached answer about a completely named object agrees with the server.
 */
module Existence {
  import opened Core
  import opened PathText
  import opened Schema
  import opened Database

  type Cache = map<Object, bool>

  datatype Change = Create(o: Object) | Delete(o: Object) | Rename(o: Object, newName: Ident)

  predicate Named(o: Object) {
    o.name != [] && Last(o.name) != ""
  }

  predicate Sound(cache: Cache, objects: set<Object>) {
    forall o | o in cache && Named(o) :: cache[o] <==> o in objects
  }

  // ---- What the server does ----

  /** The server completes a missing last part of the name. */
  function Completed(generated: Ident, o: Object): Object {
    if o.name == [] || Last(o.name) != "" then o else Object(o.kind, DropLast(o.name) + [generated])
  }

  /** x is embedded, at any depth, in o. */
  predicate Below(r: Relations, o: Object, x: Object)
    decreases |x.name|
  {
    && x.kind in r.embeddedInto && |x.name| > 1
    && (Parent(r, x) == o || Below(r, o, Parent(r, x)))
  }

  function Renamed(o: Object, newName: Ident): Object
    requires o.name != []
  {
    Object(o.kind, DropLast(o.name) + [newName])
  }

  /** Renaming an object changes the qualified names of everything embedded in it. */
  function Moved(r: Relations, o: Object, newName: Ident, x: Object): Object
    requires o.name != []
  {
    if x == o then Renamed(o, newName)
    else if Below(r, o, x) && |o.name| <= |x.name| then Object(x.kind, x.name[|o.name| - 1 := newName])
    else x
  }

  function Applied(r: Relations, generated: Ident, objects: set<Object>, change: Change): set<Object> {
    match change
    case Create(o) => objects + {Completed(generated, o)}
    case Delete(o) => objects - {o}
    case Rename(o, newName) => if o.name == [] then objects else set x | x in objects :: Moved(r, o, newName, x)
  }

  /** What the server demands of a change; deleting an outer object alone is not refused. */
  predicate Acceptable(r: Relations, generated: Ident, objects: set<Object>, change: Change)
    requires Acyclic(r.embeddedInto)
  {
    match change
    case Create(o) =>
      var c := Completed(generated, o);
      c !in objects && Fits(r, c) && (c.kind in r.embeddedInto ==> c.name != [] && Parent(r, c) in objects)
    case Delete(o) => o in objects
    case Rename(o, newName) => o in objects && IsIdent(newName) && o.name != [] && Renamed(o, newName) !in objects
  }

  /** A batch; the i-th change completes a missing name with names[i]. */
  function AppliedAll(r: Relations, generated: seq<Ident>, objects: set<Object>, changes: seq<Change>): set<Object>
    requires |generated| == |changes|
    decreases |changes|
  {
    if changes == [] then objects
    else Applied(r, Last(generated), AppliedAll(r, DropLast(generated), objects, DropLast(changes)), Last(changes))
  }

  predicate AcceptableAll(r: Relations, generated: seq<Ident>, objects: set<Object>, changes: seq<Change>)
    requires Acyclic(r.embeddedInto) && |generated| == |changes|
    decreases |changes|
  {
    changes == [] ||
    (&& AcceptableAll(r, DropLast(generated), objects, DropLast(changes))
     && Acceptable(r, Last(generated), AppliedAll(r, DropLast(generated), objects, DropLast(changes)), Last(changes)))
  }

  // ---- Shape ----

  lemma {:induction false} BelowNames(r: Relations, o: Object, x: Object)
    requires Below(r, o, x)
    ensures o.name < x.name
    decreases |x.name|
  {
    assert x.name == DropLast(x.name) + [Last(x.name)];
    if Parent(r, x) != o {
      BelowNames(r, o, Parent(r, x));
    }
  }

  lemma AppliedFit(r: Relations, generated: Ident, objects: set<Object>, change: Change)
    requires Acyclic(r.embeddedInto) && AllFit(r, objects) && Acceptable(r, generated, objects, change)
    ensures AllFit(r, Applied(r, generated, objects, change))
  {
    hide Below, IsIdent;
    if change.Rename? {
      forall x | x in objects ensures Fits(r, Moved(r, change.o, change.newName, x)) {
        assert Fits(r, x) && Fits(r, change.o);
      }
    }
  }

  lemma {:induction false} AllAppliedFit(r: Relations, generated: seq<Ident>, objects: set<Object>, changes: seq<Change>)
    requires Acyclic(r.embeddedInto) && AllFit(r, objects) && |generated| == |changes|
    requires AcceptableAll(r, generated, objects, changes)
    ensures AllFit(r, AppliedAll(r, generated, objects, changes))
    decreases |changes|
  {
    hide Applied, Acceptable, AllFit;
    if changes != [] {
      AllAppliedFit(r, DropLast(generated), objects, DropLast(changes));
      AppliedFit(r, Last(generated), AppliedAll(r, DropLast(generated), objects, DropLast(changes)), Last(changes));
    }
  }

  // ---- Soundness under a change ----

  /** Creating a named object and noting that it exists. */
  lemma CreateKeepsSound(cache: Cache, objects: set<Object>, o: Object, generated: Ident)
    requires Sound(cache, objects) && Named(o)
    ensures Sound(cache[o := true], objects + {Completed(generated, o)})
  {
  }

  /**
   Letting the server choose the name notes only the incomplete name. Every sound cache stays sound exactly if the
   name was given.
   */
  lemma CreationSoundIffNamed(r: Relations, objects: set<Object>, o: Object, generated: Ident)
    requires Acyclic(r.embeddedInto) && Acceptable(r, generated, objects, Create(o)) && IsIdent(generated) && o.name != []
    ensures (forall cache | Sound(cache, objects) :: Sound(cache[o := true], Applied(r, generated, objects, Create(o))))
      <==> Named(o)
  {
    var after := Applied(r, generated, objects, Create(o));
    if Named(o) {
      forall cache | Sound(cache, objects) ensures Sound(cache[o := true], after) {
        CreateKeepsSound(cache, objects, o, generated);
      }
    } else {
      var actual := Completed(generated, o);
      var stale := map[actual := false];
      assert Sound(stale, objects);
      assert actual in stale[o := true] && Named(actual) && !stale[o := true][actual];
      assert !Sound(stale[o := true], after);
    }
  }

  lemma RenameOne(r: Relations, objects: set<Object>, o: Object, newName: Ident, generated: Ident)
    requires o.name != [] && o in objects && forall x | x in objects :: !Below(r, o, x)
    ensures Applied(r, generated, objects, Rename(o, newName)) == objects - {o} + {Renamed(o, newName)}
  {
    var after := Applied(r, generated, objects, Rename(o, newName));
    assert forall x | x in objects && x != o :: Moved(r, o, newName, x) == x;
    forall x | x in objects - {o} ensures x in after {
      assert Moved(r, o, newName, x) == x;
    }
    assert Moved(r, o, newName, o) == Renamed(o, newName);
  }

  lemma RenameKeepsSound(cache: Cache, r: Relations, objects: set<Object>, o: Object, newName: Ident, generated: Ident)
    requires Sound(cache, objects) && o.name != [] && o in objects && (forall x | x in objects :: !Below(r, o, x))
    requires Renamed(o, newName) !in objects
    ensures Sound(cache[o := false][Renamed(o, newName) := true], Applied(r, generated, objects, Rename(o, newName)))
  {
    RenameOne(r, objects, o, newName, generated);
  }

  /** A nested object has a new name after the renaming, and nothing else has taken its old one. */
  lemma NestedNameGone(r: Relations, objects: set<Object>, o: Object, newName: Ident, generated: Ident, nested: Object)
    requires o in objects && o.name != [] && Renamed(o, newName) !in objects
    requires nested in objects && Below(r, o, nested)
    ensures nested !in Applied(r, generated, objects, Rename(o, newName))
  {
    hide Below;
    var n := |o.name| - 1;
    assert Renamed(o, newName) != o;
    assert DropLast(o.name) + [Last(o.name)] == o.name;
    assert newName != Last(o.name);
    BelowNames(r, o, nested);
    assert nested.name[n] == o.name[n];
    forall x | x in objects ensures Moved(r, o, newName, x) != nested {
      if x != o && Below(r, o, x) && |o.name| <= |x.name| {
        assert Moved(r, o, newName, x).name[n] == newName;
      } else if x != o && Below(r, o, x) {
        BelowNames(r, o, x);
      }
    }
  }

  /** Renaming keeps every sound cache sound exactly if nothing is embedded in the renamed object. */
  lemma RenameSoundIffNothingNested(r: Relations, objects: set<Object>, o: Object, newName: Ident, generated: Ident)
    requires Acyclic(r.embeddedInto) && AllFit(r, objects)
    requires Acceptable(r, generated, objects, Rename(o, newName))
    ensures (forall cache | Sound(cache, objects) ::
      Sound(cache[o := false][Renamed(o, newName) := true], Applied(r, generated, objects, Rename(o, newName))))
      <==> (forall x | x in objects :: !Below(r, o, x))
  {
    hide Below, Applied, IsIdent;
    var after := Applied(r, generated, objects, Rename(o, newName));
    var target := Renamed(o, newName);
    if forall x | x in objects :: !Below(r, o, x) {
      forall cache | Sound(cache, objects) ensures Sound(cache[o := false][target := true], after) {
        RenameKeepsSound(cache, r, objects, o, newName, generated);
      }
    } else {
      var nested :| nested in objects && Below(r, o, nested);
      NestedNameGone(r, objects, o, newName, generated, nested);
      BelowNames(r, o, nested);
      var stale: Cache := map[nested := true];
      assert Sound(stale, objects);
      NestedStays(r, objects, o, nested, newName, stale);
      assert !Sound(stale[o := false][target := true], after);
    }
  }

  lemma NestedStays(r: Relations, objects: set<Object>, o: Object, nested: Object, newName: Ident, stale: Cache)
    requires Acyclic(r.embeddedInto) && AllFit(r, objects) && nested in objects && o.name < nested.name && o.name != []
    requires nested in stale && stale[nested]
    ensures var cache := stale[o := false][Renamed(o, newName) := true]; nested in cache && cache[nested] && Named(nested)
  {
    assert Fits(r, nested);
  }

  // ---- Batches ----

  lemma {:induction false} AllDeleted(r: Relations, generated: seq<Ident>, objects: set<Object>, changes: seq<Change>)
    requires |generated| == |changes| && forall c | c in changes :: c.Delete?
    ensures forall x :: x in AppliedAll(r, generated, objects, changes) <==> x in objects && Delete(x) !in changes
    decreases |changes|
  {
    if changes != [] {
      LastOrEarlier(changes);
      AllDeleted(r, DropLast(generated), objects, DropLast(changes));
      assert Last(changes) in changes;
      assert Last(changes) == Delete(Last(changes).o);
    }
  }

  lemma LastOrEarlier(changes: seq<Change>)
    requires changes != []
    ensures forall c :: c in changes <==> c in DropLast(changes) || c == Last(changes)
  {
    assert changes == DropLast(changes) + [Last(changes)];
  }

  lemma {:induction false} AllCreated(r: Relations, generated: seq<Ident>, objects: set<Object>, changes: seq<Change>)
    requires |generated| == |changes| && forall c | c in changes :: c.Create? && Named(c.o)
    ensures forall x :: x in AppliedAll(r, generated, objects, changes) <==> x in objects || Create(x) in changes
    decreases |changes|
  {
    if changes != [] {
      LastOrEarlier(changes);
      AllCreated(r, DropLast(generated), objects, DropLast(changes));
      assert Last(changes) in changes;
      assert Last(changes) == Create(Last(changes).o);
    }
  }

  /** What renameObjects writes into the cache. */
  function Noted(cache: Cache, objects: seq<Object>, newName: Ident): Cache
    requires forall o | o in objects :: o.name != []
    decreases |objects|
  {
    if objects == [] then cache
    else Noted(cache, DropLast(objects), newName)[Last(objects) := false][Renamed(Last(objects), newName) := true]
  }

  function Renamings(objects: seq<Object>, newName: Ident): (changes: seq<Change>)
    ensures |changes| == |objects| && forall i | 0 <= i < |objects| :: changes[i] == Rename(objects[i], newName)
  {
    seq(|objects|, i requires 0 <= i < |objects| => Rename(objects[i], newName))
  }

  predicate NothingBelow(r: Relations, o: Object, objects: set<Object>) {
    forall x | x in objects :: !Below(r, o, x)
  }

  lemma RenamedNotBelow(r: Relations, outer: Object, o: Object, newName: Ident)
    requires o.name != []
    ensures Below(r, outer, Renamed(o, newName)) <==> Below(r, outer, o)
  {
    assert DropLast(Renamed(o, newName).name) == DropLast(o.name);
  }

  /** An accepted batch of renamings of objects with nothing embedded in them keeps the cache sound. */
  lemma {:induction false} RenamingsKeepSound(r: Relations, generated: seq<Ident>, objects: set<Object>,
      renamed: seq<Object>, newName: Ident, cache: Cache)
    requires Acyclic(r.embeddedInto) && Sound(cache, objects) && |generated| == |renamed|
    requires AcceptableAll(r, generated, objects, Renamings(renamed, newName))
    requires forall o | o in renamed :: o.name != [] && NothingBelow(r, o, objects)
    ensures Sound(Noted(cache, renamed, newName), AppliedAll(r, generated, objects, Renamings(renamed, newName)))
    ensures forall outer | NothingBelow(r, outer, objects) ::
      NothingBelow(r, outer, AppliedAll(r, generated, objects, Renamings(renamed, newName)))
    decreases |renamed|
  {
    hide Sound, Below, Applied, Acyclic, IsIdent;
    if renamed != [] {
      var o, rest := Last(renamed), DropLast(renamed);
      assert DropLast(Renamings(renamed, newName)) == Renamings(rest, newName);
      RenamingsKeepSound(r, DropLast(generated), objects, rest, newName, cache);
      var middle := AppliedAll(r, DropLast(generated), objects, Renamings(rest, newName));
      OneMoreRenaming(r, middle, o, newName, Last(generated), Noted(cache, rest, newName));
    }
  }

  lemma OneMoreRenaming(r: Relations, objects: set<Object>, o: Object, newName: Ident, generated: Ident, cache: Cache)
    requires o.name != [] && o in objects && NothingBelow(r, o, objects) && Renamed(o, newName) !in objects
    requires Sound(cache, objects)
    ensures var after := Applied(r, generated, objects, Rename(o, newName));
      && Sound(cache[o := false][Renamed(o, newName) := true], after)
      && forall outer | NothingBelow(r, outer, objects) :: NothingBelow(r, outer, after)
  {
    hide Below, Sound, Applied;
    RenameKeepsSound(cache, r, objects, o, newName, generated);
    RenameOne(r, objects, o, newName, generated);
    forall outer | NothingBelow(r, outer, objects)
      ensures NothingBelow(r, outer, objects - {o} + {Renamed(o, newName)})
    {
      RenamedNotBelow(r, outer, o, newName);
    }
  }
}
