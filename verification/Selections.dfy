/** What the deletion of a selection removes: the line as it was typed, down to the objects on the server. */
module Selections {
  import opened Core
  import opened Database
  import opened DbInteractions
  import opened Expansion
  import opened Functions
  import opened Grammar
  import opened PathText
  import opened PhraseLines
  import opened Phrases
  import opened Reachability
  import opened Schema
  import opened ScriptLines

  /** What a selection inside the named block stands for: existing objects of the kind, embedded there, that satisfy the filter. */
  predicate Chosen(db: Db, stack: Stack, item: Item, o: Object)
    requires FilterFree(stack) && item.Flt?
  {
    && o in db.objects && o.kind == item.kind && o.name != []
    && (item.filter.Some? ==> Matches(db, item.filter.value, o))
    && (stack != [] ==> DropLast(o.name) == StackPath(stack))
  }

  lemma DenotedChosen(db: Db, stack: Stack, item: Item, o: Object)
    requires FilterFree(stack) && item.Flt?
    ensures Denoted(db, stack + [item], o) <==> Chosen(db, stack, item, o)
  {
    hide Matches;
    var whole := stack + [item];
    assert DropLast(whole) == stack && Last(whole) == item;
    if stack != [] && o.name != [] {
      assert o.name == DropLast(o.name) + [Last(o.name)];
      assert Outer(whole, o).kind == Last(stack).kind by { assert whole[|whole| - 2] == Last(stack); }
      FilterFreeDenotes(db, stack, Outer(whole, o));
    }
  }

  /** An object goes exactly if it is chosen or inside something that is. */
  ghost predicate ChosenGone(before: Db, after: Db, stack: Stack, item: Item)
    requires FilterFree(stack) && item.Flt?
  {
    forall x :: x in after.objects <==>
      x in before.objects && !exists o :: Chosen(before, stack, item, o) && (x == o || Reachable(before, Nested, o, x))
  }

  lemma DeletedChosen(before: Db, after: Db, stack: Stack, item: Item)
    requires FilterFree(stack) && item.Flt? && DeletedWithInside(before, after, stack + [item])
    ensures ChosenGone(before, after, stack, item)
  {
    hide Denoted, Chosen, Reachable;
    forall o ensures Denoted(before, stack + [item], o) <==> Chosen(before, stack, item, o) {
      DenotedChosen(before, stack, item, o);
    }
    forall x ensures x in after.objects <==>
      x in before.objects && !exists o :: Chosen(before, stack, item, o) && (x == o || Reachable(before, Nested, o, x))
    {
      assert InsideDenoted(before, stack + [item], x) <==>
        exists o :: Chosen(before, stack, item, o) && Reachable(before, Nested, o, x);
    }
  }

  /** Every deletion that "delete kind where (filter)" or "delete all kind" asks for, if it is carried out. */
  lemma SelectionDeleted(tables: Tables, objectExists: Object -> bool, stack: Stack, p: Phrase, context: Stack,
      before: Db, after: Db)
    requires tables.Valid() && FilterFree(stack) && (p.Where? || p.All?)
    requires KeywordsFree(tables, stack) && p.kind !in KEYWORDS
    requires var (st, ok) := ParseImpl(tables, false, objectExists, stack, [Started], LineOf(Mode.Delete, p, ""));
      ok && Sent(FunctionDelete(context)) in st.out
    requires DeletedWithInside(before, after, context)
    ensures context == stack + [Selection(p)]
    ensures ChosenGone(before, after, stack, Selection(p))
  {
    hide ParseImpl, DeletedWithInside, ChosenGone, KeywordsFree;
    SelectionLine(tables, objectExists, Mode.Delete, stack, p, "");
    DeletedChosen(before, after, stack, Selection(p));
  }

  /** Whatever is open around the selection: nothing goes that is not selected or inside something selected. */
  lemma OnlySelectedGo(before: Db, after: Db, stack: Stack, item: Item, x: Object) returns (o: Object)
    requires item.Flt? && DeletedWithInside(before, after, stack + [item])
    requires x in before.objects && x !in after.objects
    ensures o in before.objects && o.kind == item.kind && (item.filter.Some? ==> Matches(before, item.filter.value, o))
    ensures x == o || Reachable(before, Nested, o, x)
  {
    hide Reachable, Matches;
    var whole := stack + [item];
    assert Last(whole) == item;
    if Denoted(before, whole, x) {
      o := x;
    } else {
      o :| Denoted(before, whole, o) && Reachable(before, Nested, o, x);
    }
  }
}
