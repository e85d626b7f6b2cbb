/** The values the tab-grouping code works on: Nova field objects and the
    entries of a field collection. */
module Fields {
  import opened Php

  /** A Nova field object. Only the two properties the grouping code touches
      are modelled: `panel`, which `assignToPanels` writes in place, and the
      `tab` entry of the field's `meta` array, which nothing here writes. */
  class Field {
    var panel: Option<string>
    const tab: Option<string>
  }

  /** The component name of every synthesised tab group. */
  const TabsComponent: string := "tabs"

  /** An item of a field collection: a field object, or the PHP array
      `['component' => …, 'panel' => …, 'fields' => […]]` that groups tab
      fields. */
  datatype Entry =
    | Plain(field: Field)
    | Group(component: string, panel: Option<string>, fields: seq<Field>)

  /** The field's `meta` has a non-null `tab` entry: it belongs in a tab group. */
  predicate IsTabField(f: Field)
  {
    f.tab.Some?
  }

  /** The key of the field's tab group in the group array: its panel as an array key. */
  function Key(f: Field): string
    reads f
  {
    ArrayKey(f.panel)
  }

  /** The field collection whose items are exactly `fs`, in order. */
  function Plains(fs: seq<Field>): seq<Entry>
  {
    seq(|fs|, i requires 0 <= i < |fs| => Plain(fs[i]))
  }

  /** Every field object held by a collection, plain ones and grouped ones, in order. */
  function Flatten(es: seq<Entry>): seq<Field>
  {
    if es == [] then []
    else (match es[0] case Plain(f) => [f] case Group(_, _, gs) => gs) + Flatten(es[1..])
  }

  /** The field objects that stand directly in the collection (not inside a group). */
  function PlainFieldSet(es: seq<Entry>): set<Field>
  {
    set i | 0 <= i < |es| && es[i].Plain? :: es[i].field
  }

  lemma {:induction false} FlattenAppend(a: seq<Entry>, b: seq<Entry>)
    ensures Flatten(a + b) == Flatten(a) + Flatten(b)
  {
    if a == [] {
      assert a + b == b;
    } else {
      assert (a + b)[0] == a[0];
      assert (a + b)[1..] == a[1..] + b;
      FlattenAppend(a[1..], b);
    }
  }

  /** The fields a collection of plain entries holds are the fields it was made of. */
  lemma {:induction false} FlattenPlains(fs: seq<Field>)
    ensures Flatten(Plains(fs)) == fs
  {
    if fs != [] {
      assert Plains(fs)[1..] == Plains(fs[1..]);
      FlattenPlains(fs[1..]);
    }
  }
}
