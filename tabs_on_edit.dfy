/** The two field-collection operations of the `TabsOnEdit` trait. */
module TabsOnEdit {
  import opened Php
  import opened Fields
  import opened TabPanelsSpec

  // ---------------------------------------------------------------------------
  // assignTabPanels

  /** `Collection::concat` of the group array: its values in insertion order. */
  function GroupValues(keys: seq<string>, groups: map<string, Entry>): seq<Entry>
    requires forall k :: k in keys ==> k in groups
  {
    if keys == [] then [] else [groups[keys[0]]] + GroupValues(keys[1..], groups)
  }

  lemma {:induction false} GroupValuesAreGroupsOf(fs: seq<Field>, keys: seq<string>, groups: map<string, Entry>)
    requires forall k :: k in keys ==> k in groups && groups[k] == PanelGroup(fs, k)
    ensures GroupValues(keys, groups) == GroupsOf(fs, keys)
  {
    if keys != [] {
      GroupValuesAreGroupsOf(fs, keys[1..], groups);
    }
  }

  /** One pass over the fields: a field without a tab stays in the collection;
      a tab field is moved to the end of the group array entry keyed by its
      panel, which the first such field creates. The fields left standing are
      followed by the groups. */
  method AssignTabPanels(fields: seq<Field>) returns (result: seq<Entry>)
    ensures result == TabPanels(fields)
  {
    var nonTabFields: seq<Field> := [];
    // `$tabPanels`: an ordered PHP array, its key order kept beside the map
    var tabPanelKeys: seq<string> := [];
    var tabPanels: map<string, Entry> := map[];
    for i := 0 to |fields|
      invariant nonTabFields == NonTabFields(fields[..i])
      invariant tabPanelKeys == TabKeys(fields[..i])
      invariant forall k :: k in tabPanels <==> k in tabPanelKeys
      invariant forall k :: k in tabPanels ==> tabPanels[k] == PanelGroup(fields[..i], k)
    {
      var field := fields[i];
      ghost var seen := fields[..i];
      assert fields[..i + 1] == seen + [field];
      NonTabFieldsSnoc(seen, field);
      TabKeysSnoc(seen, field);
      var isTabField := field.tab.Some?;
      if isTabField {
        var key := ArrayKey(field.panel);
        if key !in tabPanels {
          tabPanels := tabPanels[key := Group(TabsComponent, field.panel, [])];
          tabPanelKeys := tabPanelKeys + [key];
        }
        tabPanels := tabPanels[key := tabPanels[key].(fields := tabPanels[key].fields + [field])];
      } else {
        nonTabFields := nonTabFields + [field];
      }
      forall k | k in tabPanels ensures tabPanels[k] == PanelGroup(seen + [field], k) {
        PanelGroupSnoc(seen, field, k);
      }
    }
    assert fields[..|fields|] == fields;
    GroupValuesAreGroupsOf(fields, tabPanelKeys, tabPanels);
    result := Plains(nonTabFields) + GroupValues(tabPanelKeys, tabPanels);
  }

  // ---------------------------------------------------------------------------
  // assignToPanels

  /** The panel a field has after `assignToPanels($label, …)` visits it once. */
  function DefaultPanel(panelLabel: string, panel: Option<string>): Option<string>
  {
    if Truthy(panel) then panel else Some(panelLabel)
  }

  /** A panel that `assignToPanels` leaves alone: a truthy one, or the label itself. */
  predicate Settled(panelLabel: string, panel: Option<string>)
  {
    Truthy(panel) || panel == Some(panelLabel)
  }

  /** A field is given the label exactly when its panel is falsy, after which it
      is settled; a settled panel is exactly one a second visit does not change,
      so visiting a field twice is the same as visiting it once. */
  lemma DefaultPanelSettles(panelLabel: string, panel: Option<string>)
    ensures DefaultPanel(panelLabel, panel) == panel <==> Settled(panelLabel, panel)
    ensures DefaultPanel(panelLabel, panel) != panel <==> panel in {None, Some(""), Some("0")} && panel != Some(panelLabel)
    ensures DefaultPanel(panelLabel, panel) != panel ==> !Truthy(panel) && DefaultPanel(panelLabel, panel) == Some(panelLabel)
    ensures Settled(panelLabel, DefaultPanel(panelLabel, panel))
    ensures DefaultPanel(panelLabel, DefaultPanel(panelLabel, panel)) == DefaultPanel(panelLabel, panel)
  {
  }

  /** Every field object standing in the collection gets `$label` as its panel
      if its panel is falsy; groups, the fields inside them and truthy panels
      are left alone, and the collection itself comes back in the same order.
      A field object that stands in the collection several times is treated as once. */
  method AssignToPanels(panelLabel: string, fields: seq<Entry>) returns (result: seq<Entry>)
    modifies PlainFieldSet(fields)
    ensures result == fields
    ensures forall f :: f in PlainFieldSet(fields) ==> f.panel == DefaultPanel(panelLabel, old(f.panel))
    ensures forall f :: f in PlainFieldSet(fields) ==> Settled(panelLabel, f.panel)
  {
    for i := 0 to |fields|
      invariant forall f :: f in PlainFieldSet(fields) ==>
        f.panel == if f in PlainFieldSet(fields[..i]) then DefaultPanel(panelLabel, old(f.panel)) else old(f.panel)
    {
      var entry := fields[i];
      assert PlainFieldSet(fields[..i + 1]) ==
        PlainFieldSet(fields[..i]) + (if entry.Plain? then {entry.field} else {}) by {
        assert forall j :: 0 <= j < i ==> fields[..i + 1][j] == fields[..i][j];
      }
      if !entry.Group? && !Truthy(entry.field.panel) {
        entry.field.panel := Some(panelLabel);
      }
      if entry.Plain? {
        DefaultPanelSettles(panelLabel, old(entry.field.panel));
      }
    }
    assert fields[..|fields|] == fields;
    forall f | f in PlainFieldSet(fields) ensures Settled(panelLabel, f.panel) {
      DefaultPanelSettles(panelLabel, old(f.panel));
    }
    result := fields;
  }
}
