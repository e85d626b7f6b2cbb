# Tabbed field grouping of nova-tabs, in Dafny

This project models the part of the `TabsOnEdit` trait of the Laravel Nova
package nova-tabs that regroups a resource's form fields for the create and
update screens:

- `assignTabPanels` makes one pass over a field collection. A field whose
  `meta['tab']` is set is taken out of the collection and appended to a group
  array keyed by the field's `panel`. The first such field creates the group
  `['component' => 'tabs', 'panel' => <its panel>, 'fields' => []]`. The result
  is the remaining fields, in order, followed by the groups in the order their
  keys were first seen.
- `assignToPanels` writes a label into the `panel` property of every field
  object in a collection whose panel is falsy. Group arrays and fields that
  already have a panel are left alone.

Files:

- `php.dfy` (module `Php`): the two PHP value rules the code depends on. One is
  the truthiness of `string|null`. The other is the key under which such a value
  is stored in an array: `$a[null]` is `$a[""]`.
- `fields.dfy` (module `Fields`): the field object, a `class` whose `panel` is
  written in place. It also defines a collection entry (`Plain` field or `Group`
  array) and the flattening of a collection into the field objects it holds.
- `tab_panels_spec.dfy` (module `TabPanelsSpec`): what `assignTabPanels`
  returns, stated without its loop. It is a stable partition of the fields,
  then a group-by on the panel's array key. The file also proves the
  properties of that result.
- `tabs_on_edit.dfy` (module `TabsOnEdit`): the two operations as methods with
  loops. `AssignTabPanels` keeps the PHP array `$tabPanels` as a map plus its key
  order and is proved equal to the specification. `AssignToPanels` updates the
  field objects in place.

`$tabPanels[$field->panel]` stores a null offset under `""`
(src/TabsOnEdit.php:191-199), so a tab field with a null panel and one with an
empty panel share one group; that group's `panel` entry is the raw panel of
whichever came first.

## Model

| member | source | states |
|---|---|---|
| `TabsOnEdit.AssignTabPanels` | src/TabsOnEdit.php:183-206 | the one-pass filter with the by-reference `$tabPanels` array returns exactly the specified regrouping: the non-tab fields, then one group per key in first-seen order |
| `TabPanelsSpec.NonTabFieldsIsStableSelection` | src/TabsOnEdit.php:187-203 | the fields left standing are exactly the fields without `meta['tab']`, each unchanged, in their original relative order |
| `TabPanelsSpec.BucketIsStableSelection` | src/TabsOnEdit.php:188-199 | the group of a key holds exactly the tab fields whose panel has that key, in their input order |
| `TabPanelsSpec.BucketFieldsHaveKey` | src/TabsOnEdit.php:188-199 | every field in a group is a tab field with the group's key, whatever its tab name, so tab fields with different tab names and one panel merge |
| `TabPanelsSpec.TabKeysAreTabFieldKeys` | src/TabsOnEdit.php:191-197 | there is a group for a key exactly when some tab field's panel has that key |
| `TabPanelsSpec.TabKeysDistinct` | src/TabsOnEdit.php:191-197 | no key gets two groups |
| `TabPanelsSpec.TabKeysInFirstSeenOrder` | src/TabsOnEdit.php:191-205 | groups come in the order their keys were first seen: an earlier group's key is carried by a tab field before any field carrying a later group's key |
| `TabPanelsSpec.GroupPanelIsCreatorsPanel` | src/TabsOnEdit.php:191-196 | a group's `panel` entry is the raw panel of the first tab field with its key, so no later field can change it, and its array key is the group's key |
| `TabPanelsSpec.GroupsAreWellFormed` | src/TabsOnEdit.php:192-199 | every group in the result is a `tabs` component whose fields all have the array key of its `panel` entry |
| `TabPanelsSpec.PartitionPreservesFields` | src/TabsOnEdit.php:187-205 | the fields left standing and the fields in the groups together form the input, as a multiset |
| `TabPanelsSpec.NoFieldLostOrDuplicated` | src/TabsOnEdit.php:187-205 | flattening the result gives back a permutation of the input, of the same length: no field is lost or duplicated |
| `TabPanelsSpec.TabFieldInExactlyOneGroup` | src/TabsOnEdit.php:187-205 | a tab field does not stand in the result and is in exactly one of its groups |
| `TabPanelsSpec.NoTabFieldsIsIdentity` | src/TabsOnEdit.php:202-205 | the result is the input collection unchanged, with no group, exactly when no field has `meta['tab']` |
| `TabsOnEdit.AssignToPanels` | src/TabsOnEdit.php:154-163 | the collection comes back in the same order; each field object standing in it gets the label if its panel is falsy and keeps it otherwise; group arrays, and field objects found only inside them, are untouched; afterwards every such field is settled |
| `TabsOnEdit.DefaultPanelSettles` | src/TabsOnEdit.php:156-161 | a visit changes a panel exactly when it is null, `""` or `"0"` and differs from the label, and then to the label; a panel is left unchanged exactly when it is settled, and every visited panel ends settled, so a second `assignToPanels` with the same label changes nothing |
| `Php.ArrayKeySharedOnlyByNullAndEmpty` | src/TabsOnEdit.php:191-192 | two panels index the same `$tabPanels` entry exactly when they are equal or are null and `""` |

## Left out

- `creationFields`, `updateFields`, `fill`, `fillForUpdate`, `creationFieldsWithoutReadonly`, `updateFieldsWithoutReadonly`, `parentCreationFields`, `parentUpdateFields`, `rulesForCreation`, `rulesForUpdate` and `resolveResource` (src/TabsOnEdit.php:21-145, 169-176) are not modelled. They only pass fields between Nova methods that are not part of this model: `resolveFields`, `removeNonCreationFields`, `removeNonUpdateFields`, `isReadonly`, `fillFields`, `formatRules`, the rule getters and `NovaRequest::newResource`.
- The `FieldCollection` wrapper of the package is not part of this model.
- `src/Contracts/TabContract.php` declares an interface only. The tab builder that implements it (visibility precedence of `showIf` over `showUnless`, class-list normalisation, `toArray` keys) is not part of this model.
- Laravel `Collection` keys are not modelled: `filter` keeps the original, now sparse, keys. Only the order of the values is modelled, which is what `concat` and the consumers use.
- A field's other properties and other `meta` entries are not modelled; this code neither reads nor writes them. `meta['tab']` set to null is modelled as absent, as `isset` treats it.
- Panels are modelled as `string|null`. A panel of another PHP type (an integer, a boolean, an object) is not modelled.
- A decimal integer string panel such as `"7"` is stored by PHP under the integer key 7. The model keeps the string as the key. No other panel maps to that integer key, so the grouping is the same.
- `AssignToPanels` takes the label as a string, the type its doc comment gives. A null label is not modelled.
- `AssignTabPanels` takes a sequence of field objects, so it cannot be given a collection that already holds group arrays. The source would leave such an array standing, since an array has no `meta['tab']`; its callers (src/TabsOnEdit.php:23, 137-143) only pass resolved field objects.
