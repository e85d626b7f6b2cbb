/** The two PHP value rules that the tab-grouping code depends on. */
module Php {

  /** A PHP `string|null` value, and any other nullable value. */
  datatype Option<+T> = None | Some(value: T)

  /** PHP truthiness of a `string|null` value, as `!$x` tests it:
      null, "" and "0" are falsy, every other string is truthy. */
  predicate Truthy(v: Option<string>)
  {
    v.Some? && v.value != "" && v.value != "0"
  }

  /** The key under which a `string|null` offset is stored in a PHP array.
      A null offset is stored under "". A decimal integer string such as "7"
      is stored as the integer 7, but no other string is, so two offsets share
      a key exactly when they are equal or are null and "". */
  function ArrayKey(offset: Option<string>): string
  {
    if offset.Some? then offset.value else ""
  }

  lemma ArrayKeySharedOnlyByNullAndEmpty(a: Option<string>, b: Option<string>)
    ensures ArrayKey(a) == ArrayKey(b) <==> a == b || (a in {None, Some("")} && b in {None, Some("")})
  {
  }
}
