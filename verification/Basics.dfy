/** What several parts need. */
module Basics {

  datatype Maybe<T> = Nothing | Just(value: T)

  function Min(a: nat, b: nat): nat { if a < b then a else b }
}
