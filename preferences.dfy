/**
 * The key-value preference store the state container writes through to
 * (`UserDefaults.standard`), and the dynamically typed dictionaries it holds.
 */
module Preferences {
  import opened Wrappers

  /** A value in a `[String: Any]` dictionary, as far as the container looks at it. */
  datatype Value =
    | IntValue(i: int)        // an `Int`
    | IntArray(xs: seq<int>)  // an `Array<Int>`
    | OtherValue              // anything else: `as? Int` and `as? Array<Int>` both fail on it

  /** A `[String: Any]` dictionary. */
  type Dict = map<string, Value>

  /** The elements of an array, as a `Set` built from it holds them. */
  function Elements(xs: seq<int>): set<int>
  {
    set x | x in xs
  }

  /** No element occurs twice. */
  predicate Distinct(xs: seq<int>)
  {
    forall i, j :: 0 <= i < j < |xs| ==> xs[i] != xs[j]
  }

  /** Building a set from an array collapses a repeated entry. */
  lemma DuplicatesCollapse(xs: seq<int>, x: int)
    requires x in xs
    ensures Elements(xs + [x]) == Elements(xs)
    ensures Elements([x] + xs) == Elements(xs)
  {
  }

  /** Some element of a non-empty set, whichever the set yields. */
  method Pick(s: set<int>) returns (x: int)
    requires s != {}
    ensures x in s
  {
    // the empty case is ruled out explicitly: the solver does not always find a witness for the pick unaided
    if forall y :: y !in s {
      assert false;
    }
    x :| x in s;
  }

  /**
   * `Array(s)`: every element of the set once, in an order the set does not
   * fix (the element taken next is any one not yet taken).
   */
  method ArrayOf(s: set<int>) returns (xs: seq<int>)
    ensures Elements(xs) == s
    ensures Distinct(xs)
  {
    xs := [];
    var rest := s;
    while rest != {}
      invariant rest <= s
      invariant Elements(xs) + rest == s
      invariant Elements(xs) !! rest
      invariant Distinct(xs)
      decreases rest
    {
      var x := Pick(rest);
      assert Elements(xs + [x]) == Elements(xs) + {x};
      xs := xs + [x];
      rest := rest - {x};
    }
  }

  /** The preference store: dictionaries under string keys. */
  class Defaults {
    var entries: map<string, Dict>

    constructor (entries: map<string, Dict>)
      ensures this.entries == entries
    {
      this.entries := entries;
    }

    /** `set(_:forKey:)`: the key now holds the dictionary; every other key keeps its entry. */
    method SetValue(value: Dict, key: string)
      modifies this
      ensures entries == old(entries)[key := value]
      ensures key in entries && entries[key] == value
      ensures entries - {key} == old(entries) - {key}
    {
      entries := entries[key := value];
    }

    /** `dictionary(forKey:)`: the dictionary under the key, if there is one. */
    function Dictionary(key: string): Option<Dict>
      reads this
    {
      if key in entries then Some(entries[key]) else None
    }
  }
}
