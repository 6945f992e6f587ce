/**
 * The playground's state container, `AppState`: a counter, a set of favourite
 * counter values, a membership query, a trial-division primality test, a
 * write-through snapshot to the preference store on every mutation, loading
 * from a stored dictionary, and the `Codable` encoding as an ordered pair.
 */
module App {
  import opened Wrappers
  import opened Primality
  import opened Preferences

  /** The preference key the snapshot is written under. */
  const StateKey: string := "state"
  /** The snapshot dictionary's two field names. */
  const CountKey: string := "count"
  const FavouritesKey: string := "favouritePrimes"

  /** The container's observable state as a value. */
  datatype Model = Model(count: int, favouritePrimes: set<int>)

  /** The four mutations the counter screen can request: "+", "-", add, remove. */
  datatype Action = CountUp | CountDown | AddFavourite | RemoveFavourite

  /** What one mutation does to the state. */
  function Apply(m: Model, a: Action): (r: Model)
    ensures a.CountUp? || a.CountDown? ==> r.favouritePrimes == m.favouritePrimes
    ensures a.AddFavourite? || a.RemoveFavourite? ==> r.count == m.count
    ensures a.AddFavourite? ==> r.count in r.favouritePrimes && m.favouritePrimes <= r.favouritePrimes
    ensures a.RemoveFavourite? ==> r.count !in r.favouritePrimes && r.favouritePrimes <= m.favouritePrimes
  {
    match a
    case CountUp => m.(count := m.count + 1)
    case CountDown => m.(count := m.count - 1)
    case AddFavourite => m.(favouritePrimes := m.favouritePrimes + {m.count})
    case RemoveFavourite => m.(favouritePrimes := m.favouritePrimes - {m.count})
  }

  /** The state after a sequence of mutations, first to last. */
  function Run(m: Model, actions: seq<Action>): Model
    decreases |actions|
  {
    if actions == [] then m else Run(Apply(m, actions[0]), actions[1..])
  }

  /** The number of "+" taps minus the number of "-" taps. */
  function NetCount(actions: seq<Action>): int
    decreases |actions|
  {
    if actions == [] then 0
    else (match actions[0]
          case CountUp => 1
          case CountDown => -1
          case _ => 0) + NetCount(actions[1..])
  }

  /** Adding the current count twice leaves the same set as adding it once. */
  lemma AddIdempotent(m: Model)
    ensures Apply(Apply(m, AddFavourite), AddFavourite) == Apply(m, AddFavourite)
  {
  }

  /** Removing a count that is not a favourite changes nothing. */
  lemma RemoveAbsentIsNoOp(m: Model)
    requires m.count !in m.favouritePrimes
    ensures Apply(m, RemoveFavourite) == m
  {
  }

  /**
   * Add then remove leaves the old set without the current count, which is the
   * old state exactly when the count was not already a favourite.
   */
  lemma AddThenRemove(m: Model)
    ensures Apply(Apply(m, AddFavourite), RemoveFavourite) == m.(favouritePrimes := m.favouritePrimes - {m.count})
    ensures Apply(Apply(m, AddFavourite), RemoveFavourite) == m <==> m.count !in m.favouritePrimes
  {
  }

  /** "+" then "-", or "-" then "+", returns to the same state. */
  lemma CountUpDownInverse(m: Model)
    ensures Apply(Apply(m, CountUp), CountDown) == m
    ensures Apply(Apply(m, CountDown), CountUp) == m
  {
  }

  /** After any sequence of mutations the count has moved by the taps on "+" less those on "-". */
  lemma {:induction false} RunCount(m: Model, actions: seq<Action>)
    ensures Run(m, actions).count == m.count + NetCount(actions)
    decreases |actions|
  {
    if actions != [] {
      RunCount(Apply(m, actions[0]), actions[1..]);
    }
  }

  /** A sequence of "+" and "-" taps alone leaves the favourites as they were. */
  lemma {:induction false} RunKeepsFavourites(m: Model, actions: seq<Action>)
    requires forall i :: 0 <= i < |actions| ==> actions[i].CountUp? || actions[i].CountDown?
    ensures Run(m, actions).favouritePrimes == m.favouritePrimes
    decreases |actions|
  {
    if actions != [] {
      RunKeepsFavourites(Apply(m, actions[0]), actions[1..]);
    }
  }

  /** The dictionary the `willSet` hooks write: the count and the favourites as an array. */
  function SnapshotDict(count: int, favourites: seq<int>): Dict
  {
    map[CountKey := IntValue(count), FavouritesKey := IntArray(favourites)]
  }

  /** `d` is a snapshot of `m`: its count, and each favourite once in some order. */
  ghost predicate IsSnapshotOf(d: Dict, m: Model)
  {
    && FavouritesKey in d
    && d[FavouritesKey].IntArray?
    && d == SnapshotDict(m.count, d[FavouritesKey].xs)
    && Elements(d[FavouritesKey].xs) == m.favouritePrimes
    && Distinct(d[FavouritesKey].xs)
  }

  /** `json?["count"] as? Int ?? 0` */
  function CountFrom(json: Option<Dict>): int
  {
    if json.Some? && CountKey in json.value && json.value[CountKey].IntValue?
    then json.value[CountKey].i
    else 0
  }

  /** `Set(json?["favouritePrimes"] as? Array<Int> ?? [])` */
  function FavouritesFrom(json: Option<Dict>): set<int>
  {
    if json.Some? && FavouritesKey in json.value && json.value[FavouritesKey].IntArray?
    then Elements(json.value[FavouritesKey].xs)
    else {}
  }

  /** The state `init(json:)` builds from a possibly missing dictionary. */
  function FromJson(json: Option<Dict>): Model
  {
    Model(CountFrom(json), FavouritesFrom(json))
  }

  /**
   * A missing dictionary, or a missing or ill-typed field, falls back to the
   * defaults: count 0, no favourites; other keys are ignored.
   */
  lemma LoadDefaults(d: Dict)
    ensures FromJson(None) == Model(0, {})
    ensures CountKey !in d || !d[CountKey].IntValue? ==> FromJson(Some(d)).count == 0
    ensures FavouritesKey !in d || !d[FavouritesKey].IntArray? ==> FromJson(Some(d)).favouritePrimes == {}
  {
  }

  /** Loading a snapshot dictionary gives back its count and the set of its array's elements. */
  lemma ReloadSnapshot(count: int, favourites: seq<int>)
    ensures FromJson(Some(SnapshotDict(count, favourites))) == Model(count, Elements(favourites))
  {
  }

  /** Whatever a write-through stored, loading it restores the state it was written from. */
  lemma ReloadPersisted(d: Dict, m: Model)
    requires IsSnapshotOf(d, m)
    ensures FromJson(Some(d)) == m
  {
    ReloadSnapshot(m.count, d[FavouritesKey].xs);
  }

  /** What `Codable` puts in an unkeyed container, as far as decoding looks at it. */
  datatype Item =
    | IntItem(i: int)          // an `Int`
    | ArrayItem(xs: seq<int>)  // a nested array of `Int`, as a `Set<Int>` encodes
    | NullItem                 // an encoded null
    | OtherItem                // a value of any other type

  /** Why `init(from:)` throws. */
  datatype DecodeError = ValueNotFound | TypeMismatch

  /**
   * `init(from:)` on an unkeyed container: an `Int`, then a `Set<Int>`; later
   * items are not read. A missing or null item throws value-not-found, an item
   * of another type throws type-mismatch.
   */
  function DecodeItems(items: seq<Item>): Result<Model, DecodeError>
  {
    if |items| == 0 then Failure(ValueNotFound)
    else if items[0].NullItem? then Failure(ValueNotFound)
    else if !items[0].IntItem? then Failure(TypeMismatch)
    else if |items| == 1 || items[1].NullItem? then Failure(ValueNotFound)
    else if !items[1].ArrayItem? then Failure(TypeMismatch)
    else Success(Model(items[0].i, Elements(items[1].xs)))
  }

  /** The state container. */
  class AppState {
    var count: int
    var favouritePrimes: set<int>
    /** The preference store every mutation writes through to. */
    const defaults: Defaults

    /** The current state as a value. */
    function Value(): Model
      reads this
    {
      Model(count, favouritePrimes)
    }

    /** The store's `"state"` entry is a snapshot of the current state. */
    ghost predicate Persisted()
      reads this, defaults
    {
      StateKey in defaults.entries && IsSnapshotOf(defaults.entries[StateKey], Value())
    }

    /** `init(json:)`: property observers do not run in an initializer, so nothing is written. */
    constructor (json: Option<Dict>, defaults: Defaults)
      ensures Value() == FromJson(json)
      ensures this.defaults == defaults
      ensures defaults.entries == old(defaults.entries)
    {
      var c := CountFrom(json);
      favouritePrimes := FavouritesFrom(json);
      count := c;
      this.defaults := defaults;
    }

    /** The fields as `init(from:)` assigns them once both are decoded. */
    constructor Decoded(m: Model, defaults: Defaults)
      ensures Value() == m
      ensures this.defaults == defaults
      ensures defaults.entries == old(defaults.entries)
    {
      favouritePrimes := m.favouritePrimes;
      count := m.count;
      this.defaults := defaults;
    }

    /** The playground's start-up: the state built from the stored `"state"` dictionary, if any. */
    static method Launch(defaults: Defaults) returns (state: AppState)
      ensures fresh(state) && state.defaults == defaults
      ensures state.Value() == FromJson(defaults.Dictionary(StateKey))
      ensures defaults.entries == old(defaults.entries)
    {
      state := new AppState(defaults.Dictionary(StateKey), defaults);
    }

    /** `init(from:)`: throws the decoder's error, or builds the decoded state without writing. */
    static method Decode(items: seq<Item>, defaults: Defaults) returns (r: Result<AppState, DecodeError>)
      ensures DecodeItems(items).Failure? ==> r == Failure(DecodeItems(items).error)
      ensures DecodeItems(items).Success? ==>
        r.Success? && fresh(r.value) && r.value.defaults == defaults &&
        r.value.Value() == DecodeItems(items).value
      ensures defaults.entries == old(defaults.entries)
    {
      var decoded := DecodeItems(items);
      if decoded.Failure? {
        r := Failure(decoded.error);
      } else {
        var state := new AppState.Decoded(decoded.value, defaults);
        r := Success(state);
      }
    }

    /** `encode(to:)`: the count, then the favourites; decoding the result gives the state back. */
    method Encode() returns (items: seq<Item>)
      ensures |items| == 2 && items[0] == IntItem(count)
      ensures items[1].ArrayItem? && Elements(items[1].xs) == favouritePrimes && Distinct(items[1].xs)
      ensures DecodeItems(items) == Success(Value())
    {
      var xs := ArrayOf(favouritePrimes);
      items := [IntItem(count), ArrayItem(xs)];
    }

    /** The body of both `willSet` hooks: overwrite `"state"` with a snapshot of the incoming state. */
    method Persist(newCount: int, newFavourites: set<int>)
      modifies defaults
      ensures StateKey in defaults.entries
      ensures IsSnapshotOf(defaults.entries[StateKey], Model(newCount, newFavourites))
      ensures defaults.entries - {StateKey} == old(defaults.entries) - {StateKey}
    {
      var xs := ArrayOf(newFavourites);
      defaults.SetValue(SnapshotDict(newCount, xs), StateKey);
    }

    /** Assigning `count`: the hook writes the snapshot, then the value is stored. */
    method SetCount(newValue: int)
      modifies this, defaults
      ensures count == newValue && favouritePrimes == old(favouritePrimes)
      ensures Persisted()
      ensures defaults.entries - {StateKey} == old(defaults.entries) - {StateKey}
    {
      Persist(newValue, favouritePrimes);
      count := newValue;
    }

    /** Assigning `favouritePrimes`: the hook writes the snapshot, then the value is stored. */
    method SetFavouritePrimes(newValue: set<int>)
      modifies this, defaults
      ensures favouritePrimes == newValue && count == old(count)
      ensures Persisted()
      ensures defaults.entries - {StateKey} == old(defaults.entries) - {StateKey}
    {
      Persist(count, newValue);
      favouritePrimes := newValue;
    }

    /** The "+" button: `count += 1`. */
    method Increment()
      modifies this, defaults
      ensures Value() == Apply(old(Value()), CountUp)
      ensures Persisted()
      ensures defaults.entries - {StateKey} == old(defaults.entries) - {StateKey}
    {
      SetCount(count + 1);
    }

    /** The "-" button: `count -= 1`. */
    method Decrement()
      modifies this, defaults
      ensures Value() == Apply(old(Value()), CountDown)
      ensures Persisted()
      ensures defaults.entries - {StateKey} == old(defaults.entries) - {StateKey}
    {
      SetCount(count - 1);
    }

    /**
     * `isFavouritePrime`: the current count is among the favourites, so adding
     * it would change nothing and removing it would change the state. The
     * counter screen offers "Remove" exactly when it holds and "Add" otherwise.
     */
    function IsFavouritePrime(): (b: bool)
      reads this
      ensures b <==> Apply(Value(), AddFavourite) == Value()
      ensures b <==> Apply(Value(), RemoveFavourite) != Value()
    {
      count in favouritePrimes
    }

    /** `addToFavouritePrimes`: inserts the count; the set is reassigned, so the hook always writes. */
    method AddToFavouritePrimes()
      modifies this, defaults
      ensures Value() == Apply(old(Value()), AddFavourite)
      ensures IsFavouritePrime()
      ensures Persisted()
      ensures defaults.entries - {StateKey} == old(defaults.entries) - {StateKey}
    {
      SetFavouritePrimes(favouritePrimes + {count});
    }

    /** `removeFromFavouritePrimes`: removes the count; the hook writes even when it was absent. */
    method RemoveFromFavouritePrimes()
      modifies this, defaults
      ensures Value() == Apply(old(Value()), RemoveFavourite)
      ensures !IsFavouritePrime()
      ensures Persisted()
      ensures defaults.entries - {StateKey} == old(defaults.entries) - {StateKey}
    {
      SetFavouritePrimes(favouritePrimes - {count});
    }

    /**
     * `isPrime`: false up to 1, true for 2 and 3, otherwise trial division by
     * every `i` in `2...root`, where `root` is the integer square root.
     */
    method IsPrime() returns (p: bool)
      ensures count <= 1 ==> !p
      ensures 2 <= count <= 3 ==> p
      ensures p <==> IsPrimeNumber(count)
    {
      if count <= 1 {
        return false;
      }
      if count <= 3 {
        return true;
      }
      var root := ISqrt(count);
      // the range 2...root is well formed: root is at least 2
      PrimeIffNoDivisorUpToRoot(count, root);
      for i := 2 to root + 1
        invariant forall d :: 2 <= d < i ==> !Divides(d, count)
      {
        if count % i == 0 {
          assert Divides(i, count);
          return false;
        }
      }
      return true;
    }
  }
}
