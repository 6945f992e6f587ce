# AppState: a write-through counter with favourite primes

This project models the state container `AppState` of the Composable
Architecture SwiftUI playground. It holds an integer `count` and a set of
favourite counter values. It answers whether the current count is a favourite
and whether it is prime. Each assignment to either stored property runs a
`willSet` hook that writes the whole snapshot `["count": …, "favouritePrimes":
[…]]` to the preference store under the key `"state"`. The state is built
either from that stored dictionary (`init(json:)`, used at start-up) or from a
`Codable` unkeyed container (`init(from:)`).

Modules:

- `Wrappers`: `Option` and `Result`, for a missing dictionary and a throwing initializer.
- `Primality`: divisibility, primality as the mathematical definition, an exact
  integer square root `ISqrt`, and the proof that trial division up to that root
  decides primality.
- `Preferences`: the `[String: Any]` dictionaries (`Value`, `Dict`), `Array(set)`
  as `ArrayOf`, and the store `UserDefaults` as class `Defaults` with a
  `map<string, Dict>` field.
- `App`: the state as a value (`Model`), the four mutations the counter screen
  requests (`Action`, `Apply`, `Run`), the snapshot dictionary and its loading,
  the `Codable` container items, and class `AppState`, whose methods update
  `count` and `favouritePrimes` in place and write through to its `Defaults`.

`AppState` refers to its store through a `const` field. Its constructors have
no `modifies` clause for the store, so the verifier itself checks that
construction writes nothing (Swift does not run property observers inside an
initializer). Every mutating method ensures `Persisted()`: the `"state"` entry
is a snapshot of the new state. It also ensures that every other key of the
store is unchanged. `ReloadPersisted` shows that loading such a snapshot with
`init(json:)` gives back the same state. `isPrime` and `isFavouritePrime` only
read: the method has no `modifies` clause and the function reads only `this`.

Adding and then removing the current count restores the favourites only when
the count was not already a favourite, because `removeFromFavouritePrimes`
(Composable_Demo.playground/Contents.swift:62) removes it even if it was there
before the add. `AddThenRemove` proves the result is `old - {count}`, and that
this equals the old state exactly when the count was not a favourite.

## Model

| member | source | states |
|---|---|---|
| `Primality.ISqrt` | Composable_Demo.playground/Contents.swift:76 | the root `r` used for the loop bound satisfies `r*r <= n < (r+1)*(r+1)`, the exact floor of the square root |
| `Primality.ISqrtUnique` | Composable_Demo.playground/Contents.swift:76 | that bracket determines the root uniquely, so `ISqrt` is the integer part of the exact square root |
| `Primality.PrimeIffNoDivisorUpToRoot` | Composable_Demo.playground/Contents.swift:76-83 | for `n >= 4` the range `2...root` is non-empty and below `n`, and `n` is prime iff no `i` in it divides `n` |
| `Primality.NoDivisorBetweenMeans` | Composable_Demo.playground/Contents.swift:78-83 | a recursive candidate-by-candidate form of the trial division, used to evaluate the worked examples, agrees with "no divisor in the range" |
| `Primality.PrimeExamples` | Composable_Demo.playground/Contents.swift:65-84 | 4, 9 and 15 are not prime; 2, 3, 5, 17 and 97 are prime |
| `App.AppState.IsPrime` | Composable_Demo.playground/Contents.swift:65-84 | false for `count <= 1`, true for 2 and 3, and in general true exactly when `count` is prime; changes no state |
| `App.AppState.IsFavouritePrime` | Composable_Demo.playground/Contents.swift:34-36 | true iff adding the count would leave the state as it is, and iff removing it would change it |
| `Preferences.ArrayOf` | Composable_Demo.playground/Contents.swift:22 | `Array(favouritePrimes)` holds every element of the set exactly once |
| `Preferences.DuplicatesCollapse` | Composable_Demo.playground/Contents.swift:40 | building the favourites set from an array with a repeated entry gives the same set |
| `Preferences.Defaults.SetValue` | Composable_Demo.playground/Contents.swift:23 | the key now holds the written dictionary and every other key keeps its entry |
| `App.Apply` | Composable_Demo.playground/Contents.swift:57-63 | "+"/"-" leave the favourites alone; add/remove leave the count alone; after add the count is a favourite and nothing was lost; after remove it is not and nothing was gained |
| `App.AddIdempotent` | Composable_Demo.playground/Contents.swift:57-59 | adding twice gives the same state as adding once |
| `App.RemoveAbsentIsNoOp` | Composable_Demo.playground/Contents.swift:61-63 | removing a count that is not a favourite changes nothing |
| `App.AddThenRemove` | Composable_Demo.playground/Contents.swift:57-63 | add then remove leaves `old - {count}`, which is the old state iff the count was not a favourite |
| `App.CountUpDownInverse` | Composable_Demo.playground/Contents.swift:98-106 | "+" then "-", and "-" then "+", return to the same state |
| `App.RunCount` | Composable_Demo.playground/Contents.swift:98-106 | after any sequence of mutations the count has moved by the "+" taps less the "-" taps |
| `App.RunKeepsFavourites` | Composable_Demo.playground/Contents.swift:98-106 | a sequence of "+" and "-" taps alone leaves the favourites unchanged |
| `App.LoadDefaults` | Composable_Demo.playground/Contents.swift:38-42 | a missing dictionary gives count 0 and no favourites; a missing or ill-typed field falls back to its own default |
| `App.ReloadSnapshot` | Composable_Demo.playground/Contents.swift:38-42 | loading a snapshot dictionary gives its count and the set of its array's elements |
| `App.ReloadPersisted` | Composable_Demo.playground/Contents.swift:20-42 | a dictionary the `willSet` hooks wrote for a state loads back as that same state |
| `App.AppState.constructor` | Composable_Demo.playground/Contents.swift:38-42 | `init(json:)` builds the loaded state and leaves the store untouched |
| `App.AppState.Decoded` | Composable_Demo.playground/Contents.swift:47-48 | the decoded count and set become the fields; the store is untouched |
| `App.AppState.Launch` | Composable_Demo.playground/Contents.swift:150 | start-up builds the state from the stored `"state"` dictionary, or the defaults, without writing |
| `App.AppState.Decode` | Composable_Demo.playground/Contents.swift:44-49 | `init(from:)` throws value-not-found for a missing or null item and type-mismatch for an item of another type, otherwise builds the decoded count and set; writes nothing |
| `App.AppState.Encode` | Composable_Demo.playground/Contents.swift:51-55 | `encode(to:)` yields the count then each favourite once, and decoding that yields the same state |
| `App.AppState.Persist` | Composable_Demo.playground/Contents.swift:21-23 | the hook overwrites `"state"` with a snapshot of the incoming state and touches no other key |
| `App.AppState.SetCount` | Composable_Demo.playground/Contents.swift:20-25 | assigning `count` stores the new value, keeps the favourites, and leaves the store holding the new snapshot |
| `App.AppState.SetFavouritePrimes` | Composable_Demo.playground/Contents.swift:27-33 | assigning the set stores it, keeps the count, and leaves the store holding the new snapshot |
| `App.AppState.Increment` | Composable_Demo.playground/Contents.swift:104-105 | `count += 1`, favourites unchanged, snapshot written, other keys untouched |
| `App.AppState.Decrement` | Composable_Demo.playground/Contents.swift:98-99 | `count -= 1`, favourites unchanged, snapshot written, other keys untouched |
| `App.AppState.AddToFavouritePrimes` | Composable_Demo.playground/Contents.swift:57-59 | the set becomes `old + {count}`, the count is then a favourite, and the snapshot is written every time |
| `App.AppState.RemoveFromFavouritePrimes` | Composable_Demo.playground/Contents.swift:61-63 | the set becomes `old - {count}`, the count is then not a favourite, and the snapshot is written even when nothing was removed |

## Left out

- The SwiftUI views, navigation, the sheet, the colour toggling in `toggleColor` and the `@State` flags: they only present state and dispatch the four mutations, which `Action` and the `AppState` methods model.
- The Combine `@Published` change notifications: framework plumbing with no effect on the state or the store.
- The `print` in the favourites hook: console output only.
- The ordinal `NumberFormatter` and the button that calls `fatalError()`: a foreign library and a deliberate crash.
- Writing the preference store to disk: `Defaults` is an in-memory map, and a failed or lost write is not modelled.
- App.AppState.IsPrime: uses the exact integer square root in place of `Int(sqrt(Double(count)))`; for counts too large for a `Double` to hold exactly, the floating-point root may differ by one, which is not modelled.
- App.AppState.Increment: `count` is an unbounded integer, so the overflow trap of `count += 1` at `Int.max` is not modelled.
- App.AppState.Decrement: likewise, the overflow trap of `count -= 1` at `Int.min` is not modelled.
- Dynamic casting of `[String: Any]`: a value is an `Int`, an `Array<Int>` or something else; bridging that `as? Int` may perform on other numeric types is not modelled.
- The `Decoder` machinery: the top-level container is taken to be an unkeyed array, a nested array always holds integers, and errors carry no coding path or context.
- The iteration order of `Array(favouritePrimes)` and of the encoded set: `ArrayOf` picks any order, so contracts speak of the elements, each once.
