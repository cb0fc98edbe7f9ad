# Favourites store

A Dafny model of the favourites store of a small Vue application
(`src/composables/useFavorites.js`). The store keeps one shared, ordered
list of attraction identifiers. After each change it writes the list, as a
serialised array, to the browser's key-value storage under the key
`jackson-favorites`. It hands its callers the list itself together with
`loadFavorites`, `toggleFavorite`, `isFavorite`, `clearFavorites` and a
derived `favoriteCount`. An internal `saveFavorites` does the write after
each toggle and clear.

Two modules:

- `IdLists` (id_lists.dfy) holds the pure side. It models the array
  operations the store relies on: `indexOf` (`IndexOf`), `includes`
  (`Contains`) and removing the first occurrence (`RemoveFirst`). It also
  holds `Toggled`, which states what a toggle should do without using
  indices. The lemmas here prove the uniqueness invariant, that toggling
  flips membership, the two double-toggle laws, and that the count is the
  number of distinct favourites.
- `Favorites` (favorites.dfy) holds the state. `FavoritesStore` is the
  module-level state: a `favorites` sequence that the methods reassign, and
  a reference to a `LocalStorage` object. `LocalStorage` maps keys to stored
  values and outlives any one store, as browser storage does. A serialised
  list and the parser's reading of it are abstracted together into
  `Stored = Absent | Malformed | Value(ids)`.
  - `Load`, `Save`, `Toggle` and `Clear` are methods. Each states its whole
    new state.
  - `IsFavorite` and `FavoriteCount` are functions.
  - `Restart` states the persistence round trip: a successful save, then a
    new store over the same storage, then a load, gives back the identical
    ordered list.

The host's answer to a write (accepted or rejected, for example over quota)
is the `writeOk` parameter of `Save`, `Toggle` and `Clear`. A rejected write
leaves storage unchanged, and the in-memory change is kept.

## Model

| member | source | states |
|---|---|---|
| IdLists.IndexOf | src/composables/useFavorites.js:27 | the result is -1 exactly when the id is absent; otherwise it is an index holding the id, with no occurrence before it |
| IdLists.Contains | src/composables/useFavorites.js:37 | true exactly when the id occurs in the list |
| IdLists.RemoveFirst | src/composables/useFavorites.js:29 | removing an occurrence shortens the list by one and removes exactly one copy of the id from its multiset |
| IdLists.Toggled | src/composables/useFavorites.js:26-32 | toggling shortens the list by one when the id is present and lengthens it by one when absent |
| IdLists.RemoveFirstIsSplice | src/composables/useFavorites.js:27-29 | removing the first occurrence equals `splice(indexOf(id), 1)`: the elements before and after it keep their order |
| IdLists.RemoveFirstKeepsNoDuplicates | src/composables/useFavorites.js:29 | removing an element from a duplicate-free list leaves it duplicate-free |
| IdLists.ToggleKeepsNoDuplicates | src/composables/useFavorites.js:26-32 | toggling preserves the no-duplicates invariant |
| IdLists.RemoveFirstRemovesAll | src/composables/useFavorites.js:27-29 | on a duplicate-free list, the removed occurrence was the only one |
| IdLists.ToggleFlipsMembership | src/composables/useFavorites.js:26-38 | on a duplicate-free list, toggling flips whether the id is present and leaves every other id's membership unchanged |
| IdLists.ToggleTwiceAbsent | src/composables/useFavorites.js:26-34 | toggling an absent id twice restores exactly the original ordered list |
| IdLists.ToggleTwicePresent | src/composables/useFavorites.js:26-34 | toggling a present id twice, on a duplicate-free list, keeps the same set of favourites and moves the id to the end |
| IdLists.LengthIsDistinctCount | src/composables/useFavorites.js:45 | on a duplicate-free list, the length equals the number of distinct ids |
| Favorites.FavoritesStore.constructor | src/composables/useFavorites.js:3-4 | the store starts with an empty, hence duplicate-free, list over the given storage |
| Favorites.FavoritesStore.Load | src/composables/useFavorites.js:7-16 | a stored list replaces the in-memory list; an absent or malformed slot leaves it unchanged; storage is not changed; duplicates in storage are imported as they are |
| Favorites.FavoritesStore.Save | src/composables/useFavorites.js:18-24 | an accepted write puts the current list under the storage key and touches no other key; a rejected write changes nothing |
| Favorites.FavoritesStore.Toggle | src/composables/useFavorites.js:26-34 | an absent id is appended after the unchanged old list; a present id is spliced out at its first index; storage mirrors the new list when the write is accepted, and the change stays in memory when it is rejected; a duplicate-free list stays duplicate-free and, on one, `IsFavorite(id)` flips |
| Favorites.FavoritesStore.IsFavorite | src/composables/useFavorites.js:36-38 | true exactly when the id is in the list; it reads state and changes none |
| Favorites.FavoritesStore.Clear | src/composables/useFavorites.js:40-43 | the list is empty and the count 0; storage holds the empty list when the write is accepted and is unchanged otherwise |
| Favorites.FavoritesStore.FavoriteCount | src/composables/useFavorites.js:45 | the count is 0 exactly when no id is a favourite; on a duplicate-free list it is the number of distinct favourites |
| Favorites.Restart | src/composables/useFavorites.js:7-24 | after an accepted save, a new store over the same storage loads the identical ordered list (this covers a cleared, empty list too) |

## Left out

- `src/main.js`: application bootstrap (creating and mounting the UI root). It is framework glue with no logic.
- The browser storage API and JSON: a stored string and its parse are abstracted into `Stored`. Serialising a list of ids and parsing it back is taken to be the identity.
- Stored text that parses as JSON but is not an array of ids (a number, an object) is not modelled. The source would assign it to the list as it is.
- A `getItem` call that throws is not distinguished from a malformed value: in both cases `Load` leaves the list unchanged.
- The empty string in storage counts as no value, since the source tests the stored string for truthiness. It is folded into `Absent`.
- The error log written on a failed load or save. The model keeps only its effect: state is unchanged, or the write did not persist.
- Vue reactivity: observers of `favorites` and `favoriteCount` are not notified. `FavoriteCount` is a plain function of the list.
- Crash atomicity between the in-memory change and the write that follows it.
- Direct changes to the exported list: the source returns the list itself to its callers, who can change it without going through toggle or clear. The model changes the list only through `Load`, `Toggle` and `Clear`. Its no-duplicates results therefore cover only the store's own operations, as does the source's convention.
- Ids are strings compared with strict equality; ids of other JavaScript types are not modelled.
