/** The favourites store of src/composables/useFavorites.js: one shared,
    ordered list of attraction identifiers, mirrored after every change into
    one slot of the browser's key-value storage. */
module Favorites {
  import opened IdLists

  /** The storage key under which the list is kept. */
  const STORAGE_KEY: string := "jackson-favorites"

  /** What the storage slot can hold, as the store reads it back: nothing
      (no entry, or the empty string), text that does not parse, or a
      serialised list of identifiers. Serialising a list and parsing it back
      gives the same list. */
  datatype Stored = Absent | Malformed | Value(ids: seq<Id>)

  /** The host's key-value storage. It outlives any one store; the store
      only ever reads and writes the entry under `STORAGE_KEY`. */
  class LocalStorage {
    var entries: map<string, Stored>

    constructor (initial: map<string, Stored>)
      ensures entries == initial
    {
      entries := initial;
    }

    /** `getItem(STORAGE_KEY)` as the store sees it: a missing entry reads
        as `Absent`. */
    function Slot(): Stored
      reads this
    {
      if STORAGE_KEY in entries then entries[STORAGE_KEY] else Absent
    }
  }

  /** The module-level state: the reactive list and the storage it mirrors
      to. The model changes it only through `Load`, `Toggle` and `Clear`;
      the source also hands the list itself to its callers. */
  class FavoritesStore {
    var favorites: seq<Id>
    const storage: LocalStorage

    /** Module initialisation: an empty list over the given storage. */
    constructor (storage: LocalStorage)
      ensures favorites == [] && this.storage == storage
      ensures NoDuplicates(favorites)
    {
      favorites := [];
      this.storage := storage;
    }

    /** `loadFavorites`: adopt the stored list when the slot holds one;
        when it is absent or does not parse, keep the list in memory. */
    method Load()
      modifies this
      ensures favorites == match storage.Slot()
        case Value(ids) => ids
        case _ => old(favorites)
      ensures storage.Slot().Value? && NoDuplicates(storage.Slot().ids) ==> NoDuplicates(favorites)
    {
      match storage.Slot()
      case Value(ids) =>
        favorites := ids;
      case Absent =>
      case Malformed =>
    }

    /** `saveFavorites`: write the list to the slot. `writeOk` is the host's
        answer; a rejected write leaves the slot as it was and is not
        reported to the caller. */
    method Save(writeOk: bool)
      modifies storage
      ensures storage.entries ==
        if writeOk then old(storage.entries)[STORAGE_KEY := Value(favorites)] else old(storage.entries)
      ensures writeOk ==> storage.Slot() == Value(favorites)
    {
      if writeOk {
        storage.entries := storage.entries[STORAGE_KEY := Value(favorites)];
      }
    }

    /** `toggleFavorite`: remove the first occurrence of `id` in place if
        there is one, otherwise append it; then save. The change stays in
        memory whether or not the write succeeds. */
    method Toggle(id: Id, writeOk: bool)
      modifies this, storage
      ensures favorites == Toggled(old(favorites), id)
      ensures !old(IsFavorite(id)) ==>
        |favorites| == |old(favorites)| + 1 &&
        favorites[..|old(favorites)|] == old(favorites) && favorites[|old(favorites)|] == id
      ensures old(IsFavorite(id)) ==>
        var i := IndexOf(old(favorites), id);
        favorites == old(favorites)[..i] + old(favorites)[i + 1..]
      ensures storage.entries ==
        if writeOk then old(storage.entries)[STORAGE_KEY := Value(favorites)] else old(storage.entries)
      ensures old(NoDuplicates(favorites)) ==> NoDuplicates(favorites)
      ensures old(NoDuplicates(favorites)) ==> (IsFavorite(id) <==> !old(IsFavorite(id)))
    {
      ghost var before := favorites;
      var index := IndexOf(favorites, id);
      if index > -1 {
        favorites := favorites[..index] + favorites[index + 1..];
        RemoveFirstIsSplice(before, id);
      } else {
        favorites := favorites + [id];
      }
      if NoDuplicates(before) {
        ToggleKeepsNoDuplicates(before, id);
        ToggleFlipsMembership(before, id);
      }
      Save(writeOk);
    }

    /** `isFavorite`: whether `id` is in the list. */
    function IsFavorite(id: Id): (b: bool)
      reads this
      ensures b <==> id in favorites
    {
      Contains(favorites, id)
    }

    /** `clearFavorites`: empty the list, then save. */
    method Clear(writeOk: bool)
      modifies this, storage
      ensures favorites == [] && FavoriteCount() == 0
      ensures NoDuplicates(favorites)
      ensures storage.entries ==
        if writeOk then old(storage.entries)[STORAGE_KEY := Value([])] else old(storage.entries)
    {
      favorites := [];
      Save(writeOk);
    }

    /** `favoriteCount`: the length of the list, which on a duplicate-free
        list is the number of distinct favourite attractions. */
    function FavoriteCount(): (n: nat)
      reads this
      ensures NoDuplicates(favorites) ==> n == |Elements(favorites)|
      ensures n == 0 <==> forall id :: !IsFavorite(id)
    {
      LengthIsDistinctCount(favorites);
      assert |favorites| > 0 ==> IsFavorite(favorites[0]);
      |favorites|
    }
  }

  /** Process restart: after a successful save, a new store over the same
      storage that loads from it holds the identical ordered list. */
  method Restart(store: FavoritesStore) returns (next: FavoritesStore)
    requires store.storage.Slot() == Value(store.favorites)
    ensures fresh(next) && next.storage == store.storage
    ensures next.favorites == store.favorites
  {
    next := new FavoritesStore(store.storage);
    next.Load();
  }
}
