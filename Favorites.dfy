/**
 * The favorites collection kept in browser storage under one key:
 * loadFavorites, saveFavorites, isFavorite, and the list logic of the
 * favorite toggle (filter by id to remove, push onto the end to add).
 */
module Favorites {
  import opened Recipes
  import opened Sequences

  const FavoritesKey := "wdic_favorites"

  /**
   * What localStorage holds under a key: the JSON text of a recipe list,
   * or text that JSON.parse rejects (the empty string behaves the same way,
   * since it is falsy and also yields []).
   */
  datatype Blob = Serialized(recipes: seq<Recipe>) | Malformed

  /** localStorage as a map from key to stored text. */
  type Storage = map<string, Blob>

  /** loadFavorites: a missing key or unparseable content yields []; it never fails. */
  function Load(storage: Storage): seq<Recipe>
  {
    if FavoritesKey in storage && storage[FavoritesKey].Serialized? then
      storage[FavoritesKey].recipes
    else
      []
  }

  /** The storage after saveFavorites(favorites): the whole blob is replaced. */
  function Saved(storage: Storage, favorites: seq<Recipe>): Storage
  {
    storage[FavoritesKey := Serialized(favorites)]
  }

  /** isFavorite / `favorites.some((fav) => fav.id === id)`. */
  function IsFavorite(favorites: seq<Recipe>, id: int): (b: bool)
    ensures b <==> exists i :: 0 <= i < |favorites| && favorites[i].id == id
  {
    if favorites == [] then false
    else
      assert forall i :: 1 <= i < |favorites| ==> favorites[i] == favorites[1..][i - 1];
      favorites[0].id == id || IsFavorite(favorites[1..], id)
  }

  /** No two entries share an id. */
  ghost predicate UniqueIds(favorites: seq<Recipe>)
  {
    forall i, j :: 0 <= i < j < |favorites| ==> favorites[i].id != favorites[j].id
  }

  /** The number of entries with the given id. */
  function CountId(favorites: seq<Recipe>, id: int): nat
  {
    if favorites == [] then 0
    else (if favorites[0].id == id then 1 else 0) + CountId(favorites[1..], id)
  }

  /** a is b with some elements left out, the rest in their original order. */
  ghost predicate IsSubsequence<T>(a: seq<T>, b: seq<T>)
    decreases |b|
  {
    if a == [] then true
    else if b == [] then false
    else if a[0] == b[0] then IsSubsequence(a[1..], b[1..])
    else IsSubsequence(a, b[1..])
  }

  /**
   * `favorites.filter((fav) => fav.id !== id)`: every entry with the id is
   * gone, every other entry stays, and the survivors keep their order.
   */
  function RemoveById(favorites: seq<Recipe>, id: int): (kept: seq<Recipe>)
    ensures forall i :: 0 <= i < |kept| ==> kept[i].id != id
    ensures forall r :: r in kept <==> r in favorites && r.id != id
    ensures IsSubsequence(kept, favorites)
    ensures |kept| + CountId(favorites, id) == |favorites|
  {
    if favorites == [] then []
    else
      var rest := RemoveById(favorites[1..], id);
      assert forall r :: r in favorites <==> r == favorites[0] || r in favorites[1..];
      if favorites[0].id == id then
        rest
      else
        assert ([favorites[0]] + rest)[1..] == rest;
        [favorites[0]] + rest
  }

  /**
   * The list the toggle saves: without the id when it was present,
   * otherwise the list with the candidate pushed onto the end.
   */
  function Toggle(favorites: seq<Recipe>, id: int, candidate: Recipe): seq<Recipe>
  {
    if IsFavorite(favorites, id) then RemoveById(favorites, id) else favorites + [candidate]
  }

  // ---------------------------------------------------------------------
  // Lemmas

  /** Loading right after saveFavorites(favorites) gives favorites; no other key changes. */
  lemma {:induction false} LoadAfterSave(storage: Storage, favorites: seq<Recipe>)
    ensures Load(Saved(storage, favorites)) == favorites
    ensures forall k :: k in storage && k != FavoritesKey ==> k in Saved(storage, favorites) && Saved(storage, favorites)[k] == storage[k]
  {
  }

  /** loadFavorites fails soft: no key, or content that does not parse, reads as []. */
  lemma {:induction false} LoadFailsSoft(storage: Storage)
    requires FavoritesKey !in storage || storage[FavoritesKey] == Malformed
    ensures Load(storage) == []
  {
  }

  lemma {:induction false} CountAbsent(favorites: seq<Recipe>, id: int)
    ensures CountId(favorites, id) == 0 <==> !IsFavorite(favorites, id)
  {
    if favorites != [] {
      CountAbsent(favorites[1..], id);
    }
  }

  lemma {:induction false} CountAppend(favorites: seq<Recipe>, r: Recipe, id: int)
    ensures CountId(favorites + [r], id) == CountId(favorites, id) + (if r.id == id then 1 else 0)
  {
    if favorites != [] {
      TailOfConcat(favorites, [r]);
      CountAppend(favorites[1..], r, id);
    } else {
      ConcatEmpty([r]);
    }
  }

  /** Filtering out an id that is absent changes nothing. */
  lemma {:induction false} RemoveAbsent(favorites: seq<Recipe>, id: int)
    requires !IsFavorite(favorites, id)
    ensures RemoveById(favorites, id) == favorites
  {
    if favorites != [] {
      RemoveAbsent(favorites[1..], id);
      HeadTail(favorites);
    }
  }

  lemma {:induction false} RemoveAppend(favorites: seq<Recipe>, r: Recipe, id: int)
    ensures RemoveById(favorites + [r], id) == RemoveById(favorites, id) + RemoveById([r], id)
  {
    if favorites == [] {
      ConcatEmpty([r]);
    } else {
      TailOfConcat(favorites, [r]);
      assert (favorites + [r])[0] == favorites[0];
      RemoveAppend(favorites[1..], r, id);
      ConcatAssoc([favorites[0]], RemoveById(favorites[1..], id), RemoveById([r], id));
    }
  }

  /** The tail of a list unique by id is unique by id, and no entry of it shares the head's id. */
  lemma {:induction false} UniqueTail(favorites: seq<Recipe>)
    requires favorites != [] && UniqueIds(favorites)
    ensures UniqueIds(favorites[1..])
    ensures forall r :: r in favorites[1..] ==> r.id != favorites[0].id
  {
    var tail := favorites[1..];
    forall i, j | 0 <= i < j < |tail| ensures tail[i].id != tail[j].id {
      assert tail[i] == favorites[i + 1] && tail[j] == favorites[j + 1];
    }
    forall r | r in tail ensures r.id != favorites[0].id {
      var k :| 0 <= k < |tail| && tail[k] == r;
      assert favorites[k + 1] == r;
    }
  }

  /** An entry whose id no other entry has, in front of a list unique by id, keeps it unique. */
  lemma {:induction false} UniqueCons(r: Recipe, rest: seq<Recipe>)
    requires UniqueIds(rest) && forall x :: x in rest ==> x.id != r.id
    ensures UniqueIds([r] + rest)
  {
    var kept := [r] + rest;
    forall i, j | 0 <= i < j < |kept| ensures kept[i].id != kept[j].id {
      assert kept[j] == rest[j - 1];
      if i > 0 {
        assert kept[i] == rest[i - 1];
      }
    }
  }

  /** Filtering preserves uniqueness of ids. */
  lemma {:induction false} RemoveKeepsUnique(favorites: seq<Recipe>, id: int)
    requires UniqueIds(favorites)
    ensures UniqueIds(RemoveById(favorites, id))
  {
    if favorites != [] {
      UniqueTail(favorites);
      RemoveKeepsUnique(favorites[1..], id);
      if favorites[0].id != id {
        UniqueCons(favorites[0], RemoveById(favorites[1..], id));
      }
    }
  }

  /** When the id is present, the toggle removes every entry with it and keeps the others in order. */
  lemma {:induction false} ToggleRemovesPresent(favorites: seq<Recipe>, id: int, candidate: Recipe)
    requires IsFavorite(favorites, id)
    ensures !IsFavorite(Toggle(favorites, id, candidate), id)
    ensures IsSubsequence(Toggle(favorites, id, candidate), favorites)
    ensures forall r :: r in favorites && r.id != id ==> r in Toggle(favorites, id, candidate)
  {
  }

  /** When the id is absent, the toggle appends exactly one record with that id, at the end. */
  lemma {:induction false} ToggleAppendsAbsent(favorites: seq<Recipe>, id: int, candidate: Recipe)
    requires !IsFavorite(favorites, id) && candidate.id == id
    ensures Toggle(favorites, id, candidate) == favorites + [candidate]
    ensures CountId(Toggle(favorites, id, candidate), id) == 1
  {
    CountAbsent(favorites, id);
    CountAppend(favorites, candidate, id);
  }

  /** The toggle keeps the collection unique by id. */
  lemma {:induction false} ToggleKeepsUnique(favorites: seq<Recipe>, id: int, candidate: Recipe)
    requires UniqueIds(favorites) && candidate.id == id
    ensures UniqueIds(Toggle(favorites, id, candidate))
  {
    if IsFavorite(favorites, id) {
      RemoveKeepsUnique(favorites, id);
    } else {
      var updated := favorites + [candidate];
      forall i, j | 0 <= i < j < |updated| ensures updated[i].id != updated[j].id {
        if j == |favorites| {
          assert updated[i] == favorites[i];
        } else {
          assert updated[i] == favorites[i] && updated[j] == favorites[j];
        }
      }
    }
  }

  /** The toggle flips the membership of the clicked id and keeps the list unique by id. */
  lemma {:induction false} ToggleFlips(favorites: seq<Recipe>, id: int, candidate: Recipe)
    requires candidate.id == id
    ensures IsFavorite(Toggle(favorites, id, candidate), id) <==> !IsFavorite(favorites, id)
    ensures UniqueIds(favorites) ==> UniqueIds(Toggle(favorites, id, candidate))
  {
    if IsFavorite(favorites, id) {
      ToggleRemovesPresent(favorites, id, candidate);
    } else {
      ToggleAppendsAbsent(favorites, id, candidate);
      CountAbsent(Toggle(favorites, id, candidate), id);
    }
    if UniqueIds(favorites) {
      ToggleKeepsUnique(favorites, id, candidate);
    }
  }

  /** Toggling an absent id twice restores the original list. */
  lemma {:induction false} ToggleTwiceAbsent(favorites: seq<Recipe>, id: int, candidate: Recipe, again: Recipe)
    requires !IsFavorite(favorites, id) && candidate.id == id
    ensures Toggle(Toggle(favorites, id, candidate), id, again) == favorites
  {
    var added := favorites + [candidate];
    assert added[|favorites|].id == id;
    RemoveAppend(favorites, candidate, id);
    RemoveAbsent(favorites, id);
    assert RemoveById([candidate], id) == [];
  }

  /**
   * Toggling a present id twice does not restore the order: the record
   * comes back at the end, rebuilt from the card.
   */
  lemma {:induction false} ToggleTwicePresent(favorites: seq<Recipe>, id: int, candidate: Recipe, again: Recipe)
    requires IsFavorite(favorites, id)
    ensures Toggle(Toggle(favorites, id, candidate), id, again) == RemoveById(favorites, id) + [again]
  {
  }
}
