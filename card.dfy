/**
 * The recipe card's heart button: a wishlist of recipe ids kept in browser
 * storage, shared by every card, and a per-card "liked" flag.
 */
module Card {
  import opened Wrappers

  /** Browser storage under the wishlist key: absent, or the stored list of ids. */
  class WishlistStorage {
    var stored: Option<seq<int>>

    constructor (initial: Option<seq<int>>)
      ensures stored == initial
    {
      stored := initial;
    }
  }

  /** `getWishlist`: missing storage reads as the empty list. */
  function ReadWishlist(stored: Option<seq<int>>): (list: seq<int>)
    ensures stored.None? ==> list == []
    ensures stored.Some? ==> list == stored.value
  {
    stored.GetOr([])
  }

  /** `indexOf`: the first position of `id`, or -1. */
  function IndexOf(list: seq<int>, id: int): (i: int)
    ensures -1 <= i < |list|
    ensures i == -1 <==> id !in list
    ensures i >= 0 ==> list[i] == id && id !in list[..i]
  {
    if list == [] then -1
    else if list[0] == id then 0
    else
      var j := IndexOf(list[1..], id);
      if j == -1 then -1 else j + 1
  }

  /** The wishlist after a toggle: the first occurrence of `id` spliced out, or `id` pushed. */
  function Toggled(list: seq<int>, id: int): seq<int> {
    var i := IndexOf(list, id);
    if i > -1 then list[..i] + list[i + 1..] else list + [id]
  }

  predicate NoDuplicates(list: seq<int>) {
    forall i, j :: 0 <= i < j < |list| ==> list[i] != list[j]
  }

  /** An absent id is appended, and every other entry keeps its position. */
  lemma ToggleAbsentAppends(list: seq<int>, id: int)
    requires id !in list
    ensures Toggled(list, id) == list + [id]
  {
  }

  /** A present id loses only its first occurrence; the rest keep their order. */
  lemma TogglePresentRemovesFirst(list: seq<int>, id: int)
    requires id in list
    ensures exists i :: 0 <= i < |list| && list[i] == id && id !in list[..i]
                     && Toggled(list, id) == list[..i] + list[i + 1..]
  {
    var i := IndexOf(list, id);
    assert list[i] == id && id !in list[..i];
  }

  /** On a list without duplicates a toggle flips membership of `id` only, and keeps the list duplicate-free. */
  lemma ToggleFlipsMembership(list: seq<int>, id: int)
    requires NoDuplicates(list)
    ensures var t := Toggled(list, id);
      && (id in t <==> id !in list)
      && (forall x :: x != id ==> (x in t <==> x in list))
      && NoDuplicates(t)
  {
    var t := Toggled(list, id);
    var i := IndexOf(list, id);
    if i > -1 {
      assert t == list[..i] + list[i + 1..];
      forall x | x != id
        ensures x in t <==> x in list
      {
        if x in list {
          var k :| 0 <= k < |list| && list[k] == x;
          if k < i { assert t[k] == x; } else { assert t[k - 1] == x; }
        }
      }
      forall a, b | 0 <= a < b < |t|
        ensures t[a] != t[b]
      {
        var a' := if a < i then a else a + 1;
        var b' := if b < i then b else b + 1;
        assert t[a] == list[a'] && t[b] == list[b'];
      }
    }
  }

  /** Two toggles in a row restore the set of wishlisted ids. */
  lemma {:induction false} DoubleToggleRestoresSet(list: seq<int>, id: int)
    requires NoDuplicates(list)
    ensures (set x | x in Toggled(Toggled(list, id), id)) == (set x | x in list)
  {
    ToggleFlipsMembership(list, id);
    ToggleFlipsMembership(Toggled(list, id), id);
  }

  /** One card: its props, its heart state and the storage it shares with the other cards. */
  class RecipeCard {
    const hasUser: bool
    const recipeId: Option<int>
    const storage: WishlistStorage
    var isInWishlist: bool

    /** Mounting: the heart starts empty, then the effect reads the stored list. */
    constructor (hasUser: bool, recipeId: Option<int>, storage: WishlistStorage)
      ensures this.hasUser == hasUser && this.recipeId == recipeId && this.storage == storage
      ensures isInWishlist == (hasUser && recipeId.Some? && recipeId.value != 0
                               && recipeId.value in ReadWishlist(storage.stored))
    {
      this.hasUser := hasUser;
      this.recipeId := recipeId;
      this.storage := storage;
      isInWishlist := false;
      new;
      if hasUser && recipeId.Some? && recipeId.value != 0 {
        var wishlist := ReadWishlist(storage.stored);
        isInWishlist := recipeId.value in wishlist;
      }
    }

    predicate Active()
      reads this
    {
      hasUser && recipeId.Some? && recipeId.value != 0
    }

    /** `toggleWishlist`. */
    method Toggle()
      modifies this, storage
      ensures !Active() ==> storage.stored == old(storage.stored) && isInWishlist == old(isInWishlist)
      ensures Active() ==> storage.stored == Some(Toggled(ReadWishlist(old(storage.stored)), recipeId.value))
      ensures Active() ==> isInWishlist == !old(isInWishlist)
    {
      if !Active() {
        return;
      }
      var wishlist := ReadWishlist(storage.stored);
      var index := IndexOf(wishlist, recipeId.value);
      if index > -1 {
        wishlist := wishlist[..index] + wishlist[index + 1..];
      } else {
        wishlist := wishlist + [recipeId.value];
      }
      storage.stored := Some(wishlist);
      isInWishlist := !isInWishlist;
    }
  }

  /** When the heart agreed with a duplicate-free stored list, it still agrees after a toggle. */
  lemma HeartTracksMembership(list: seq<int>, id: int, liked: bool)
    requires NoDuplicates(list) && liked == (id in list)
    ensures !liked == (id in Toggled(list, id))
  {
    ToggleFlipsMembership(list, id);
  }
}
