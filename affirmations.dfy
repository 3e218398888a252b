/** The positive-affirmations screen: a random affirmation that changes on request, and a
    list of favourite affirmations mirrored to local storage under `favoriteAffirmations`. */
module Affirmations {
  import opened Wrappers
  import opened Seqs

  /** The affirmations the screen draws from. */
  const Pool: seq<string> := [
    "I am brave and strong!", "I can do amazing things!", "I am loved and valued!",
    "Every day I'm getting better!", "I believe in myself!", "I am kind and caring!",
    "My feelings matter!", "I am proud of who I am!", "I can handle challenges!",
    "I am a good friend!", "I deserve to be happy!", "I am creative and smart!",
    "I make good choices!", "I am unique and special!", "I can learn new things!",
    "I am enough just as I am!", "I have wonderful ideas!", "I am grateful for today!",
    "I choose to be positive!", "I am growing every day!"
  ]

  /** The new favourites list after `toggleFavorite(item)`: a favourite is removed
      (every occurrence of it), anything else is appended. */
  function Toggle(favorites: seq<string>, item: string): (r: seq<string>)
    ensures item in r <==> item !in favorites
    ensures forall other :: other != item ==> (other in r <==> other in favorites)
  {
    if item in favorites then Filter(favorites, a => a != item) else favorites + [item]
  }

  /** Toggling a favourite removes all of its occurrences and keeps every other element,
      as often as it occurred and in the original order. */
  lemma ToggleRemovesEveryOccurrence(favorites: seq<string>, item: string)
    requires item in favorites
    ensures item !in Toggle(favorites, item)
    ensures Subseq(Toggle(favorites, item), favorites)
    ensures forall other :: other != item ==>
              multiset(Toggle(favorites, item))[other] == multiset(favorites)[other]
  {
    var p := a => a != item;
    FilterIsSubseq(favorites, p);
    forall other | other != item
      ensures multiset(Toggle(favorites, item))[other] == multiset(favorites)[other]
    {
      FilterMultiplicity(favorites, p, other);
    }
  }

  /** Toggling an item that is not a favourite appends it at the end. */
  lemma ToggleAppendsNew(favorites: seq<string>, item: string)
    requires item !in favorites
    ensures Toggle(favorites, item) == favorites + [item]
  {
  }

  /** Toggling a non-favourite twice gives back the original list. */
  lemma ToggleTwiceRestores(favorites: seq<string>, item: string)
    requires item !in favorites
    ensures Toggle(Toggle(favorites, item), item) == favorites
  {
    var p := a => a != item;
    FilterAppend(favorites, [item], p);
    FilterAll(favorites, p);
    assert Filter([item], p) == [];
  }

  /** A favourites list without duplicates stays without duplicates. */
  lemma ToggleKeepsDistinct(favorites: seq<string>, item: string)
    requires Distinct(favorites)
    ensures Distinct(Toggle(favorites, item))
  {
    if item in favorites {
      FilterKeepsDistinct(favorites, a => a != item);
    }
  }

  /** The retry loop of `getNewAffirmation` fed with the draws `draws`: the first drawn
      affirmation that is accepted, or None if the draws run out first. A draw is
      accepted when it differs from `current` or the pool has a single affirmation. */
  function FirstAccepted(pool: seq<string>, current: string, draws: seq<nat>): (r: Option<string>)
    requires forall i :: 0 <= i < |draws| ==> draws[i] < |pool|
    ensures r.Some? ==> r.value in pool && (|pool| > 1 ==> r.value != current)
    ensures r.None? <==> forall i :: 0 <= i < |draws| ==> pool[draws[i]] == current && |pool| > 1
    decreases |draws|
  {
    if draws == [] then None
    else if pool[draws[0]] == current && |pool| > 1 then FirstAccepted(pool, current, draws[1..])
    else Some(pool[draws[0]])
  }

  /** A draw that gives a different affirmation ends the retry loop. */
  lemma {:induction false} DifferentDrawEndsLoop(pool: seq<string>, current: string, draws: seq<nat>, k: nat)
    requires forall i :: 0 <= i < |draws| ==> draws[i] < |pool|
    requires k < |draws| && pool[draws[k]] != current
    ensures FirstAccepted(pool, current, draws).Some?
  {
    if k > 0 && !(pool[draws[0]] != current || |pool| <= 1) {
      DifferentDrawEndsLoop(pool, current, draws[1..], k - 1);
    }
  }

  /** `getNewAffirmation`'s do/while loop: draw until the draw differs from the current
      affirmation or the pool has one affirmation. `draws` are the successive values of
      `Math.floor(Math.random() * pool.length)`; None means they ran out. */
  method GetNewAffirmation(pool: seq<string>, current: string, draws: seq<nat>) returns (r: Option<string>)
    requires forall i :: 0 <= i < |draws| ==> draws[i] < |pool|
    ensures r == FirstAccepted(pool, current, draws)
    ensures r.Some? ==> r.value in pool && (|pool| > 1 ==> r.value != current)
  {
    r := None;
    var i := 0;
    while i < |draws|
      invariant 0 <= i <= |draws|
      invariant FirstAccepted(pool, current, draws) == FirstAccepted(pool, current, draws[i..])
    {
      var newAffirmation := pool[draws[i]];
      if !(newAffirmation == current && |pool| > 1) {
        r := Some(newAffirmation);
        return;
      }
      assert draws[i..][1..] == draws[i + 1..];
      i := i + 1;
    }
  }

  /** The list a mount reads from storage: the saved list, or the empty list when none. */
  function Loaded(saved: Option<seq<string>>): seq<string> {
    saved.GetOr([])
  }

  /** The state of the affirmations component, with the storage entry it writes. */
  class AffirmationBoard {
    var current: string
    var favorites: seq<string>
    var stored: Option<seq<string>>

    /** A reload would show the same favourites as are shown now. */
    ghost predicate Valid()
      reads this
    {
      favorites == Loaded(stored) && current in Pool
    }

    /** Mounting the screen: a random affirmation, and the favourites read from storage. */
    constructor Mount(saved: Option<seq<string>>)
      ensures Valid() && stored == saved && favorites == Loaded(saved)
    {
      var i :| 0 <= i < |Pool|;
      current := Pool[i];
      stored := saved;
      favorites := Loaded(saved);
    }

    /** `getNewAffirmation` with the draws its loop consumes; with an accepted draw the
        shown affirmation changes to another one of the pool. */
    method NewAffirmation(draws: seq<nat>)
      requires Valid()
      requires forall i :: 0 <= i < |draws| ==> draws[i] < |Pool|
      modifies this`current
      ensures Valid()
      ensures FirstAccepted(Pool, old(current), draws).Some? ==>
                current == FirstAccepted(Pool, old(current), draws).value && current != old(current)
      ensures FirstAccepted(Pool, old(current), draws).None? ==> current == old(current)
    {
      var r := GetNewAffirmation(Pool, current, draws);
      if r.Some? {
        current := r.value;
      }
    }

    /** `toggleFavorite(item)`: update the list and save it. */
    method ToggleFavorite(item: string)
      requires Valid()
      modifies this`favorites, this`stored
      ensures Valid() && stored == Some(favorites)
      ensures favorites == Toggle(old(favorites), item)
    {
      var newFavorites := Toggle(favorites, item);
      favorites := newFavorites;
      stored := Some(newFavorites);
    }

    /** Mounting the screen anew from what is stored shows the same favourites. */
    method Reload() returns (reloaded: seq<string>)
      requires Valid()
      ensures reloaded == favorites
    {
      var remounted := new AffirmationBoard.Mount(stored);
      reloaded := remounted.favorites;
    }
  }
}
