/** The daily-inspiration screen: a random quote and a list of favourite quotes that is
    mirrored to local storage under `favoriteQuotes` after every change. */
module Quotes {
  import opened Wrappers

  datatype Quote = Quote(text: string, author: string)

  /** The quotes the screen draws from. */
  const LocalQuotes: seq<Quote> := [
    Quote("Believe you can and you're halfway there.", "Theodore Roosevelt"),
    Quote("You are braver than you believe, stronger than you seem, and smarter than you think.", "A.A. Milne"),
    Quote("The only way to do great work is to love what you do.", "Steve Jobs"),
    Quote("Every day may not be good, but there is something good in every day.", "Alice Morse Earle"),
    Quote("You are never too old to set another goal or to dream a new dream.", "C.S. Lewis"),
    Quote("Start where you are. Use what you have. Do what you can.", "Arthur Ashe"),
    Quote("The future belongs to those who believe in the beauty of their dreams.", "Eleanor Roosevelt"),
    Quote("It always seems impossible until it's done.", "Nelson Mandela"),
    Quote("Happiness is not by chance, but by choice.", "Jim Rohn"),
    Quote("Be yourself; everyone else is already taken.", "Oscar Wilde"),
    Quote("You don't have to be perfect to be amazing.", "Unknown"),
    Quote("A journey of a thousand miles begins with a single step.", "Lao Tzu"),
    Quote("The best time to plant a tree was 20 years ago. The second best time is now.", "Chinese Proverb"),
    Quote("You are enough just as you are.", "Meghan Markle"),
    Quote("Difficult roads often lead to beautiful destinations.", "Unknown")
  ]

  /** `s.filter((_, i) => i !== index)` for the part of `s` that starts at position `from`. */
  function DropPosition<T>(s: seq<T>, index: int, from: int): seq<T>
    decreases |s|
  {
    if s == [] then [] else (if from == index then [] else [s[0]]) + DropPosition(s[1..], index, from + 1)
  }

  /** Dropping position `index` removes exactly that element when it lies in the scanned
      part, and nothing otherwise. */
  lemma {:induction false} DropPositionRemovesAt<T>(s: seq<T>, index: int, from: int)
    ensures DropPosition(s, index, from) ==
              if from <= index < from + |s| then s[..index - from] + s[index - from + 1..] else s
    decreases |s|
  {
    if s != [] {
      var tail := s[1..];
      DropPositionRemovesAt(tail, index, from + 1);
      assert DropPosition(s, index, from) == (if from == index then [] else [s[0]]) + DropPosition(tail, index, from + 1);
      if from == index {
        assert s[..0] + s[1..] == tail;
      } else if from < index < from + |s| {
        var k := index - from;
        calc {
          DropPosition(s, index, from);
          [s[0]] + (tail[..k - 1] + tail[k..]);
          ([s[0]] + tail[..k - 1]) + tail[k..];
          { assert s[..k] == [s[0]] + tail[..k - 1]; assert s[k + 1..] == tail[k..]; }
          s[..k] + s[k + 1..];
        }
      } else {
        assert s == [s[0]] + tail;
      }
    }
  }

  /** `favorites.filter((_, i) => i !== index)`: an index in range removes exactly the
      element there and keeps the rest in order; any other index keeps the list. */
  function WithoutIndex<T>(s: seq<T>, index: int): (r: seq<T>)
    ensures 0 <= index < |s| ==> r == s[..index] + s[index + 1..] && |r| == |s| - 1
    ensures !(0 <= index < |s|) ==> r == s
  {
    DropPositionRemovesAt(s, index, 0);
    DropPosition(s, index, 0)
  }

  /** The list a mount reads from storage: the saved list, or the empty list when none. */
  function Loaded(saved: Option<seq<Quote>>): seq<Quote> {
    saved.GetOr([])
  }

  /** The state of the quotes component, with the storage entry it writes. */
  class QuoteFavorites {
    var quote: Option<Quote>
    var favorites: seq<Quote>
    var stored: Option<seq<Quote>>

    /** A reload would show the same favourites as are shown now. */
    ghost predicate Valid()
      reads this
    {
      favorites == Loaded(stored)
    }

    /** Mounting the screen: favourites are read back from storage; the first quote
        arrives later, through `GetNewQuote`. */
    constructor Mount(saved: Option<seq<Quote>>)
      ensures Valid() && stored == saved && quote == None
      ensures favorites == Loaded(saved)
    {
      quote := None;
      stored := saved;
      favorites := Loaded(saved);
    }

    /** `getNewQuote`: show a randomly chosen quote. */
    method GetNewQuote()
      modifies this`quote
      ensures quote.Some? && quote.value in LocalQuotes
    {
      var i :| 0 <= i < |LocalQuotes|;
      quote := Some(LocalQuotes[i]);
    }

    /** `addToFavorites`: append the shown quote (duplicates allowed) and save the list. */
    method AddToFavorites()
      requires Valid()
      modifies this`favorites, this`stored
      ensures Valid()
      ensures quote.None? ==> favorites == old(favorites) && stored == old(stored)
      ensures quote.Some? ==> favorites == old(favorites) + [quote.value] && stored == Some(favorites)
    {
      if quote.None? {
        return;
      }
      var newFavorites := favorites + [quote.value];
      favorites := newFavorites;
      stored := Some(newFavorites);
    }

    /** `removeFromFavorites(index)`: drop the element at `index` and save the list. */
    method RemoveFromFavorites(index: int)
      requires Valid()
      modifies this`favorites, this`stored
      ensures Valid() && stored == Some(favorites)
      ensures 0 <= index < |old(favorites)| ==>
                favorites == old(favorites)[..index] + old(favorites)[index + 1..]
      ensures !(0 <= index < |old(favorites)|) ==> favorites == old(favorites)
    {
      var newFavorites := WithoutIndex(favorites, index);
      favorites := newFavorites;
      stored := Some(newFavorites);
    }

    /** Mounting the screen anew from what is stored shows the same favourites. */
    method Reload() returns (reloaded: seq<Quote>)
      requires Valid()
      ensures reloaded == favorites
    {
      var remounted := new QuoteFavorites.Mount(stored);
      reloaded := remounted.favorites;
    }
  }
}
