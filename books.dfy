/** The book-recommendation screen: the book list narrowed by a search term (matched
    case-insensitively in title or author) and by a category, where `All` matches any. */
module Books {
  import opened Text
  import opened Seqs

  datatype Book = Book(title: string, author: string, description: string,
                       category: string, ageRange: string, rating: int)

  /** The books the screen lists. */
  const BooksData: seq<Book> := [
    Book("The Feelings Book", "Todd Parr",
         "A colorful and fun book about understanding all kinds of feelings. Perfect for young readers!",
         "Emotions", "5-8", 5),
    Book("What to Do When You Worry Too Much", "Dawn Huebner",
         "A helpful guide to understand and manage worries and anxious thoughts.",
         "Anxiety", "6-12", 5),
    Book("The Growth Mindset Coach", "Annie Brock",
         "Learn how to develop a positive mindset and embrace challenges.",
         "Growth", "10-14", 4),
    Book("Hey Warrior", "Karen Young",
         "A book for children to help them understand and manage anxiety.",
         "Anxiety", "8-12", 5),
    Book("The Mindful Teen", "Dzung X. Vo",
         "Powerful skills to help you handle stress and make better decisions.",
         "Mindfulness", "12-18", 4),
    Book("I Am Enough", "Grace Byers",
         "A beautiful story about self-love and embracing who you are.",
         "Self-Esteem", "5-10", 5),
    Book("The Confidence Code for Girls", "Katty Kay",
         "Learn how to build confidence and believe in yourself!",
         "Confidence", "9-14", 5),
    Book("Big Feelings", "Liz Fosslien",
         "Understanding and navigating emotions in everyday life.",
         "Emotions", "12-16", 4)
  ]

  /** The category choice that matches every book. */
  const AllCategories := "All"

  /** The categories offered for selection. */
  const Categories: seq<string> :=
    [AllCategories, "Emotions", "Anxiety", "Growth", "Mindfulness", "Self-Esteem", "Confidence"]

  /** `matchesSearch`: the lower-cased term occurs in the lower-cased title or author. */
  predicate MatchesSearch(b: Book, searchTerm: string) {
    Contains(ToLower(b.title), ToLower(searchTerm)) || Contains(ToLower(b.author), ToLower(searchTerm))
  }

  /** `matchesCategory`: `All` is a wildcard, any other choice must equal the category. */
  predicate MatchesCategory(b: Book, selectedCategory: string) {
    selectedCategory == AllCategories || b.category == selectedCategory
  }

  predicate IsShown(b: Book, searchTerm: string, selectedCategory: string) {
    MatchesSearch(b, searchTerm) && MatchesCategory(b, selectedCategory)
  }

  /** `filteredBooks`. */
  function FilteredBooks(books: seq<Book>, searchTerm: string, selectedCategory: string): (r: seq<Book>)
    ensures |r| <= |books|
    ensures forall i :: 0 <= i < |r| ==> IsShown(r[i], searchTerm, selectedCategory)
    ensures forall i :: 0 <= i < |books| && IsShown(books[i], searchTerm, selectedCategory) ==> books[i] in r
  {
    Filter(books, b => IsShown(b, searchTerm, selectedCategory))
  }

  /** The term occurs, ignoring ASCII case, at some position of the title or the author. */
  ghost predicate TermOccursIn(b: Book, searchTerm: string) {
    (exists i :: OccursAt(ToLower(b.title), ToLower(searchTerm), i))
    || (exists i :: OccursAt(ToLower(b.author), ToLower(searchTerm), i))
  }

  /** The result keeps the books' original order, a book is listed exactly when the
      term occurs in its title or author and its category is the selected one (or `All`
      is selected), and a listed book appears as often as in the input. */
  lemma FilteredBooksExactly(books: seq<Book>, searchTerm: string, selectedCategory: string)
    ensures Subseq(FilteredBooks(books, searchTerm, selectedCategory), books)
    ensures forall b :: b in FilteredBooks(books, searchTerm, selectedCategory) <==>
              b in books && TermOccursIn(b, searchTerm)
              && (selectedCategory == AllCategories || b.category == selectedCategory)
    ensures forall b :: multiset(FilteredBooks(books, searchTerm, selectedCategory))[b] ==
              if IsShown(b, searchTerm, selectedCategory) then multiset(books)[b] else 0
  {
    var p := b => IsShown(b, searchTerm, selectedCategory);
    FilterIsSubseq(books, p);
    forall b ensures multiset(FilteredBooks(books, searchTerm, selectedCategory))[b] ==
                       if IsShown(b, searchTerm, selectedCategory) then multiset(books)[b] else 0 {
      FilterMultiplicity(books, p, b);
    }
    forall b: Book ensures MatchesSearch(b, searchTerm) <==> TermOccursIn(b, searchTerm) {
      ContainsIff(ToLower(b.title), ToLower(searchTerm));
      ContainsIff(ToLower(b.author), ToLower(searchTerm));
    }
  }

  /** With `All` selected and an empty search term, every book is listed, in order. */
  lemma NoCriteriaListsEverything(books: seq<Book>)
    ensures FilteredBooks(books, "", AllCategories) == books
  {
    forall i | 0 <= i < |books| ensures IsShown(books[i], "", AllCategories) {
      ContainsEmpty(ToLower(books[i].title));
    }
    FilterAll(books, b => IsShown(b, "", AllCategories));
  }

  /** With an empty search term, every category button lists at least one of the books,
      so the "no books found" message only follows a search. */
  lemma EveryCategoryListsABook()
    ensures forall i :: 0 <= i < |Categories| ==> FilteredBooks(BooksData, "", Categories[i]) != []
  {
    var shownBook := [0, 0, 1, 2, 4, 5, 6];
    forall i | 0 <= i < |Categories| ensures FilteredBooks(BooksData, "", Categories[i]) != [] {
      var b := BooksData[shownBook[i]];
      ContainsEmpty(ToLower(b.title));
      assert IsShown(b, "", Categories[i]);
    }
  }

  /** A specific category lists only books of exactly that category. */
  lemma SpecificCategoryOnly(books: seq<Book>, searchTerm: string, selectedCategory: string)
    requires selectedCategory != AllCategories
    ensures forall i :: 0 <= i < |FilteredBooks(books, searchTerm, selectedCategory)| ==>
              FilteredBooks(books, searchTerm, selectedCategory)[i].category == selectedCategory
  {
  }

  /** The search ignores the case of the term: a lower-cased term finds the same books. */
  lemma SearchIgnoresTermCase(books: seq<Book>, searchTerm: string, selectedCategory: string)
    ensures FilteredBooks(books, ToLower(searchTerm), selectedCategory) ==
            FilteredBooks(books, searchTerm, selectedCategory)
  {
    ToLowerIdempotent(searchTerm);
    FilterAgreeing(books, b => IsShown(b, ToLower(searchTerm), selectedCategory),
                          b => IsShown(b, searchTerm, selectedCategory));
  }
}
