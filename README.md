# Mind-connect wellness screens — a Dafny model

Mind-connect is a student wellness web application whose screens mostly read and write
rows of a hosted database. This project models the pieces of screen logic that hold up
on their own once the database, the clock and the random-number generator are taken out:

- **Mood tracker** (`Mood`): the day streak computed from the newest-first mood history
  (calendar days as integer day numbers), the 30-entry history limit, and the save-mood
  guard, insert row and form reset.
- **Breathing exercise** (`Breathing`): the Inhale → Hold → Exhale countdown as a class
  whose `Tick` is one firing of the one-second interval, with start and stop.
- **Shape-matching game** (`ShapeGame`): score, active flag, shown shape and consecutive
  misses as a class; the random shape is a free choice among the five shape ids.
- **Favourite quotes** (`Quotes`) and **favourite affirmations** (`Affirmations`): lists
  that grow by appending and shrink by index or by value, mirrored to local storage (a
  second field that every change overwrites); the affirmation retry loop.
- **Book filter** (`Books`): order-preserving filter by case-insensitive substring in title
  or author, and by category with `All` as wildcard.
- **Victories** (`Victories`): category lookup with fallback, per-category counts, and the
  add-victory guard and row.
- **Testimonies** (`Testimonies`): posting guard, like/unlike count arithmetic, and the
  author name, initial, avatar colour and like label shown.

Shared vocabulary lives in `Wrappers` (Option, for `null`), `Text` (JavaScript `trim`,
blank strings, ASCII `toLowerCase`/`toUpperCase`, `includes`, `s || null`) and `Seqs`
(`filter`, order-preserving subsequence, duplicate-free lists).

The streak counts one-day steps between consecutive entries, not distinct days with an
entry: two entries on the same day end it (`Mood.SameDayEntriesEndStreak`).

## Model

| member | source | states |
|---|---|---|
| Mood.LeadingRunIsLongestPrefix | src/components/MoodTracker.tsx:65-78 | the run counted after the first entry is the unique length of the longest prefix whose consecutive entries are exactly one day apart |
| Mood.StreakZeroCases | src/components/MoodTracker.tsx:46-63 | the streak is 0 exactly when there are no entries or the newest entry is more than one day before today |
| Mood.LeadingRun | src/components/MoodTracker.tsx:65-78 | the count of leading one-day steps is below the number of entries, and every pair it counts is exactly one day apart |
| Mood.Streak | src/components/MoodTracker.tsx:45-80 | the streak never exceeds the number of entries, is positive only when the newest entry is at most one day before today (an entry dated after today included), and every pair of entries inside it is one day apart |
| Mood.StreakIgnoresEntriesAfterBreak | src/components/MoodTracker.tsx:73-77 | after the first pair that is not one day apart (a same-day pair included), replacing the later entries never changes the streak |
| Mood.SameDayEntriesEndStreak | src/components/MoodTracker.tsx:71-77 | today, today, yesterday gives a streak of 1: a same-day pair ends the run |
| Mood.TodayAndYesterday | src/components/MoodTracker.tsx:55-78 | an entry today and one yesterday give a streak of 2 |
| Mood.Take | src/components/MoodTracker.tsx:37 | the limited query returns the prefix of the ordered entries of length `n`, or all entries when there are at most `n` |
| Mood.StreakAtMostHistoryLimit | src/components/MoodTracker.tsx:37-41 | a streak computed from the loaded history never exceeds 30 |
| Mood.MoodTracker.constructor | src/components/MoodTracker.tsx:18-22 | the form starts with no mood, intensity 3, empty note, empty history and streak 0 |
| Mood.MoodTracker.LoadHistory | src/components/MoodTracker.tsx:29-43 | nothing changes without a user or without data; otherwise the history becomes the first 30 entries and the streak is recomputed from it, at most 30 |
| Mood.MoodTracker.CalculateStreak | src/components/MoodTracker.tsx:45-81 | the scan with its early exit leaves in `streak` the streak of the entries |
| Mood.MoodTracker.SaveMood | src/components/MoodTracker.tsx:83-99 | no request without a user or a selected mood; otherwise the row with the empty note as null; after an accepted insert the mood and note are cleared and the intensity is back to 3, else nothing changes |
| Breathing.Step | src/components/exercises/BreathingExercise.tsx:19-28 | a counter above 1 is decremented with the phase kept; at or below 1 the next phase starts at its duration; the counter stays at least 1, and at most 4 when it started there |
| Breathing.NextCycles | src/components/exercises/BreathingExercise.tsx:22-24 | the phase order has period three and no phase follows itself |
| Breathing.RunFromStart | src/components/exercises/BreathingExercise.tsx:12-29 | after n ticks from a start the display is phase number n/4 of the cycle with counter 4 - n mod 4: each phase is shown for four ticks |
| Breathing.CycleOfTwelve | src/components/exercises/BreathingExercise.tsx:12-29 | twelve ticks from a start return to (Inhale, 4), and the display is periodic with period 12 |
| Breathing.RunKeepsCountInRange | src/components/exercises/BreathingExercise.tsx:19-28 | from a counter in 1..4 any number of ticks keeps it in 1..4 |
| Breathing.BreathingExercise.constructor | src/components/exercises/BreathingExercise.tsx:5-7 | the exercise starts stopped at (Inhale, 4) |
| Breathing.BreathingExercise.Tick | src/components/exercises/BreathingExercise.tsx:9-32 | no change while stopped; while running a counter above 1 is decremented with the phase kept, and a counter at or below 1 moves to the next phase with that phase's duration 4 |
| Breathing.BreathingExercise.Start | src/components/exercises/BreathingExercise.tsx:34-38 | running, at (Inhale, 4) |
| Breathing.BreathingExercise.Stop | src/components/exercises/BreathingExercise.tsx:40-44 | stopped, at (Inhale, 4) |
| ShapeGame.Click | src/components/exercises/StressGames.tsx:30-43 | an over game is unchanged; a hit adds 1 to the score, clears the misses and shows the drawn shape; a miss keeps score and shape, adds a miss, and leaves the game active exactly when fewer than two misses preceded it |
| ShapeGame.OverGameIgnoresClicks | src/components/exercises/StressGames.tsx:31 | once the game is over, any clicks leave the whole state, the score included, unchanged |
| ShapeGame.ScoreMonotone | src/components/exercises/StressGames.tsx:30-43 | over any clicks the score never decreases and grows by at most one per click |
| ShapeGame.MissesEndGameOnThird | src/components/exercises/StressGames.tsx:37-41 | wrong clicks keep score and shape, count the misses, and the game is active exactly while fewer than three consecutive misses have happened |
| ShapeGame.ShapeStaysAShape | src/components/exercises/StressGames.tsx:25-36 | when every drawn shape is a shape id, the shown shape stays one |
| ShapeGame.StressGames.constructor | src/components/exercises/StressGames.tsx:5-8 | no game, score 0, no shape, no misses |
| ShapeGame.StressGames.NextShape | src/components/exercises/StressGames.tsx:25-28 | the shown shape becomes one of the five ids |
| ShapeGame.StressGames.StartGame | src/components/exercises/StressGames.tsx:18-23 | active, score 0, no misses, shape one of the five ids |
| ShapeGame.StressGames.HandleShapeClick | src/components/exercises/StressGames.tsx:30-43 | inactive: no change; a hit adds exactly 1 to the score, clears the misses and draws a shape id; a miss adds 1 to the misses, keeps score and shape, and ends the game exactly when two misses preceded it |
| Quotes.DropPositionRemovesAt | src/components/Quotes.tsx:57 | the index filter over a stretch starting at a position removes exactly the element at the index when it lies in the stretch, and nothing otherwise |
| Quotes.WithoutIndex | src/components/Quotes.tsx:56-57 | an index in range removes exactly that element, keeping the others in order and shortening by one; any other index leaves the list as it is |
| Quotes.QuoteFavorites.Mount | src/components/Quotes.tsx:32-38 | the favourites are the stored list, or empty when nothing is stored |
| Quotes.QuoteFavorites.GetNewQuote | src/components/Quotes.tsx:40-47 | the shown quote becomes one of the local quotes |
| Quotes.QuoteFavorites.AddToFavorites | src/components/Quotes.tsx:49-54 | without a quote nothing changes; otherwise the quote is appended, duplicates allowed, and storage holds the new list |
| Quotes.QuoteFavorites.RemoveFromFavorites | src/components/Quotes.tsx:56-60 | an index in range removes exactly that element, any other keeps the list; storage holds the new list |
| Quotes.QuoteFavorites.Reload | src/components/Quotes.tsx:34-37 | a fresh mount from what is stored shows exactly the current favourites |
| Affirmations.Toggle | src/components/exercises/Affirmations.tsx:45-47 | toggling flips the toggled item's membership and keeps every other item's |
| Affirmations.ToggleRemovesEveryOccurrence | src/components/exercises/Affirmations.tsx:45-46 | toggling a favourite removes every occurrence and keeps every other element, as often as before and in order |
| Affirmations.ToggleAppendsNew | src/components/exercises/Affirmations.tsx:45-47 | toggling an absent item appends it at the end |
| Affirmations.ToggleTwiceRestores | src/components/exercises/Affirmations.tsx:45-47 | toggling an absent item twice gives back the original list |
| Affirmations.ToggleKeepsDistinct | src/components/exercises/Affirmations.tsx:45-47 | a duplicate-free list stays duplicate-free |
| Affirmations.FirstAccepted | src/components/exercises/Affirmations.tsx:37-40 | an accepted draw is in the pool and differs from the current affirmation when the pool has more than one; nothing is accepted exactly when every draw repeats the current one in a pool of several |
| Affirmations.DifferentDrawEndsLoop | src/components/exercises/Affirmations.tsx:38-40 | a draw that differs from the current affirmation ends the retry loop |
| Affirmations.GetNewAffirmation | src/components/exercises/Affirmations.tsx:36-42 | the loop returns the first accepted draw; an accepted affirmation is in the pool and, when the pool has more than one, differs from the current one |
| Affirmations.AffirmationBoard.Mount | src/components/exercises/Affirmations.tsx:28-34 | a pool affirmation is shown and the favourites are the stored list, or empty |
| Affirmations.AffirmationBoard.NewAffirmation | src/components/exercises/Affirmations.tsx:36-42 | an accepted draw replaces the shown affirmation with a different one; otherwise it stays |
| Affirmations.AffirmationBoard.ToggleFavorite | src/components/exercises/Affirmations.tsx:44-50 | the favourites become the toggled list and storage holds it |
| Affirmations.AffirmationBoard.Reload | src/components/exercises/Affirmations.tsx:31-34 | a fresh mount from what is stored shows exactly the current favourites |
| Text.Trim | src/components/Victories.tsx:40 | `trim()` is the input with a blank margin removed at each end: a contiguous middle stretch of the input, preceded and followed only by whitespace, that neither starts nor ends with whitespace |
| Text.NullIfEmpty | src/components/MoodTracker.tsx:90 | the empty string becomes null, any other string is kept as it is |
| Text.ToLower | src/components/Books.tsx:87-88 | `toLowerCase()` keeps the length and lower-cases each ASCII letter in place |
| Text.Contains | src/components/Books.tsx:87-88 | `includes` can only hold when the term is no longer than the text |
| Text.TrimEmptyIffBlank | src/components/Victories.tsx:40 | `trim()` gives the empty string exactly for strings made only of whitespace |
| Text.ContainsIff | src/components/Books.tsx:87-88 | `includes` holds exactly when the term occurs at some position |
| Books.FilteredBooks | src/components/Books.tsx:86-91 | the result is no longer than the list, every book in it is shown by both conditions, and every book of the list shown by them is in it |
| Books.FilteredBooksExactly | src/components/Books.tsx:86-91 | the result is an order-preserving subsequence of the books; a book is in it exactly when the lower-cased term occurs in its lower-cased title or author and the category is the selected one or `All` is selected; and each such book occurs as often as in the list, every other book not at all |
| Books.EveryCategoryListsABook | src/components/Books.tsx:84-91 | with an empty search, every category button lists at least one of the eight books, so the empty-result message only follows a search |
| Books.NoCriteriaListsEverything | src/components/Books.tsx:87-89 | with `All` and an empty term every book is listed, in order |
| Books.SpecificCategoryOnly | src/components/Books.tsx:89 | a category other than `All` lists only books of exactly that category |
| Books.SearchIgnoresTermCase | src/components/Books.tsx:87-88 | lower-casing the term changes nothing in the result |
| Victories.FindCategory | src/components/Victories.tsx:64 | the category found is the first in the list with the id; none found means no category has the id |
| Victories.GetCategoryData | src/components/Victories.tsx:63-65 | a known id gives its category, an unknown one the first category (`academic`) |
| Victories.KnownCategoryIds | src/components/Victories.tsx:6-11 | the known ids are exactly academic, social, personal and health |
| Victories.VictoriesByCategory | src/components/Victories.tsx:67-70 | exactly the four categories, in their fixed order |
| Victories.CountIn | src/components/Victories.tsx:69 | the count is at most the number of victories, and 0 exactly when no victory has that category |
| Victories.CountIsMultiplicity | src/components/Victories.tsx:69 | the filtered count equals how many victories name that category |
| Victories.StatisticsCountVictories | src/components/Victories.tsx:67-70 | each statistic's count is the number of victories with that category id |
| Victories.CountsPartitionVictories | src/components/Victories.tsx:67-70 | the four counts plus the victories of unknown category add up to the number of victories |
| Victories.CountsSumAtMostVictories | src/components/Victories.tsx:67-70 | the counts sum to at most the number of victories, with equality exactly when every victory has a known category |
| Victories.AddVictory | src/components/Victories.tsx:39-47 | refused exactly without a user, with a blank title or with no category; otherwise the row keeps title and category and stores an empty description as null |
| Testimonies.PostTestimony | src/components/Testimonies.tsx:28-35 | refused exactly without a user or with blank content; otherwise the row with content and anonymity as given |
| Testimonies.LikedCount | src/components/Testimonies.tsx:71 | liking raises the count, and unliking the raised count gives back a non-negative one |
| Testimonies.UnlikedCount | src/components/Testimonies.tsx:62 | taking a like back lowers a positive count by one and never goes below 0 |
| Testimonies.LikeUnlikeInverse | src/components/Testimonies.tsx:58-72 | liking then unliking restores a count, and unliking then liking restores a positive one |
| Testimonies.FindTestimony | src/components/Testimonies.tsx:55 | the story found is the first with that id; none found means no story has it |
| Testimonies.ToggleLike | src/components/Testimonies.tsx:45-73 | no writes without a user or for a story not loaded; otherwise an existing like is deleted with count max(0, count - 1), or a like is added with count + 1, on the first story with that id |
| Testimonies.AuthorName | src/components/Testimonies.tsx:143-145 | `Anonymous Student` for anonymous stories, else the profile name, or `Student` when missing or empty; never empty |
| Testimonies.AuthorInitial | src/components/Testimonies.tsx:158 | `?` for anonymous stories, else the upper-cased first letter of the author shown |
| Testimonies.AvatarColor | src/components/Testimonies.tsx:146-156 | grey for anonymous stories or a missing colour, else the profile colour |
| Testimonies.LikeLabel | src/components/Testimonies.tsx:181 | `Like` exactly for a count of 1, `Likes` otherwise |

## Left out

- Every database, authentication and storage call (`load*`, `insert`, `update`, `delete`, `deleteVictory`): they are foreign calls. Their answers are parameters: the mood entries, whether an insert was accepted, whether the user already likes a story.
- The reloads that follow a successful save, and the form resets of `addVictory` and `postTestimony`: they only call the database again or clear form fields.
- The concurrent read-modify-write of `likes_count` when several users like one story: the backend owns that.
- `Date`, `setHours`, millisecond arithmetic, time zones and daylight saving in the streak: calendar days are integer day numbers, and the day difference is their integer difference.
- `Math.random`: a free choice of an in-range index, or an explicit list of draws for the retry loop.
- Affirmations.GetNewAffirmation: the source draws until a draw is accepted; the model consumes a finite list of draws and returns None when it runs out, so it does not capture the (probabilistic) termination of the real loop.
- `setInterval`/`setTimeout` timing, the re-creation of the interval when the phase changes, and React's batching or repeated calls of state updaters: one interval firing is one `Tick`, and `GetNewQuote` shows its quote at once instead of after a 500 ms loading phase.
- JSON serialisation and malformed stored values: storage holds the list itself.
- Unicode: `toLowerCase`/`toUpperCase` are modelled on ASCII letters only, and `trim` strips the common whitespace characters, not every Unicode space separator.
- Rendering: mood icons and colours, book categories as buttons, layout and styling.
