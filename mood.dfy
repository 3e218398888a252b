/** The mood tracker: the streak of consecutive logging days and the save-mood form.
    Calendar days are integer day numbers (local midnight of `created_at`). */
module Mood {
  import opened Wrappers
  import opened Text

  /** A loaded `mood_entries` row, reduced to what the component reads. */
  datatype MoodEntry = MoodEntry(mood: string, intensity: int, note: Option<string>, day: int)

  /** The row `saveMood` asks the database to insert. */
  datatype MoodInsert = MoodInsert(userId: string, mood: string, intensity: int, note: Option<string>)

  /** The history query asks for at most this many entries, newest first. */
  const HistoryLimit := 30

  /** The intensity the form starts with and returns to after a save. */
  const DefaultIntensity := 3

  /** Entries `i - 1` and `i` lie on consecutive calendar days. */
  predicate OneDayApart(entries: seq<MoodEntry>, i: int)
    requires 0 < i < |entries|
  {
    entries[i - 1].day - entries[i].day == 1
  }

  /** Number of leading pairs of entries that are exactly one day apart. */
  function LeadingRun(entries: seq<MoodEntry>): (r: nat)
    ensures |entries| > 0 ==> r < |entries|
    ensures forall i :: 0 < i <= r && i < |entries| ==> OneDayApart(entries, i)
    decreases |entries|
  {
    if |entries| < 2 || !OneDayApart(entries, 1) then 0
    else
      assert forall i :: 1 < i < |entries| ==>
        (OneDayApart(entries[1..], i - 1) <==> OneDayApart(entries, i));
      1 + LeadingRun(entries[1..])
  }

  /** The streak the component shows: 0 for no entries or a stale newest entry,
      otherwise 1 plus the leading run of one-day steps. */
  function Streak(entries: seq<MoodEntry>, today: int): (r: nat)
    ensures r <= |entries|
    ensures r > 0 ==> today - entries[0].day <= 1
    ensures forall i :: 0 < i < r ==> OneDayApart(entries, i)
  {
    if |entries| == 0 then 0
    else if today - entries[0].day > 1 then 0
    else 1 + LeadingRun(entries)
  }

  /** The leading run is the longest prefix of one-day steps: every pair up to `k` is
      one day apart and pair `k + 1` is not; and `k` is the only count with that property. */
  lemma {:induction false} LeadingRunIsLongestPrefix(entries: seq<MoodEntry>, k: nat)
    requires k < |entries|
    ensures k == LeadingRun(entries) <==>
              (forall i :: 0 < i <= k ==> OneDayApart(entries, i))
              && (k + 1 < |entries| ==> !OneDayApart(entries, k + 1))
  {
    if |entries| >= 2 && OneDayApart(entries, 1) {
      if k > 0 {
        LeadingRunIsLongestPrefix(entries[1..], k - 1);
        assert forall i :: 0 < i < |entries| - 1 ==>
          (OneDayApart(entries[1..], i) <==> OneDayApart(entries, i + 1));
        if (forall i :: 0 < i <= k - 1 ==> OneDayApart(entries[1..], i)) {
          forall i | 0 < i <= k ensures OneDayApart(entries, i) {
            if i > 1 {
              assert OneDayApart(entries[1..], i - 1);
            }
          }
        }
      }
    }
  }

  /** No entries, or a newest entry two or more days before today, give a streak of 0. */
  lemma StreakZeroCases(entries: seq<MoodEntry>, today: int)
    ensures Streak(entries, today) == 0 <==> |entries| == 0 || today - entries[0].day > 1
  {
  }

  /** The scan stops at the first pair that is not one day apart (a same-day pair
      included): entries after that pair never change the streak. */
  lemma {:induction false} StreakIgnoresEntriesAfterBreak(entries: seq<MoodEntry>, k: nat, rest: seq<MoodEntry>, today: int)
    requires 0 < k < |entries| && !OneDayApart(entries, k)
    ensures Streak(entries[..k + 1] + rest, today) == Streak(entries, today)
  {
    var cut := entries[..k + 1] + rest;
    assert cut[0] == entries[0];
    LeadingRunUpToBreak(entries, k);
    LeadingRunUpToBreak(cut, k);
  }

  /** Within a prefix of `k + 1` entries that ends in a break, the run only sees that prefix. */
  lemma {:induction false} LeadingRunUpToBreak(entries: seq<MoodEntry>, k: nat)
    requires 0 < k < |entries| && !OneDayApart(entries, k)
    ensures LeadingRun(entries) == LeadingRun(entries[..k + 1])
    ensures LeadingRun(entries) < k
  {
    if |entries| >= 2 && OneDayApart(entries, 1) {
      assert k > 1;
      assert entries[1..][..k] == entries[..k + 1][1..];
      LeadingRunUpToBreak(entries[1..], k - 1);
    }
  }

  /** Two entries logged on the same day end the streak there, even when the day before
      also has an entry: the run counts one-day steps, not distinct days. */
  lemma SameDayEntriesEndStreak(today: int, a: MoodEntry, b: MoodEntry, c: MoodEntry)
    requires a.day == today && b.day == today && c.day == today - 1
    ensures Streak([a, b, c], today) == 1
  {
  }

  /** Entries today and yesterday, without a gap, give a streak of 2. */
  lemma TodayAndYesterday(today: int, a: MoodEntry, b: MoodEntry)
    requires a.day == today && b.day == today - 1
    ensures Streak([a, b], today) == 2
  {
    assert OneDayApart([a, b], 1) && [a, b][1..] == [b];
    assert LeadingRun([b]) == 0;
  }

  /** The first `n` entries, as `.limit(n)` returns them. */
  function Take(entries: seq<MoodEntry>, n: nat): (r: seq<MoodEntry>)
    ensures |r| <= n && |r| <= |entries| && r == entries[..|r|]
    ensures |r| == if |entries| <= n then |entries| else n
  {
    if |entries| <= n then entries else entries[..n]
  }

  /** Because the history holds at most 30 entries, the streak never exceeds 30. */
  lemma StreakAtMostHistoryLimit(entries: seq<MoodEntry>, today: int)
    ensures Streak(Take(entries, HistoryLimit), today) <= HistoryLimit
  {
  }

  /** The state of the mood-tracker component. */
  class MoodTracker {
    var selectedMood: string
    var intensity: int
    var note: string
    var history: seq<MoodEntry>
    var streak: nat

    constructor ()
      ensures selectedMood == "" && intensity == DefaultIntensity && note == ""
      ensures history == [] && streak == 0
    {
      selectedMood, intensity, note := "", DefaultIntensity, "";
      history, streak := [], 0;
    }

    /** `loadMoodHistory` with the query's answer given: nothing happens without a
        signed-in user or when the query returns no data; otherwise `data` holds the
        user's entries newest first, of which the database returns the first 30. */
    method LoadHistory(user: Option<string>, data: Option<seq<MoodEntry>>, today: int)
      modifies this`history, this`streak
      ensures user.None? || data.None? ==> history == old(history) && streak == old(streak)
      ensures user.Some? && data.Some? ==> history == Take(data.value, HistoryLimit)
      ensures user.Some? && data.Some? ==> streak == Streak(history, today) && streak <= HistoryLimit
    {
      if user.None? || data.None? {
        return;
      }
      history := Take(data.value, HistoryLimit);
      CalculateStreak(history, today);
      StreakAtMostHistoryLimit(data.value, today);
    }

    /** `calculateStreak`: the scan over newest-first entries, written to `streak`. */
    method CalculateStreak(entries: seq<MoodEntry>, today: int)
      modifies this`streak
      ensures streak == Streak(entries, today)
    {
      if |entries| == 0 {
        streak := 0;
        return;
      }
      var currentStreak := 1;
      var diffDays := today - entries[0].day;
      if diffDays > 1 {
        streak := 0;
        return;
      }
      var i := 1;
      while i < |entries|
        invariant 1 <= i <= |entries|
        invariant currentStreak == i
        invariant forall j :: 0 < j < i ==> OneDayApart(entries, j)
      {
        var diff := entries[i - 1].day - entries[i].day;
        if diff == 1 {
          currentStreak := currentStreak + 1;
        } else {
          break;
        }
        i := i + 1;
      }
      LeadingRunIsLongestPrefix(entries, i - 1);
      streak := currentStreak;
    }

    /** `saveMood`: nothing happens without a signed-in user or a selected mood; otherwise
        the insert is sent (an empty note as null), and when the database accepts it
        (`accepted`) the form goes back to its initial values. */
    method SaveMood(user: Option<string>, accepted: bool) returns (request: Option<MoodInsert>)
      modifies this`selectedMood, this`intensity, this`note
      ensures request.None? <==> user.None? || old(selectedMood) == ""
      ensures request.Some? ==> request.value == MoodInsert(user.value, old(selectedMood), old(intensity), NullIfEmpty(old(note)))
      ensures if request.Some? && accepted
              then selectedMood == "" && intensity == DefaultIntensity && note == ""
              else selectedMood == old(selectedMood) && intensity == old(intensity) && note == old(note)
    {
      if user.None? || selectedMood == "" {
        return None;
      }
      request := Some(MoodInsert(user.value, selectedMood, intensity, NullIfEmpty(note)));
      if accepted {
        selectedMood, intensity, note := "", DefaultIntensity, "";
      }
    }
  }
}
