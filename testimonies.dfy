/** The student-stories screen: posting guard, like-count arithmetic of `toggleLike`, and
    how each story's author, avatar and like label are shown. */
module Testimonies {
  import opened Wrappers
  import opened Text

  datatype Profile = Profile(fullName: string, avatarColor: string)

  /** A loaded `testimonies` row with its author's profile, when the join found one. */
  datatype Testimony = Testimony(id: string, content: string, isAnonymous: bool,
                                 likesCount: int, profile: Option<Profile>)

  /** The row `postTestimony` asks the database to insert. */
  datatype TestimonyInsert = TestimonyInsert(userId: string, content: string, isAnonymous: bool)

  /** The writes `toggleLike` sends: whether the user's existing like row is deleted (or
      else a like row is inserted), and the new `likes_count` of the story. */
  datatype LikeWrite = LikeWrite(deleteExistingLike: bool, likesCount: int)

  /** `postTestimony`: refused without a signed-in user or with blank content. */
  function PostTestimony(user: Option<string>, content: string, isAnonymous: bool): (r: Option<TestimonyInsert>)
    ensures r.None? <==> user.None? || IsBlank(content)
    ensures r.Some? ==> r.value == TestimonyInsert(user.value, content, isAnonymous)
  {
    TrimEmptyIffBlank(content);
    if user.None? || Trim(content) == "" then None
    else Some(TestimonyInsert(user.value, content, isAnonymous))
  }

  /** The count written when the user likes a story. */
  function LikedCount(count: int): (r: int)
    ensures r > count
    ensures count >= 0 ==> UnlikedCount(r) == count
  {
    count + 1
  }

  /** `Math.max(0, count - 1)`: the count written when the user takes a like back. */
  function UnlikedCount(count: int): (r: int)
    ensures r >= 0
    ensures count > 0 ==> r == count - 1
    ensures count <= 0 ==> r == 0
  {
    if count - 1 > 0 then count - 1 else 0
  }

  /** Liking then unliking restores a count; so does unliking then liking a positive one. */
  lemma LikeUnlikeInverse(count: int)
    ensures count >= 0 ==> UnlikedCount(LikedCount(count)) == count
    ensures count > 0 ==> LikedCount(UnlikedCount(count)) == count
  {
  }

  /** Position `i` holds the first story with this id. */
  predicate IsFirstWithId(testimonies: seq<Testimony>, id: string, i: int) {
    0 <= i < |testimonies| && testimonies[i].id == id
    && forall j :: 0 <= j < i ==> testimonies[j].id != id
  }

  /** `testimonies.find(t => t.id === id)`: the first story with that id. */
  function FindTestimony(testimonies: seq<Testimony>, id: string): (r: Option<Testimony>)
    ensures r.None? <==> forall i :: 0 <= i < |testimonies| ==> testimonies[i].id != id
    ensures r.Some? ==> exists i :: IsFirstWithId(testimonies, id, i) && testimonies[i] == r.value
  {
    if testimonies == [] then None
    else if testimonies[0].id == id then Some(testimonies[0])
    else
      var r := FindTestimony(testimonies[1..], id);
      if r.Some? then
        var i :| IsFirstWithId(testimonies[1..], id, i) && testimonies[1..][i] == r.value;
        assert IsFirstWithId(testimonies, id, i + 1);
        r
      else r
  }

  /** `toggleLike(id)` given whether the user already likes the story (`existingLike`):
      no writes without a user or for a story that is not loaded; otherwise an existing
      like is removed and the count lowered, never below 0, or a like is added and the
      count raised by 1. */
  function ToggleLike(user: Option<string>, testimonies: seq<Testimony>, testimonyId: string, existingLike: bool): (r: Option<LikeWrite>)
    ensures r.None? <==> user.None? || forall i :: 0 <= i < |testimonies| ==> testimonies[i].id != testimonyId
    ensures r.Some? ==> exists i :: (
              && IsFirstWithId(testimonies, testimonyId, i)
              && r.value.deleteExistingLike == existingLike
              && r.value.likesCount == if existingLike then UnlikedCount(testimonies[i].likesCount)
                                       else testimonies[i].likesCount + 1)
    ensures r.Some? && existingLike ==> r.value.likesCount >= 0
  {
    if user.None? then None
    else
      match FindTestimony(testimonies, testimonyId)
      case None => None
      case Some(t) =>
        Some(LikeWrite(existingLike, if existingLike then UnlikedCount(t.likesCount) else LikedCount(t.likesCount)))
  }

  /** The author shown: `Anonymous Student` for an anonymous story, else the profile's
      name, or `Student` when the name is missing or empty. Never empty. */
  function AuthorName(t: Testimony): (r: string)
    ensures r != ""
    ensures t.isAnonymous ==> r == "Anonymous Student"
    ensures !t.isAnonymous && t.profile.Some? && t.profile.value.fullName != "" ==> r == t.profile.value.fullName
    ensures !t.isAnonymous && (t.profile.None? || t.profile.value.fullName == "") ==> r == "Student"
  {
    if t.isAnonymous then "Anonymous Student"
    else if t.profile.Some? && t.profile.value.fullName != "" then t.profile.value.fullName
    else "Student"
  }

  /** The avatar letter: `?` for an anonymous story, else the upper-cased first letter of
      the author shown. */
  function AuthorInitial(t: Testimony): (r: char)
    ensures t.isAnonymous ==> r == '?'
    ensures !t.isAnonymous ==> r == UpperChar(AuthorName(t)[0])
  {
    if t.isAnonymous then '?' else UpperChar(AuthorName(t)[0])
  }

  /** The avatar colour: grey for an anonymous story or a profile without a colour. */
  function AvatarColor(t: Testimony): (r: string)
    ensures t.isAnonymous || t.profile.None? || t.profile.value.avatarColor == "" ==> r == "#6B7280"
    ensures !t.isAnonymous && t.profile.Some? && t.profile.value.avatarColor != "" ==> r == t.profile.value.avatarColor
  {
    if t.isAnonymous then "#6B7280"
    else if t.profile.Some? && t.profile.value.avatarColor != "" then t.profile.value.avatarColor
    else "#6B7280"
  }

  /** The word after the count: singular exactly for one like. */
  function LikeLabel(count: int): (r: string)
    ensures r == "Like" <==> count == 1
    ensures r == "Likes" <==> count != 1
  {
    if count == 1 then "Like" else "Likes"
  }
}
