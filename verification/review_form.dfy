/** The review form: name, star rating and comment, pre-filled when an existing review is
    edited; a submission is refused while the name or the comment is blank, and an edit keeps
    the id of the review edited. */
module ReviewForm {
  import opened Wrappers
  import opened Types
  import opened Text

  /** What the form holds: the typed name and comment, the chosen rating, and the star under the
      pointer (0 for none). */
  datatype State = State(author: string, rating: int, comment: string, hover: int)

  /** What a submission hands to the page: the fields of a new review, or an edited review with
      its id. */
  datatype Submission = NewReview(fields: ReviewFields) | EditedReview(review: Review)

  /** A freshly opened form: empty text and five stars. */
  const Initial: State := State("", 5, "", 0)

  /** The effect run when the form receives the review to edit: its name, rating and comment
      replace the form's; without one the form keeps what it holds. */
  function Load(st: State, initial: Option<Review>): (r: State)
    ensures initial.None? ==> r == st
    ensures initial.Some? ==>
      r.author == initial.value.author && r.rating == initial.value.rating
      && r.comment == initial.value.comment && r.hover == st.hover
  {
    match initial
    case None => st
    case Some(rv) => st.(author := rv.author, rating := rv.rating, comment := rv.comment)
  }

  /** Clicking one of the five stars chooses that many. */
  function ClickStar(st: State, star: int): (r: State)
    requires 1 <= star <= 5
    ensures r.rating == star && 1 <= r.rating <= 5
    ensures r.(rating := st.rating) == st
  {
    st.(rating := star)
  }

  /** The pointer entering a star previews it; leaving any star ends the preview. */
  function Hover(st: State, star: int): (r: State)
    requires 0 <= star <= 5
    ensures r.hover == star && r.(hover := st.hover) == st
  {
    st.(hover := star)
  }

  /** Star `star` is drawn filled: `(hoverRating || rating) >= star`. */
  predicate StarLit(st: State, star: int) {
    (if st.hover != 0 then st.hover else st.rating) >= star
  }

  /** Without a preview the lit stars are exactly the chosen rating; with one they are the
      previewed count. */
  lemma LitStarsShowRating(st: State, star: int)
    requires 1 <= star <= 5
    ensures st.hover == 0 ==> (StarLit(st, star) <==> star <= st.rating)
    ensures 1 <= st.hover <= 5 ==> (StarLit(st, star) <==> star <= st.hover)
    ensures StarLit(Hover(st, 0), star) == (star <= st.rating)
  {
  }

  /** `handleSubmit`: a blank name or comment is refused with an alert and nothing is sent;
      otherwise the text goes exactly as typed, as an edit of the loaded review when there is one
      and as a new review when there is not. */
  function Submit(st: State, initial: Option<Review>): (r: Option<Submission>)
    ensures r.None? <==> IsBlank(st.author) || IsBlank(st.comment)
    ensures r.Some? && initial.Some? ==>
      r.value == EditedReview(Review(initial.value.id, st.author, st.rating, st.comment))
    ensures r.Some? && initial.None? ==>
      r.value == NewReview(ReviewFields(st.author, st.rating, st.comment))
  {
    if Trim(st.author) == "" || Trim(st.comment) == "" then None
    else match initial
      case Some(rv) => Some(EditedReview(Review(rv.id, st.author, st.rating, st.comment)))
      case None => Some(NewReview(ReviewFields(st.author, st.rating, st.comment)))
  }

  /** The rating the form submits lies in 1..5 whenever the review it was opened on did: a fresh
      form starts at five, and loading, clicking and hovering keep it in range. */
  lemma RatingStaysInRange(st: State, initial: Option<Review>, star: int, h: int)
    requires 1 <= st.rating <= 5
    requires initial.Some? ==> 1 <= initial.value.rating <= 5
    requires 1 <= star <= 5 && 0 <= h <= 5
    ensures 1 <= Initial.rating <= 5
    ensures 1 <= Load(st, initial).rating <= 5
    ensures 1 <= Hover(Load(st, initial), h).rating <= 5
    ensures ClickStar(Load(st, initial), star).rating == star
  {
  }

  /** Opening an existing review and submitting it unchanged sends that same review back, id
      included, unless its name or comment is blank. */
  lemma EditUnchangedRoundTrip(rv: Review, st: State)
    requires !IsBlank(rv.author) && !IsBlank(rv.comment)
    ensures Submit(Load(st, Some(rv)), Some(rv)) == Some(EditedReview(rv))
  {
  }
}
