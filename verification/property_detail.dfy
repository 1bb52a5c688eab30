/** The property page: the photo carousel, the star rows, the review form it opens and closes,
    and the edit and delete controls it shows on the reviews this browser wrote. */
module PropertyDetail {
  import opened Wrappers
  import opened Types
  import ReviewForm

  /** The page's own state: the photo shown, whether the review form is open, and the review it
      was opened on. */
  datatype State = State(photoIndex: nat, showReviewForm: bool, editingReview: Option<Review>)

  /** What a review submission asks the app to do. */
  datatype Dispatch =
    | AddReview(propertyId: string, fields: ReviewFields)
    | UpdateReview(propertyId: string, review: Review)

  /** The page as first shown. */
  const Initial: State := State(0, false, None)

  /** `nextPhoto`: one photo on, from the last back to the first. */
  function NextPhoto(i: nat, n: nat): (r: nat)
    requires n >= 1
    ensures r < n
    ensures i < n - 1 ==> r == i + 1
    ensures i == n - 1 ==> r == 0
  {
    (i + 1) % n
  }

  /** `prevPhoto`: one photo back, from the first round to the last. */
  function PrevPhoto(i: nat, n: nat): (r: nat)
    requires n >= 1
    ensures r < n
    ensures 0 < i < n ==> r == i - 1
    ensures i == 0 ==> r == n - 1
  {
    (i - 1 + n) % n
  }

  /** Going on and back, or back and on, returns to the photo shown. */
  lemma NextPrevInverse(i: nat, n: nat)
    requires i < n
    ensures PrevPhoto(NextPhoto(i, n), n) == i
    ensures NextPhoto(PrevPhoto(i, n), n) == i
  {
  }

  /** `k` clicks on the next button, from photo `i`. */
  function NextTimes(i: nat, n: nat, k: nat): (r: nat)
    requires i < n
    ensures r < n
  {
    if k == 0 then i else NextPhoto(NextTimes(i, n, k - 1), n)
  }

  /** Up to `n` clicks on the next button move that many places round the carousel, wrapping
      past the last photo. */
  lemma {:induction false} NextTimesMoves(i: nat, n: nat, k: nat)
    requires i < n && k <= n
    ensures NextTimes(i, n, k) == if i + k < n then i + k else i + k - n
  {
    if k > 0 {
      NextTimesMoves(i, n, k - 1);
    }
  }

  /** As many clicks on the next button as there are photos come back to the photo shown. */
  lemma FullTurn(i: nat, n: nat)
    requires i < n
    ensures NextTimes(i, n, n) == i
  {
    NextTimesMoves(i, n, n);
  }

  /** `Math.round`: the nearest whole number, halves rounded up. */
  function RoundHalfUp(x: real): (r: int)
    ensures x - 0.5 < r as real <= x + 0.5
  {
    (x + 0.5).Floor
  }

  /** `renderStars(rating)`: five stars, star `i` (counting from one) filled when `i` is at most
      the rating rounded. */
  function Stars(rating: real): (r: seq<bool>)
    ensures |r| == 5
    ensures forall i :: 0 <= i < 5 ==> (r[i] <==> i + 1 <= RoundHalfUp(rating))
  {
    Row(5, RoundHalfUp(rating))
  }

  /** The first `n` stars of a row for a rounded rating of `k`. */
  function Row(n: nat, k: int): (r: seq<bool>)
    ensures |r| == n
    ensures forall i :: 0 <= i < n ==> (r[i] <==> i + 1 <= k)
  {
    if n == 0 then [] else Row(n - 1, k) + [n <= k]
  }

  /** The number of filled stars in a row. */
  function Filled(row: seq<bool>): nat {
    if |row| == 0 then 0 else Filled(row[..|row| - 1]) + (if row[|row| - 1] then 1 else 0)
  }

  /** The number of filled stars is the rounded rating, kept between none and all. */
  lemma {:induction false} RowFilled(n: nat, k: int)
    ensures Filled(Row(n, k)) == if k < 0 then 0 else if k > n then n else k
  {
    if n > 0 {
      RowFilled(n - 1, k);
      assert Row(n, k)[..n - 1] == Row(n - 1, k);
    }
  }

  /** The number of filled stars is the rating rounded half up, at most five and at least none. */
  lemma FilledStars(rating: real)
    ensures var k := RoundHalfUp(rating);
      Filled(Stars(rating)) == if k < 0 then 0 else if k > 5 then 5 else k
  {
    RowFilled(5, RoundHalfUp(rating));
  }

  /** A property's rating is kept in tenths; its star row shows the tenths rounded half up to
      whole stars. */
  lemma PropertyStars(tenths: int)
    ensures RoundHalfUp(tenths as real / 10.0) == (tenths + 5) / 10
  {
    var q := (tenths + 5) / 10;
    var m := (tenths + 5) % 10;
    assert tenths + 5 == 10 * q + m && 0 <= m < 10;
    assert tenths as real / 10.0 + 0.5 == q as real + m as real / 10.0;
  }

  /** A review rated one to five stars shows exactly that many filled. */
  lemma ReviewStars(stars: int)
    requires 1 <= stars <= 5
    ensures Filled(Stars(stars as real)) == stars
  {
    FilledStars(stars as real);
  }

  /** `handleAddNewReviewClick`: the form opens empty. */
  function OpenNewReview(st: State): (r: State)
    ensures r.showReviewForm && r.editingReview.None? && r.photoIndex == st.photoIndex
  {
    st.(showReviewForm := true, editingReview := None)
  }

  /** `handleEditReviewClick`: the form opens on the review. */
  function OpenEditReview(st: State, rv: Review): (r: State)
    ensures r.showReviewForm && r.editingReview == Some(rv) && r.photoIndex == st.photoIndex
  {
    st.(showReviewForm := true, editingReview := Some(rv))
  }

  /** `handleReviewFormCancel`: the form closes and forgets the review. */
  function CancelReview(st: State): (r: State)
    ensures !r.showReviewForm && r.editingReview.None? && r.photoIndex == st.photoIndex
  {
    st.(showReviewForm := false, editingReview := None)
  }

  /** `handleReviewFormSubmit`: a submission carrying an id updates that review of this property,
      one without adds a review to it; either way the form closes and forgets the review. */
  function SubmitReview(st: State, propertyId: string, data: ReviewForm.Submission): (r: (State, Dispatch))
    ensures !r.0.showReviewForm && r.0.editingReview.None? && r.0.photoIndex == st.photoIndex
    ensures data.EditedReview? <==> r.1.UpdateReview?
    ensures r.1.propertyId == propertyId
    ensures data.EditedReview? ==> r.1.review == data.review
    ensures data.NewReview? ==> r.1.fields == data.fields
  {
    var dispatch := match data
      case EditedReview(rv) => UpdateReview(propertyId, rv)
      case NewReview(fields) => AddReview(propertyId, fields);
    (CancelReview(st), dispatch)
  }

  /** Editing a review through the page sends an update of that same review id with the text of
      the form, and adding one sends an add; the form is closed afterwards. */
  lemma EditFlowUpdatesSameReview(st: State, propertyId: string, rv: Review, form: ReviewForm.State)
    requires ReviewForm.Submit(form, OpenEditReview(st, rv).editingReview).Some?
    ensures var sent := ReviewForm.Submit(form, OpenEditReview(st, rv).editingReview).value;
      var (after, dispatch) := SubmitReview(OpenEditReview(st, rv), propertyId, sent);
      && dispatch == UpdateReview(propertyId, Review(rv.id, form.author, form.rating, form.comment))
      && !after.showReviewForm && after.editingReview.None?
  {
  }

  /** Adding a review through the page sends an add of the form's text. */
  lemma NewFlowAddsReview(st: State, propertyId: string, form: ReviewForm.State)
    requires ReviewForm.Submit(form, OpenNewReview(st).editingReview).Some?
    ensures var sent := ReviewForm.Submit(form, OpenNewReview(st).editingReview).value;
      SubmitReview(OpenNewReview(st), propertyId, sent).1 ==
        AddReview(propertyId, ReviewFields(form.author, form.rating, form.comment))
  {
  }

  /** `myReviewIds.includes(review.id)`: the edit and delete controls of a review show only on
      reviews this browser wrote. */
  function Controls(reviews: seq<Review>, myReviewIds: seq<string>): (r: seq<bool>)
    ensures |r| == |reviews|
    ensures forall i :: 0 <= i < |reviews| ==> (r[i] <==> reviews[i].id in myReviewIds)
  {
    if |reviews| == 0 then []
    else [reviews[0].id in myReviewIds] + Controls(reviews[1..], myReviewIds)
  }

  /** A review this browser just added carries controls, and nobody else's review gains any. */
  lemma AddedReviewHasControls(reviews: seq<Review>, myReviewIds: seq<string>, added: Review)
    requires forall i :: 0 <= i < |reviews| ==> reviews[i].id != added.id
    ensures Controls(reviews + [added], myReviewIds + [added.id])[|reviews|]
    ensures forall i :: 0 <= i < |reviews| ==>
      Controls(reviews + [added], myReviewIds + [added.id])[i] == Controls(reviews, myReviewIds)[i]
  {
  }
}
