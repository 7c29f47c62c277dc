/** The patient reviews page (`src/pages/Reviews.tsx`): the review form and
    its checks, the list of at most 200 reviews kept in local storage,
    deletion and the average rating. */
module Reviews {
  import opened Text
  import opened Js
  import opened Seqs

  datatype Review = Review(
    id: string, hospital: Option<string>, clinic: string, doctor: string,
    description: string, rating: int, date: string)

  function ReviewId(r: Review): string { r.id }

  datatype ReviewForm = ReviewForm(hospital: string, clinic: string, doctor: string, description: string, rating: int)

  const BlankForm := ReviewForm("", "", "", "", 0)

  /** How many reviews the list keeps. */
  const MaxReviews: nat := 200

  /** What `handleSubmit` refuses, in the order it checks. */
  datatype Problem = NoClinic | NoDoctor | NoDescription | BadRating

  /** The first failed check of `handleSubmit`, if any. */
  function ProblemOf(f: ReviewForm): (p: Option<Problem>)
    ensures p.None? <==>
      Trim(f.clinic) != "" && Trim(f.doctor) != "" && Trim(f.description) != "" && 1 <= f.rating <= 5
    ensures p == Some(NoClinic) <==> Trim(f.clinic) == ""
    ensures p == Some(NoDoctor) <==> Trim(f.clinic) != "" && Trim(f.doctor) == ""
    ensures p == Some(NoDescription) <==> Trim(f.clinic) != "" && Trim(f.doctor) != "" && Trim(f.description) == ""
  {
    if Trim(f.clinic) == "" then Some(NoClinic)
    else if Trim(f.doctor) == "" then Some(NoDoctor)
    else if Trim(f.description) == "" then Some(NoDescription)
    else if f.rating < 1 || f.rating > 5 then Some(BadRating)
    else None
  }

  /** The review `handleSubmit` builds: the text fields trimmed, and a
      blank hospital left out. */
  function NewReview(f: ReviewForm, id: string, date: string): (r: Review)
    ensures r.clinic == Trim(f.clinic) && r.doctor == Trim(f.doctor) && r.description == Trim(f.description)
    ensures r.hospital.None? <==> Trim(f.hospital) == ""
    ensures r.hospital.Some? ==> r.hospital.value == Trim(f.hospital) && Trimmed(r.hospital.value)
    ensures Trimmed(r.clinic) && Trimmed(r.doctor) && Trimmed(r.description)
    ensures r.id == id && r.rating == f.rating && r.date == date
  {
    var h := Trim(f.hospital);
    Review(id, if h == "" then None else Some(h), Trim(f.clinic), Trim(f.doctor), Trim(f.description), f.rating, date)
  }

  /** The list after a successful submit: the new review first, then the
      previous ones, cut at 200. */
  function WithReview(reviews: seq<Review>, r: Review): (next: seq<Review>)
    ensures |next| == if |reviews| + 1 <= MaxReviews then |reviews| + 1 else MaxReviews
    ensures next[0] == r && next[1..] == reviews[..|next| - 1]
  {
    var all := [r] + reviews;
    var next := Capped(all, MaxReviews);
    assert next[1..] == all[1..|next|];
    next
  }

  /** The list never grows past the cap, and below the cap nothing is cut. */
  lemma WithReviewCapped(reviews: seq<Review>, r: Review)
    ensures |WithReview(reviews, r)| <= MaxReviews
    ensures |reviews| < MaxReviews ==> WithReview(reviews, r) == [r] + reviews
  {
  }

  /** Sum of the ratings. */
  function RatingSum(rs: seq<Review>): int
    decreases |rs|
  {
    if rs == [] then 0 else RatingSum(rs[..|rs| - 1]) + rs[|rs| - 1].rating
  }

  /** `avgRating`: zero for no reviews, else the mean rounded to one decimal. */
  function AvgRating(rs: seq<Review>): (a: real)
    ensures rs == [] ==> a == 0.0
  {
    if |rs| == 0 then 0.0
    else (Round(RatingSum(rs) as real / |rs| as real * 10.0) as real) / 10.0
  }

  predicate RatingsInRange(rs: seq<Review>) {
    forall i | 0 <= i < |rs| :: 1 <= rs[i].rating <= 5
  }

  lemma {:induction false} RatingSumBounds(rs: seq<Review>)
    requires RatingsInRange(rs)
    ensures |rs| <= RatingSum(rs) <= 5 * |rs|
    decreases |rs|
  {
    if rs != [] {
      RatingSumBounds(rs[..|rs| - 1]);
    }
  }

  lemma MeanBetween(sum: real, n: real, lo: real, hi: real)
    requires n > 0.0 && lo * n <= sum <= hi * n
    ensures lo <= sum / n <= hi
  {
    assert sum / n * n == sum;
  }

  /** With every rating from 1 to 5, a non-empty list averages from 1 to 5. */
  lemma AvgRatingBounds(rs: seq<Review>)
    requires rs != [] && RatingsInRange(rs)
    ensures 1.0 <= AvgRating(rs) <= 5.0
  {
    RatingSumBounds(rs);
    var n := |rs| as real;
    MeanBetween(RatingSum(rs) as real, n, 1.0, 5.0);
    var x := RatingSum(rs) as real / n * 10.0;
    assert 10.0 <= x <= 50.0;
    assert 10 <= Round(x) <= 50;
  }

  /** The average of identical ratings is that rating. */
  lemma AvgOfOne(r: Review)
    ensures AvgRating([r]) == r.rating as real
  {
    assert [r][..0] == [];
    assert RatingSum([r]) == r.rating;
    assert Round(r.rating as real / 1.0 * 10.0) == r.rating * 10;
  }

  /** Messages the page shows after an action. */
  datatype Notice = Saved | Deleted

  class ReviewBoard {
    var form: ReviewForm
    var reviews: seq<Review>
    var error: Option<Problem>
    var success: Option<Notice>

    /** The page starts from the cached list. */
    constructor(cached: seq<Review>)
      ensures form == BlankForm && reviews == cached && error.None? && success.None?
    {
      form := BlankForm;
      reviews := cached;
      error := None;
      success := None;
    }

    /** `handleSubmit`: the first failed check is reported and the list is
        unchanged; otherwise the new review goes first, the list is cut at
        200 and the form is cleared, rating back to zero. */
    method HandleSubmit(id: string, date: string)
      modifies this
      ensures error == ProblemOf(old(form))
      ensures error.Some? ==> reviews == old(reviews) && form == old(form) && success.None?
      ensures error.None? ==>
        reviews == WithReview(old(reviews), NewReview(old(form), id, date))
        && form == BlankForm && success == Some(Saved)
    {
      error := None;
      success := None;
      var p := ProblemOf(form);
      if p.Some? {
        error := p;
        return;
      }
      reviews := WithReview(reviews, NewReview(form, id, date));
      success := Some(Saved);
      form := BlankForm;
    }

    /** `deleteReview(id)`: every review with that id is removed, the rest
        keep their order. */
    method DeleteReview(id: string)
      modifies this
      ensures reviews == Without(old(reviews), ReviewId, id)
      ensures form == old(form) && error == old(error) && success == Some(Deleted)
    {
      reviews := Without(reviews, ReviewId, id);
      success := Some(Deleted);
    }
  }

  /** Submitting a valid form and then deleting the new review's id gives
      back the previous list when it was under the cap and did not use
      that id. */
  lemma DeleteUndoesSubmit(reviews: seq<Review>, f: ReviewForm, id: string, date: string)
    requires |reviews| < MaxReviews && forall r | r in reviews :: r.id != id
    ensures Without(WithReview(reviews, NewReview(f, id, date)), ReviewId, id) == reviews
  {
    WithoutPrepended(NewReview(f, id, date), reviews, ReviewId);
  }
}
