/**
 * The feedback widget (components/feedback-system.tsx): the feedback record and its per-field
 * updates, the star rating, and the open / submit / reset cycle of the form.
 */
module Feedback {
  import opened Seqs
  import opened Text

  datatype FeedbackData = FeedbackData(
    name: string, email: string, category: string, rating: nat,
    subject: string, message: string, anonymous: bool)

  /** The record the form starts with and returns to after a submit. */
  const InitialFeedback := FeedbackData("", "", "", 0, "", "", false)

  /** The fields the form edits through `handleInputChange(field, value)`. */
  datatype Change =
    | SetName(name: string)
    | SetEmail(email: string)
    | SetCategory(category: string)
    | SetRating(rating: nat)
    | SetSubject(subject: string)
    | SetMessage(message: string)

  /** Which field a change writes. */
  datatype Field = NameField | EmailField | CategoryField | RatingField | SubjectField | MessageField

  function FieldOf(c: Change): Field {
    match c
    case SetName(_) => NameField
    case SetEmail(_) => EmailField
    case SetCategory(_) => CategoryField
    case SetRating(_) => RatingField
    case SetSubject(_) => SubjectField
    case SetMessage(_) => MessageField
  }

  /** `{ ...prev, [field]: value }`. */
  function Apply(d: FeedbackData, c: Change): (r: FeedbackData)
    ensures r.anonymous == d.anonymous
    ensures c.SetName? ==> r.name == c.name
    ensures c.SetEmail? ==> r.email == c.email
    ensures c.SetCategory? ==> r.category == c.category
    ensures c.SetRating? ==> r.rating == c.rating
    ensures c.SetSubject? ==> r.subject == c.subject
    ensures c.SetMessage? ==> r.message == c.message
    ensures FieldOf(c) != NameField ==> r.name == d.name
    ensures FieldOf(c) != EmailField ==> r.email == d.email
    ensures FieldOf(c) != CategoryField ==> r.category == d.category
    ensures FieldOf(c) != RatingField ==> r.rating == d.rating
    ensures FieldOf(c) != SubjectField ==> r.subject == d.subject
    ensures FieldOf(c) != MessageField ==> r.message == d.message
  {
    match c
    case SetName(v) => d.(name := v)
    case SetEmail(v) => d.(email := v)
    case SetCategory(v) => d.(category := v)
    case SetRating(v) => d.(rating := v)
    case SetSubject(v) => d.(subject := v)
    case SetMessage(v) => d.(message := v)
  }

  /** A later change of the same field overwrites an earlier one. */
  lemma LastChangeWins(d: FeedbackData, c1: Change, c2: Change)
    requires FieldOf(c1) == FieldOf(c2)
    ensures Apply(Apply(d, c1), c2) == Apply(d, c2)
  {
  }

  /** Changes of different fields commute. */
  lemma IndependentChangesCommute(d: FeedbackData, c1: Change, c2: Change)
    requires FieldOf(c1) != FieldOf(c2)
    ensures Apply(Apply(d, c1), c2) == Apply(Apply(d, c2), c1)
  {
  }

  /** The number of stars in the rating row. */
  const StarCount: nat := 5

  /** The first `n` stars of the row: star `k` (from 1) is filled when `k <= rating`. */
  function StarRow(n: nat, rating: nat): (stars: seq<bool>)
    ensures |stars| == n
  {
    if n == 0 then [] else StarRow(n - 1, rating) + [n <= rating]
  }

  /** Star `k` is filled exactly when `k <= rating`. */
  lemma {:induction false} StarFilledIff(n: nat, rating: nat, k: nat)
    requires 1 <= k <= n
    ensures StarRow(n, rating)[k - 1] <==> k <= rating
  {
    if k < n {
      StarFilledIff(n - 1, rating, k);
      assert StarRow(n, rating)[k - 1] == StarRow(n - 1, rating)[k - 1];
    }
  }

  /** The row shows `min(rating, 5)` filled stars: a prefix of filled stars, then empty ones. */
  lemma {:induction false} FilledStars(n: nat, rating: nat)
    ensures |Filter(IsSet(), StarRow(n, rating))| == Min(n, rating)
  {
    if n > 0 {
      FilledStars(n - 1, rating);
      FilterConcat(IsSet(), StarRow(n - 1, rating), [n <= rating]);
    }
  }

  const RatingPrompt := "Rate your experience"

  /** The label beside the stars: `"{rating}/5"` once rated, the prompt before. */
  function RatingLabel(rating: nat): (text: string)
    ensures rating == 0 ==> text == RatingPrompt
    ensures rating > 0 ==> |text| >= 3 && text[|text| - 2..] == "/5"
    ensures rating > 0 ==> var digits := text[..|text| - 2];
              (forall i :: 0 <= i < |digits| ==> '0' <= digits[i] <= '9') && ParseDigits(digits) == rating
  {
    if rating > 0 then
      var digits := NatToString(rating);
      var text := digits + "/5";
      assert text[..|text| - 2] == digits;
      NatToStringRoundTrip(rating);
      text
    else RatingPrompt
  }

  /** The name and email inputs are shown only to visitors who are not logged in. */
  function AsksForContact(isLoggedIn: bool): (shown: bool)
    ensures shown <==> !isLoggedIn
  {
    !isLoggedIn
  }

  class FeedbackForm {
    var isOpen: bool
    var feedbackData: FeedbackData
    var isSubmitting: bool
    var isSubmitted: bool

    constructor ()
      ensures !isOpen && feedbackData == InitialFeedback && !isSubmitting && !isSubmitted
    {
      isOpen, feedbackData, isSubmitting, isSubmitted := false, InitialFeedback, false, false;
    }

    /** The submit button is disabled while a submit is in flight. */
    predicate SubmitDisabled()
      reads this
    {
      isSubmitting
    }

    method Open()
      modifies this`isOpen
      ensures isOpen
    {
      isOpen := true;
    }

    method Close()
      modifies this`isOpen
      ensures !isOpen
    {
      isOpen := false;
    }

    /** `handleInputChange`: only the named field of the record changes. */
    method HandleInputChange(c: Change)
      modifies this`feedbackData
      ensures feedbackData == Apply(old(feedbackData), c)
    {
      feedbackData := Apply(feedbackData, c);
    }

    /** The start of `handleSubmit`. */
    method StartSubmit()
      modifies this`isSubmitting
      ensures isSubmitting && SubmitDisabled()
    {
      isSubmitting := true;
    }

    /** The simulated submission finished: show the thank-you note. */
    method FinishSubmit()
      modifies this`isSubmitting, this`isSubmitted
      ensures isSubmitted && !isSubmitting && !SubmitDisabled()
    {
      isSubmitted := true;
      isSubmitting := false;
    }

    /** The delayed reset after a submit: back to the initial record, the form closed. */
    method ResetAfterSubmit()
      modifies this`isSubmitted, this`isOpen, this`feedbackData
      ensures !isSubmitted && !isOpen && feedbackData == InitialFeedback
    {
      isSubmitted := false;
      isOpen := false;
      feedbackData := InitialFeedback;
    }
  }
}
