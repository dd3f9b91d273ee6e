/** The ungated variant of the assessment site: the `/` route evaluates a
    submission into the result slot and `/results` shows the slot, with no
    session check. */
module OpenSite {
  import opened Wrappers
  import opened Assessment

  /** The message `/results` returns when nothing has been saved. */
  const NoResultsMessage: string := "No results found. Please complete an assessment first."

  /** The outcome of a request: a rendered page, a redirect, a plain text
      body, or the server error of an exception the handler does not catch. */
  datatype Response =
    | AssessmentForm
    | ResultsPage(result: AssessmentResult)
    | RedirectToResults
    | Text(body: string)
    | ServerError(error: Error)

  /** The site's state: the result slot, shared by every client. */
  class Site {
    var slot: Option<AssessmentResult>
    const model: Option<Classifier>

    /** `stored` is whatever result an earlier run left in the slot. */
    constructor(model: Option<Classifier>, stored: Option<AssessmentResult>)
      ensures slot == stored && this.model == model
    {
      slot := stored;
      this.model := model;
    }

    /** `/`: a GET shows the form; a POST evaluates the submission and
        overwrites the slot only when the whole evaluation succeeds. */
    method Index(request: FormRequest) returns (response: Response)
      modifies this`slot
      ensures request.ShowForm? ==> response == AssessmentForm && slot == old(slot)
      ensures request.SubmitForm? ==>
        match Assess(ToDict(request.fields), model)
        case Success(result) => slot == Some(result) && response == RedirectToResults
        case Failure(e) => slot == old(slot) && response == ServerError(e)
    {
      match request
      case ShowForm =>
        response := AssessmentForm;
      case SubmitForm(fields) =>
        var outcome := Evaluate(ToDict(fields), model);
        match outcome
        case Failure(e) =>
          response := ServerError(e);
        case Success(result) =>
          slot := Some(result);
          response := RedirectToResults;
    }

    /** `/results`: the saved result, or the "no results" message when the
        slot is empty. */
    method Results() returns (response: Response)
      ensures slot.None? ==> response == Text(NoResultsMessage)
      ensures slot.Some? ==> response == ResultsPage(slot.value)
    {
      match slot
      case None =>
        response := Text(NoResultsMessage);
      case Some(result) =>
        response := ResultsPage(result);
    }
  }

  /** Two submissions in a row: a failed one leaves the earlier record in
      place, a later successful one replaces it. */
  method Resubmit(model: Option<Classifier>, good: seq<Field>, bad: seq<Field>)
    requires Assess(ToDict(good), model).Success? && Assess(ToDict(bad), model).Failure?
  {
    var site := new Site(model, None);
    var response := site.Results();
    assert response == Text(NoResultsMessage);
    response := site.Index(SubmitForm(good));
    assert site.slot == Some(Assess(ToDict(good), model).value);
    response := site.Index(SubmitForm(bad));
    assert response == ServerError(Assess(ToDict(bad), model).error);
    response := site.Results();
    assert response == ResultsPage(Assess(ToDict(good), model).value);
  }
}
