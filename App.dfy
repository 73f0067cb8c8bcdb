/**
 The per-question answer and submit bookkeeping of the questionnaire page:
 text answers, checkbox selections, the questions shown as just submitted, the
 banner message, and the requests and timers a submission sets off.

 The data service is reached only through the request values the handlers
 return; each `setTimeout` callback is a pending `Timer` that the environment
 fires with `FireTimer`.
 */
module App {
  import opened JsText
  import opened Optional

  /** A question of the page: its id, its text and its input kind. */
  datatype Question = Question(id: string, text: string, kind: string)

  /** The four sample questions. */
  const Questions: seq<Question> := [
    Question("q1", "On a scale of 1-10, how would you rate your pain today?", "range"),
    Question("q2", "Have you taken your prescribed medication today?", "radio"),
    Question("q3", "Which symptoms are you experiencing today? (Select all that apply)", "checkbox"),
    Question("q4", "Please describe how you're feeling today:", "textarea")
  ]

  /** What a handler asks of the data service. */
  datatype Request =
    | Create(questionId: string, questionText: string, response: string)
    | Delete(id: string)

  /** A callback waiting on `setTimeout`: clear the banner, or let a question be submitted again. */
  datatype Timer = ClearMessage | ReleaseQuestion(questionId: string)

  /** The verdict of the checks `saveResponse` runs before it sends anything. */
  datatype Verdict = Reject(message: string) | Accept(response: string)

  const SelectAtLeastOne := "Please select at least one option"
  const ProvideResponse := "Please provide a response"
  const SubmittedMessage := "Response submitted successfully!"
  const DeletedMessage := "Response deleted successfully!"

  /** `responses[questionId] || ""`: a missing answer reads as empty, a stored
      one (the empty string included) as itself. */
  function TextAnswer(responses: map<string, string>, questionId: string): (r: string)
    ensures questionId in responses ==> r == responses[questionId]
    ensures r != "" ==> questionId in responses
  {
    if questionId in responses then responses[questionId] else ""
  }

  /** The value a range slider shows: the stored answer, or "5" when there is
      none; it is never empty. */
  function ShownRangeValue(responses: map<string, string>, questionId: string): (r: string)
    ensures r != ""
    ensures r == "5" || r == TextAnswer(responses, questionId)
    ensures TextAnswer(responses, questionId) != "" ==> r == TextAnswer(responses, questionId)
  {
    if questionId in responses && responses[questionId] != "" then responses[questionId] else "5"
  }

  /** Whether the checkbox branch of `saveResponse` is taken: a checkbox question
      with a recorded selection list (an empty list counts, a missing one does not). */
  predicate UsesSelections(checkboxResponses: map<string, seq<string>>, questionId: string, kind: string)
    ensures UsesSelections(checkboxResponses, questionId, kind) ==> kind == "checkbox"
    ensures questionId !in checkboxResponses ==> !UsesSelections(checkboxResponses, questionId, kind)
    ensures kind == "checkbox" && questionId in checkboxResponses && checkboxResponses[questionId] == [] ==>
              UsesSelections(checkboxResponses, questionId, kind)
  {
    kind == "checkbox" && questionId in checkboxResponses
  }

  /** The checks of `saveResponse`: an empty selection list, or a blank text
      answer, is rejected with its message; otherwise the answer to send is the
      selections joined with ", " or the text answer as typed. */
  function Validate(responses: map<string, string>, checkboxResponses: map<string, seq<string>>,
                    questionId: string, kind: string): (v: Verdict)
    ensures v == Reject(SelectAtLeastOne) <==>
              UsesSelections(checkboxResponses, questionId, kind) && checkboxResponses[questionId] == []
    ensures v == Reject(ProvideResponse) <==>
              !UsesSelections(checkboxResponses, questionId, kind)
              && forall i :: 0 <= i < |TextAnswer(responses, questionId)| ==> IsJsWhitespace(TextAnswer(responses, questionId)[i])
    ensures v.Reject? ==> v.message == SelectAtLeastOne || v.message == ProvideResponse
    ensures v.Accept? && UsesSelections(checkboxResponses, questionId, kind) ==>
              v.response == Join(checkboxResponses[questionId], ", ")
    ensures v.Accept? && !UsesSelections(checkboxResponses, questionId, kind) ==>
              v.response == TextAnswer(responses, questionId)
  {
    if UsesSelections(checkboxResponses, questionId, kind) then
      if |checkboxResponses[questionId]| == 0 then Reject(SelectAtLeastOne)
      else Accept(Join(checkboxResponses[questionId], ", "))
    else
      var answer := TextAnswer(responses, questionId);
      if Trim(answer) == "" then Reject(ProvideResponse) else Accept(answer)
  }

  /** The selection list after a checkbox of a question changes: checking appends
      the option (duplicates kept), unchecking drops every copy of it. */
  function ChangedSelections(current: seq<string>, option: string, isChecked: bool): (r: seq<string>)
    ensures isChecked ==> r == current + [option]
    ensures !isChecked ==> option !in r && multiset(r) == multiset(current)[option := 0]
  {
    RemoveMultiset(current, option);
    if isChecked then current + [option] else Remove(current, option)
  }

  /** A range question whose slider was never moved, or was cleared by a
      submission, shows "5" yet is rejected as unanswered. */
  lemma UntouchedRangeRejected(responses: map<string, string>, checkboxResponses: map<string, seq<string>>)
    requires "q1" !in responses || responses["q1"] == ""
    ensures Questions[0].kind == "range"
    ensures ShownRangeValue(responses, "q1") == "5"
    ensures Validate(responses, checkboxResponses, "q1", "range") == Reject(ProvideResponse)
  {
  }

  /** A checkbox question that has no selection list yet goes through the text
      checks, so with no text answer it is rejected as unanswered, not as
      "select at least one". */
  lemma UntouchedCheckboxAsksForResponse(responses: map<string, string>, checkboxResponses: map<string, seq<string>>, questionId: string)
    requires questionId !in checkboxResponses && questionId !in responses
    ensures Validate(responses, checkboxResponses, questionId, "checkbox") == Reject(ProvideResponse)
  {
  }

  /** The page's state. */
  class QuestionnairePage {
    var responses: map<string, string>
    var checkboxResponses: map<string, seq<string>>
    var submittedQuestions: seq<string>
    var submitSuccess: Option<string>
    /** The `setTimeout` callbacks scheduled and not yet fired. */
    var pendingTimers: multiset<Timer>

    constructor ()
      ensures responses == map[] && checkboxResponses == map[]
      ensures submittedQuestions == [] && submitSuccess == None && pendingTimers == multiset{}
    {
      responses := map[];
      checkboxResponses := map[];
      submittedQuestions := [];
      submitSuccess := None;
      pendingTimers := multiset{};
    }

    /** The submit button of a question is disabled while at least one copy of
        its id is listed as just submitted. */
    predicate SubmitDisabled(questionId: string)
      reads this
      ensures SubmitDisabled(questionId) <==> multiset(submittedQuestions)[questionId] > 0
    {
      questionId in submittedQuestions
    }

    /** `handleInputChange`: stores the text answer of one question. */
    method HandleInputChange(questionId: string, value: string)
      modifies this
      ensures responses == old(responses)[questionId := value]
      ensures checkboxResponses == old(checkboxResponses) && submittedQuestions == old(submittedQuestions)
      ensures submitSuccess == old(submitSuccess) && pendingTimers == old(pendingTimers)
    {
      responses := responses[questionId := value];
    }

    /** `handleCheckboxChange`: updates the selection list of one question. */
    method HandleCheckboxChange(questionId: string, option: string, isChecked: bool)
      modifies this
      ensures checkboxResponses == old(checkboxResponses)[questionId :=
                ChangedSelections(if questionId in old(checkboxResponses) then old(checkboxResponses)[questionId] else [], option, isChecked)]
      ensures responses == old(responses) && submittedQuestions == old(submittedQuestions)
      ensures submitSuccess == old(submitSuccess) && pendingTimers == old(pendingTimers)
    {
      var current := if questionId in checkboxResponses then checkboxResponses[questionId] else [];
      checkboxResponses := checkboxResponses[questionId := ChangedSelections(current, option, isChecked)];
    }

    /** `saveResponse`: on a rejected answer only the banner changes (and its
        clearing is scheduled); on an accepted one the create request is
        returned, the question's answer is cleared, the question is listed as
        submitted, and the banner and the two timers are set. */
    method SaveResponse(questionId: string, questionText: string, kind: string) returns (request: Option<Request>)
      modifies this
      ensures var v := Validate(old(responses), old(checkboxResponses), questionId, kind);
        && (v.Reject? ==>
              && request == None
              && submitSuccess == Some(v.message)
              && pendingTimers == old(pendingTimers) + multiset{ClearMessage}
              && responses == old(responses) && checkboxResponses == old(checkboxResponses)
              && submittedQuestions == old(submittedQuestions))
        && (v.Accept? ==>
              && request == Some(Create(questionId, questionText, v.response))
              && responses == old(responses)[questionId := ""]
              && checkboxResponses == (if kind == "checkbox" then old(checkboxResponses)[questionId := []]
                                       else old(checkboxResponses))
              && submittedQuestions == old(submittedQuestions) + [questionId]
              && submitSuccess == Some(SubmittedMessage)
              && pendingTimers == old(pendingTimers) + multiset{ClearMessage, ReleaseQuestion(questionId)})
      ensures Validate(old(responses), old(checkboxResponses), questionId, kind).Accept? ==>
                SubmitDisabled(questionId) && ReleaseQuestion(questionId) in pendingTimers
      ensures Validate(old(responses), old(checkboxResponses), questionId, kind).Reject? ==>
                (SubmitDisabled(questionId) <==> old(SubmitDisabled(questionId)))
    {
      ghost var verdict := Validate(responses, checkboxResponses, questionId, kind);
      var responseValue := "";
      if kind == "checkbox" && questionId in checkboxResponses {
        if |checkboxResponses[questionId]| == 0 {
          assert verdict == Reject(SelectAtLeastOne);
          submitSuccess := Some(SelectAtLeastOne);
          pendingTimers := pendingTimers + multiset{ClearMessage};
          return None;
        }
        responseValue := Join(checkboxResponses[questionId], ", ");
      } else {
        responseValue := if questionId in responses then responses[questionId] else "";
        if Trim(responseValue) == "" {
          assert verdict == Reject(ProvideResponse);
          submitSuccess := Some(ProvideResponse);
          pendingTimers := pendingTimers + multiset{ClearMessage};
          return None;
        }
      }

      assert verdict == Accept(responseValue);
      request := Some(Create(questionId, questionText, responseValue));

      responses := responses[questionId := ""];
      if kind == "checkbox" {
        checkboxResponses := checkboxResponses[questionId := []];
      }
      submittedQuestions := submittedQuestions + [questionId];
      submitSuccess := Some(SubmittedMessage);
      pendingTimers := pendingTimers + multiset{ClearMessage, ReleaseQuestion(questionId)};
    }

    /** `deleteResponse`: returns the delete request and sets the banner. */
    method DeleteResponse(id: string) returns (request: Request)
      modifies this
      ensures request == Delete(id)
      ensures submitSuccess == Some(DeletedMessage)
      ensures pendingTimers == old(pendingTimers) + multiset{ClearMessage}
      ensures responses == old(responses) && checkboxResponses == old(checkboxResponses)
      ensures submittedQuestions == old(submittedQuestions)
    {
      request := Delete(id);
      submitSuccess := Some(DeletedMessage);
      pendingTimers := pendingTimers + multiset{ClearMessage};
    }

    /** A scheduled callback runs: clearing the banner (whatever message it
        shows by then), or removing every copy of a question id from the
        submitted list. */
    method FireTimer(t: Timer)
      requires t in pendingTimers
      modifies this
      ensures pendingTimers == old(pendingTimers) - multiset{t}
      ensures t == ClearMessage ==> submitSuccess == None && submittedQuestions == old(submittedQuestions)
      ensures t.ReleaseQuestion? ==>
                submittedQuestions == Remove(old(submittedQuestions), t.questionId)
                && !SubmitDisabled(t.questionId)
                && submitSuccess == old(submitSuccess)
      ensures responses == old(responses) && checkboxResponses == old(checkboxResponses)
    {
      pendingTimers := pendingTimers - multiset{t};
      match t {
        case ClearMessage =>
          submitSuccess := None;
        case ReleaseQuestion(questionId) =>
          submittedQuestions := Remove(submittedQuestions, questionId);
      }
    }
  }

  /** After an accepted submission the question's button is disabled until its
      release timer fires, and enabled again after it. */
  method SubmitThenRelease(page: QuestionnairePage, questionId: string, questionText: string, kind: string)
    returns (request: Option<Request>)
    modifies page
    ensures request.Some? ==> request.value.Create? && request.value.questionId == questionId
    ensures request.Some? ==> !page.SubmitDisabled(questionId)
    ensures request.None? ==> page.submittedQuestions == old(page.submittedQuestions)
  {
    request := page.SaveResponse(questionId, questionText, kind);
    if request.Some? {
      assert page.SubmitDisabled(questionId);
      page.FireTimer(ReleaseQuestion(questionId));
    }
  }
}
