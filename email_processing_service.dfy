/** The processing pipeline (backend/services/email_processing_service.py):
    preprocess the e-mail, classify the preprocessed text, draft a reply to
    the original text, and return both. The three collaborators are
    parameters; any of them may raise, and nothing here catches. */
module EmailProcessingService {
  import opened Outcomes

  /** The record `process_email` returns: exactly these two fields. */
  datatype EmailProcessingResult = EmailProcessingResult(classification: string, suggestedResponse: string)

  /** The collaborators `process_email` calls: the text preprocessor and
      the service's `classify_email` and `generate_response`. */
  datatype Collaborators = Collaborators(
    preprocessText: string -> Outcome<string>,
    classifyEmail: string -> Outcome<string>,
    generateResponse: (string, string) -> Outcome<string>)

  /** One call to a collaborator, with its arguments. */
  datatype Call =
    | PreprocessText(text: string)
    | ClassifyEmail(emailContent: string)
    | GenerateResponse(emailContent: string, classification: string)

  /** The position of a call's stage in the pipeline. */
  function Stage(call: Call): nat {
    match call
    case PreprocessText(_) => 0
    case ClassifyEmail(_) => 1
    case GenerateResponse(_, _) => 2
  }

  /** What the collaborator answers to a call. */
  function Answer(s: Collaborators, call: Call): Outcome<string> {
    match call
    case PreprocessText(text) => s.preprocessText(text)
    case ClassifyEmail(content) => s.classifyEmail(content)
    case GenerateResponse(content, classification) => s.generateResponse(content, classification)
  }

  /** One run of `process_email`: the calls made, in order, and the outcome. */
  datatype Run = Run(calls: seq<Call>, outcome: Outcome<EmailProcessingResult>)

  /** `process_email`. The stages run in pipeline order, each at most once;
      the preprocessor gets the original text; the classifier gets what the
      preprocessor returned; the reply generator gets the original text and
      whatever label the classifier returned. A stage runs only if every
      earlier one returned, the first one that raises ends the run with its
      exception, and when none raises the result holds the label and the
      reply and nothing else. */
  function ProcessEmail(s: Collaborators, emailContent: string): (run: Run)
    ensures 1 <= |run.calls| <= 3
    ensures forall k :: 0 <= k < |run.calls| ==> Stage(run.calls[k]) == k
    ensures run.calls[0] == PreprocessText(emailContent)
    ensures forall k :: 0 <= k < |run.calls| - 1 ==> Answer(s, run.calls[k]).Returned?
    ensures 1 < |run.calls| ==> run.calls[1] == ClassifyEmail(Answer(s, run.calls[0]).value)
    ensures 2 < |run.calls| ==>
      run.calls[2] == GenerateResponse(emailContent, Answer(s, run.calls[1]).value)
    ensures |run.calls| < 3 ==> Answer(s, run.calls[|run.calls| - 1]).Raised?
    ensures run.outcome.Raised? <==> Answer(s, run.calls[|run.calls| - 1]).Raised?
    ensures run.outcome.Raised? ==>
      run.outcome.message == Answer(s, run.calls[|run.calls| - 1]).message
    ensures run.outcome.Returned? ==>
      run.outcome.value == EmailProcessingResult(Answer(s, run.calls[1]).value, Answer(s, run.calls[2]).value)
  {
    var preprocess := PreprocessText(emailContent);
    match s.preprocessText(emailContent)
    case Raised(e) => Run([preprocess], Raised(e))
    case Returned(processedText) =>
      var classify := ClassifyEmail(processedText);
      match s.classifyEmail(processedText)
      case Raised(e) => Run([preprocess, classify], Raised(e))
      case Returned(classification) =>
        var generate := GenerateResponse(emailContent, classification);
        var calls := [preprocess, classify, generate];
        match s.generateResponse(emailContent, classification)
        case Raised(e) => Run(calls, Raised(e))
        case Returned(suggestedResponse) =>
          Run(calls, Returned(EmailProcessingResult(classification, suggestedResponse)))
  }

  /** Whatever label the classifier returns, sentinel labels included, is
      handed to the reply generator as it is: there is no short-circuit. */
  lemma NoShortCircuit(s: Collaborators, emailContent: string, processedText: string, classification: string)
    requires s.preprocessText(emailContent) == Returned(processedText)
    requires s.classifyEmail(processedText) == Returned(classification)
    ensures ProcessEmail(s, emailContent).calls ==
      [PreprocessText(emailContent), ClassifyEmail(processedText), GenerateResponse(emailContent, classification)]
  {
    var run := ProcessEmail(s, emailContent);
    assert |run.calls| == 3;
  }

  /** The preprocessor is called exactly once, with the original text. */
  lemma PreprocessedOnce(s: Collaborators, emailContent: string)
    ensures multiset(ProcessEmail(s, emailContent).calls)[PreprocessText(emailContent)] == 1
    ensures forall call :: call in ProcessEmail(s, emailContent).calls && call.PreprocessText? ==>
      call == PreprocessText(emailContent)
  {
    var calls := ProcessEmail(s, emailContent).calls;
    assert calls == [calls[0]] + calls[1..];
    forall call | call in calls[1..] ensures !call.PreprocessText? {
      var k :| 0 <= k < |calls[1..]| && calls[1..][k] == call;
      assert Stage(calls[k + 1]) == k + 1;
    }
  }

  /** Two sets of collaborators that answer the pipeline's calls alike give
      the same run: the result is built from the stage outputs only. */
  lemma RunDependsOnlyOnAnswers(s1: Collaborators, s2: Collaborators, emailContent: string)
    requires forall call :: call in ProcessEmail(s1, emailContent).calls ==> Answer(s1, call) == Answer(s2, call)
    ensures ProcessEmail(s1, emailContent) == ProcessEmail(s2, emailContent)
  {
    var run := ProcessEmail(s1, emailContent);
    assert run.calls[0] in run.calls;
    if 1 < |run.calls| { assert run.calls[1] in run.calls; }
    if 2 < |run.calls| { assert run.calls[2] in run.calls; }
  }
}
