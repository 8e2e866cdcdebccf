/** The HTTP route `POST /process-email` (backend/api/v1/email_router.py):
    choose the text to process from the uploaded file or the form field,
    reject what cannot be processed, hand the text to the processing
    service, and turn the service's exceptions into a generic 500. The
    upload arrives already read and decoded; the processing service is a
    parameter, as the route receives it by injection. */
module EmailRouter {
  import opened Outcomes
  import opened PyStr
  import opened EmailProcessingService
  import OpenAIService

  const TEXT_PLAIN: string := "text/plain"
  const APPLICATION_PDF: string := "application/pdf"

  const MISSING_INPUT: string := "É necessário fornecer o conteúdo do e-mail ou um arquivo."
  const PDF_NOT_IMPLEMENTED: string := "Leitura de arquivos PDF ainda não implementada."
  const UNSUPPORTED_FILE: string := "Tipo de arquivo não suportado. Apenas .txt ou .pdf."
  const EMPTY_CONTENT: string := "O conteúdo do e-mail não pode estar vazio."
  const INTERNAL_ERROR: string := "Erro interno ao processar o e-mail."

  /** An uploaded file: its declared content type (possibly absent) and its
      bytes decoded as UTF-8. */
  datatype UploadFile = UploadFile(contentType: Option<string>, text: string)

  /** An HTTPException: the status code and the detail sent to the client. */
  datatype HttpException = HttpException(statusCode: nat, detail: string)

  /** The text the route will process, or the exception that stops it first. */
  datatype Validated = Accepted(content: string) | Rejected(exception: HttpException)

  /** The route's answer: the processing result (200) or an HTTPException. */
  datatype Response = Ok(result: EmailProcessingResult) | Failure(exception: HttpException)

  /** One request: the texts handed to `process_email`, in order, and the
      response. */
  datatype Handled = Handled(processed: seq<string>, response: Response)

  /** Accepts `content` unless it is empty once stripped. */
  function NonBlank(content: string): (v: Validated)
    ensures v.Accepted? <==> !AllSpace(content)
    ensures v.Accepted? ==> v.content == content
    ensures v.Rejected? ==> v.exception == HttpException(400, EMPTY_CONTENT)
  {
    if Strip(content) == "" then Rejected(HttpException(400, EMPTY_CONTENT)) else Accepted(content)
  }

  /** The validation half of the route. Neither input: 400. A file, when
      present, decides alone (the form field is then ignored): plain text
      is its decoded text, PDF is 501, any other or no content type is 400.
      Without a file the form field is the text. The chosen text is
      rejected with 400 when it is empty once stripped, and accepted as it
      is otherwise. */
  function ContentToProcess(emailContent: Option<string>, emailFile: Option<UploadFile>): (v: Validated)
    ensures v == Rejected(HttpException(400, MISSING_INPUT)) <==> emailContent.None? && emailFile.None?
    ensures emailFile.Some? && emailFile.value.contentType == Some(APPLICATION_PDF) ==>
      v == Rejected(HttpException(501, PDF_NOT_IMPLEMENTED))
    ensures emailFile.Some? && emailFile.value.contentType !in {Some(TEXT_PLAIN), Some(APPLICATION_PDF)} ==>
      v == Rejected(HttpException(400, UNSUPPORTED_FILE))
    ensures emailFile.Some? && emailFile.value.contentType == Some(TEXT_PLAIN) ==>
      v == (if AllSpace(emailFile.value.text) then Rejected(HttpException(400, EMPTY_CONTENT))
            else Accepted(emailFile.value.text))
    ensures emailFile.None? && emailContent.Some? ==>
      v == (if AllSpace(emailContent.value) then Rejected(HttpException(400, EMPTY_CONTENT))
            else Accepted(emailContent.value))
  {
    if emailContent.None? && emailFile.None? then
      Rejected(HttpException(400, MISSING_INPUT))
    else
      match emailFile
      case Some(file) =>
        if file.contentType == Some(TEXT_PLAIN) then NonBlank(file.text)
        else if file.contentType == Some(APPLICATION_PDF) then Rejected(HttpException(501, PDF_NOT_IMPLEMENTED))
        else Rejected(HttpException(400, UNSUPPORTED_FILE))
      case None =>
        // `elif email_content:` skips only the empty string, which leaves
        // `content_to_process` at "", the same text.
        NonBlank(emailContent.value)
  }

  /** `process_email_endpoint`. A rejected request never reaches the
      processor. An accepted one calls it exactly once, with the accepted
      text; what it returns is the response as it is, and if it raises the
      response is a 500 whose detail is fixed, whatever the exception says. */
  function ProcessEmailEndpoint(
    emailContent: Option<string>, emailFile: Option<UploadFile>,
    processor: string -> Outcome<EmailProcessingResult>): (h: Handled)
    ensures ContentToProcess(emailContent, emailFile).Rejected? ==>
      h.processed == [] && h.response == Failure(ContentToProcess(emailContent, emailFile).exception)
    ensures ContentToProcess(emailContent, emailFile).Accepted? ==>
      h.processed == [ContentToProcess(emailContent, emailFile).content]
    ensures h.response.Ok? <==> h.processed != [] && processor(h.processed[0]).Returned?
    ensures h.response.Ok? ==> h.response.result == processor(h.processed[0]).value
    ensures h.processed != [] && processor(h.processed[0]).Raised? ==>
      h.response == Failure(HttpException(500, INTERNAL_ERROR))
  {
    match ContentToProcess(emailContent, emailFile)
    case Rejected(e) => Handled([], Failure(e))
    case Accepted(content) =>
      match processor(content)
      case Returned(result) => Handled([content], Ok(result))
      case Raised(_) => Handled([content], Failure(HttpException(500, INTERNAL_ERROR)))
  }

  /** Every error response is one of 400, 500 and 501. */
  lemma ErrorStatuses(emailContent: Option<string>, emailFile: Option<UploadFile>,
                      processor: string -> Outcome<EmailProcessingResult>)
    ensures var r := ProcessEmailEndpoint(emailContent, emailFile, processor).response;
      r.Failure? ==> r.exception.statusCode in {400, 500, 501}
  {
  }

  /** With a file present, the form field does not matter. */
  lemma FileTakesPrecedence(content1: Option<string>, content2: Option<string>, file: UploadFile,
                            processor: string -> Outcome<EmailProcessingResult>)
    ensures ProcessEmailEndpoint(content1, Some(file), processor) ==
            ProcessEmailEndpoint(content2, Some(file), processor)
  {
  }

  /** The processor's exception message never reaches the response: two
      processors that raise on the same texts and otherwise agree give the
      same answer. */
  lemma ExceptionDetailHidden(emailContent: Option<string>, emailFile: Option<UploadFile>,
                              p1: string -> Outcome<EmailProcessingResult>,
                              p2: string -> Outcome<EmailProcessingResult>)
    requires forall text :: p1(text).Raised? == p2(text).Raised?
    requires forall text :: p1(text).Returned? ==> p1(text) == p2(text)
    ensures ProcessEmailEndpoint(emailContent, emailFile, p1) == ProcessEmailEndpoint(emailContent, emailFile, p2)
  {
  }

  /** Whitespace-only text is rejected with 400 and never processed,
      whether it came in the form field or as a plain-text upload. */
  lemma BlankContentRejected(emailContent: Option<string>, emailFile: Option<UploadFile>, blank: string,
                             processor: string -> Outcome<EmailProcessingResult>)
    requires AllSpace(blank)
    requires (emailFile.None? && emailContent == Some(blank))
          || (emailFile.Some? && emailFile.value == UploadFile(Some(TEXT_PLAIN), blank))
    ensures ProcessEmailEndpoint(emailContent, emailFile, processor) ==
            Handled([], Failure(HttpException(400, EMPTY_CONTENT)))
  {
  }

  /** The request of the test suite with form text "Preciso de ajuda com
      meu pedido.": the processor is called once with that text and its
      result is the response. */
  lemma FormTextExample(processor: string -> Outcome<EmailProcessingResult>, result: EmailProcessingResult)
    requires processor("Preciso de ajuda com meu pedido.") == Returned(result)
    ensures ProcessEmailEndpoint(Some("Preciso de ajuda com meu pedido."), None, processor) ==
            Handled(["Preciso de ajuda com meu pedido."], Ok(result))
  {
    var text := "Preciso de ajuda com meu pedido.";
    assert !IsSpace(text[0]);
  }

  /** A processing service as the route sees it: each text is answered
      with the outcome of the pipeline run over the given collaborators. */
  function Processor(s: Collaborators): string -> Outcome<EmailProcessingResult>
  {
    text => ProcessEmail(s, text).outcome
  }

  /** The collaborators of a deployed service: the text preprocessor, the
      `classify_email` of an OpenAIService whose completion call answers a
      text with `complete(text)`, and a reply generator. */
  function Deployed(preprocessText: string -> Outcome<string>, complete: string -> OpenAIService.Completion,
                    generateResponse: (string, string) -> Outcome<string>): Collaborators
  {
    Collaborators(preprocessText, text => Returned(OpenAIService.ClassifyEmail(complete(text))), generateResponse)
  }

  /** As written, the pipeline of a deployed service always raises: if
      preprocessing does not, the lookup of `generate_response`, which
      OpenAIService does not define, does. */
  lemma AsWrittenPipelineRaises(preprocessText: string -> Outcome<string>,
                                complete: string -> OpenAIService.Completion, content: string)
    ensures ProcessEmail(Deployed(preprocessText, complete, OpenAIService.GenerateResponseAsWritten), content).outcome.Raised?
  {
    var s := Deployed(preprocessText, complete, OpenAIService.GenerateResponseAsWritten);
    var run := ProcessEmail(s, content);
    if |run.calls| == 3 {
      assert Answer(s, run.calls[2]).Raised?;
    }
  }

  /** As written, every request that passes validation ends in the generic
      500, whatever the e-mail and whatever the completion API answers. */
  lemma AsWrittenAcceptedRequestsFail(preprocessText: string -> Outcome<string>,
                                      complete: string -> OpenAIService.Completion,
                                      emailContent: Option<string>, emailFile: Option<UploadFile>)
    requires ContentToProcess(emailContent, emailFile).Accepted?
    ensures ProcessEmailEndpoint(emailContent, emailFile,
              Processor(Deployed(preprocessText, complete, OpenAIService.GenerateResponseAsWritten))).response
            == Failure(HttpException(500, INTERNAL_ERROR))
  {
    AsWrittenPipelineRaises(preprocessText, complete, ContentToProcess(emailContent, emailFile).content);
  }

  /** With a reply generator that answers, a deployed service answers every
      request that passes validation and preprocessing with 200: the
      classification is one of the four labels, computed from the
      preprocessed text, and the reply is the generator's answer for the
      original text and that classification. */
  lemma AcceptedRequestsSucceed(preprocessText: string -> Outcome<string>,
                                complete: string -> OpenAIService.Completion,
                                generateResponse: (string, string) -> Outcome<string>,
                                emailContent: Option<string>, emailFile: Option<UploadFile>)
    requires ContentToProcess(emailContent, emailFile).Accepted?
    requires preprocessText(ContentToProcess(emailContent, emailFile).content).Returned?
    requires forall text, classification :: OpenAIService.IsLabel(classification) ==> generateResponse(text, classification).Returned?
    ensures var content := ContentToProcess(emailContent, emailFile).content;
      var classification := OpenAIService.ClassifyEmail(complete(preprocessText(content).value));
      ProcessEmailEndpoint(emailContent, emailFile, Processor(Deployed(preprocessText, complete, generateResponse)))
      == Handled([content], Ok(EmailProcessingResult(classification, generateResponse(content, classification).value)))
      && OpenAIService.IsLabel(classification)
  {
    var s := Deployed(preprocessText, complete, generateResponse);
    var content := ContentToProcess(emailContent, emailFile).content;
    var run := ProcessEmail(s, content);
    var classification := OpenAIService.ClassifyEmail(complete(preprocessText(content).value));
    assert generateResponse(content, classification).Returned?;
    assert |run.calls| == 3;
  }
}
