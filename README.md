# E-mail classifier backend: a Dafny model

This project models the core of the backend of an e-mail classifier. The
route of interest is `POST /api/v1/process-email`; the backend also serves a
health check, which is not modelled. The route
accepts an e-mail as form text or as an uploaded file and validates the
input. It then runs a three-stage pipeline: preprocess the text, classify
it as "Produtivo" or "Improdutivo" through the OpenAI chat-completion API,
and draft a reply. The route returns the classification and the reply.

The model is written as datatypes, functions and lemmas, because the
modelled Python code is pure request/response logic with no state that
changes step by step:

- `outcomes.dfy` (module `Outcomes`): Python's optional value and the
  outcome of a call that may raise (`Returned(value)` or `Raised(message)`).
- `py_str.dfy` (module `PyStr`): the two string operations the core uses.
  `Strip` is Python's `str.strip()`, which removes leading and trailing
  characters for which `str.isspace()` holds. `Contains` is Python's
  case-sensitive `in` on strings. Their properties are proved here.
- `openai_service.dfy` (module `OpenAIService`): the constructor's missing-key
  check and the way `classify_email` turns the result of the completion call
  into one of the labels "Produtivo", "Improdutivo", "Desconhecido" or
  "Erro na Classificação".
- `email_processing_service.dfy` (module `EmailProcessingService`): the
  pipeline `process_email` and its result record. Its collaborators are
  function-valued parameters, and each run returns the calls it made, so
  that "called once, with these arguments" can be stated.
- `email_router.dfy` (module `EmailRouter`): input validation and error
  mapping of the route. It also composes the route with the pipeline and the
  classifier.

A first choice without content makes `.strip()` raise inside the `try`
(backend/services/openai_service.py:37, 47-49), so such a completion gets
"Erro na Classificação", as a failed call does.

## Model

| member | source | states |
|---|---|---|
| PyStr.IsSpace | backend/services/openai_service.py:37 | Holds exactly for the characters Python's `str.isspace()` accepts, the set `.strip()` removes: ASCII whitespace, U+001C..U+001F, NEL, no-break space and the Unicode space separators. |
| PyStr.Strip | backend/services/openai_service.py:37 | The result is a slice of the input with only whitespace cut from either end. It is empty exactly when the input is all whitespace. Otherwise it begins and ends with non-whitespace. |
| PyStr.StripUnique | backend/services/openai_service.py:37 | Any slice with whitespace-only margins and non-whitespace ends is the stripped string, so `Strip` is determined by that description. |
| PyStr.StripIgnoresPadding | backend/api/v1/email_router.py:62 | Adding whitespace before and after a string does not change what it strips to. |
| PyStr.StripIdempotent | backend/services/openai_service.py:37 | Stripping twice gives the same string as stripping once. |
| PyStr.Contains | backend/services/openai_service.py:40-43 | Python's case-sensitive `needle in hay`; its meaning is proved by `PyStr.ContainsIff`. |
| PyStr.ContainsIff | backend/services/openai_service.py:40-43 | The recursive substring test holds exactly when the needle occurs at some index of the haystack. |
| PyStr.ContainsOnlyItsChars | backend/services/openai_service.py:40-43 | A string that contains a needle contains every character of the needle. |
| PyStr.StripPreservesOccurrence | backend/services/openai_service.py:37-43 | For a needle that begins and ends with non-whitespace, the stripped string contains it exactly when the original does. |
| OpenAIService.NewClient | backend/services/openai_service.py:9-12 | Construction succeeds exactly when the key is present and non-empty, and the client keeps that key. An empty key raises ValueError with the missing-key message; the model raises the same for an absent key (see "## Left out"). |
| OpenAIService.UnproductiveLacksProductive | backend/services/openai_service.py:40-43 | "Improdutivo" does not contain "Produtivo", because the test is case-sensitive. |
| OpenAIService.CoerceReply | backend/services/openai_service.py:37-46 | The label of a reply is never the error label. It is "Produtivo" exactly when the stripped reply contains "Produtivo". It is "Improdutivo" exactly when the stripped reply contains "Improdutivo" but not "Produtivo". Otherwise it is "Desconhecido". |
| OpenAIService.ClassifyEmail | backend/services/openai_service.py:14-49 | The result is always one of the four labels and the call never raises. It is the error label exactly when the call failed, returned no choices, or the first choice had no content. Otherwise it is the label of the first choice's text. |
| OpenAIService.ExactReplyKept | backend/services/openai_service.py:39-46 | A reply that strips to exactly "Produtivo" or "Improdutivo" is returned as that stripped string. |
| OpenAIService.ReplyPaddingIgnored | backend/services/openai_service.py:37 | Whitespace around the reply does not change its label. |
| OpenAIService.LabelFromMentions | backend/services/openai_service.py:37-46 | The label is fixed by which categories the raw reply mentions: "Produtivo" if it mentions "Produtivo", else "Improdutivo" if it mentions "Improdutivo", else "Desconhecido". |
| OpenAIService.ReplyLackingLabelCharsUnknown | backend/services/openai_service.py:44-45 | A reply with no capital P and no d mentions neither category and gets "Desconhecido". |
| OpenAIService.ProductiveReplyExample | tests/test_openai_service.py:20-35 | A completion whose content is "Produtivo" is classified "Produtivo". |
| OpenAIService.UnproductiveReplyExample | tests/test_openai_service.py:42-53 | A completion whose content is "Improdutivo" is classified "Improdutivo". |
| OpenAIService.NewCategoryExample | tests/test_openai_service.py:126-139 | The reply "Isso é uma categoria nova." is classified "Desconhecido". |
| OpenAIService.SentenceExample | tests/test_openai_service.py:143-155 | The reply "A categoria é Produtivo." is classified "Produtivo" by the substring fallback. |
| OpenAIService.GenerateResponseAsWritten | backend/services/email_processing_service.py:27-29 | Calling `generate_response` on an OpenAIService always raises, because the class does not define it. |
| EmailProcessingService.ProcessEmail | backend/services/email_processing_service.py:15-34 | The stages run in pipeline order, each at most once. The preprocessor gets the original text. The classifier gets the preprocessor's output. The reply generator gets the original text and the classifier's label. The first stage that raises ends the run with its exception. Otherwise the result holds exactly the label and the reply. |
| EmailProcessingService.NoShortCircuit | backend/services/email_processing_service.py:23-29 | Once preprocessing and classification return, the reply generator is called, whatever the label, including "Desconhecido" and the error label. |
| EmailProcessingService.PreprocessedOnce | backend/services/email_processing_service.py:20-21 | The preprocessor is called exactly once, and only with the original text. |
| EmailProcessingService.RunDependsOnlyOnAnswers | backend/services/email_processing_service.py:31-34 | Two sets of collaborators that answer the run's calls alike give the same run, so the result is built only from the stage outputs. |
| EmailRouter.NonBlank | backend/api/v1/email_router.py:62-65 | Content is accepted unchanged exactly when it is not all whitespace. Otherwise it is rejected with 400 "O conteúdo do e-mail não pode estar vazio.". |
| EmailRouter.ContentToProcess | backend/api/v1/email_router.py:39-65 | With neither input the result is 400 with the missing-input message. A PDF gives 501. Any other non-text file type gives 400 "unsupported". A text file's text, or else the form text, is accepted exactly when it is not blank. |
| EmailRouter.ProcessEmailEndpoint | backend/api/v1/email_router.py:28-74 | A rejected request never reaches the pipeline and fails with its exception. An accepted one calls the pipeline exactly once, with the content. The response is 200 with the pipeline's result exactly when the pipeline returns. Any exception becomes 500 "Erro interno ao processar o e-mail.". |
| EmailRouter.ErrorStatuses | backend/api/v1/email_router.py:39-74 | Every error response has status 400, 500 or 501. |
| EmailRouter.FileTakesPrecedence | backend/api/v1/email_router.py:46-60 | When a file is uploaded, the form text has no effect on the response. |
| EmailRouter.ExceptionDetailHidden | backend/api/v1/email_router.py:67-74 | Pipelines that raise different exceptions give the same 500 response. |
| EmailRouter.BlankContentRejected | backend/api/v1/email_router.py:59-65 | Whitespace-only content, from the form or from a text file, is rejected with 400 before the pipeline runs. |
| EmailRouter.FormTextExample | tests/test_api_endpoints.py:29-51 | A form post of "Preciso de ajuda com meu pedido." calls the pipeline once with that text and returns its result. |
| EmailRouter.AsWrittenPipelineRaises | backend/services/email_processing_service.py:21-29 | As written, the pipeline of a deployed service always raises. |
| EmailRouter.AsWrittenAcceptedRequestsFail | backend/api/v1/email_router.py:67-74 | As written, every request that passes validation gets the 500 response, whatever the e-mail and whatever the completion API answers. |
| EmailRouter.AcceptedRequestsSucceed | backend/api/v1/email_router.py:28-74 | With a reply generator that answers every label, each request that passes validation and preprocessing gets 200. Its classification is one of the four labels, computed from the preprocessed text. Its reply is the generator's answer for the original text and that label. |

## Left out

- The chat-completion request itself (model, prompt, `max_tokens`, `temperature`, the network) is not modelled. Its outcome is the `Completion` parameter of `ClassifyEmail`.
- OpenAIService.ClassifyEmail: "exactly one completion call per classification" is structural here, because the function takes one completion outcome; there is no call log.
- The `print` logging in `classify_email` and in the route's exception handler is not modelled.
- `load_dotenv` and `os.getenv` are not modelled: the key is the parameter of `NewClient`.
- OpenAIService.NewClient: the OpenAI client library's own handling of `api_key=None` is not modelled, because that library is not part of this model. The library falls back to its default environment variable `OPENAI_API_KEY` and succeeds when that is set, or raises its own `OpenAIError` otherwise. So the modelled ValueError for an absent key is not what the program raises: in the program only an empty key reaches that ValueError.
- The behaviour of `generate_response` is not modelled beyond the as-written lookup failure: the source does not define it, so in the corrected composition the reply generator is a parameter.
- `preprocess_text` (backend/services/nlp_service.py) is not part of this model. It is a parameter that may return or raise.
- The asynchronous read of the uploaded file and its UTF-8 decoding are not modelled: the decoded text is part of the `UploadFile` input. A decoding error would escape as a framework error, because it happens outside the `try`.
- EmailRouter.ContentToProcess: an uploaded file is assumed to be truthy whenever it is present, as FastAPI's `UploadFile` is.
- FastAPI wiring is not modelled: routing, form parsing, `Depends`, the response model, CORS, the health check and `backend/main.py`. A `ValueError` raised while building the service during dependency resolution happens outside the route body and is not modelled either.
- The frontend (`frontend/`) is not part of this model.

## Findings

| source | as written | input that shows it | evidently intended | confidence | as-written member | corrected member |
|---|---|---|---|---|---|---|
| backend/services/email_processing_service.py:27-29 | `process_email` calls `generate_response` on the OpenAI service, which defines only `classify_email`. The lookup raises AttributeError, and the route maps it to 500. | Any request that passes validation, e.g. form text "Preciso de ajuda com meu pedido.", with any completion answer | A 200 response carrying the classification and a suggested reply (the service tests in tests/test_openai_service.py:71-122 exercise a `generate_response`) | high, not executed | EmailRouter.AsWrittenAcceptedRequestsFail | EmailRouter.AcceptedRequestsSucceed |
