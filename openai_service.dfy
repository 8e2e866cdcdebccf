/** The OpenAI-backed classifier (backend/services/openai_service.py): the
    missing-key check of the constructor and the way `classify_email` turns
    whatever the chat-completion call produced into one of four labels.
    The network call itself is not modelled: its outcome is an input. */
module OpenAIService {
  import opened Outcomes
  import opened PyStr

  const PRODUCTIVE: string := "Produtivo"
  const UNPRODUCTIVE: string := "Improdutivo"
  const UNKNOWN: string := "Desconhecido"
  const CLASSIFICATION_ERROR: string := "Erro na Classificação"

  /** Message of the ValueError the constructor raises without an API key. */
  const MISSING_API_KEY: string := "OPENAPI_APIKEY não encontrada nas variáveis de ambiente."

  /** Message of the AttributeError raised when `generate_response` is looked
      up on an OpenAIService, which does not define it. */
  const NO_GENERATE_RESPONSE: string := "'OpenAIService' object has no attribute 'generate_response'"

  /** The labels `classify_email` can return. */
  predicate IsLabel(s: string) {
    s == PRODUCTIVE || s == UNPRODUCTIVE || s == UNKNOWN || s == CLASSIFICATION_ERROR
  }

  /** The client the service holds; only its API key matters here. */
  datatype Client = Client(apiKey: string)

  /** What the chat-completion call produced: the message content of each
      returned choice (absent content is `None`), or an exception. */
  datatype Completion = Completed(choices: seq<Option<string>>) | Failed(message: string)

  /** `OpenAIService()`: builds the client from the configured key and raises
      ValueError when the key is missing or empty (Python falsiness). */
  function NewClient(apiKey: Option<string>): (r: Outcome<Client>)
    ensures r.Returned? <==> apiKey.Some? && apiKey.value != ""
    ensures r.Returned? ==> r.value.apiKey == apiKey.value
    ensures r.Raised? ==> r.message == MISSING_API_KEY
  {
    match apiKey
    case Some(key) => if key == "" then Raised(MISSING_API_KEY) else Returned(Client(key))
    case None => Raised(MISSING_API_KEY)
  }

  /** "Improdutivo" does not contain "Produtivo": the comparison is
      case-sensitive and "Improdutivo" has no capital P. */
  lemma UnproductiveLacksProductive()
    ensures !Contains(UNPRODUCTIVE, PRODUCTIVE)
  {
    if Contains(UNPRODUCTIVE, PRODUCTIVE) {
      ContainsOnlyItsChars(UNPRODUCTIVE, PRODUCTIVE, 0);
      assert false;
    }
  }

  /** The label for the reply text of a completion. The reply is stripped
      first; the label is then decided by substring tests alone, "Produtivo"
      before "Improdutivo", so a reply exactly equal to a label keeps it and
      a reply holding both labels is "Produtivo". */
  function CoerceReply(reply: string): (verdict: string)
    ensures IsLabel(verdict) && verdict != CLASSIFICATION_ERROR
    ensures verdict == PRODUCTIVE <==> Contains(Strip(reply), PRODUCTIVE)
    ensures verdict == UNPRODUCTIVE <==>
      !Contains(Strip(reply), PRODUCTIVE) && Contains(Strip(reply), UNPRODUCTIVE)
    ensures verdict == UNKNOWN <==>
      !Contains(Strip(reply), PRODUCTIVE) && !Contains(Strip(reply), UNPRODUCTIVE)
  {
    var classification := Strip(reply);
    if classification != PRODUCTIVE && classification != UNPRODUCTIVE then
      if Contains(classification, PRODUCTIVE) then PRODUCTIVE
      else if Contains(classification, UNPRODUCTIVE) then UNPRODUCTIVE
      else UNKNOWN
    else
      ContainsSelf(classification);
      UnproductiveLacksProductive();
      classification
  }

  /** `classify_email`, given the outcome of its one completion call. It
      never raises: a failed call, a reply without choices and a first choice
      without content all give the error label, and only those do. */
  function ClassifyEmail(completion: Completion): (verdict: string)
    ensures IsLabel(verdict)
    ensures verdict == CLASSIFICATION_ERROR <==>
      completion.Failed? || |completion.choices| == 0 || completion.choices[0].None?
    ensures verdict != CLASSIFICATION_ERROR ==> verdict == CoerceReply(completion.choices[0].value)
  {
    match completion
    case Failed(_) => CLASSIFICATION_ERROR
    case Completed(choices) =>
      if |choices| == 0 then CLASSIFICATION_ERROR
      else match choices[0]
        case None => CLASSIFICATION_ERROR
        case Some(content) => CoerceReply(content)
  }

  /** A reply that, once stripped, is exactly one of the two categories is
      returned as it is. */
  lemma ExactReplyKept(reply: string)
    requires Strip(reply) == PRODUCTIVE || Strip(reply) == UNPRODUCTIVE
    ensures CoerceReply(reply) == Strip(reply)
  {
    ContainsSelf(Strip(reply));
    UnproductiveLacksProductive();
  }

  /** Whitespace around the reply does not change its verdict. */
  lemma ReplyPaddingIgnored(before: string, reply: string, after: string)
    requires AllSpace(before) && AllSpace(after)
    ensures CoerceReply(before + reply + after) == CoerceReply(reply)
  {
    StripIgnoresPadding(before, reply, after);
  }

  /** The label depends only on which categories the raw reply mentions:
      "Produtivo" if it mentions that one (whether or not it also mentions
      "Improdutivo"), else "Improdutivo" if it mentions that one, else
      unknown. Stripping never changes which categories are mentioned. */
  lemma LabelFromMentions(reply: string)
    ensures CoerceReply(reply) ==
      if Contains(reply, PRODUCTIVE) then PRODUCTIVE
      else if Contains(reply, UNPRODUCTIVE) then UNPRODUCTIVE
      else UNKNOWN
  {
    StripPreservesOccurrence(reply, PRODUCTIVE);
    StripPreservesOccurrence(reply, UNPRODUCTIVE);
  }

  /** A reply without a capital P and without a d names neither category,
      so it is unknown. */
  lemma ReplyLackingLabelCharsUnknown(reply: string)
    requires 'P' !in reply && 'd' !in reply
    ensures CoerceReply(reply) == UNKNOWN
  {
    if Contains(reply, PRODUCTIVE) {
      ContainsOnlyItsChars(reply, PRODUCTIVE, 0);
    }
    if Contains(reply, UNPRODUCTIVE) {
      ContainsOnlyItsChars(reply, UNPRODUCTIVE, 5);
    }
    LabelFromMentions(reply);
  }

  /** The test suite's exact "Produtivo" reply keeps its label. */
  lemma ProductiveReplyExample()
    ensures ClassifyEmail(Completed([Some("Produtivo")])) == PRODUCTIVE
  {
    StripUnpadded(PRODUCTIVE);
    ExactReplyKept(PRODUCTIVE);
  }

  /** The test suite's exact "Improdutivo" reply keeps its label. */
  lemma UnproductiveReplyExample()
    ensures ClassifyEmail(Completed([Some("Improdutivo")])) == UNPRODUCTIVE
  {
    StripUnpadded(UNPRODUCTIVE);
    ExactReplyKept(UNPRODUCTIVE);
  }

  /** The test suite's reply naming a new category is unknown. */
  lemma NewCategoryExample()
    ensures ClassifyEmail(Completed([Some("Isso é uma categoria nova.")])) == UNKNOWN
  {
    ReplyLackingLabelCharsUnknown("Isso é uma categoria nova.");
  }

  /** The test suite's sentence around "Produtivo" falls back to "Produtivo". */
  lemma SentenceExample()
    ensures ClassifyEmail(Completed([Some("A categoria é Produtivo.")])) == PRODUCTIVE
  {
    var reply := "A categoria é Produtivo.";
    assert OccursAt(reply, PRODUCTIVE, 14);
    ContainsIff(reply, PRODUCTIVE);
    LabelFromMentions(reply);
  }

  /** `generate_response` as the source stands: OpenAIService defines no such
      method, so the lookup raises AttributeError whatever the arguments. */
  function GenerateResponseAsWritten(emailContent: string, classification: string): (r: Outcome<string>)
    ensures r.Raised?
  {
    Raised(NO_GENERATE_RESPONSE)
  }
}
