/**
  The request side of services/geminiService.ts: the declared response schema,
  the `parts` list sent with a request (one inline-data part per uploaded file,
  then the instruction text), the checks that raise errors (no API key, empty
  response), and the data-URL strip of `fileToBase64`.

  The generative backend (`ai.models.generateContent`) and `JSON.parse`
  followed by the unchecked `as AnalysisResult` cast are outside the model:
  they are passed in as functions.
 */
module GeminiService {
  import opened Wrappers
  import opened Strings
  import opened Types

  // ---------------------------------------------------------------------------
  // Declared response schema and the JSON values it describes
  // ---------------------------------------------------------------------------

  /** The subset of the SDK's schema language the application declares (descriptions left out). */
  datatype Schema =
    | StringSchema
    | IntegerSchema
    | ArraySchema(items: Schema)
    | ObjectSchema(properties: seq<Property>, required: seq<string>)

  datatype Property = Property(name: string, schema: Schema)

  const QuestionSchema: Schema := ObjectSchema(
    [Property("text", StringSchema), Property("options", ArraySchema(StringSchema)),
     Property("correctAnswerIndex", IntegerSchema), Property("explanation", StringSchema)],
    ["text", "options", "correctAnswerIndex", "explanation"])

  const TopicSchema: Schema := ObjectSchema(
    [Property("topic", StringSchema), Property("questions", ArraySchema(QuestionSchema))],
    ["topic", "questions"])

  /** `analysisSchema`. */
  const AnalysisSchema: Schema := ObjectSchema(
    [Property("summary", StringSchema), Property("quizzes", ArraySchema(TopicSchema))],
    ["summary", "quizzes"])

  datatype Json =
    | JString(s: string)
    | JInteger(i: int)
    | JArray(elements: seq<Json>)
    | JObject(members: seq<Member>)

  datatype Member = Member(key: string, value: Json)

  /** The value of the first member named `key`, as property access reads it. */
  function Get(members: seq<Member>, key: string): (value: Option<Json>) {
    if |members| == 0 then None
    else if members[0].key == key then Some(members[0].value)
    else Get(members[1..], key)
  }

  /** A JSON value satisfies a schema: right kind, every required member present, every declared member well-formed. */
  predicate Conforms(j: Json, schema: Schema)
    decreases schema
  {
    match schema
    case StringSchema => j.JString?
    case IntegerSchema => j.JInteger?
    case ArraySchema(items) =>
      j.JArray? && forall k :: 0 <= k < |j.elements| ==> Conforms(j.elements[k], items)
    case ObjectSchema(properties, required) =>
      j.JObject?
      && (forall k :: 0 <= k < |required| ==> Get(j.members, required[k]).Some?)
      && (forall k :: 0 <= k < |properties| ==>
            var v := Get(j.members, properties[k].name);
            v.Some? ==> Conforms(v.value, properties[k].schema))
  }

  /** The JSON the backend sends for a result. */
  function Encode(r: AnalysisResult): (j: Json) {
    JObject([Member("summary", JString(r.summary)), Member("quizzes", JArray(EncodeTopics(r.quizzes)))])
  }

  function EncodeTopics(topics: seq<QuizTopic>): (items: seq<Json>) {
    seq(|topics|, k requires 0 <= k < |topics| => EncodeTopic(topics[k]))
  }

  function EncodeTopic(t: QuizTopic): (j: Json) {
    JObject([Member("topic", JString(t.topic)), Member("questions", JArray(EncodeQuestions(t.questions)))])
  }

  function EncodeQuestions(questions: seq<Question>): (items: seq<Json>) {
    seq(|questions|, k requires 0 <= k < |questions| => EncodeQuestion(questions[k]))
  }

  function EncodeQuestion(q: Question): (j: Json) {
    JObject([Member("text", JString(q.text)),
             Member("options", JArray(EncodeStrings(q.options))),
             Member("correctAnswerIndex", JInteger(q.correctAnswerIndex)),
             Member("explanation", JString(q.explanation))])
  }

  function EncodeStrings(xs: seq<string>): (items: seq<Json>) {
    seq(|xs|, k requires 0 <= k < |xs| => JString(xs[k]))
  }

  /**
    The schema admits every result the application can represent: any
    summary, any number of topics and questions, any number of options and
    any integer `correctAnswerIndex`. The range 0-3 is only a description.
   */
  lemma SchemaAdmitsEveryResult(r: AnalysisResult)
    ensures Conforms(Encode(r), AnalysisSchema)
  {
    var topics := Encode(r).members[1].value;
    forall k | 0 <= k < |r.quizzes| ensures Conforms(topics.elements[k], TopicSchema) {
      var t := r.quizzes[k];
      assert topics.elements[k] == EncodeTopic(t);
      var qs := EncodeTopic(t).members[1].value;
      forall m | 0 <= m < |t.questions| ensures Conforms(qs.elements[m], QuestionSchema) {
        assert qs.elements[m] == EncodeQuestion(t.questions[m]);
        EncodedQuestionConforms(t.questions[m]);
      }
    }
  }

  lemma EncodedQuestionConforms(q: Question)
    ensures Conforms(EncodeQuestion(q), QuestionSchema)
  {
    var ms := EncodeQuestion(q).members;
    assert Get(ms, "text") == Some(JString(q.text));
    assert Get(ms, "options") == Some(ms[1].value);
    assert Get(ms[2..], "correctAnswerIndex") == Some(JInteger(q.correctAnswerIndex));
    assert Get(ms, "correctAnswerIndex") == Some(JInteger(q.correctAnswerIndex));
    assert Get(ms[3..], "explanation") == Some(JString(q.explanation));
    assert Get(ms[2..], "explanation") == Some(JString(q.explanation));
    assert Get(ms, "explanation") == Some(JString(q.explanation));
  }

  /** Reading the members the application uses back from a JSON value. */
  function DecodeStrings(items: seq<Json>): (strings: Option<seq<string>>) {
    if |items| == 0 then Some([])
    else match (items[0], DecodeStrings(items[1..]))
      case (JString(s), Some(rest)) => Some([s] + rest)
      case _ => None
  }

  function DecodeQuestion(j: Json): (question: Option<Question>) {
    if !j.JObject? then None
    else match (Get(j.members, "text"), Get(j.members, "options"),
                Get(j.members, "correctAnswerIndex"), Get(j.members, "explanation"))
      case (Some(JString(text)), Some(JArray(opts)), Some(JInteger(c)), Some(JString(e))) =>
        (match DecodeStrings(opts)
         case Some(options) => Some(Question(text, options, c, e))
         case None => None)
      case _ => None
  }

  function DecodeQuestions(items: seq<Json>): (questions: Option<seq<Question>>) {
    if |items| == 0 then Some([])
    else match (DecodeQuestion(items[0]), DecodeQuestions(items[1..]))
      case (Some(q), Some(rest)) => Some([q] + rest)
      case _ => None
  }

  function DecodeTopic(j: Json): (topic: Option<QuizTopic>) {
    if !j.JObject? then None
    else match (Get(j.members, "topic"), Get(j.members, "questions"))
      case (Some(JString(topic)), Some(JArray(qs))) =>
        (match DecodeQuestions(qs)
         case Some(questions) => Some(QuizTopic(topic, questions))
         case None => None)
      case _ => None
  }

  function DecodeTopics(items: seq<Json>): (topics: Option<seq<QuizTopic>>) {
    if |items| == 0 then Some([])
    else match (DecodeTopic(items[0]), DecodeTopics(items[1..]))
      case (Some(t), Some(rest)) => Some([t] + rest)
      case _ => None
  }

  /** The fields of an AnalysisResult read from a parsed response. */
  function Decode(j: Json): (decoded: Option<AnalysisResult>) {
    if !j.JObject? then None
    else match (Get(j.members, "summary"), Get(j.members, "quizzes"))
      case (Some(JString(summary)), Some(JArray(ts))) =>
        (match DecodeTopics(ts)
         case Some(quizzes) => Some(AnalysisResult(summary, quizzes))
         case None => None)
      case _ => None
  }

  lemma {:induction false} DecodeStringsConforming(items: seq<Json>)
    requires forall k :: 0 <= k < |items| ==> Conforms(items[k], StringSchema)
    ensures DecodeStrings(items).Some? && |DecodeStrings(items).value| == |items|
    decreases |items|
  {
    if |items| > 0 {
      DecodeStringsConforming(items[1..]);
    }
  }

  lemma DecodeQuestionConforming(j: Json)
    requires Conforms(j, QuestionSchema)
    ensures DecodeQuestion(j).Some?
  {
    assert Get(j.members, QuestionSchema.required[0]).Some?;
    assert Get(j.members, QuestionSchema.required[1]).Some?;
    assert Get(j.members, QuestionSchema.required[2]).Some?;
    assert Get(j.members, QuestionSchema.required[3]).Some?;
    assert Conforms(Get(j.members, "options").value, ArraySchema(StringSchema)) by {
      assert QuestionSchema.properties[1].name == "options";
    }
    assert Conforms(Get(j.members, "text").value, StringSchema) by {
      assert QuestionSchema.properties[0].name == "text";
    }
    assert Conforms(Get(j.members, "correctAnswerIndex").value, IntegerSchema) by {
      assert QuestionSchema.properties[2].name == "correctAnswerIndex";
    }
    assert Conforms(Get(j.members, "explanation").value, StringSchema) by {
      assert QuestionSchema.properties[3].name == "explanation";
    }
    DecodeStringsConforming(Get(j.members, "options").value.elements);
  }

  lemma {:induction false} DecodeQuestionsConforming(items: seq<Json>)
    requires forall k :: 0 <= k < |items| ==> Conforms(items[k], QuestionSchema)
    ensures DecodeQuestions(items).Some? && |DecodeQuestions(items).value| == |items|
    decreases |items|
  {
    if |items| > 0 {
      DecodeQuestionConforming(items[0]);
      DecodeQuestionsConforming(items[1..]);
    }
  }

  lemma DecodeTopicConforming(j: Json)
    requires Conforms(j, TopicSchema)
    ensures DecodeTopic(j).Some?
  {
    assert Get(j.members, TopicSchema.required[0]).Some?;
    assert Get(j.members, TopicSchema.required[1]).Some?;
    assert Conforms(Get(j.members, "topic").value, StringSchema) by {
      assert TopicSchema.properties[0].name == "topic";
    }
    assert Conforms(Get(j.members, "questions").value, ArraySchema(QuestionSchema)) by {
      assert TopicSchema.properties[1].name == "questions";
    }
    DecodeQuestionsConforming(Get(j.members, "questions").value.elements);
  }

  lemma {:induction false} DecodeTopicsConforming(items: seq<Json>)
    requires forall k :: 0 <= k < |items| ==> Conforms(items[k], TopicSchema)
    ensures DecodeTopics(items).Some? && |DecodeTopics(items).value| == |items|
    decreases |items|
  {
    if |items| > 0 {
      DecodeTopicConforming(items[0]);
      DecodeTopicsConforming(items[1..]);
    }
  }

  /**
    The required lists name every field the application reads: a response
    that satisfies the declared schema always has the shape of an
    AnalysisResult (and nothing more is checked).
   */
  lemma ConformingResponseHasResultShape(j: Json)
    requires Conforms(j, AnalysisSchema)
    ensures Decode(j).Some?
  {
    assert Get(j.members, AnalysisSchema.required[0]).Some?;
    assert Get(j.members, AnalysisSchema.required[1]).Some?;
    assert Conforms(Get(j.members, "summary").value, StringSchema) by {
      assert AnalysisSchema.properties[0].name == "summary";
    }
    assert Conforms(Get(j.members, "quizzes").value, ArraySchema(TopicSchema)) by {
      assert AnalysisSchema.properties[1].name == "quizzes";
    }
    DecodeTopicsConforming(Get(j.members, "quizzes").value.elements);
  }

  /** Decoding what the backend sends for a result gives that result back. */
  lemma DecodeEncode(r: AnalysisResult)
    ensures Decode(Encode(r)) == Some(r)
  {
    var ms := Encode(r).members;
    assert Get(ms, "summary") == Some(JString(r.summary));
    assert Get(ms, "quizzes") == Some(JArray(EncodeTopics(r.quizzes)));
    DecodeTopicsEncoded(r.quizzes);
  }

  lemma {:induction false} DecodeTopicsEncoded(topics: seq<QuizTopic>)
    ensures DecodeTopics(EncodeTopics(topics)) == Some(topics)
    decreases |topics|
  {
    if |topics| > 0 {
      var items := EncodeTopics(topics);
      assert items[1..] == EncodeTopics(topics[1..]);
      DecodeTopicsEncoded(topics[1..]);
      var t := topics[0];
      var ms := EncodeTopic(t).members;
      assert Get(ms, "topic") == Some(JString(t.topic));
      assert Get(ms, "questions") == Some(JArray(EncodeQuestions(t.questions)));
      DecodeQuestionsEncoded(t.questions);
      assert DecodeTopic(items[0]) == Some(t);
      assert topics == [t] + topics[1..];
    }
  }

  lemma {:induction false} DecodeQuestionsEncoded(questions: seq<Question>)
    ensures DecodeQuestions(EncodeQuestions(questions)) == Some(questions)
    decreases |questions|
  {
    if |questions| > 0 {
      var items := EncodeQuestions(questions);
      assert items[1..] == EncodeQuestions(questions[1..]);
      DecodeQuestionsEncoded(questions[1..]);
      var q := questions[0];
      var ms := EncodeQuestion(q).members;
      assert Get(ms[2..], "correctAnswerIndex") == Some(JInteger(q.correctAnswerIndex));
      assert Get(ms[3..], "explanation") == Some(JString(q.explanation));
      assert Get(ms[2..], "explanation") == Some(JString(q.explanation));
      assert Get(ms, "options") == Some(JArray(EncodeStrings(q.options)));
      assert Get(ms, "text") == Some(JString(q.text));
      assert Get(ms, "correctAnswerIndex") == Some(JInteger(q.correctAnswerIndex));
      assert Get(ms, "explanation") == Some(JString(q.explanation));
      DecodeStringsEncoded(q.options);
      assert items[0] == EncodeQuestion(q);
      assert DecodeQuestion(items[0]) == Some(q);
      assert questions == [q] + questions[1..];
    }
  }

  lemma {:induction false} DecodeStringsEncoded(xs: seq<string>)
    ensures DecodeStrings(EncodeStrings(xs)) == Some(xs)
    decreases |xs|
  {
    if |xs| > 0 {
      assert EncodeStrings(xs)[1..] == EncodeStrings(xs[1..]);
      DecodeStringsEncoded(xs[1..]);
      assert xs == [xs[0]] + xs[1..];
    }
  }

  // ---------------------------------------------------------------------------
  // Request assembly and the error checks of analyzeDocuments
  // ---------------------------------------------------------------------------

  datatype Part = InlineData(mimeType: string, data: string) | TextPart(text: string)

  const ModelName: string := "gemini-3-pro-preview"

  const Instructions: string :=
    "Analiza los siguientes documentos.\n"
    + "    1. Genera un resumen detallado y educativo del contenido.\n"
    + "    2. Identifica los temas principales y crea un cuestionario de evaluación (quiz) para cada tema.\n"
    + "    3. Asegúrate de que las preguntas sean desafiantes pero justas.\n"
    + "    \n"
    + "    Responde estrictamente en formato JSON según el esquema proporcionado."

  const SystemInstruction: string :=
    "Eres un profesor experto y analista de documentos. Tu objetivo es ayudar a los estudiantes a "
    + "comprender y evaluar su conocimiento sobre los materiales subidos. Responde siempre en Español."

  /** What `generateContent` is called with. */
  datatype Request = Request(
    model: string,
    parts: seq<Part>,
    responseMimeType: string,
    responseSchema: Schema,
    systemInstruction: string)

  /** What comes back: a transport or SDK error, or a response whose `text` may be missing. */
  datatype Reply = CallFailed | Replied(text: Option<string>)

  datatype AnalysisError = MissingApiKey | RequestFailed | EmptyResponse | InvalidJson

  /** `if (!apiKey)` fails for an absent key and for the empty string. */
  predicate HasApiKey(apiKey: Option<string>) {
    apiKey.Some? && apiKey.value != ""
  }

  /** `files.map(f => ({inlineData: {mimeType: f.mimeType, data: f.base64 || ""}}))`, then the pushed prompt. */
  function BuildParts(files: seq<UploadedFile>): (parts: seq<Part>) {
    seq(|files|, k requires 0 <= k < |files| => InlineData(files[k].mimeType, files[k].base64.GetOr("")))
    + [TextPart(Instructions)]
  }

  /** One inline part per file, in file order and carrying its payload, then exactly one text part, last. */
  lemma BuildPartsShape(files: seq<UploadedFile>)
    ensures |BuildParts(files)| == |files| + 1
    ensures forall k :: 0 <= k < |files| ==>
      BuildParts(files)[k] == InlineData(files[k].mimeType, if files[k].base64 == None then "" else files[k].base64.value)
    ensures forall k :: 0 <= k < |BuildParts(files)| ==> (BuildParts(files)[k].TextPart? <==> k == |files|)
    ensures BuildParts(files)[|files|] == TextPart(Instructions)
  {
  }

  function BuildRequest(files: seq<UploadedFile>): (request: Request) {
    Request(ModelName, BuildParts(files), "application/json", AnalysisSchema, SystemInstruction)
  }

  /**
    `analyzeDocuments`. Without a key it fails before any request exists;
    otherwise the request is sent, an empty answer is an error, and the
    parsed answer is returned as it is.
   */
  function AnalyzeDocuments(
    files: seq<UploadedFile>,
    apiKey: Option<string>,
    generate: Request -> Reply,
    parse: string -> Option<AnalysisResult>): (outcome: Result<AnalysisResult, AnalysisError>)
  {
    if !HasApiKey(apiKey) then Failure(MissingApiKey)
    else match generate(BuildRequest(files))
      case CallFailed => Failure(RequestFailed)
      case Replied(text) =>
        if text.None? || text.value == "" then Failure(EmptyResponse)
        else match parse(text.value)
          case None => Failure(InvalidJson)
          case Some(result) => Success(result)
  }

  /** A missing key decides the outcome whatever the backend would have answered. */
  lemma MissingKeyFailsBeforeRequest(
    files: seq<UploadedFile>, apiKey: Option<string>,
    g1: Request -> Reply, g2: Request -> Reply, parse: string -> Option<AnalysisResult>)
    requires !HasApiKey(apiKey)
    ensures AnalyzeDocuments(files, apiKey, g1, parse) == AnalyzeDocuments(files, apiKey, g2, parse)
      == Failure(MissingApiKey)
  {
  }

  /**
    Success exactly when there is a key, the backend answers the request built
    from the files with non-empty text, and that text parses; the result is
    then the parsed value itself, with no check of its answer indices.
   */
  lemma AnalyzeOutcome(
    files: seq<UploadedFile>, apiKey: Option<string>,
    generate: Request -> Reply, parse: string -> Option<AnalysisResult>)
    ensures var reply := generate(BuildRequest(files));
      var r := AnalyzeDocuments(files, apiKey, generate, parse);
      (r.Success? <==> HasApiKey(apiKey) && reply.Replied? && reply.text.Some? && reply.text.value != ""
                       && parse(reply.text.value).Some?)
      && (r.Success? ==> r.value == parse(reply.text.value).value)
      && (HasApiKey(apiKey) && reply.Replied? && (reply.text.None? || reply.text.value == "") ==>
            r == Failure(EmptyResponse))
  {
  }

  // ---------------------------------------------------------------------------
  // fileToBase64
  // ---------------------------------------------------------------------------

  /** `result.split(",")[1]`: the text after the first comma (up to a second one), `undefined` without a comma. */
  function StripDataUrlPrefix(dataUrl: string): (payload: Option<string>) {
    var pieces := Split(dataUrl, ',');
    if |pieces| >= 2 then Some(pieces[1]) else None
  }

  /** The data URL FileReader produces for a file of the given type and base64 payload. */
  function DataUrl(mimeType: string, payload: string): (url: string) {
    "data:" + mimeType + ";base64," + payload
  }

  /** The strip recovers the payload of a data URL (base64 never contains a comma). */
  lemma StripRecoversPayload(mimeType: string, payload: string)
    requires ',' !in mimeType && ',' !in payload
    ensures StripDataUrlPrefix(DataUrl(mimeType, payload)) == Some(payload)
  {
    var header := "data:" + mimeType + ";base64";
    assert ',' !in header;
    assert DataUrl(mimeType, payload) == header + [','] + payload;
    SplitAtFirst(header, ',', payload);
    SplitWithoutSeparator(payload, ',');
  }

  /** Without a comma there is nothing after it, and the result is `undefined`. */
  lemma StripWithoutComma(dataUrl: string)
    requires ',' !in dataUrl
    ensures StripDataUrlPrefix(dataUrl) == None
  {
    SplitWithoutSeparator(dataUrl, ',');
  }
}
