/**
 * The LLM side path: choose the user prompt, assemble the chat-completion request, interpret the
 * HTTP answer, and keep only what the model wrote after its closing thinking tag.
 */
module RequestLlm {
  import opened Wrappers
  import opened JsString

  /** The tag that closes the model's reasoning. */
  const ThinkingTag: string := "</thinking>"

  /** The prompt used when the message is too short to be a question of its own. */
  const DefaultPrompt: string := "请帮助一线销售人员，推介该产品，多介绍一些有吸引力的话术。"

  /** The fixed third system message, before and after the interpolated chain-of-thought text. */
  const ThinkingFormatHead: string := "<thinking_format>[你必须先思考,并在回复的<thinking>标签内使用中文输出每一点及其根据或不明的点]'<thinking>"
  const ThinkingFormatTail: string := "<thinking/><Assistant执行思考规则>\n- 必须在每次回复开始时执行完整思维链过程。\n- 在每轮思考开始时，明确提醒自己这是新一轮思考。\n- 用<thinking>标签将思考过程分列包裹起来。\n</Assistant执行思考规则>\n##\n##\nNote: \n- 以下是输出<thinking>时的格式，Assistant需要将<thinking>中的要求按照顺序填写，再输出答案\n- 每个思考点都应该列出，禁止跳过或者合并任何一个问题，请给出完美的答案，并用中文输出。\n<Correct_information>\n1.\n2.\n3.\n4.\n5.：\n</Correct_information>\n##\n</thinking_format>"

  /**
   * `removeContentBeforeThinkingTag`: without the tag the input comes back unchanged; otherwise
   * the result is what follows the first occurrence of the tag. Either way it is a suffix of the input.
   */
  function RemoveContentBeforeThinkingTag(input: string): (r: string)
    ensures |r| <= |input| && r == input[|input| - |r|..]
    ensures (forall i :: 0 <= i <= |input| ==> !OccursAt(input, ThinkingTag, i)) ==> r == input
  {
    var tagIndex := IndexOf(input, ThinkingTag);
    if tagIndex == -1 then input else input[tagIndex + |ThinkingTag|..]
  }

  /**
   * When the tag first occurs at `k`, the result is exactly the text after it, of length
   * `|input| - k - 11`, and the input is the text before it, the tag and the result.
   */
  lemma CutAfterFirstTag(input: string, k: nat)
    requires OccursAt(input, ThinkingTag, k)
    requires forall i :: 0 <= i < k ==> !OccursAt(input, ThinkingTag, i)
    ensures var r := RemoveContentBeforeThinkingTag(input);
      r == input[k + 11..] && |r| == |input| - k - 11 && input == input[..k] + ThinkingTag + r
  {
    IndexOfFirst(input, ThinkingTag, k);
    var r := input[k + 11..];
    assert input == input[..k] + input[k..k + 11] + r;
  }

  /**
   * Conversely, when the tag occurs, the cut point can be read off the result's length: the tag
   * sits right before the result and nowhere earlier.
   */
  lemma CutPointIsFirstTag(input: string, j: nat)
    requires OccursAt(input, ThinkingTag, j)
    ensures var k := |input| - |RemoveContentBeforeThinkingTag(input)| - |ThinkingTag|;
      0 <= k <= j && OccursAt(input, ThinkingTag, k) &&
      forall i :: 0 <= i < k ==> !OccursAt(input, ThinkingTag, i)
  {
    var idx := IndexOf(input, ThinkingTag);
    assert idx != -1;
    assert |RemoveContentBeforeThinkingTag(input)| == |input| - idx - |ThinkingTag|;
  }

  /** The prompt rule of `prest_chat`: messages shorter than 6 characters get the default prompt. */
  function UserPrompt(content: string): (prompt: string)
    ensures |content| < 6 ==> prompt == DefaultPrompt
    ensures |content| >= 6 ==> prompt == content
    ensures |prompt| >= 6
  {
    if |content| < 6 then DefaultPrompt else content
  }

  datatype Role = System | User | Assistant

  datatype AIMessage = AIMessage(role: Role, content: string)

  datatype APIRequest = APIRequest(model: string, messages: seq<AIMessage>, temperature: real, maxTokens: nat)

  /**
   * The configuration files as read: the `content` of the role file, the product description,
   * and the text the parsed chain-of-thought object renders to inside a template string.
   */
  datatype PromptFiles = PromptFiles(roleContent: string, productInfo: string, chainOfThought: string)

  /** What the HTTP client resolved with. */
  datatype HttpResponse = HttpResponse(status: int, statusText: string, replyContent: string)

  /** The object `getAIResponse` returns (its timestamp is left out). */
  datatype AIReply = AIReply(request: APIRequest, response: HttpResponse)

  /**
   * What `prest_chat` posts to the model (there is a request once the prompt files are read), what
   * it sends to the session (if anything) and what it returns.
   */
  datatype ChatOutcome = ChatOutcome(posted: Option<APIRequest>, sent: Option<string>, returned: string)

  function ProductIntro(productInfo: string): string
  {
    "<product_intro>" + productInfo + "<product_intro/>"
  }

  function ThinkingFormat(chainOfThought: string): string
  {
    ThinkingFormatHead + chainOfThought + ThinkingFormatTail
  }

  /**
   * The request body: the configured model, three system messages (role, product, thinking format)
   * and then the user prompt as the only user message; temperature 0.6 and at most 4096 tokens.
   */
  function BuildRequest(modelName: string, files: PromptFiles, userPrompt: string): (req: APIRequest)
    ensures req.model == modelName
    ensures |req.messages| == 4
    ensures forall i :: 0 <= i < 3 ==> req.messages[i].role == System
    ensures req.messages[3].role == User
    ensures req.messages[3].content == userPrompt
    ensures req.messages[0].content == files.roleContent
    ensures req.messages[1].content == ProductIntro(files.productInfo)
    ensures req.messages[2].content == ThinkingFormat(files.chainOfThought)
    ensures req.temperature == 0.6 && req.maxTokens == 4096
  {
    APIRequest(
      modelName,
      [AIMessage(System, files.roleContent),
       AIMessage(System, ProductIntro(files.productInfo)),
       AIMessage(System, ThinkingFormat(files.chainOfThought)),
       AIMessage(User, userPrompt)],
      0.6,
      4096)
  }

  /**
   * `getAIResponse`: `files` is `Err` when reading or parsing a configuration file
   * throws, and `http` is `Err` when the client rejects (the client itself rejects statuses outside
   * 2xx); a resolved status other than 200 is an error too. Every error is rethrown as
   * "AI 处理失败: " + its message.
   */
  function GetAIResponse(modelName: string, userPrompt: string, files: Result<PromptFiles, string>,
                         http: Result<HttpResponse, string>): (r: Result<AIReply, string>)
    ensures r.Ok? <==> files.Ok? && http.Ok? && http.value.status == 200
    ensures r.Ok? ==> r.value.request == BuildRequest(modelName, files.value, userPrompt) && r.value.response == http.value
    ensures r.Err? ==> |r.error| >= |"AI 处理失败: "| && r.error[..|"AI 处理失败: "|] == "AI 处理失败: "
    ensures files.Err? ==> r == Err("AI 处理失败: " + files.error)
    ensures files.Ok? && http.Err? ==> r == Err("AI 处理失败: " + http.error)
    ensures files.Ok? && http.Ok? && http.value.status != 200 ==>
      r == Err("AI 处理失败: " + ("API 请求失败: " + http.value.statusText))
  {
    match files
    case Err(message) => Err("AI 处理失败: " + message)
    case Ok(f) =>
      var requestBody := BuildRequest(modelName, f, userPrompt);
      match http
      case Err(message) => Err("AI 处理失败: " + message)
      case Ok(response) =>
        if response.status != 200 then Err("AI 处理失败: " + ("API 请求失败: " + response.statusText))
        else Ok(AIReply(requestBody, response))
  }

  /**
   * `prest_chat`: the prompt is chosen from the message, a request carrying it is posted once the
   * prompt files are read, and on success the cleaned reply is sent and returned; any error is
   * returned as "请求失败: " + its message and nothing is sent.
   */
  function PrestChat(content: string, modelName: string, files: Result<PromptFiles, string>,
                     http: Result<HttpResponse, string>): (out: ChatOutcome)
    ensures out.sent.Some? <==> files.Ok? && http.Ok? && http.value.status == 200
    ensures out.sent.Some? ==> out.sent.value == out.returned
    ensures out.posted.Some? <==> files.Ok?
    ensures files.Ok? ==> out.posted == Some(BuildRequest(modelName, files.value, UserPrompt(content)))
  {
    var userPrompt := UserPrompt(content);
    var posted := match files
      case Ok(f) => Some(BuildRequest(modelName, f, userPrompt))
      case Err(_) => None;
    match GetAIResponse(modelName, userPrompt, files, http)
    case Err(message) => ChatOutcome(posted, None, "请求失败: " + message)
    case Ok(aiReply) =>
      var result := RemoveContentBeforeThinkingTag(aiReply.response.replyContent);
      ChatOutcome(posted, Some(result), result)
  }

  /** A resolved status other than 200 is reported as a returned string, not thrown, and nothing is sent. */
  lemma Non200Reported(content: string, modelName: string, files: PromptFiles, response: HttpResponse)
    requires response.status != 200
    ensures PrestChat(content, modelName, Ok(files), Ok(response)) ==
      ChatOutcome(Some(BuildRequest(modelName, files, UserPrompt(content))), None,
                  "请求失败: AI 处理失败: API 请求失败: " + response.statusText)
  {
    var r := GetAIResponse(modelName, UserPrompt(content), Ok(files), Ok(response));
    assert r == Err("AI 处理失败: " + ("API 请求失败: " + response.statusText));
    assert "请求失败: " + r.error == "请求失败: AI 处理失败: API 请求失败: " + response.statusText;
  }

  /** Every failure, whatever its origin, comes back as a "请求失败: AI 处理失败: " string with no send. */
  lemma FailuresReturned(content: string, modelName: string, files: Result<PromptFiles, string>,
                         http: Result<HttpResponse, string>)
    requires files.Err? || http.Err? || http.value.status != 200
    ensures var out := PrestChat(content, modelName, files, http);
      var lead := "请求失败: AI 处理失败: ";
      out.sent == None && |out.returned| >= |lead| && out.returned[..|lead|] == lead &&
      out.returned == "请求失败: " + GetAIResponse(modelName, UserPrompt(content), files, http).error
  {
    var r := GetAIResponse(modelName, UserPrompt(content), files, http);
    assert "请求失败: " + r.error == "请求失败: " + "AI 处理失败: " + r.error[|"AI 处理失败: "|..];
  }

  /**
   * On a 200 answer the text sent is the text returned, a suffix of the model's reply, and the
   * posted request carried the chosen prompt as its last, user, message.
   */
  lemma SuccessSendsCleanedReply(content: string, modelName: string, files: PromptFiles, response: HttpResponse)
    requires response.status == 200
    ensures var out := PrestChat(content, modelName, Ok(files), Ok(response));
      var reply := response.replyContent;
      out.sent == Some(out.returned) &&
      out.returned == RemoveContentBeforeThinkingTag(reply) &&
      |out.returned| <= |reply| && out.returned == reply[|reply| - |out.returned|..]
    ensures var out := PrestChat(content, modelName, Ok(files), Ok(response));
      out.posted.Some? && |out.posted.value.messages| == 4 &&
      out.posted.value.messages[3] == AIMessage(User, UserPrompt(content))
  {
  }
}
