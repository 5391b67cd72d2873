/**
 * The MCP endpoint's pure parts: tool-argument coercion, the content type
 * to editor mapping, request routing and tool selection.
 */
module McpArgs {
  import opened Outcomes
  import opened Strings
  import opened Consts
  import Decimal

  /**
   * A decoded JSON argument as the handler sees it: arguments are decoded
   * with `UseNumber`, so numbers arrive as their text; `GoInt`/`GoInt64` are
   * the native integers the coercions also accept, `Other` any other value
   * (an object, an array).
   */
  datatype Any = Null | Str(s: string) | Number(text: string) | GoInt(i: Decimal.Int64) | GoInt64(i64: Decimal.Int64) | Bool(b: bool) | Other

  type Args = map<string, Any>

  /** `argString`: the argument as text, "" when missing, null or of another kind. */
  function ArgString(args: Args, key: string): (r: string)
    ensures key !in args || args[key].Null? || args[key].Other? ==> r == ""
    ensures key in args && args[key].Str? ==> r == args[key].s
    ensures key in args && args[key].Number? ==> r == args[key].text
    ensures key in args && args[key].Bool? ==> r == (if args[key].b then "true" else "false")
  {
    if key !in args then ""
    else match args[key]
      case Null => ""
      case Str(s) => s
      case Number(t) => t
      case GoInt(i) => Decimal.FormatInt(i)
      case GoInt64(i) => Decimal.FormatInt(i)
      case Bool(b) => if b then "true" else "false"
      case Other => ""
  }

  /** `argInt`: the argument as a number and whether it was one; a number text must be a 64-bit integer. */
  function ArgInt(args: Args, key: string): (r: (int, bool))
    ensures !r.1 ==> r.0 == 0
    ensures key !in args || args[key].Null? || args[key].Str? || args[key].Bool? || args[key].Other? ==> r == (0, false)
    ensures key in args && args[key].Number? ==>
      r == (if Decimal.ParseInt64(args[key].text).Some? then (Decimal.ParseInt64(args[key].text).value as int, true) else (0, false))
  {
    if key !in args then (0, false)
    else match args[key]
      case Number(t) =>
        var parsed := Decimal.ParseInt64(t);
        if parsed.Some? then (parsed.value as int, true) else (0, false)
      case GoInt(i) => (i as int, true)
      case GoInt64(i) => (i as int, true)
      case _ => (0, false)
  }

  /** The text `argBool` compares: lower-cased, then trimmed. */
  function BoolWord(t: string): string {
    TrimSpace(ToLower(t))
  }

  /** `argBool`: a boolean, or a string spelling one; otherwise (false, false). */
  function ArgBool(args: Args, key: string): (r: (bool, bool))
    ensures !r.1 ==> !r.0
  {
    if key !in args then (false, false)
    else match args[key]
      case Bool(b) => (b, true)
      case Str(t) =>
        var vv := BoolWord(t);
        if vv == "true" || vv == "1" || vv == "yes" then (true, true)
        else if vv == "false" || vv == "0" || vv == "no" then (false, true)
        else (false, false)
      case _ => (false, false)
  }

  /** What `argBool` accepts, in both directions. */
  lemma ArgBoolSpec(args: Args, key: string)
    ensures ArgBool(args, key) == (true, true) <==>
      key in args && (args[key] == Bool(true) || (args[key].Str? && BoolWord(args[key].s) in {"true", "1", "yes"}))
    ensures ArgBool(args, key) == (false, true) <==>
      key in args && (args[key] == Bool(false) || (args[key].Str? && BoolWord(args[key].s) in {"false", "0", "no"}))
    ensures key !in args || args[key].Null? || args[key].Number? || args[key].Other? ==> !ArgBool(args, key).1
  {
  }

  /** One that neither starts nor ends with white space is its own trim. */
  lemma TrimSpaceKeeps(s: string)
    requires s != [] && !IsSpace(s[0]) && !IsSpace(s[|s| - 1])
    ensures TrimSpace(s) == s
  {
  }

  /** The text `argString` makes of a boolean is read back by `argBool` as the same boolean. */
  lemma BoolTextRoundTrip(args: Args, key: string)
    requires key in args && args[key].Bool?
    ensures ArgBool(map[key := Str(ArgString(args, key))], key) == ArgBool(args, key)
  {
    BoolWordsKept();
  }

  /** The words `argString` makes of booleans are their own `BoolWord`. */
  lemma BoolWordsKept()
    ensures BoolWord("true") == "true" && BoolWord("false") == "false"
  {
    LowerKeeps("true");
    LowerKeeps("false");
    TrimSpaceKeeps("true");
    TrimSpaceKeeps("false");
  }

  /** Lower-casing keeps a text without upper-case ASCII letters. */
  lemma LowerKeeps(t: string)
    requires forall i :: 0 <= i < |t| ==> !('A' <= t[i] <= 'Z')
    ensures ToLower(t) == t
  {
  }

  /**
   * Whenever `argInt` takes an argument as a number, `argString` gives its
   * decimal text, and that text parses back to the same number.
   */
  lemma IntTextAgrees(args: Args, key: string)
    requires ArgInt(args, key).1
    ensures Decimal.ParseInt64(ArgString(args, key)) == Some(ArgInt(args, key).0 as Decimal.Int64)
  {
    match args[key]
    case Number(t) =>
    case GoInt(i) => Decimal.FormatParseRoundTrip(i);
    case GoInt64(i) => Decimal.FormatParseRoundTrip(i);
  }

  /** `contentTypeToEditor`: markdown and html have their own editors, everything else the text area. */
  function ContentTypeToEditor(contentType: string): (editor: string)
    ensures contentType == ContentTypeMarkdown ==> editor == EditorMarkdown
    ensures contentType == ContentTypeHtml ==> editor == EditorHtmlArea
    ensures contentType != ContentTypeMarkdown && contentType != ContentTypeHtml ==> editor == EditorTextArea
  {
    if contentType == ContentTypeMarkdown then EditorMarkdown
    else if contentType == ContentTypeHtml then EditorHtmlArea
    else if contentType == ContentTypePlainText then EditorTextArea
    else EditorTextArea
  }

  /** Only the three editors come out, and distinct content types with their own editor stay distinct. */
  lemma EditorsOfContentTypes(contentType: string)
    ensures ContentTypeToEditor(contentType) in {EditorMarkdown, EditorHtmlArea, EditorTextArea}
    ensures ContentTypeToEditor(contentType) == EditorMarkdown <==> contentType == ContentTypeMarkdown
    ensures ContentTypeToEditor(contentType) == EditorHtmlArea <==> contentType == ContentTypeHtml
  {
  }

  // ----- routing -----

  /** The handlers the endpoint's method switch dispatches to. */
  datatype Handler = HandleInitialize | HandleInitialized | HandleToolsList | HandleToolsCall

  /** The handler's answer: a handler to run, an error reply with its HTTP status, or a bare HTTP status. */
  datatype Reply =
    | Handled(handler: Handler)
    | RpcError(httpStatus: int, code: int, message: string)
    | BareStatus(httpStatus: int)

  /**
   * `Handler`: `storeReady` is false for a nil endpoint or a nil store;
   * `bodyRead` says the body could be read; `rpcMethod` is the request's
   * method, `None` when the body is not a JSON-RPC request.
   */
  function Route(storeReady: bool, httpMethod: string, bodyRead: bool, rpcMethod: Option<string>): Reply {
    if !storeReady then RpcError(500, -32603, "store is not initialized")
    else if httpMethod != "POST" then BareStatus(405)
    else if !bodyRead then RpcError(400, -32602, "failed to read request body")
    else if rpcMethod.None? then RpcError(200, -32700, "parse error")
    else match rpcMethod.value
      case "initialize" => Handled(HandleInitialize)
      case "notifications/initialized" => Handled(HandleInitialized)
      case "tools/list" => Handled(HandleToolsList)
      case "tools/call" => Handled(HandleToolsCall)
      case "list_tools" => Handled(HandleToolsList)
      case "call_tool" => Handled(HandleToolsCall)
      case _ => RpcError(200, -32601, "method not found")
  }

  const KnownMethods := {"initialize", "notifications/initialized", "tools/list", "tools/call", "list_tools", "call_tool"}

  /**
   * The legacy names route like the standard ones; any other method is
   * "method not found", and only after the store, HTTP method, body and
   * parse checks, which come in that order.
   */
  lemma RouteRules(storeReady: bool, httpMethod: string, bodyRead: bool, m: string)
    ensures Route(storeReady, httpMethod, bodyRead, Some("list_tools")) == Route(storeReady, httpMethod, bodyRead, Some("tools/list"))
    ensures Route(storeReady, httpMethod, bodyRead, Some("call_tool")) == Route(storeReady, httpMethod, bodyRead, Some("tools/call"))
    ensures Route(storeReady, httpMethod, bodyRead, Some(m)) == RpcError(200, -32601, "method not found") <==>
      storeReady && httpMethod == "POST" && bodyRead && m !in KnownMethods
    ensures !storeReady ==> Route(storeReady, httpMethod, bodyRead, Some(m)).RpcError? && Route(storeReady, httpMethod, bodyRead, Some(m)).code == -32603
    ensures Route(storeReady, httpMethod, bodyRead, Some(m)).Handled? <==>
      storeReady && httpMethod == "POST" && bodyRead && m in KnownMethods
  {
  }

  // ----- tools -----

  datatype Tool = BlogSchema | PostListTool | PostGetTool | PostUpsertTool | PostVersionsTool | PostDeleteTool

  function ToolName(t: Tool): string {
    match t
    case BlogSchema => "blog_schema"
    case PostListTool => "post_list"
    case PostGetTool => "post_get"
    case PostUpsertTool => "post_upsert"
    case PostVersionsTool => "post_versions"
    case PostDeleteTool => "post_delete"
  }

  /** `dispatchTool`'s switch: the tool with that exact name; `None` stands for "unknown tool". */
  function ToolFor(name: string): Option<Tool> {
    match name
    case "blog_schema" => Some(BlogSchema)
    case "post_list" => Some(PostListTool)
    case "post_get" => Some(PostGetTool)
    case "post_upsert" => Some(PostUpsertTool)
    case "post_versions" => Some(PostVersionsTool)
    case "post_delete" => Some(PostDeleteTool)
    case _ => None
  }

  const UnknownTool := "unknown tool"

  /** Each tool is dispatched by its own name and by no other. */
  lemma ToolNamesRoundTrip(t: Tool, name: string)
    ensures ToolFor(ToolName(t)) == Some(t)
    ensures ToolFor(name).Some? ==> ToolName(ToolFor(name).value) == name
  {
  }

  /** `handleToolsCall`: the trimmed "name", or the trimmed "tool_name" when that is blank. */
  function SelectedToolName(name: string, toolName: string): (r: string)
    ensures TrimSpace(name) != "" ==> r == TrimSpace(name)
    ensures TrimSpace(name) == "" ==> r == TrimSpace(toolName)
    ensures r == [] || (!IsSpace(r[0]) && !IsSpace(r[|r| - 1]))
  {
    if TrimSpace(name) != "" then TrimSpace(name) else TrimSpace(toolName)
  }

  /** The raw arguments: "arguments", or "params" when "arguments" is absent or empty. */
  function SelectedArguments(arguments: string, params: string): string {
    if |arguments| == 0 then params else arguments
  }

  /** The reply of a tools call: the tool's text, or a JSON-RPC error. */
  datatype CallReply = ToolText(text: string) | CallError(code: int, message: string)

  /** The arguments the tool gets: none when the raw arguments are empty, else their decoding. */
  function ToolArgs(rawArgs: string, decoded: Option<Args>): Args {
    if |rawArgs| > 0 && decoded.Some? then decoded.value else map[]
  }

  /**
   * `handleToolsCall` after decoding: `decoded` is `None` when non-empty raw
   * arguments do not decode to an object; `outcome` is what the tool
   * returned for `ToolArgs(rawArgs, decoded)`.
   */
  function ToolsCallReply(rawArgs: string, decoded: Option<Args>, outcome: Result<string>): (r: CallReply)
    ensures r.CallError? && r.code == -32602 <==> |rawArgs| > 0 && decoded.None?
    ensures r.CallError? && r.code == -32603 <==> !(|rawArgs| > 0 && decoded.None?) && outcome.Err?
    ensures r.CallError? && r.code == -32603 ==> r.message == outcome.error
    ensures r.ToolText? <==> !(|rawArgs| > 0 && decoded.None?) && outcome.Ok?
    ensures r.ToolText? ==> r.text == outcome.value
  {
    if |rawArgs| > 0 && decoded.None? then CallError(-32602, "invalid tool arguments")
    else if outcome.Err? then CallError(-32603, outcome.error)
    else ToolText(outcome.value)
  }
}
