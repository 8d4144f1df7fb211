/**
 * The chat logic of src/components/dashboard/AIHealthAssistant.tsx: the
 * fallback random UUID, the classification of a failed call to the chat
 * function, and the message list that a send appends to and rolls back.
 * The random draws, the database and the chat function are passed in as
 * their results.
 */
module HealthAssistant {
  import opened Wrappers
  import opened Text

  // ---------------------------------------------------------------------------
  // Fallback UUID
  // ---------------------------------------------------------------------------

  /** The version 4 layout of section 4.4 of RFC 4122: `x` a random digit, `y` a random variant digit. */
  const UuidTemplate := "xxxxxxxx-xxxx-4xxx-yxxx-xxxxxxxxxxxx"

  /**
   * `template.replace(/[xy]/g, …)`: each `x` becomes the digit of its draw,
   * each `y` the digit of `r & 0x3 | 0x8`, which for a draw below 16 is
   * `8 + r % 4`; every other character stays. `nibbles[i]` is the draw
   * `Math.random() * 16 | 0` made for position `i`.
   */
  function FillTemplate(template: string, nibbles: seq<nat>): string
    requires |nibbles| == |template|
    requires forall i :: 0 <= i < |nibbles| ==> nibbles[i] < 16
  {
    seq(|template|, i requires 0 <= i < |template| =>
      if template[i] == 'x' then HexDigit(nibbles[i])
      else if template[i] == 'y' then HexDigit(8 + nibbles[i] % 4)
      else template[i])
  }

  /** `generateUUID`: the browser's own UUID when there is one, otherwise the filled template. */
  function GenerateUuid(native: Option<string>, nibbles: seq<nat>): string
    requires |nibbles| == |UuidTemplate|
    requires forall i :: 0 <= i < |nibbles| ==> nibbles[i] < 16
  {
    if native.Some? then native.value else FillTemplate(UuidTemplate, nibbles)
  }

  /**
   * The fallback UUID has the version 4 layout: 36 characters, hyphens at 8,
   * 13, 18 and 23, the version digit `4` at 14, a variant digit from 8 to b
   * at 19, and a lower-case hexadecimal digit everywhere else, whatever the
   * draws.
   */
  lemma FallbackUuidLayout(nibbles: seq<nat>)
    requires |nibbles| == |UuidTemplate|
    requires forall i :: 0 <= i < |nibbles| ==> nibbles[i] < 16
    ensures var u := GenerateUuid(None, nibbles);
      && |u| == 36
      && u[8] == '-' && u[13] == '-' && u[18] == '-' && u[23] == '-'
      && u[14] == '4'
      && u[19] in "89ab"
      && (forall i :: 0 <= i < 36 && i != 8 && i != 13 && i != 18 && i != 23 ==> IsHexDigit(u[i]))
  {
    TemplateLayout();
    var v := 8 + nibbles[19] % 4;
    assert "0123456789abcdef"[v] in "89ab";
  }

  /** Where the template has its hyphens, its version digit and its placeholders. */
  lemma TemplateLayout()
    ensures |UuidTemplate| == 36
    ensures var t := UuidTemplate;
      && t[8] == '-' && t[13] == '-' && t[18] == '-' && t[23] == '-' && t[14] == '4' && t[19] == 'y'
      && forall i :: 0 <= i < 36 && i != 8 && i != 13 && i != 18 && i != 23 && i != 14 && i != 19 ==> t[i] == 'x'
  {
  }

  /**
   * The draws can be read back from the filled template: an `x` position
   * holds its draw, a `y` position the draw's two low bits over binary 10,
   * the RFC 4122 variant.
   */
  lemma FillTemplateReadBack(template: string, nibbles: seq<nat>, i: nat)
    requires |nibbles| == |template|
    requires forall k :: 0 <= k < |nibbles| ==> nibbles[k] < 16
    requires i < |template|
    ensures var u := FillTemplate(template, nibbles);
      && |u| == |template|
      && (template[i] == 'x' ==> IsHexDigit(u[i]) && HexValue(u[i]) == nibbles[i])
      && (template[i] == 'y' ==> IsHexDigit(u[i]) && HexValue(u[i]) / 4 == 2 && HexValue(u[i]) % 4 == nibbles[i] % 4)
      && (template[i] != 'x' && template[i] != 'y' ==> u[i] == template[i])
  {
    HexDigitRoundTrip(nibbles[i]);
    HexDigitRoundTrip(8 + nibbles[i] % 4);
  }

  // ---------------------------------------------------------------------------
  // Failures of the chat function
  // ---------------------------------------------------------------------------

  /** The `error` the chat function's call hands back: its HTTP status and message, either possibly missing. */
  datatype CallError = CallError(status: Option<int>, message: Option<string>)

  /** What went wrong, as the send tells the user. */
  datatype Failure =
    | NotConfigured
    | TooManyRequests
    | AuthenticationFailed
    | InvalidRequest
    | TooSlow
    | Reported(text: string)

  /** `error.message?.includes(p)`: false when there is no message. */
  predicate MessageMentions(e: CallError, p: string) {
    e.message.Some? && Contains(e.message.value, p)
  }

  /** The first test: status 503, or a message that mentions 503. */
  predicate NotConfiguredTest(e: CallError) {
    e.status == Some(503) || MessageMentions(e, "503")
  }

  /** The second test: status 429, or a message that mentions 429. */
  predicate TooManyTest(e: CallError) {
    e.status == Some(429) || MessageMentions(e, "429")
  }

  /** The third test: status 401 or 403. */
  predicate AuthenticationTest(e: CallError) {
    e.status == Some(401) || e.status == Some(403)
  }

  /** The fourth test: status 400. */
  predicate InvalidRequestTest(e: CallError) {
    e.status == Some(400)
  }

  /** The fifth test: a message that mentions a timeout or 504. */
  predicate TooSlowTest(e: CallError) {
    MessageMentions(e, "timeout") || MessageMentions(e, "504")
  }

  /** The message itself, or the default when it is missing or empty. */
  function MessageOrDefault(e: CallError): (r: string)
    ensures r != ""
  {
    if e.message.Some? && e.message.value != "" then e.message.value else "Failed to get AI response"
  }

  /** The tests of the send's error handler, in the order it makes them. */
  function Classify(e: CallError): Failure {
    if NotConfiguredTest(e) then NotConfigured
    else if TooManyTest(e) then TooManyRequests
    else if AuthenticationTest(e) then AuthenticationFailed
    else if InvalidRequestTest(e) then InvalidRequest
    else if TooSlowTest(e) then TooSlow
    else Reported(MessageOrDefault(e))
  }

  function FailureText(f: Failure): string {
    match f
    case NotConfigured => "AI service is not configured. Please contact support."
    case TooManyRequests => "Too many requests. Please try again later."
    case AuthenticationFailed => "API authentication failed. Please check configuration."
    case InvalidRequest => "Invalid request format. Please try again."
    case TooSlow => "AI service is taking too long to respond. Please try again."
    case Reported(text) => text
  }

  /**
   * Each class is chosen exactly when its own test passes and no earlier
   * one does: a 503 outranks a 429, both outrank the status codes, and a
   * timeout counts only when no status matched. It holds by unfolding
   * `Classify`; it states the order of the tests as one if-and-only-if per class.
   */
  lemma ClassifyInOrder(e: CallError)
    ensures Classify(e) == NotConfigured <==> NotConfiguredTest(e)
    ensures Classify(e) == TooManyRequests <==> !NotConfiguredTest(e) && TooManyTest(e)
    ensures Classify(e) == AuthenticationFailed <==>
      !NotConfiguredTest(e) && !TooManyTest(e) && AuthenticationTest(e)
    ensures Classify(e) == InvalidRequest <==>
      !NotConfiguredTest(e) && !TooManyTest(e) && !AuthenticationTest(e) && InvalidRequestTest(e)
    ensures Classify(e) == TooSlow <==>
      !NotConfiguredTest(e) && !TooManyTest(e) && !AuthenticationTest(e) && !InvalidRequestTest(e) && TooSlowTest(e)
    ensures Classify(e).Reported? <==>
      !NotConfiguredTest(e) && !TooManyTest(e) && !AuthenticationTest(e) && !InvalidRequestTest(e) && !TooSlowTest(e)
  {
  }

  /** A message that names no known code and no timeout, with no known status, is shown as it is. */
  lemma UnknownMessageShown(status: Option<int>, message: string)
    requires message != ""
    requires status != Some(503) && status != Some(429) && status != Some(401)
    requires status != Some(403) && status != Some(400)
    requires !Contains(message, "503") && !Contains(message, "429")
    requires !Contains(message, "timeout") && !Contains(message, "504")
    ensures FailureText(Classify(CallError(status, Some(message)))) == message
  {
    var e := CallError(status, Some(message));
    assert !NotConfiguredTest(e) && !TooManyTest(e) && !AuthenticationTest(e);
    assert !InvalidRequestTest(e) && !TooSlowTest(e);
  }

  // ---------------------------------------------------------------------------
  // The message list
  // ---------------------------------------------------------------------------

  datatype Role = User | Assistant

  datatype Message = Message(id: string, role: Role, content: string, createdAt: string)

  /** `messages.filter(m => m.id !== id)`. */
  function WithoutId(messages: seq<Message>, id: string): (r: seq<Message>)
    ensures |r| <= |messages|
    decreases |messages|
  {
    if |messages| == 0 then []
    else if messages[0].id == id then WithoutId(messages[1..], id)
    else [messages[0]] + WithoutId(messages[1..], id)
  }

  /** No message with the id is left, and every other message is. */
  lemma {:induction false} WithoutIdRemovesExactly(messages: seq<Message>, id: string)
    ensures forall m :: m in WithoutId(messages, id) <==> m in messages && m.id != id
    decreases |messages|
  {
    if |messages| > 0 {
      WithoutIdRemovesExactly(messages[1..], id);
      assert forall m :: m in messages <==> m == messages[0] || m in messages[1..];
    }
  }

  /** Filtering out an id distributes over concatenation, which keeps the order of the rest. */
  lemma {:induction false} WithoutIdAppend(a: seq<Message>, b: seq<Message>, id: string)
    ensures WithoutId(a + b, id) == WithoutId(a, id) + WithoutId(b, id)
    decreases |a|
  {
    if |a| == 0 {
      assert a + b == b;
    } else {
      WithoutIdAppend(a[1..], b, id);
      assert (a + b)[1..] == a[1..] + b;
    }
  }

  /** A list in which no message has the id is left as it is. */
  lemma {:induction false} WithoutAbsentId(messages: seq<Message>, id: string)
    requires forall k :: 0 <= k < |messages| ==> messages[k].id != id
    ensures WithoutId(messages, id) == messages
    decreases |messages|
  {
    if |messages| > 0 {
      WithoutAbsentId(messages[1..], id);
    }
  }

  /**
   * Rolling back undoes the append: with the new message's id unique, taking
   * it out of the list it was appended to, and whatever came after it,
   * leaves the other messages in their order.
   */
  lemma RollbackUndoesAppend(before: seq<Message>, sent: Message, after: seq<Message>)
    requires forall k :: 0 <= k < |before| ==> before[k].id != sent.id
    requires forall k :: 0 <= k < |after| ==> after[k].id != sent.id
    ensures WithoutId(before + [sent] + after, sent.id) == before + after
  {
    var id, sentList := sent.id, before + [sent];
    assert WithoutId([sent], id) == [] by {
      assert [sent][1..] == [];
    }
    WithoutAbsentId(before, id);
    WithoutAbsentId(after, id);
    WithoutIdAppend(before, [sent], id);
    assert WithoutId(sentList, id) == before;
    WithoutIdAppend(sentList, after, id);
  }

  /** What the chat function answers: an error, or data that may lack a non-empty `message`. */
  datatype Reply = CallFailed(error: CallError) | Answered(message: Option<string>)

  const InvalidResponse := "Invalid response from AI service"

  /** What loading the history yields: a database error with its code, rows, or nothing. */
  datatype LoadResult = LoadFailed(code: string) | Loaded(rows: Option<seq<Message>>)

  class ChatPanel {
    const userId: string
    const conversationId: string
    var messages: seq<Message>
    var input: string
    var loading: bool
    var useN8nChat: bool

    constructor(userId: string, conversationId: string)
      ensures this.userId == userId && this.conversationId == conversationId
      ensures messages == [] && input == "" && !loading && !useN8nChat
    {
      this.userId := userId;
      this.conversationId := conversationId;
      messages := [];
      input := "";
      loading := false;
      useN8nChat := false;
    }

    /**
     * The effect that starts the embedded chat widget: it runs only when the
     * widget script is loaded (`widgetLoaded`) and its container element is
     * mounted, and `created` says whether creating the widget succeeded. The
     * container is rendered only while the embedded chat is in use, so from the
     * initial state the effect never switches it on and the local chat stays in
     * use.
     */
    method InitEmbeddedChat(widgetLoaded: bool, created: bool)
      modifies this`useN8nChat
      ensures widgetLoaded && old(useN8nChat) ==> useN8nChat == created
      ensures !(widgetLoaded && old(useN8nChat)) ==> useN8nChat == old(useN8nChat)
      ensures !old(useN8nChat) ==> !useN8nChat
    {
      // the container element exists only when the embedded chat is rendered
      var containerMounted := useN8nChat;
      if widgetLoaded && containerMounted {
        useN8nChat := created;
      }
    }

    /** What the user types. */
    method SetInput(text: string)
      modifies this`input
      ensures input == text
    {
      input := text;
    }

    /**
     * `loadMessages`: nothing without a user, without a conversation, or while
     * the embedded chat is in use; the rows found replace the list, and an
     * error other than a missing table is reported.
     */
    method LoadMessages(result: LoadResult) returns (toast: Option<string>)
      modifies this`messages
      ensures userId == "" || conversationId == "" || useN8nChat ==> messages == old(messages) && toast.None?
      ensures !(userId == "" || conversationId == "" || useN8nChat) ==>
        && messages == (if result.Loaded? && result.rows.Some? then result.rows.value else old(messages))
        && toast == (if result.LoadFailed? && result.code != "PGRST116" then Some("Failed to load chat history") else None)
    {
      toast := None;
      if userId == "" || conversationId == "" || useN8nChat {
        return;
      }
      match result
      case LoadFailed(code) =>
        if code != "PGRST116" {
          toast := Some("Failed to load chat history");
        }
      case Loaded(rows) =>
        if rows.Some? {
          messages := rows.value;
        }
    }

    /**
     * The first half of `sendMessage`: nothing happens when the trimmed input
     * is empty, a send is under way or the embedded chat is in use; otherwise
     * the input is cleared, loading starts and the trimmed text is appended
     * as a user message with a fresh id.
     */
    method SendMessage(newId: string, now: string) returns (sent: Option<Message>)
      modifies this`input, this`loading, this`messages
      ensures Trim(old(input)) == "" || old(loading) || useN8nChat ==>
        sent.None? && input == old(input) && loading == old(loading) && messages == old(messages)
      ensures !(Trim(old(input)) == "" || old(loading) || useN8nChat) ==>
        && sent == Some(Message(newId, User, Trim(old(input)), now))
        && input == "" && loading
        && messages == old(messages) + [sent.value]
    {
      if Trim(input) == "" || loading || useN8nChat {
        return None;
      }
      var text := Trim(input);
      input := "";
      loading := true;
      var m := Message(newId, User, text, now);
      messages := messages + [m];
      return Some(m);
    }

    /**
     * The second half of `sendMessage`: a reply with a message is appended
     * as the assistant's; an error, or data without a message, takes the
     * sent message back out and is reported. Loading stops either way.
     */
    method ReceiveReply(sent: Message, reply: Reply, newId: string, now: string) returns (toast: Option<string>)
      modifies this`loading, this`messages
      ensures !loading
      ensures reply.Answered? && reply.message.Some? && reply.message.value != "" ==>
        toast.None? && messages == old(messages) + [Message(newId, Assistant, reply.message.value, now)]
      ensures reply.CallFailed? ==>
        toast == Some(FailureText(Classify(reply.error))) && messages == WithoutId(old(messages), sent.id)
      ensures reply.Answered? && (reply.message.None? || reply.message.value == "") ==>
        toast == Some(InvalidResponse) && messages == WithoutId(old(messages), sent.id)
    {
      match reply {
        case CallFailed(error) =>
          toast := Some(FailureText(Classify(error)));
          messages := WithoutId(messages, sent.id);
        case Answered(message) =>
          if message.None? || message.value == "" {
            toast := Some(InvalidResponse);
            messages := WithoutId(messages, sent.id);
          } else {
            toast := None;
            messages := messages + [Message(newId, Assistant, message.value, now)];
          }
      }
      loading := false;
    }
  }
}
