/** The chat endpoint (app/api/chat/route.ts): it reads a message and an
    optional storefront context from the request, prefixes the message with a
    summary of that context, hands the result to the language model, and
    answers with the model's text, or with status 500 and a fixed error when
    anything on the way fails. The model itself is a parameter here: a
    function from the text sent to its answer, or None when the call fails. */
module ChatRoute {
  import opened Seqs
  import opened Text
  import opened Cart

  /** A context entry as the route finds it: of the expected kind (an array,
      a number), or missing or of any other kind. */
  datatype Field<T> = Given(value: T) | Absent

  /** The `context` object of a request. */
  datatype ChatContext = ChatContext(
    cart: Field<seq<CartItem>>,
    categories: Field<seq<string>>,
    productCount: Field<int>)

  /** A parsed request body. A falsy `context` is None; any truthy one is Some,
      with every entry that is not of the expected kind Absent. */
  datatype ChatRequest = ChatRequest(message: string, context: Option<ChatContext>)

  datatype ReplyBody = Answer(response: string) | Failure(error: string)

  datatype Reply = Reply(status: int, body: ReplyBody)

  const FailureText: string := "Failed to process chat message"

  /** `cartItems`: the cart when it is an array, otherwise empty. */
  function CartOf(ctx: Option<ChatContext>): seq<CartItem>
  {
    if ctx.Some? && ctx.value.cart.Given? then ctx.value.cart.value else []
  }

  /** `categories`: the categories when they are an array, otherwise empty. */
  function CategoriesOf(ctx: Option<ChatContext>): seq<string>
  {
    if ctx.Some? && ctx.value.categories.Given? then ctx.value.categories.value else []
  }

  /** `productCount`: the count when it is a number, otherwise 0. */
  function ProductCountOf(ctx: Option<ChatContext>): int
  {
    if ctx.Some? && ctx.value.productCount.Given? then ctx.value.productCount.value else 0
  }

  /** One cart line as the summary shows it: title, " x", quantity. */
  function RenderLine(item: CartItem): string
  {
    item.title + " x" + IntToDecimal(item.qty)
  }

  /** `cartItems.map(...).join(", ") || "none"`: never empty. */
  function CartSummary(items: seq<CartItem>): (r: string)
    ensures r != []
  {
    var joined := Join(seq(|items|, i requires 0 <= i < |items| => RenderLine(items[i])), ", ");
    if joined == "" then "none" else joined
  }

  /** The context block that precedes the user's message. */
  function ContextHeader(ctx: Option<ChatContext>): string
  {
    "Context:\n- Cart items: " + CartSummary(CartOf(ctx))
    + "\n- Categories: " + Join(CategoriesOf(ctx), ", ")
    + "\n- Product count: " + IntToDecimal(ProductCountOf(ctx))
  }

  /** `contextualMessage`: the message alone without a context, otherwise the
      context block, a blank line, and the message after "User: ". */
  function ContextualMessage(message: string, ctx: Option<ChatContext>): (r: string)
    ensures |r| >= |message| && r[|r| - |message|..] == message
  {
    if ctx.Some? then ContextHeader(ctx) + "\n\nUser: " + message else message
  }

  /** The POST handler: a body that cannot be read, or a model call that fails,
      gives status 500 and the fixed error; otherwise status 200 and the
      model's text. */
  function HandleChat(request: Option<ChatRequest>, send: string -> Option<string>): (r: Reply)
    ensures r.status == 200 || r == Reply(500, Failure(FailureText))
    ensures r.status == 200 ==> r.body.Answer?
  {
    if request.None? then Reply(500, Failure(FailureText))
    else
      var answer := send(ContextualMessage(request.value.message, request.value.context));
      if answer.Some? then Reply(200, Answer(answer.value)) else Reply(500, Failure(FailureText))
  }

  /** A rendered line is never empty: it contains the " x" before the quantity. */
  lemma RenderLineHasSpace(item: CartItem)
    ensures |RenderLine(item)| > |item.title| && RenderLine(item)[|item.title|] == ' '
  {
  }

  /** The cart summary is "none" exactly when the cart is empty; otherwise it
      starts with the first line's rendering. */
  lemma CartSummarySpec(items: seq<CartItem>)
    ensures CartSummary(items) == "none" <==> items == []
    ensures items != [] ==> RenderLine(items[0]) <= CartSummary(items)
  {
    var lines := seq(|items|, i requires 0 <= i < |items| => RenderLine(items[i]));
    var joined := Join(lines, ", ");
    if items != [] {
      var first := RenderLine(items[0]);
      assert lines[0] == first;
      RenderLineHasSpace(items[0]);
      assert joined[|items[0].title|] == ' ';
      assert joined != "";
      assert joined != "none" by {
        if |joined| == 4 {
          assert "none"[|items[0].title|] != ' ';
        }
      }
    }
  }

  /** Without a context the message goes to the model unchanged. */
  lemma NoContextPassesMessage(message: string)
    ensures ContextualMessage(message, None) == message
  {
  }

  /** With a context the text sent starts with the context heading and ends
      with the user's message, so the message can be read back off it: two
      messages under the same context give the same text only when they are
      the same. */
  lemma ContextWrapsMessage(m1: string, m2: string, ctx: ChatContext)
    ensures var t := ContextualMessage(m1, Some(ctx));
      "Context:\n- Cart items: " <= t && |t| >= |m1| && t[|t| - |m1|..] == m1
    ensures ContextualMessage(m1, Some(ctx)) == ContextualMessage(m2, Some(ctx)) ==> m1 == m2
  {
    var h := ContextHeader(Some(ctx)) + "\n\nUser: ";
    var t1, t2 := h + m1, h + m2;
    assert ContextualMessage(m1, Some(ctx)) == t1;
    assert ContextualMessage(m2, Some(ctx)) == t2;
    assert t1[|h|..] == m1;
    assert t2[|h|..] == m2;
    assert "Context:\n- Cart items: " <= ContextHeader(Some(ctx));
  }

  /** A context whose entries are all missing or of the wrong kind falls back to
      an empty cart, no categories and a count of 0. */
  lemma EmptyContextDefaults(message: string)
    ensures ContextualMessage(message, Some(ChatContext(Absent, Absent, Absent)))
      == "Context:\n- Cart items: " + "none" + "\n- Categories: " + ""
         + "\n- Product count: " + "0" + "\n\nUser: " + message
  {
    var ctx := Some(ChatContext(Absent, Absent, Absent));
    assert CartOf(ctx) == [] && CategoriesOf(ctx) == [] && ProductCountOf(ctx) == 0;
    assert CartSummary([]) == "none";
    assert Join([], ", ") == "";
    assert IntToDecimal(0) == "0";
  }

  /** Context entries of the expected kind are shown as given: the cart
      summarised, the categories joined with ", ", and the count in decimal. */
  lemma GivenContextShown(message: string, cart: seq<CartItem>, categories: seq<string>, n: int)
    ensures ContextualMessage(message, Some(ChatContext(Given(cart), Given(categories), Given(n))))
      == "Context:\n- Cart items: " + CartSummary(cart) + "\n- Categories: " + Join(categories, ", ")
         + "\n- Product count: " + IntToDecimal(n) + "\n\nUser: " + message
  {
    var ctx := Some(ChatContext(Given(cart), Given(categories), Given(n)));
    assert CartOf(ctx) == cart && CategoriesOf(ctx) == categories && ProductCountOf(ctx) == n;
  }

  /** The count shown in the context is the count given: it reads back as the
      same number when it is not negative. */
  lemma ProductCountShown(n: nat, ctx: ChatContext)
    requires ctx.productCount == Given(n as int)
    ensures DecimalValue(IntToDecimal(ProductCountOf(Some(ctx)))) == n
  {
    DecimalRoundTrip(n);
  }

  /** The handler answers 200 with the model's text exactly when the body was
      read and the model answered the contextual message; every failure is the
      same 500 reply. */
  lemma HandleChatSpec(request: Option<ChatRequest>, send: string -> Option<string>)
    ensures var r := HandleChat(request, send);
      (r.status == 200 <==>
        request.Some? && send(ContextualMessage(request.value.message, request.value.context)).Some?)
      && (r.status == 200 ==> r.body == Answer(send(ContextualMessage(request.value.message, request.value.context)).value))
      && (r.status != 200 ==> r == Reply(500, Failure(FailureText)))
  {
  }
}
