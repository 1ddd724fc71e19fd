/**
 * The scheduled run (`__main__`): check the configuration, send the greeting
 * if there is one, then always send the tech blog. The environment, the
 * clock, the generation service and the platform's line separator are inputs;
 * a run is described by the prompts it asks the generation service for and
 * the send requests it makes, in order.
 */
module Bot {
  import opened Wrappers
  import opened Gemini
  import opened Greeting
  import opened Telegram

  /** The three environment variables; `None` when a variable is not set. */
  datatype Config = Config(botToken: Option<string>, chatId: Option<string>, apiKey: Option<string>)

  /** Python truthiness of an optional string: set and not empty. */
  predicate Truthy(v: Option<string>)
  {
    v.Some? && v.value != ""
  }

  predicate ConfigComplete(c: Config)
  {
    Truthy(c.botToken) && Truthy(c.chatId) && Truthy(c.apiKey)
  }

  /** One step of a run as the outside world sees it: a prompt asked of the
      generation service, or a request made to Telegram. */
  datatype Event = Ask(prompt: string) | Send(request: SendRequest)

  /** A run either stops at the configuration check, or finishes after the
      events of `trace`, in the order they happened. */
  datatype Run = Aborted | Finished(trace: seq<Event>)

  /** The prompts of a trace, in order. */
  function Asked(trace: seq<Event>): (r: seq<string>)
    ensures |r| <= |trace|
  {
    if trace == [] then []
    else
      var rest := Asked(trace[1..]);
      if trace[0].Ask? then [trace[0].prompt] + rest else rest
  }

  /** The send requests of a trace, in order. */
  function Sent(trace: seq<Event>): (r: seq<SendRequest>)
    ensures |r| <= |trace|
  {
    if trace == [] then []
    else
      var rest := Sent(trace[1..]);
      if trace[0].Send? then [trace[0].request] + rest else rest
  }

  lemma {:induction false} AskedSentAppend(a: seq<Event>, b: seq<Event>)
    ensures Asked(a + b) == Asked(a) + Asked(b)
    ensures Sent(a + b) == Sent(a) + Sent(b)
  {
    if a != [] {
      assert (a + b)[0] == a[0];
      assert (a + b)[1..] == a[1..] + b;
      AskedSentAppend(a[1..], b);
    } else {
      assert a + b == b;
    }
  }

  function ExitCode(r: Run): (code: int)
  {
    if r.Aborted? then 1 else 0
  }

  const BlogPrompt: string :=
    "Generate a short, engaging, and funny blog post (around 150-200 words) "
    + "about a random, interesting, and often humorous aspect of technology. "
    + "The topic should be quirky, cutting-edge, or a relatable observation about tech culture. "
    + "Make it suitable for a casual audience on Telegram. Focus on a single, specific topic. "
    + "Do not include a title. Start directly with the content. Avoid lists or bullet points. "
    + "Make sure it's genuinely amusing and light-hearted."

  const BlogHeader: string := "*Tech Tidbit:*"

  /** The greeting as sent: wrapped in Markdown italics. */
  function Italicized(g: string): (m: string)
    ensures |m| == |g| + 2 && m[0] == '_' && m[|m| - 1] == '_' && m[1..|m| - 1] == g
  {
    "_" + g + "_"
  }

  /** The blog as sent: the bold header, the line separator, then the content. */
  function BlogMessage(linesep: string, content: string): (m: string)
    ensures BlogHeader + linesep <= m && m[|BlogHeader| + |linesep|..] == content
  {
    var m := BlogHeader + linesep + content;
    assert m == (BlogHeader + linesep) + content;
    m
  }

  /** The events of the greeting step: its prompt, if the hour has one, and
      then its send, if the flattened greeting is not empty. */
  function GreetingEvents(token: string, chat: string, hour: int, greeting: Outcome): (es: seq<Event>)
    ensures Asked(es) == match GreetingRequest(hour) case Some(p) => [p] case None => []
    ensures |Sent(es)| <= 1
    ensures |Sent(es)| == 1 <==> exists g :: TimeBasedGreeting(hour, greeting) == Some(g) && g != ""
    ensures |Sent(es)| == 1 ==> Sent(es)[0] == MessageRequest(token, chat, Italicized(ResponseText(greeting)))
    ensures |Sent(es)| == 1 ==> |es| == 2 && es[1] == Send(Sent(es)[0])
    ensures |Asked(es)| == 1 ==> es[0] == Ask(Asked(es)[0])
  {
    match TimeBasedGreeting(hour, greeting)
    case Some(g) =>
      var p := GreetingRequest(hour).value;
      if g != "" then
        var es := [Ask(p), Send(MessageRequest(token, chat, Italicized(g)))];
        assert es[1..] == [Send(MessageRequest(token, chat, Italicized(g)))];
        assert es[1..][1..] == [];
        es
      else
        assert [Ask(p)][1..] == [];
        [Ask(p)]
    case None => []
  }

  /** The events of the blog step: its prompt, then its send. */
  function BlogEvents(token: string, chat: string, blog: Outcome, linesep: string): (es: seq<Event>)
    ensures |es| == 2 && es[0] == Ask(BlogPrompt)
    ensures es[1] == Send(MessageRequest(token, chat, BlogMessage(linesep, ResponseText(blog))))
    ensures Asked(es) == [BlogPrompt]
    ensures Sent(es) == [MessageRequest(token, chat, BlogMessage(linesep, ResponseText(blog)))]
  {
    var request := MessageRequest(token, chat, BlogMessage(linesep, ResponseText(blog)));
    var es := [Ask(BlogPrompt), Send(request)];
    assert es[1..] == [Send(request)];
    assert es[1..][1..] == [];
    assert Sent(es[1..]) == [request];
    es
  }

  /** Every request of a run goes to one chat with one token, in Markdown. */
  lemma SentToChat(first: seq<Event>, token: string, chat: string, blog: Outcome, linesep: string)
    requires forall i :: 0 <= i < |Sent(first)| ==> Sent(first)[i] == MessageRequest(token, chat, Sent(first)[i].text)
    ensures forall i :: 0 <= i < |Sent(first + BlogEvents(token, chat, blog, linesep))| ==>
              var q := Sent(first + BlogEvents(token, chat, blog, linesep))[i];
              q.chatId == chat && TokenOfUrl(q.url) == Some(token) && q.parseMode == ParseMode
  {
    AskedSentAppend(first, BlogEvents(token, chat, blog, linesep));
  }

  /** The events of a pass whose configuration is complete, with the bot
      token and chat id it holds: the greeting step, then the blog step.
      `greeting` is what the service produced for the greeting prompt (unused
      when there is none), `blog` what it produced for the blog prompt. */
  function RunTrace(token: string, chat: string, hour: int, greeting: Outcome, blog: Outcome, linesep: string): (t: seq<Event>)
    ensures 2 <= |t| <= 4
  {
    GreetingEvents(token, chat, hour, greeting) + BlogEvents(token, chat, blog, linesep)
  }

  /** The blog is always asked for and then sent, as the last two events;
      its prompt is the last one asked and its message the last one sent. */
  lemma RunTraceEndsWithBlog(token: string, chat: string, hour: int, greeting: Outcome, blog: Outcome, linesep: string)
    ensures var t := RunTrace(token, chat, hour, greeting, blog, linesep);
            && t[|t| - 2] == Ask(BlogPrompt)
            && t[|t| - 1] == Send(MessageRequest(token, chat, BlogMessage(linesep, ResponseText(blog))))
            && 1 <= |Asked(t)| <= 2 && Asked(t)[|Asked(t)| - 1] == BlogPrompt
            && 1 <= |Sent(t)| <= 2
            && Sent(t)[|Sent(t)| - 1] == MessageRequest(token, chat, BlogMessage(linesep, ResponseText(blog)))
  {
    var first, last := GreetingEvents(token, chat, hour, greeting), BlogEvents(token, chat, blog, linesep);
    AskedSentAppend(first, last);
    var t := first + last;
    assert t[|t| - 2] == last[0] && t[|t| - 1] == last[1];
  }

  /** The greeting prompt is asked for exactly outside the quiet hours, and
      then it is the first event. */
  lemma RunTraceGreetingPrompt(token: string, chat: string, hour: int, greeting: Outcome, blog: Outcome, linesep: string)
    ensures var t := RunTrace(token, chat, hour, greeting, blog, linesep);
            && (|Asked(t)| == 2 <==> 0 <= hour < 24 && !IsQuietHour(hour))
            && (|Asked(t)| == 2 ==> t[0] == Ask(GreetingRequest(hour).value) && Asked(t)[0] == GreetingRequest(hour).value)
  {
    var first, last := GreetingEvents(token, chat, hour, greeting), BlogEvents(token, chat, blog, linesep);
    AskedSentAppend(first, last);
    assert |first| > 0 ==> (first + last)[0] == first[0];
  }

  /** A greeting is sent exactly when there is one and it is not empty; it is
      then the second event, right after its prompt and before the blog is
      asked for, and it is the greeting in italics. */
  lemma RunTraceGreetingSend(token: string, chat: string, hour: int, greeting: Outcome, blog: Outcome, linesep: string)
    ensures var t := RunTrace(token, chat, hour, greeting, blog, linesep);
            && (|Sent(t)| == 2 <==> exists g :: TimeBasedGreeting(hour, greeting) == Some(g) && g != "")
            && (|Sent(t)| == 2 ==>
                  |t| == 4 && t[1] == Send(Sent(t)[0])
                  && Sent(t)[0] == MessageRequest(token, chat, Italicized(ResponseText(greeting))))
  {
    var first, last := GreetingEvents(token, chat, hour, greeting), BlogEvents(token, chat, blog, linesep);
    AskedSentAppend(first, last);
    assert |first| > 1 ==> (first + last)[1] == first[1];
  }

  /** Every request of a pass goes to the configured chat with the configured
      token, in Markdown mode. */
  lemma RunTraceTargets(token: string, chat: string, hour: int, greeting: Outcome, blog: Outcome, linesep: string)
    ensures var t := RunTrace(token, chat, hour, greeting, blog, linesep);
            forall i :: 0 <= i < |Sent(t)| ==>
              Sent(t)[i].chatId == chat && TokenOfUrl(Sent(t)[i].url) == Some(token)
              && Sent(t)[i].parseMode == ParseMode
  {
    SentToChat(GreetingEvents(token, chat, hour, greeting), token, chat, blog, linesep);
  }

  /** One pass of `__main__`: exit 1 before anything is asked or sent when a
      secret is missing or empty, otherwise the events of the pass. */
  function RunOnce(cfg: Config, hour: int, greeting: Outcome, blog: Outcome, linesep: string): (r: Run)
    ensures r.Aborted? <==> !ConfigComplete(cfg)
    ensures ExitCode(r) == 1 <==> !ConfigComplete(cfg)
    ensures ExitCode(r) in {0, 1}
    ensures r.Finished? ==> r.trace == RunTrace(cfg.botToken.value, cfg.chatId.value, hour, greeting, blog, linesep)
  {
    if !ConfigComplete(cfg) then Aborted
    else Finished(RunTrace(cfg.botToken.value, cfg.chatId.value, hour, greeting, blog, linesep))
  }

  /** In the quiet hours only the blog is asked for and sent. */
  lemma QuietHoursSendOnlyBlog(cfg: Config, hour: int, greeting: Outcome, blog: Outcome, linesep: string)
    requires ConfigComplete(cfg) && IsQuietHour(hour)
    ensures RunOnce(cfg, hour, greeting, blog, linesep).trace == [Ask(BlogPrompt), Send(MessageRequest(cfg.botToken.value, cfg.chatId.value, BlogMessage(linesep, ResponseText(blog))))]
  {
  }

  /** A greeting call that raised or returned no parts is still sent: the
      apology and the fallback are not empty, so outside the quiet hours both
      messages go out. */
  lemma FailedGreetingIsSent(cfg: Config, hour: int, greeting: Outcome, blog: Outcome, linesep: string)
    requires ConfigComplete(cfg) && 0 <= hour < 24 && !IsQuietHour(hour)
    requires greeting.Raised? || greeting == Response([])
    ensures |Sent(RunOnce(cfg, hour, greeting, blog, linesep).trace)| == 2
  {
    assert TimeBasedGreeting(hour, greeting) == Some(ResponseText(greeting));
    ResponseTextFailures(greeting);
    RunTraceGreetingSend(cfg.botToken.value, cfg.chatId.value, hour, greeting, blog, linesep);
  }

  /** A blog call that raised is still sent, at any hour, as the header, the
      line separator and the apology carrying the error. */
  lemma FailedBlogIsSent(cfg: Config, hour: int, greeting: Outcome, blog: Outcome, linesep: string)
    requires ConfigComplete(cfg) && blog.Raised?
    ensures var t := RunOnce(cfg, hour, greeting, blog, linesep).trace;
            t[|t| - 1].Send? && t[|t| - 1].request.text == BlogHeader + linesep + ApologyPrefix + blog.error
  {
    RunTraceEndsWithBlog(cfg.botToken.value, cfg.chatId.value, hour, greeting, blog, linesep);
    assert BlogMessage(linesep, ResponseText(blog)) == BlogHeader + linesep + (ApologyPrefix + blog.error);
  }

  /** The greeting is dropped only when the service returned parts without
      usable text: at most one part text, and that one empty. */
  lemma GreetingDroppedOnlyWhenEmpty(cfg: Config, hour: int, greeting: Outcome, blog: Outcome, linesep: string)
    requires ConfigComplete(cfg) && 0 <= hour < 24 && !IsQuietHour(hour)
    ensures |Sent(RunOnce(cfg, hour, greeting, blog, linesep).trace)| == 1 <==>
              greeting.Response? && greeting.parts != [] && PartTexts(greeting.parts) in {[], [""]}
  {
    ResponseTextEmpty(greeting);
    RunTraceEndsWithBlog(cfg.botToken.value, cfg.chatId.value, hour, greeting, blog, linesep);
    RunTraceGreetingSend(cfg.botToken.value, cfg.chatId.value, hour, greeting, blog, linesep);
  }
}
