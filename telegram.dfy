/**
 * The request `send_telegram_message` posts: the Bot API URL built from the
 * token, and the JSON payload. Posting it, and what Telegram answers, are
 * outside the model.
 */
module Telegram {
  import opened Wrappers

  datatype SendRequest = SendRequest(url: string, chatId: string, text: string, parseMode: string)

  const ApiBase: string := "https://api.telegram.org/bot"
  const SendMethod: string := "/sendMessage"
  const ParseMode: string := "Markdown"

  /** Reads the token back out of a sendMessage URL; the partner of SendMessageUrl. */
  function TokenOfUrl(url: string): (r: Option<string>)
    ensures r.Some? ==> |r.value| + |ApiBase| + |SendMethod| == |url|
  {
    if |url| >= |ApiBase| + |SendMethod|
       && url[..|ApiBase|] == ApiBase
       && url[|url| - |SendMethod|..] == SendMethod
    then Some(url[|ApiBase|..|url| - |SendMethod|])
    else None
  }

  /** The Bot API sendMessage URL for a token; it names exactly that token. */
  function SendMessageUrl(token: string): (url: string)
    ensures ApiBase <= url
    ensures TokenOfUrl(url) == Some(token)
  {
    var url := ApiBase + token + SendMethod;
    assert url[..|ApiBase|] == ApiBase;
    assert url[|url| - |SendMethod|..] == SendMethod;
    assert url[|ApiBase|..|url| - |SendMethod|] == token;
    url
  }

  /** A URL accepted by TokenOfUrl is exactly the URL built from that token. */
  lemma TokenOfUrlExact(url: string)
    requires TokenOfUrl(url).Some?
    ensures SendMessageUrl(TokenOfUrl(url).value) == url
  {
    var t := TokenOfUrl(url).value;
    assert url == url[..|ApiBase|] + t + url[|url| - |SendMethod|..];
  }

  /** The request for one message to the configured chat, in Markdown mode. */
  function MessageRequest(token: string, chatId: string, text: string): (r: SendRequest)
    ensures TokenOfUrl(r.url) == Some(token)
    ensures r.chatId == chatId && r.text == text && r.parseMode == ParseMode
  {
    SendRequest(SendMessageUrl(token), chatId, text, ParseMode)
  }
}
