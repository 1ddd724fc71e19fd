# Scheduled Telegram bot: decision layer

This project models `main.py` of a scheduled bot. Each time it is triggered, the bot checks its three secrets. It then asks a text-generation service (Gemini) for a greeting that fits the current UTC hour, and for a short tech blog. It posts the results to one Telegram chat. The model covers the bot's own decisions:

- **Greeting selection** (`Greeting`): the hour picks Morning [5,12), Afternoon [12,18), Evening [18,23), or no greeting. The band then picks the prompt `... 'Good <band>' message, ...`.
- **Response flattening** (`Gemini`, with `Strings` for the join): the parts of a generation result become one string. The texts of the parts that have one are joined by single spaces. A response with no parts gives a fixed fallback, and an exception gives an apology that carries the error text.
- **Request construction** (`Telegram`): the sendMessage URL built from the bot token, and the JSON payload. The payload holds the chat id, the text and Markdown parse mode.
- **The run** (`Bot`): a pure function from the configuration, the hour, the two generation outcomes and the platform line separator. It returns either "exit 1" or the run's events in the order they happen: each event is a prompt asked of the generation service or a request sent to Telegram. The greeting is sent first, wrapped in `_…_`, and only when it is present and non-empty. The blog is always sent, as `*Tech Tidbit:*` + line separator + content.

External services are inputs. A generation call is `Gemini.Outcome`: a sequence of parts, each with or without text, or `Raised(str(e))`. The environment is `Bot.Config`, where a variable that is not set is `None`. The hour is an `int`. In the source it comes from `datetime.utcnow().hour`, so it is always 0..23. The classifier still handles every integer, the same way the Python `else` branch does. A send is recorded as the request the bot makes. Delivery failures are only logged, so they never change what the run does next.

Facts about `main.py` that shape the model:
- The bot has no holiday table and no random message pool.
- The afternoon band ends at 18, and night hours get no greeting.
- A failed generation, or one with no parts, is still sent, as the apology or the fallback text.
- A greeting whose texts join to `""` is dropped by `if greeting_message:`.
- An empty blog is still sent, as the bare header and line separator.

Some small functions have no contract of their own. The lemmas and contracts in the table specify them:
- `Gemini.ResponseText` is `get_gemini_response` (main.py:15-25). It is specified by `Gemini.ResponseTextFailures`, `Gemini.ResponseTextEmpty`, `Gemini.ResponseTextJoinsInOrder`, `Gemini.ResponseTextConcat` and `Gemini.ResponseTextSinglePart`.
- `Bot.Truthy` and `Bot.ConfigComplete` are the `all([...])` test of main.py:80. `Bot.ExitCode` is the `exit(1)` of main.py:83. Both are specified by `Bot.RunOnce`.
- `Bot.Asked` and `Bot.Sent` read the prompts and the send requests out of a run's events. They are specified by `Bot.AskedSentAppend`, and for the events of a run by `Bot.GreetingEvents` and `Bot.BlogEvents`.
- `Bot.RunTrace` is the part of `__main__` after the configuration check (main.py:85-95). It is specified by the four `Bot.RunTrace…` lemmas.

## Model

| member | source | states |
|---|---|---|
| `Strings.Join` | main.py:21 | `" ".join`: empty for no pieces, the piece itself for one, and otherwise the total length of the pieces plus one separator between each pair of neighbours |
| `Strings.JoinAppend` | main.py:21 | joining two non-empty lists gives the two joins with exactly one separator between them; with the one-piece case this fixes the contents of every join, whatever the pieces contain |
| `Strings.SplitJoin` | main.py:21 | splitting a join at the separator gives back exactly the pieces, in order, when no piece contains the separator |
| `Strings.JoinEmpty` | main.py:21 | a join is empty if and only if there are no pieces or a single empty piece |
| `Gemini.PartTexts` | main.py:21 | the texts taken from the parts: never more than the parts, each one is a part's text, none when no part has text, and all of them in order when every part has text |
| `Gemini.PartTextsAppend` | main.py:21 | taking texts distributes over concatenation of parts, so the filter keeps order and invents nothing |
| `Gemini.ResponseTextFailures` | main.py:17-25 | an exception gives the apology prefix followed by the error text, which is never empty; a response with no parts gives exactly "Failed to generate content." |
| `Gemini.ResponseTextEmpty` | main.py:20-22 | the flattened text is "" if and only if the response has parts but their texts are none or a single "" |
| `Gemini.ResponseTextConcat` | main.py:20-21 | for two lists of parts that each carry some text, the text of both together is the first text, one space, then the second; the texts may contain spaces |
| `Gemini.ResponseTextSinglePart` | main.py:20-21 | a single part gives its own text, or "" when it has none |
| `Gemini.ResponseTextJoinsInOrder` | main.py:20-21 | for a response with some text, and only when no part text contains a space, the result splits back at spaces into the part texts in order; its length is always their total plus the separators |
| `Greeting.TimeOfDayAt` | main.py:45-56 | the hour selects a band if and only if it lies in that band's range: 5-11 Morning, 12-17 Afternoon, 18-22 Evening; within a day, no band exactly in the quiet hours 23 and 0-4 |
| `Greeting.BandsPartitionDay` | main.py:47-56 | every hour 0..23 is quiet or in some band, never in two bands, and it is quiet exactly when it is in no band |
| `Greeting.GreetingPrompt` | main.py:58-62 | the prompt starts with its band's opening, `Good <band>` follows the fixed lead, and the remainder is the same fixed tail for every band |
| `Greeting.GreetingPromptInjective` | main.py:58-62 | two bands with the same prompt are the same band |
| `Greeting.GreetingRequest` | main.py:47-63 | a generation request is made exactly for in-day hours outside the quiet hours, and it is the prompt of the hour's band |
| `Greeting.TimeBasedGreeting` | main.py:43-63 | the result is `None` exactly when no greeting is requested; otherwise it is the flattened response, which is non-empty when the call raised |
| `Telegram.TokenOfUrl` | main.py:29 | a URL accepted as a sendMessage URL is the base, a token and the method name, with matching lengths |
| `Telegram.SendMessageUrl` | main.py:29 | the URL starts with the Bot API base, and the token can be read back from it |
| `Telegram.TokenOfUrlExact` | main.py:29 | any URL the reader accepts is exactly the URL built from the token it reads, so URLs and tokens correspond one to one |
| `Telegram.MessageRequest` | main.py:27-36 | the request carries the given chat id, the exact text and Markdown mode, and its URL names the given token |
| `Bot.Italicized` | main.py:89 | the greeting as sent is the greeting with one `_` before it and one after it |
| `Bot.BlogMessage` | main.py:95 | the blog as sent starts with `*Tech Tidbit:*` and the line separator, followed by the content unchanged |
| `Bot.AskedSentAppend` | main.py:86-95 | reading prompts and sends out of events distributes over concatenation, so both keep the order of the run |
| `Bot.GreetingEvents` | main.py:86-89 | the greeting step asks the hour's prompt exactly when there is one; it sends the italicized greeting exactly when the flattened greeting is non-empty, and then right after its prompt |
| `Bot.BlogEvents` | main.py:92-95 | the blog step is the blog prompt followed by the send of the formatted blog |
| `Bot.RunOnce` | main.py:78-95 | exit code 1, with nothing asked or sent, if and only if a secret is unset or empty; otherwise exit code 0, and the events are the complete pass |
| `Bot.RunTraceEndsWithBlog` | main.py:91-95 | a pass has one or two prompts and one or two sends; the last two events are always the blog prompt and the send of the formatted blog |
| `Bot.RunTraceGreetingPrompt` | main.py:43-56 | the greeting prompt is asked for exactly outside the quiet hours, and then it is the first event |
| `Bot.RunTraceGreetingSend` | main.py:86-89 | a greeting is sent exactly when there is one and it is non-empty; it is then the second event, before the blog is asked for, and it is the greeting in italics |
| `Bot.RunTraceTargets` | main.py:29-34 | every request of a pass goes to the configured chat and token in Markdown mode |
| `Bot.QuietHoursSendOnlyBlog` | main.py:53-56 | in the quiet hours the whole pass is the blog prompt followed by the blog send |
| `Bot.FailedGreetingIsSent` | main.py:86-89 | outside the quiet hours, a greeting call that raised or returned no parts is still sent |
| `Bot.FailedBlogIsSent` | main.py:92-95 | a blog call that raised is still sent, at any hour, as the last event: header, separator and apology |
| `Bot.GreetingDroppedOnlyWhenEmpty` | main.py:86-89 | outside the quiet hours, the greeting is left out if and only if its response had parts whose texts are none or a single "" |

## Left out

- The Gemini client (`genai.configure`, `GenerativeModel('gemini-pro')`, `generate_content`): these are foreign calls. Each call's result is an input `Gemini.Outcome`.
- Exceptions raised while joining (for example a part whose `text` is not a string): the model's parts carry strings or nothing.
- The HTTP POST to Telegram, `raise_for_status` and the logging of failed deliveries (main.py:35-41): this is network I/O. A send is the recorded `Telegram.SendRequest`, and a delivery failure never alters the run.
- `os.environ`, `datetime.utcnow` and `os.linesep`: they are parameters of `Bot.RunOnce`.
- All printing and logging, and how Markdown renders on Telegram.
- `bot/echo_bot.py`: framework handlers for long polling, with no logic beyond echoing the text.
