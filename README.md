# Gold Demand Monitor bot — a Dafny model

The bot (`gold_bot.py`) is a Telegram bot. It shows a menu of three buttons. A tap on one of
them starts one of three requests, and each request answers in the chat:

- **price** fetches the gold quote, saves it in the `gold_prices` table and replies
  `🟡 Current Gold Price: $<price, two decimals>/oz`;
- **news** fetches the news list and replies with a header followed by up to three
  `• <title>\n<url>\n\n` blocks;
- **cb_data** replies with a summary of three fixed central-bank figures
  (China 225, Turkey 160, India 34 tonnes).

When a request fails, the user gets one fixed error text. There is also a daily job.
It fetches the quote and sends its unparsed text to the chat its job names. It never
writes the table, and when it fails it only logs. As `main()` schedules it, the job is
called with the Application, which names no chat, so it never sends anything (see
"## Findings").

The model has these modules:

- `Dispatch` maps the button tags to the requests.
- `Sources` holds what the providers return. Each fetch is a `Result`: `Success` with the
  decoded payload, or `Failure` when the request, the JSON decoding or the key lookup raises.
- `Messages` holds every reply text. The reserve and news summaries are built by loops,
  as in the source. Each loop is a method proved equal to a recursive definition.
  Each summary has a reader, and a lemma shows that reading a summary recovers exactly
  what it was built from.
- `Text` holds the decimal text of integers (`str`) and of two-decimal amounts
  (`:.2f`), each with its reader.
- `PriceStore` holds the `gold_prices` table as a map from key to row. A save is
  `INSERT OR REPLACE`, which is an upsert on the primary key.
- `Bot` holds the `GoldBot` class. Its fields are the table and an outbox, which is the
  sequence of every message handed to the chat transport. Each handler is a method stating
  the new table and the new outbox for every outcome of its fetch.

Prices are held as whole cents. The time a price is saved under (`datetime('now')`) is
passed to the handler as a parameter, `now`.

Three behaviours of the code to note:

- With an empty article list the bot sends the news header alone. `NewsHeaderOnly` states this.
- The daily job does not save the price it fetches.
- The reserve figures are never stored in the `central_bank_reserves` table.

## Model

| member | source | states |
|---|---|---|
| Dispatch.Route | gold_bot.py:52-57 | a tag starts request k exactly when it equals k's tag, and any other tag starts nothing |
| Dispatch.RouteTagOf | gold_bot.py:37-39 | each menu button's tag starts the request that button is labelled with |
| Dispatch.TagOfInjective | gold_bot.py:37-39 | the three button tags are pairwise distinct |
| Messages.BuildReserveMessage | gold_bot.py:89-91 | the loop's message is the header followed by one "\n• country: tonnes tonnes" line per entry, in order |
| Messages.ReserveLinesAppend | gold_bot.py:90-91 | the lines for a concatenation of entries are the lines of the first part followed by those of the second |
| Messages.ReserveRoundTrip | gold_bot.py:89-91 | reading the reserve summary back gives exactly the entries it was built from, in order |
| Messages.InlineReserveMessage | gold_bot.py:83-91 | with the inline figures the summary is the header, then the China 225, Turkey 160 and India 34 lines, in that order |
| Messages.InlineReserveRoundTrip | gold_bot.py:83-91 | the inline summary reads back as the three inline entries and nothing else |
| Messages.Selected | gold_bot.py:106 | the items taken are exactly the first min(3, n) articles, in their order |
| Messages.BuildNewsMessage | gold_bot.py:106-110 | the loop gives the header plus one "• title\nurl\n\n" block per article taken, or no message when an article taken lacks a field |
| Messages.NewsBlocksAppend | gold_bot.py:109-110 | the blocks for a concatenation of articles are the blocks of the first part followed by those of the second |
| Messages.NewsIgnoresRest | gold_bot.py:106 | articles after the third never affect the reply, even when they lack fields |
| Messages.NewsHeaderOnly | gold_bot.py:106-110 | the reply is the header alone exactly when the article list is empty |
| Messages.NewsRoundTrip | gold_bot.py:106-110 | when titles and urls are one-line, reading the summary back gives exactly the (title, url) pairs of the articles taken, in order |
| Messages.PriceMessageAmount | gold_bot.py:73 | the price reply is the prefix, an amount that reads back as the saved price, and "/oz" |
| Messages.PriceMessageExample | gold_bot.py:73 | a price of 2345.67 is written with two decimals as "2345.67" |
| Messages.ErrorTextDistinct | gold_bot.py:123 | the error text differs from every price, reserve and news reply |
| Text.ParseIntText | gold_bot.py:91 | the integer text in a reserve line reads back as the integer |
| Text.ParseCentsText | gold_bot.py:73 | the two-decimal text reads back as the amount it was written from |
| Text.CentsText | gold_bot.py:73 | the amount text has exactly two digits after its only decimal point |
| PriceStore.Upsert | gold_bot.py:22-23 | after a save the key holds the new row, the keys are the old keys plus it, and every other row is unchanged |
| PriceStore.UpsertLastWriteWins | gold_bot.py:67-68 | two saves under one key leave only the second row |
| PriceStore.UpsertIdempotent | gold_bot.py:67-68 | saving the same row again changes nothing |
| PriceStore.UpsertSize | gold_bot.py:22-23 | a save adds a row only for a new key, and never a duplicate one |
| PriceStore.UpsertKeepsCurrency | gold_bot.py:67-68 | saving in 'USD' keeps every row of the table in 'USD' |
| Bot.GoldBot.SendMessage | gold_bot.py:71-74 | sending appends one message to the outbox and leaves the table alone |
| Bot.GoldBot.SendError | gold_bot.py:119-124 | the error reply appends the fixed error text for the chat and leaves the table alone |
| Bot.GoldBot.SavePrice | gold_bot.py:67-69 | the table becomes the upsert of (key, price, 'USD') and nothing is sent |
| Bot.GoldBot.GetGoldPrice | gold_bot.py:59-77 | with a price and a save that completes, the table gains it under now and the price reply is sent; when the fetch fails, float() raises or the save raises, the table is unchanged and the error text is sent |
| Bot.GoldBot.GetCentralBankData | gold_bot.py:79-98 | the inline reserve summary is sent and the table is unchanged |
| Bot.GoldBot.GetGoldNews | gold_bot.py:100-117 | the news summary is sent when the fetch succeeds and every article taken has its fields, otherwise the error text; the table is unchanged |
| Bot.GoldBot.ScheduledUpdates | gold_bot.py:126-139 | the table is never written; the daily text is sent to the job's chat only when the fetch succeeds and the context carries a job, otherwise nothing is sent |
| Bot.GoldBot.DailyJobAsWired | gold_bot.py:126-151 | called with the Application as main() wires it, the job sends nothing and writes nothing, whatever the fetch returns |
| Bot.GoldBot.DailyJobForChat | gold_bot.py:126-139 | run with a job that carries a chat, the job sends the daily text to that chat whenever the fetch succeeds, and nothing otherwise |
| Bot.GoldBot.ButtonHandler | gold_bot.py:47-57 | each known tag has exactly the effect of its request, and an unknown tag changes nothing |

## Left out

- The Telegram transport is not modelled: polling, `query.answer()` and the welcome menu's
  reply. A send is an append to the outbox, and only `TagOf` mirrors the menu's tags.
- HTTP requests and JSON decoding happen outside the model. Their results arrive as `Result`
  values, and every way they can raise is a `Failure`.
- Floating point is not modelled. `float()` is taken as already done: `Quote.cents` is its
  result in whole cents, or `None` when it raises. Two cases are lost by this:
  - `float()` also accepts "nan", "inf" and out-of-range text such as "1e400" without
    raising. The source then saves that value and replies "$nan/oz" or "$inf/oz"; no `Quote`
    represents it.
  - A price with three or more decimals is stored unrounded in the REAL column, and only the
    reply rounds it. The model stores and prints the same whole cents.
- The clock is not modelled: the key a price is saved under is the caller's `now`.
- The sqlite connection, the `CREATE TABLE` statements and the unused `central_bank_reserves`
  table are not modelled, nor is the database file.
- Bot.GoldBot.GetGoldPrice: the save's outcome is an input, `SaveOutcome`. `SaveRaised` stands
  for an INSERT that raises, which leaves the table unchanged. A commit that raises after the
  INSERT succeeded leaves the row in the connection's open transaction; that state is not
  modelled.
- APScheduler and its 08:00 trigger, asynchrony, logging and the configuration from the
  environment are not modelled.
- A send can fail after the row was inserted, and the except branch then sends the error text.
  That case is not modelled. The reserve handler's except branch is left out for the same
  reason: only a failing send can reach it.
- JSON values that are not strings (null, numbers), which the f-strings print as their text,
  are modelled only as present-or-missing fields.
- Bot.GoldBot.ScheduledUpdates: the job's context is a `JobContext` with two cases. One is the
  Application, on which reading `context.job` raises, because a python-telegram-bot
  Application has no `job` attribute. The other is a job-queue run whose job carries a chat.
  The library itself is outside the model.
- Messages.ReserveRoundTrip: is stated only for country names without ':' or a line break,
  because the reader splits each line at those characters.
- Messages.NewsRoundTrip: is stated only for titles and urls without a line break, because the
  reader splits each block at line breaks.

## Findings

| source | as written | input that shows it | evidently intended | confidence | as-written member | corrected member |
|---|---|---|---|---|---|---|
| gold_bot.py:135,151 | the scheduler calls `scheduled_updates` with the Application as its context, and the job then reads `context.job.chat_id`; an Application has no `job`, so the read raises and the except branch only logs | any daily run, with any quote | the job runs with a context whose job carries a subscriber's chat and sends the daily text there | medium, not executed | Bot.GoldBot.DailyJobAsWired | Bot.GoldBot.DailyJobForChat |
