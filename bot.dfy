/**
 * The bot's handlers over its two pieces of state: the gold_prices table and
 * the messages it has handed to the chat transport. Each fetch arrives as a
 * Result value and the clock as the text of the current time, so every
 * handler is a deterministic step from the old state to the new one.
 */
module Bot {
  import opened Wrappers
  import opened Sources
  import opened Dispatch
  import opened Messages
  import opened PriceStore

  /** One message handed to the chat transport: the destination chat and the text. */
  datatype Outgoing = Outgoing(chat: ChatId, text: string)

  /**
   * What the daily job is called with: the Application itself, which has no
   * job and so no chat to read (reading context.job raises), or the context
   * of a job-queue run whose job carries the chat to send to.
   */
  datatype JobContext = ApplicationContext | JobRun(chat: ChatId)

  /** main() hands the scheduler the Application as the job's only argument. */
  const WiredContext: JobContext := ApplicationContext

  class GoldBot {
    /** The gold_prices table, keyed by the time each price was saved. */
    var prices: Table
    /** Every message sent so far, oldest first; sending appends to it. */
    var outbox: seq<Outgoing>

    /** A bot over an empty table that has sent nothing. */
    constructor ()
      ensures prices == map[] && outbox == []
    {
      prices := map[];
      outbox := [];
    }

    method SendMessage(chat: ChatId, text: string)
      modifies this
      ensures outbox == old(outbox) + [Outgoing(chat, text)] && prices == old(prices)
    {
      outbox := outbox + [Outgoing(chat, text)];
    }

    /** Answers a failed on-demand request with the fixed error text. */
    method SendError(chat: ChatId)
      modifies this
      ensures outbox == old(outbox) + [Outgoing(chat, ErrorText)] && prices == old(prices)
    {
      SendMessage(chat, ErrorText);
    }

    /** INSERT OR REPLACE of (key, price, 'USD') into gold_prices. */
    method SavePrice(key: string, cents: int)
      modifies this
      ensures prices == Upsert(old(prices), key, PriceRow(cents, Currency))
      ensures outbox == old(outbox)
    {
      prices := prices[key := PriceRow(cents, Currency)];
    }

    /**
     * The on-demand price request. A fetch that fails, or a field that does
     * not read as a number, is answered with the error text before anything
     * is saved; so is a save that raises, which leaves the table as it was.
     * Otherwise the price is saved under now and then sent.
     */
    method GetGoldPrice(chat: ChatId, now: string, quote: Result<Quote, FetchError>, save: SaveOutcome)
      modifies this
      ensures QuotedCents(quote).Some? && save == Saved ==>
        && prices == Upsert(old(prices), now, PriceRow(QuotedCents(quote).value, Currency))
        && outbox == old(outbox) + [Outgoing(chat, PriceMessage(QuotedCents(quote).value))]
      ensures QuotedCents(quote).None? || save == SaveRaised ==>
        prices == old(prices) && outbox == old(outbox) + [Outgoing(chat, ErrorText)]
    {
      match quote
      case Failure(_) =>
        SendError(chat);
      case Success(q) =>
        if q.cents.None? || save == SaveRaised {
          SendError(chat);
        } else {
          var price := q.cents.value;
          SavePrice(now, price);
          SendMessage(chat, PriceMessage(price));
        }
    }

    /** The reserve request: the summary of the inline figures; nothing is saved. */
    method GetCentralBankData(chat: ChatId)
      modifies this
      ensures outbox == old(outbox) + [Outgoing(chat, ReserveMessage(InlineReserves))]
      ensures prices == old(prices)
    {
      var message := BuildReserveMessage(InlineReserves);
      SendMessage(chat, message);
    }

    /**
     * The news request: the summary of the first articles, or the error text
     * when the fetch fails or a selected article lacks a field; nothing is saved.
     */
    method GetGoldNews(chat: ChatId, response: Result<seq<Article>, FetchError>)
      modifies this
      ensures prices == old(prices)
      ensures response.Success? && NewsMessage(response.value).Some? ==>
        outbox == old(outbox) + [Outgoing(chat, NewsMessage(response.value).value)]
      ensures !(response.Success? && NewsMessage(response.value).Some?) ==>
        outbox == old(outbox) + [Outgoing(chat, ErrorText)]
    {
      match response
      case Failure(_) =>
        SendError(chat);
      case Success(articles) =>
        var message := BuildNewsMessage(articles);
        match message
        case None =>
          SendError(chat);
        case Some(text) =>
          SendMessage(chat, text);
    }

    /**
     * The daily job: sends the provider's field text, unparsed, to the chat
     * its context names. It never touches the table, and when the fetch fails
     * or reading the chat raises it only logs, so nothing is sent.
     */
    method ScheduledUpdates(context: JobContext, quote: Result<Quote, FetchError>)
      modifies this
      ensures prices == old(prices)
      ensures quote.Success? && context.JobRun? ==>
        outbox == old(outbox) + [Outgoing(context.chat, DailyMessage(quote.value.raw))]
      ensures !(quote.Success? && context.JobRun?) ==> outbox == old(outbox)
    {
      if quote.Success? && context.JobRun? {
        SendMessage(context.chat, DailyMessage(quote.value.raw));
      }
    }

    /**
     * The daily job as main() schedules it: called with the Application as
     * its context, it can never name a chat, so it never sends anything.
     */
    method DailyJobAsWired(quote: Result<Quote, FetchError>)
      modifies this
      ensures prices == old(prices) && outbox == old(outbox)
    {
      ScheduledUpdates(WiredContext, quote);
    }

    /**
     * The daily job as evidently intended: run with a context whose job
     * carries the subscriber's chat, it delivers the update whenever the
     * fetch succeeds.
     */
    method DailyJobForChat(chat: ChatId, quote: Result<Quote, FetchError>)
      modifies this
      ensures prices == old(prices)
      ensures quote.Success? ==>
        outbox == old(outbox) + [Outgoing(chat, DailyMessage(quote.value.raw))]
      ensures quote.Failure? ==> outbox == old(outbox)
    {
      ScheduledUpdates(JobRun(chat), quote);
    }

    /**
     * A button tap: the tag selects the request, which runs with the given
     * fetch results; a tag no button carries does nothing at all.
     */
    method ButtonHandler(tag: string, chat: ChatId, now: string,
                         quote: Result<Quote, FetchError>, save: SaveOutcome,
                         news: Result<seq<Article>, FetchError>)
      modifies this
      ensures Route(tag).None? ==> prices == old(prices) && outbox == old(outbox)
      ensures Route(tag) == Some(Price) && QuotedCents(quote).Some? && save == Saved ==>
        && prices == Upsert(old(prices), now, PriceRow(QuotedCents(quote).value, Currency))
        && outbox == old(outbox) + [Outgoing(chat, PriceMessage(QuotedCents(quote).value))]
      ensures Route(tag) == Some(Price) && (QuotedCents(quote).None? || save == SaveRaised) ==>
        prices == old(prices) && outbox == old(outbox) + [Outgoing(chat, ErrorText)]
      ensures Route(tag) == Some(News) ==> prices == old(prices)
      ensures Route(tag) == Some(News) && news.Success? && NewsMessage(news.value).Some? ==>
        outbox == old(outbox) + [Outgoing(chat, NewsMessage(news.value).value)]
      ensures Route(tag) == Some(News) && !(news.Success? && NewsMessage(news.value).Some?) ==>
        outbox == old(outbox) + [Outgoing(chat, ErrorText)]
      ensures Route(tag) == Some(Reserves) ==>
        prices == old(prices) && outbox == old(outbox) + [Outgoing(chat, ReserveMessage(InlineReserves))]
    {
      match Route(tag)
      case None =>
      case Some(Price) =>
        GetGoldPrice(chat, now, quote, save);
      case Some(News) =>
        GetGoldNews(chat, news);
      case Some(Reserves) =>
        GetCentralBankData(chat);
    }
  }
}
