/**
 * The texts the bot sends: the reserve summary and the news summary, which the
 * handlers build with a loop that appends to a message, and the one-line
 * price, daily-update and error texts.
 *
 * Each loop is a method proved equal to a recursive definition of the text,
 * and each text has a reader that recovers from it exactly what was put in.
 */
module Messages {
  import opened Wrappers
  import opened Text
  import opened Sources

  // ---------------------------------------------------------------------
  // Central-bank reserves
  // ---------------------------------------------------------------------

  /** One (country, tonnes) pair of the reserve mapping. */
  type Reserve = (string, int)

  /** The reserve figures the handler holds inline, in the mapping's insertion order. */
  const InlineReserves: seq<Reserve> := [("China", 225), ("Turkey", 160), ("India", 34)]

  /** The icon each kind of reply starts with. */
  const ReserveIcon: string := "\U{1F3E6}"
  const NewsIcon: string := "\U{1F4F0}"
  const PriceIcon: string := "\U{1F7E1}"
  const DailyIcon: string := "\U{1F305}"
  const ErrorIcon: string := "\U{26A0}\U{FE0F}"

  const ReserveHeader: string := ReserveIcon + " Central Bank Purchases (2023):\n"

  /** The bullet line for one reserve entry; it starts with a line break. */
  function ReserveLine(e: Reserve): string {
    "\n\U{2022} " + e.0 + ": " + IntText(e.1) + " tonnes"
  }

  function ReserveLines(entries: seq<Reserve>): string {
    if entries == [] then "" else ReserveLine(entries[0]) + ReserveLines(entries[1..])
  }

  /** The reserve summary: the header, then one bullet line per entry, in order. */
  function ReserveMessage(entries: seq<Reserve>): string {
    ReserveHeader + ReserveLines(entries)
  }

  lemma {:induction false} ReserveLinesAppend(a: seq<Reserve>, b: seq<Reserve>)
    ensures ReserveLines(a + b) == ReserveLines(a) + ReserveLines(b)
  {
    if a != [] {
      assert (a + b)[1..] == a[1..] + b;
      ReserveLinesAppend(a[1..], b);
    } else {
      assert a + b == b;
    }
  }

  lemma ReserveMessageSnoc(entries: seq<Reserve>, e: Reserve)
    ensures ReserveMessage(entries + [e]) == ReserveMessage(entries) + ReserveLine(e)
  {
    ReserveLinesAppend(entries, [e]);
    assert ReserveLines([e]) == ReserveLine(e);
    AppendAssoc(ReserveHeader, ReserveLines(entries), ReserveLine(e));
  }

  /** The handler's loop: start from the header and append one line per entry. */
  method BuildReserveMessage(entries: seq<Reserve>) returns (message: string)
    ensures message == ReserveMessage(entries)
  {
    message := ReserveHeader;
    var i := 0;
    while i < |entries|
      invariant 0 <= i <= |entries|
      invariant message == ReserveMessage(entries[..i])
    {
      ReserveMessageSnoc(entries[..i], entries[i]);
      TakeSnoc(entries, i);
      message := message + ReserveLine(entries[i]);
      i := i + 1;
    }
    assert entries[..i] == entries;
  }

  /** A country name that a reserve line can carry unambiguously. */
  predicate PlainCountry(country: string) {
    ':' !in country && '\n' !in country
  }

  /** Reads one line body "country: tonnes tonnes" back into its entry. */
  function ParseReserveBody(body: string): Option<Reserve> {
    match SplitAt(body, ':')
    case None => None
    case Some((country, rest)) =>
      var n := |rest|;
      if n >= 8 && rest[0] == ' ' && rest[n - 7..] == " tonnes" && ParseInt(rest[1..n - 7]).Some?
      then Some((country, ParseInt(rest[1..n - 7]).value))
      else None
  }

  /** Reads a run of reserve lines back into the entries they were written from. */
  function ParseReserveLines(s: string): Option<seq<Reserve>>
    decreases |s|
  {
    if s == [] then Some([])
    else if |s| < 3 || s[..3] != "\n\U{2022} " then None
    else
      var (body, rest) := match SplitAt(s[3..], '\n')
        case None => (s[3..], [])
        case Some((x, y)) => (x, "\n" + y);
      match ParseReserveBody(body)
      case None => None
      case Some(e) =>
        match ParseReserveLines(rest)
        case None => None
        case Some(es) => Some([e] + es)
  }

  /** Reads a reserve summary back into its entries; None for any other text. */
  function ParseReserveMessage(m: string): Option<seq<Reserve>> {
    if |m| >= |ReserveHeader| && m[..|ReserveHeader|] == ReserveHeader
    then ParseReserveLines(m[|ReserveHeader|..])
    else None
  }

  lemma ParseReserveBodyLine(e: Reserve)
    requires PlainCountry(e.0)
    ensures ParseReserveBody(e.0 + ": " + IntText(e.1) + " tonnes") == Some(e)
  {
    var t := IntText(e.1);
    var rest := " " + t + " tonnes";
    assert e.0 + ": " + t + " tonnes" == e.0 + [':'] + rest;
    SplitAtJoin(e.0, ':', rest);
    var n := |rest|;
    assert rest[n - 7..] == " tonnes";
    assert rest[1..n - 7] == t;
    ParseIntText(e.1);
  }

  /** Reading a line whose body has no line break, followed by more lines. */
  lemma ParseReserveLinesCons(body: string, tail: string)
    requires '\n' !in body
    requires tail == [] || tail[0] == '\n'
    ensures ParseReserveLines("\n\U{2022} " + body + tail)
         == match ParseReserveBody(body)
            case None => None
            case Some(e) =>
              match ParseReserveLines(tail)
              case None => None
              case Some(es) => Some([e] + es)
  {
    var s := "\n\U{2022} " + body + tail;
    assert s[..3] == "\n\U{2022} ";
    assert s[3..] == body + tail;
    if tail == [] {
      assert s[3..] == body;
    } else {
      assert body + tail == body + ['\n'] + tail[1..];
      SplitAtJoin(body, '\n', tail[1..]);
      assert "\n" + tail[1..] == tail;
    }
  }

  /** The text of a reserve line after its bullet. */
  function ReserveBody(e: Reserve): (body: string)
    ensures ReserveLine(e) == "\n\U{2022} " + body
    ensures '\n' !in e.0 ==> '\n' !in body
  {
    e.0 + ": " + IntText(e.1) + " tonnes"
  }

  lemma ReserveLinesStart(entries: seq<Reserve>)
    ensures ReserveLines(entries) == [] || ReserveLines(entries)[0] == '\n'
  {
  }

  lemma {:induction false} ParseReserveLinesRoundTrip(entries: seq<Reserve>)
    requires forall i :: 0 <= i < |entries| ==> PlainCountry(entries[i].0)
    ensures ParseReserveLines(ReserveLines(entries)) == Some(entries)
  {
    if entries != [] {
      var e := entries[0];
      var body := ReserveBody(e);
      var tail := ReserveLines(entries[1..]);
      ReserveLinesStart(entries[1..]);
      AppendAssoc("\n\U{2022} ", body, tail);
      ParseReserveLinesCons(body, tail);
      ParseReserveBodyLine(e);
      ParseReserveLinesRoundTrip(entries[1..]);
      assert [e] + entries[1..] == entries;
    }
  }

  /**
   * The reserve summary lists exactly the entries it was built from, in their
   * order: reading it back gives the entries and nothing else.
   */
  lemma ReserveRoundTrip(entries: seq<Reserve>)
    requires forall i :: 0 <= i < |entries| ==> PlainCountry(entries[i].0)
    ensures ParseReserveMessage(ReserveMessage(entries)) == Some(entries)
  {
    var m := ReserveMessage(entries);
    assert m[..|ReserveHeader|] == ReserveHeader;
    assert m[|ReserveHeader|..] == ReserveLines(entries);
    ParseReserveLinesRoundTrip(entries);
  }

  lemma InlineReserveLines()
    ensures ReserveLine(InlineReserves[0]) == "\n\U{2022} China: 225 tonnes"
    ensures ReserveLine(InlineReserves[1]) == "\n\U{2022} Turkey: 160 tonnes"
    ensures ReserveLine(InlineReserves[2]) == "\n\U{2022} India: 34 tonnes"
  {
    InlineTonnesText();
  }

  lemma InlineTonnesText()
    ensures IntText(225) == "225" && IntText(160) == "160" && IntText(34) == "34"
  {
    assert 225 / 10 == 22 && 225 % 10 == 5 && 22 / 10 == 2 && 22 % 10 == 2;
    assert 160 / 10 == 16 && 160 % 10 == 0 && 16 / 10 == 1 && 16 % 10 == 6;
    assert 34 / 10 == 3 && 34 % 10 == 4;
    assert NatText(2) == "2" && NatText(22) == "22" && NatText(225) == "225";
    assert NatText(1) == "1" && NatText(16) == "16" && NatText(160) == "160";
    assert NatText(3) == "3" && NatText(34) == "34";
  }

  /** With the inline figures the summary lists China, Turkey and India, in that order. */
  lemma InlineReserveMessage()
    ensures ReserveMessage(InlineReserves)
         == ReserveHeader
          + "\n\U{2022} China: 225 tonnes"
          + "\n\U{2022} Turkey: 160 tonnes"
          + "\n\U{2022} India: 34 tonnes"
  {
    var china, turkey, india := ReserveLine(InlineReserves[0]), ReserveLine(InlineReserves[1]), ReserveLine(InlineReserves[2]);
    assert InlineReserves[1..][1..][1..] == [];
    assert ReserveLines(InlineReserves[2..]) == india;
    assert ReserveLines(InlineReserves[1..]) == turkey + india;
    assert ReserveLines(InlineReserves) == china + (turkey + india);
    AppendAssoc(china, turkey, india);
    AppendAssoc(ReserveHeader, china + turkey, india);
    AppendAssoc(ReserveHeader, china, turkey);
    InlineReserveLines();
  }

  /** Reading the inline summary back gives the three entries and nothing else. */
  lemma InlineReserveRoundTrip()
    ensures ParseReserveMessage(ReserveMessage(InlineReserves)) == Some(InlineReserves)
  {
    ReserveRoundTrip(InlineReserves);
  }

  // ---------------------------------------------------------------------
  // News
  // ---------------------------------------------------------------------

  /** How many articles the news summary takes from the provider's list. */
  const NewsLimit: nat := 3

  const NewsHeader: string := NewsIcon + " Latest Gold News:\n\n"

  function Min(a: nat, b: nat): nat {
    if a < b then a else b
  }

  /** The articles the summary shows: a slice of the provider's list. */
  function Selected(articles: seq<Article>): (r: seq<Article>)
    ensures |r| == Min(NewsLimit, |articles|) && |r| <= NewsLimit
    ensures forall i :: 0 <= i < |r| ==> r[i] == articles[i]
  {
    articles[..Min(NewsLimit, |articles|)]
  }

  predicate HasFields(a: Article) {
    a.title.Some? && a.url.Some?
  }

  predicate AllHaveFields(items: seq<Article>) {
    forall i :: 0 <= i < |items| ==> HasFields(items[i])
  }

  function NewsBlock(title: string, url: string): string {
    "\U{2022} " + title + "\n" + url + "\n\n"
  }

  function NewsBlocks(items: seq<Article>): string
    requires AllHaveFields(items)
  {
    if items == [] then ""
    else NewsBlock(items[0].title.value, items[0].url.value) + NewsBlocks(items[1..])
  }

  /**
   * The news summary: the header, then one block per selected article in the
   * provider's order. A selected article without a title or a url raises a
   * KeyError in the handler, so there is no summary (None).
   */
  function NewsMessage(articles: seq<Article>): (r: Option<string>)
    ensures r.Some? <==> AllHaveFields(Selected(articles))
  {
    var items := Selected(articles);
    if AllHaveFields(items) then Some(NewsText(items)) else None
  }

  lemma {:induction false} NewsBlocksAppend(a: seq<Article>, b: seq<Article>)
    requires AllHaveFields(a) && AllHaveFields(b)
    ensures AllHaveFields(a + b)
    ensures NewsBlocks(a + b) == NewsBlocks(a) + NewsBlocks(b)
  {
    if a != [] {
      assert (a + b)[1..] == a[1..] + b;
      NewsBlocksAppend(a[1..], b);
    } else {
      assert a + b == b;
    }
  }

  /** The header followed by the blocks of the given articles. */
  function NewsText(items: seq<Article>): string
    requires AllHaveFields(items)
  {
    NewsHeader + NewsBlocks(items)
  }

  lemma NewsTextSnoc(items: seq<Article>, a: Article)
    requires AllHaveFields(items) && HasFields(a)
    ensures AllHaveFields(items + [a])
    ensures NewsText(items + [a]) == NewsText(items) + NewsBlock(a.title.value, a.url.value)
  {
    var b := NewsBlock(a.title.value, a.url.value);
    NewsBlocksAppend(items, [a]);
    assert NewsBlocks([a]) == b;
    AppendAssoc(NewsHeader, NewsBlocks(items), b);
  }

  /**
   * The handler's loop over the selected articles: append one block per
   * article, or stop with no message at the first article missing a field.
   */
  method BuildNewsMessage(articles: seq<Article>) returns (r: Option<string>)
    ensures r == NewsMessage(articles)
  {
    var items := articles[..Min(NewsLimit, |articles|)];
    var message := NewsHeader;
    var i := 0;
    while i < |items|
      invariant 0 <= i <= |items|
      invariant AllHaveFields(items[..i])
      invariant message == NewsText(items[..i])
    {
      var item := items[i];
      if item.title.None? || item.url.None? {
        assert !HasFields(items[i]);
        return None;
      }
      NewsTextSnoc(items[..i], item);
      TakeSnoc(items, i);
      message := message + NewsBlock(item.title.value, item.url.value);
      i := i + 1;
    }
    assert items[..i] == items;
    r := Some(message);
  }

  /** Articles after the third never reach the summary, whatever fields they lack. */
  lemma NewsIgnoresRest(articles: seq<Article>, more: seq<Article>)
    requires |articles| >= NewsLimit
    ensures NewsMessage(articles + more) == NewsMessage(articles)
  {
    assert Selected(articles + more) == Selected(articles);
  }

  /** The header alone is sent exactly when the provider's list is empty. */
  lemma NewsHeaderOnly(articles: seq<Article>)
    ensures NewsMessage(articles) == Some(NewsHeader) <==> articles == []
  {
    var items := Selected(articles);
    if articles == [] {
      assert items == [];
      assert NewsHeader + NewsBlocks(items) == NewsHeader;
    } else if AllHaveFields(items) {
      var b := NewsBlock(items[0].title.value, items[0].url.value);
      assert NewsBlocks(items) == b + NewsBlocks(items[1..]);
      assert |NewsHeader + NewsBlocks(items)| > |NewsHeader|;
    }
  }

  /** A field that a news block can carry unambiguously. */
  predicate OneLine(a: Article) {
    HasFields(a) && '\n' !in a.title.value && '\n' !in a.url.value
  }

  predicate AllOneLine(items: seq<Article>)
    ensures AllOneLine(items) ==> AllHaveFields(items)
  {
    forall i :: 0 <= i < |items| ==> OneLine(items[i])
  }

  /** The (title, url) pairs of a list of articles. */
  function Links(items: seq<Article>): (r: seq<(string, string)>)
    requires AllHaveFields(items)
    ensures |r| == |items|
    ensures forall i :: 0 <= i < |items| ==> r[i] == (items[i].title.value, items[i].url.value)
  {
    if items == [] then [] else [(items[0].title.value, items[0].url.value)] + Links(items[1..])
  }

  /** Reads a run of news blocks back into (title, url) pairs. */
  function ParseNewsBlocks(s: string): Option<seq<(string, string)>>
    decreases |s|
  {
    if s == [] then Some([])
    else if |s| < 2 || s[..2] != "\U{2022} " then None
    else match SplitAt(s[2..], '\n')
      case None => None
      case Some((title, afterTitle)) =>
        match SplitAt(afterTitle, '\n')
        case None => None
        case Some((url, afterUrl)) =>
          if afterUrl == [] || afterUrl[0] != '\n' then None
          else match ParseNewsBlocks(afterUrl[1..])
            case None => None
            case Some(more) => Some([(title, url)] + more)
  }

  /** Reads a news summary back into the (title, url) pairs it shows. */
  function ParseNewsMessage(m: string): Option<seq<(string, string)>> {
    if |m| >= |NewsHeader| && m[..|NewsHeader|] == NewsHeader
    then ParseNewsBlocks(m[|NewsHeader|..])
    else None
  }

  /** Reading one block whose title and url have no line break, followed by more blocks. */
  lemma ParseNewsBlocksCons(title: string, url: string, tail: string)
    requires '\n' !in title && '\n' !in url
    ensures ParseNewsBlocks(NewsBlock(title, url) + tail)
         == match ParseNewsBlocks(tail)
            case None => None
            case Some(more) => Some([(title, url)] + more)
  {
    var s := NewsBlock(title, url) + tail;
    assert s == "\U{2022} " + (title + ['\n'] + (url + ['\n'] + ("\n" + tail)));
    assert s[..2] == "\U{2022} ";
    assert s[2..] == title + ['\n'] + (url + ['\n'] + ("\n" + tail));
    SplitAtJoin(title, '\n', url + ['\n'] + ("\n" + tail));
    SplitAtJoin(url, '\n', "\n" + tail);
    assert ("\n" + tail)[1..] == tail;
  }

  lemma {:induction false} ParseNewsBlocksRoundTrip(items: seq<Article>)
    requires AllOneLine(items)
    ensures ParseNewsBlocks(NewsBlocks(items)) == Some(Links(items))
  {
    if items != [] {
      assert OneLine(items[0]);
      ParseNewsBlocksCons(items[0].title.value, items[0].url.value, NewsBlocks(items[1..]));
      ParseNewsBlocksRoundTrip(items[1..]);
    }
  }

  /**
   * The news summary shows exactly the first min(3, n) articles of the
   * provider's list, in the provider's order: reading it back gives their
   * (title, url) pairs and nothing else.
   */
  lemma NewsRoundTrip(articles: seq<Article>)
    requires AllOneLine(Selected(articles))
    ensures NewsMessage(articles).Some?
    ensures ParseNewsMessage(NewsMessage(articles).value) == Some(Links(Selected(articles)))
  {
    var items := Selected(articles);
    var m := NewsHeader + NewsBlocks(items);
    assert m[..|NewsHeader|] == NewsHeader;
    assert m[|NewsHeader|..] == NewsBlocks(items);
    ParseNewsBlocksRoundTrip(items);
  }

  // ---------------------------------------------------------------------
  // Price, daily update, error
  // ---------------------------------------------------------------------

  const PricePrefix: string := PriceIcon + " Current Gold Price: $"

  /** The on-demand price reply: the price with exactly two decimals, per ounce. */
  function PriceMessage(cents: int): string {
    PricePrefix + CentsText(cents) + "/oz"
  }

  /** The amount in a price reply reads back as the price it was written from. */
  lemma PriceMessageAmount(cents: int)
    ensures var m := PriceMessage(cents);
      |m| >= |PricePrefix| + 3 && m[..|PricePrefix|] == PricePrefix && m[|m| - 3..] == "/oz"
      && ParseCents(m[|PricePrefix|..|m| - 3]) == Some(cents)
  {
    Framed(PricePrefix, CentsText(cents), "/oz");
    ParseCentsText(cents);
  }

  /** A quote whose field reads as 2345.67 gives the reply "... $2345.67/oz". */
  lemma PriceMessageExample()
    ensures PriceMessage(234567) == PricePrefix + "2345.67" + "/oz"
  {
    ExampleAmountText();
  }

  lemma ExampleAmountText()
    ensures CentsText(234567) == "2345.67"
  {
    ExampleWholeText();
    assert 234567 / 100 == 2345 && 234567 % 100 / 10 == 6 && 234567 % 10 == 7;
    assert DigitChar(6) == '6' && DigitChar(7) == '7';
    assert UnsignedCentsText(234567) == "2345" + ['.', '6', '7'];
  }

  lemma ExampleWholeText()
    ensures NatText(2345) == "2345"
  {
    assert 2345 / 10 == 234 && 2345 % 10 == 5 && 234 / 10 == 23 && 234 % 10 == 4 && 23 / 10 == 2 && 23 % 10 == 3;
    assert NatText(2) == "2" && NatText(23) == "23" && NatText(234) == "234";
  }

  const DailyPrefix: string := DailyIcon + " Daily Gold Update:\n\nPrice: $"

  /** The scheduled update: the provider's field text, unformatted, per ounce. */
  function DailyMessage(raw: string): string {
    DailyPrefix + raw + "/oz"
  }

  /** The one text every on-demand failure is answered with, whatever the error. */
  const ErrorText: string := ErrorIcon + " Error fetching data. Please try again later."

  /**
   * The error text cannot be mistaken for any successful reply: it starts
   * with a different character from every one of them.
   */
  lemma ErrorTextDistinct(cents: int, entries: seq<Reserve>, articles: seq<Article>)
    ensures ErrorText != PriceMessage(cents)
    ensures ErrorText != ReserveMessage(entries)
    ensures NewsMessage(articles).Some? ==> ErrorText != NewsMessage(articles).value
  {
    assert ErrorText[0] == '\U{26A0}';
    assert PriceMessage(cents)[0] == PricePrefix[0] == '\U{1F7E1}';
    assert ReserveMessage(entries)[0] == ReserveHeader[0] == '\U{1F3E6}';
    if NewsMessage(articles).Some? {
      assert NewsMessage(articles).value[0] == NewsHeader[0] == '\U{1F4F0}';
    }
  }
}
