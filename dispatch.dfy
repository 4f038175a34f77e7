/**
 * The tags carried by the three menu buttons and the request each one starts.
 */
module Dispatch {
  import opened Wrappers

  /** The three requests a user can make from the menu. */
  datatype Kind = Price | News | Reserves

  /** The callback tag the welcome menu attaches to the button for each request. */
  function TagOf(k: Kind): string {
    match k
    case Price => "price"
    case News => "news"
    case Reserves => "cb_data"
  }

  /**
   * The request a button tag starts: the handler compares the tag with the
   * three known tags in turn, and any other tag starts nothing.
   */
  function Route(tag: string): (r: Option<Kind>)
    ensures forall k :: r == Some(k) <==> tag == TagOf(k)
    ensures r.None? <==> forall k :: tag != TagOf(k)
  {
    if tag == "price" then Some(Price)
    else if tag == "news" then Some(News)
    else if tag == "cb_data" then Some(Reserves)
    else None
  }

  /** Every button of the menu starts the request it is labelled with. */
  lemma RouteTagOf(k: Kind)
    ensures Route(TagOf(k)) == Some(k)
  {
  }

  /** The three tags are distinct, so no two buttons start the same request. */
  lemma TagOfInjective(j: Kind, k: Kind)
    ensures TagOf(j) == TagOf(k) <==> j == k
  {
  }
}
