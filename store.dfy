/**
 * The gold_prices table: one row per key (the text of the time the price was
 * saved), written with INSERT OR REPLACE, so a save is an upsert on the key.
 */
module PriceStore {

  /** The currency every saved row carries. */
  const Currency: string := "USD"

  /** A row's columns other than its key; the price is in whole cents. */
  datatype PriceRow = PriceRow(price: int, currency: string)

  type Table = map<string, PriceRow>

  /** Whether the INSERT OR REPLACE and its commit complete, or one of them raises. */
  datatype SaveOutcome = Saved | SaveRaised

  /**
   * The table after saving row under key: the key holds the new row, whether
   * or not it held one before, and every other key's row is as it was.
   */
  function Upsert(t: Table, key: string, row: PriceRow): (r: Table)
    ensures key in r && r[key] == row
    ensures r.Keys == t.Keys + {key}
    ensures forall k :: k in t && k != key ==> r[k] == t[k]
  {
    t[key := row]
  }

  /** Saving twice under one key keeps only the second row (last write wins). */
  lemma UpsertLastWriteWins(t: Table, key: string, first: PriceRow, second: PriceRow)
    ensures Upsert(Upsert(t, key, first), key, second) == Upsert(t, key, second)
  {
  }

  /** Saving the same row again changes nothing. */
  lemma UpsertIdempotent(t: Table, key: string, row: PriceRow)
    ensures Upsert(Upsert(t, key, row), key, row) == Upsert(t, key, row)
  {
  }

  /** A save adds a row only for a key the table did not hold, and never duplicates one. */
  lemma UpsertSize(t: Table, key: string, row: PriceRow)
    ensures |Upsert(t, key, row)| == if key in t then |t| else |t| + 1
  {
    var r := Upsert(t, key, row);
    if key in t {
      assert r.Keys == t.Keys;
    } else {
      assert r.Keys == t.Keys + {key} && key !in t.Keys;
    }
  }

  /** Every row of the table is priced in the fixed currency. */
  predicate AllInCurrency(t: Table) {
    forall k :: k in t ==> t[k].currency == Currency
  }

  lemma UpsertKeepsCurrency(t: Table, key: string, price: int)
    requires AllInCurrency(t)
    ensures AllInCurrency(Upsert(t, key, PriceRow(price, Currency)))
  {
  }
}
