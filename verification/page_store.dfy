/**
 * The scrapy item pipeline of the crawler (`SQLitePipeline`): every scraped
 * page is written with `INSERT OR REPLACE` into the table `pages`, whose
 * `url` column is UNIQUE. The table is modelled as a map from url to the
 * page's (title, body); the sqlite connection itself is outside the model.
 */
module PageStore {

  /** The item `{'title', 'url', 'body'}` that the spider yields. */
  datatype Item = Item(title: string, url: string, body: string)

  /** The stored columns of one row of `pages`, besides its url. */
  datatype Page = Page(title: string, body: string)

  type Table = map<string, Page>

  /**
   * `INSERT OR REPLACE INTO pages(title, url, body)`: afterwards the url has
   * exactly the item's title and body, and every other url keeps its row.
   */
  function Upsert(table: Table, item: Item): (t: Table)
    ensures t.Keys == table.Keys + {item.url}
    ensures t[item.url] == Page(item.title, item.body)
    ensures forall u :: u in table && u != item.url ==> t[u] == table[u]
  {
    table[item.url := Page(item.title, item.body)]
  }

  /**
   * The table after the pipeline has processed `items` in order: its urls
   * are the urls already stored together with those of the items.
   */
  function ProcessAll(table: Table, items: seq<Item>): (t: Table)
    ensures t.Keys == table.Keys + set k | 0 <= k < |items| :: items[k].url
  {
    if items == [] then table
    else
      var n := |items| - 1;
      assert (set k | 0 <= k < |items| :: items[k].url)
        == (set k | 0 <= k < n :: items[..n][k].url) + {items[n].url};
      Upsert(ProcessAll(table, items[..n]), items[n])
  }

  /** The index of the last item for `url`, or -1 when no item has that url. */
  function LastFor(items: seq<Item>, url: string): (k: int)
    ensures -1 <= k < |items|
    ensures k == -1 ==> forall j :: 0 <= j < |items| ==> items[j].url != url
    ensures k >= 0 ==> items[k].url == url && forall j :: k < j < |items| ==> items[j].url != url
  {
    if items == [] then -1
    else if items[|items| - 1].url == url then |items| - 1
    else LastFor(items[..|items| - 1], url)
  }

  /**
   * After a run of items, a url has a row exactly when it had one before or
   * some item carried it; the row holds the title and body of the LAST item
   * for that url, and a url no item carried keeps its old row.
   */
  lemma {:induction false} LatestItemWins(table: Table, items: seq<Item>, url: string)
    ensures var t, k := ProcessAll(table, items), LastFor(items, url);
      && (url in t <==> url in table || k >= 0)
      && (k >= 0 ==> t[url] == Page(items[k].title, items[k].body))
      && (k == -1 && url in table ==> t[url] == table[url])
    decreases |items|
  {
    if items != [] {
      LatestItemWins(table, items[..|items| - 1], url);
    }
  }

  /**
   * `SQLitePipeline`: `open_spider` creates `pages` if it does not exist yet,
   * so rows from earlier crawls remain; `process_item` upserts one item.
   */
  class SQLitePipeline {
    var pages: Table

    /** `open_spider`: `CREATE TABLE IF NOT EXISTS` keeps the rows already stored. */
    constructor OpenSpider(existing: Table)
      ensures pages == existing
    {
      pages := existing;
    }

    /** `process_item`: the url now holds this item's row; the item is passed on unchanged. */
    method ProcessItem(item: Item) returns (passed: Item)
      modifies this
      ensures pages == Upsert(old(pages), item)
      ensures passed == item
    {
      pages := pages[item.url := Page(item.title, item.body)];
      passed := item;
    }
  }
}
