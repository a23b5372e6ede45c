# ChainDocs: a verified model of its deterministic core

ChainDocs answers questions about smart-contract documentation with
retrieval-augmented generation. The system has four parts:

- A scrapy crawler stores the OpenZeppelin and EIP pages in sqlite.
- An ingestion command cuts each stored document into overlapping token windows, embeds them, and upserts them into Qdrant.
- A FastAPI endpoint `/ask` retrieves the closest chunks, builds a prompt and asks a local llama.cpp model or the Together chat API.
- A small command-line client prints the answer and its sources.

Around these parts sit heavy libraries: the tokenizer, the sentence embedder,
Qdrant, sqlite, scrapy, BeautifulSoup, llama.cpp and the HTTP API. This
project models the logic between them and turns every library call into an
input.

`crawler.py` is three scripts run together by an unresolved merge, and each
fragment is modelled on its own:

- the `embed` command (lines 1-69);
- the scrapy crawler (lines 71-157);
- the title scraper (lines 159-201).

| file | module | models |
|---|---|---|
| `outcomes.dfy` | `Outcomes` | `Option` and `Result` |
| `text.dfy` | `Text` | Python's `str.strip` over the full `str.isspace` set, the substring test `in`, `startswith`, `sep.join`, `str.split` on one character, ASCII `lower` |
| `chunker.dfy` | `Chunker` | `_chunk_text`: a loop method proved against a recursive window function, with count, bounds, coverage and overlap lemmas |
| `ingest.dfy` | `Ingest` | the `embed` loop and its point comprehension |
| `page_store.dfy` | `PageStore` | `SQLitePipeline` as a class over a url-keyed table |
| `spider.dfy` | `Spider` | `DocsSpider.parse`: the HTML gate, title, canonical url and link filter |
| `title_parser.dfy` | `TitleScraper` | `TitleParser` as a class whose handlers update `inTitle` and `title`, proved against an event-by-event state function, and `fetch_title` |
| `ask.dfy` | `Ask` | `ask`: query validation, the hit loop, the prompt template, generator selection and answer extraction |
| `cli.dfy` | `Cli` | `color`, `pretty_sources` and what the client prints for a reply |

Several inputs stand in for library calls:

- A document body is its token ids, and a chunk is its id window.
- The embedder is a function from chunks to vectors of an opaque type.
- The n-th `uuid.uuid4()` of a run is `uuidAt(n)`.
- The vector search is a function from the stripped query to the hit list, or `None` when it raises.
- The local model and the remote API are functions of the prompt.
- Whether the model file exists, and the API key, are plain values.
- `parse` receives what BeautifulSoup, markdownify and `urljoin` extracted from one response.
- `TitleParser` receives the event stream `HTMLParser` delivers.

The code behaves in some places differently from what its comments and names suggest, and the model follows the code:

- When `overlap` is greater than `max_tokens`, `_chunk_text` returns no chunks; it does not fail. Only `overlap == max_tokens` raises.
- A failing vector search is not degraded gracefully. The exception escapes `ask`, so the request fails (`Ask.Failure.SearchFailed`).
- The ingestion payload holds only `doc_id` and `text`, with no source url. `embed` neither creates nor resets the collection.
- The local model is constructed on every request. There is no lazy loading and no lock.

## Model

| member | source | states |
|---|---|---|
| Text.Strip | main.py:70 | the result is no longer than the input, neither begins nor ends with whitespace, and is empty exactly when the input is all whitespace |
| Text.StripIsPiece | main.py:70 | the stripped query is a contiguous piece of the input with nothing but whitespace before and after it |
| Text.StripIdempotent | main.py:103 | stripping an already stripped answer changes nothing |
| Text.ContainsIff | crawler.py:113 | the substring test holds exactly when the pattern occurs at some index |
| Text.ToLowerAscii | crawler.py:175 | a capital letter A-Z becomes the lower-case letter at the same place in the alphabet; every other character is unchanged |
| Text.LowerAscii | crawler.py:175 | lower-casing keeps the length and lower-cases each character on its own |
| Text.Join | main.py:93 | joining no parts gives the empty string |
| Text.SplitJoin | cli.py:26 | joining newline-free lines with a newline and splitting again gives the lines back |
| Text.JoinSplit | cli.py:26 | splitting on a character and joining with it gives the string back |
| Chunker.Window | crawler.py:24 | a window holds `min(max_tokens, n - start)` ids, exactly `ids[start + k]` at position k |
| Chunker.ChunkIds | crawler.py:21-23 | the chunker fails exactly when `overlap == max_tokens` (a zero `range` step) and yields no chunks when `overlap > max_tokens` |
| Chunker.ChunkText | crawler.py:19-26 | the `range` loop returns exactly the windows of `ChunkIds`, or the zero-step error |
| Chunker.CeilDivIsCeiling | crawler.py:23 | the chunk count function is the ceiling of `n / step` |
| Chunker.ChunkCount | crawler.py:23-24 | with a positive step there are exactly `ceil(n / step)` chunks, none exactly when there are no tokens |
| Chunker.ChunkAt | crawler.py:21-24 | chunk i is exactly `ids[i*step .. min(i*step + max_tokens, n))`, holding between 1 and `max_tokens` ids |
| Chunker.ChunkCoverage | crawler.py:21-24 | every token index lies in some chunk |
| Chunker.ChunkAdjacent | crawler.py:21-24 | consecutive chunks start `step` apart, so chunk i+1 begins with the last `len - step` ids of chunk i (at most `overlap` ids shared); a chunk reaching the end is followed by its own tail |
| Chunker.DefaultsOnThousandTokens | crawler.py:19 | with the defaults 512 and 50, 1000 tokens give 3 chunks |
| Ingest.ChunkPayload | crawler.py:50 | the payload has exactly the keys `doc_id` and `text`, holding the document id and the chunk |
| Ingest.BuildPoints | crawler.py:46-53 | `zip` makes as many points as the shorter of vectors and chunks |
| Ingest.BuildPointsAt | crawler.py:46-53 | point k pairs vector k with chunk k under the k-th fresh id |
| Ingest.BuildPointsEvery | crawler.py:46-53 | every point of the comprehension pairs the k-th vector with the k-th chunk under the k-th fresh id |
| Ingest.RowPoints | crawler.py:44-53 | a row gives `min(len(vectors), len(chunks))` points over its default chunks, the k-th with the k-th fresh id, the k-th vector and the k-th chunk as text |
| Ingest.EmbedBatches | crawler.py:43-54 | the loop from a row on makes exactly one upsert batch per remaining row |
| Ingest.EmbedStep | crawler.py:43-54 | one turn of the row loop upserts row i's points and leaves the batches of the remaining rows to come |
| Ingest.Embed | crawler.py:43-54 | the row loop upserts one batch per row, in row order, with ids drawn in sequence across rows |
| Ingest.OnePointPerChunk | crawler.py:44-53 | when the embedder returns one vector per chunk, a document gives one point per chunk, `ceil(n / 462)` of them, each payload exactly `{doc_id, text: chunk}` with no url |
| Ingest.EmbedIdsInDrawOrder | crawler.py:48 | the m-th point of a run has the id of the m-th `uuid4()` call |
| Ingest.EmbedIdsDistinct | crawler.py:48 | with distinct `uuid4()` values no two points of a run share an id |
| PageStore.Upsert | crawler.py:98-101 | after `INSERT OR REPLACE` the url holds exactly the item's title and body, and every other url keeps its row |
| PageStore.ProcessAll | crawler.py:97-101 | after a run of items the table's urls are those already stored together with the urls of the items |
| PageStore.LastFor | crawler.py:91 | finds the last item carrying a url, or reports that none does |
| PageStore.LatestItemWins | crawler.py:91-101 | after a run of items a url has a row iff it had one or some item carried it, and the row holds the last such item's title and body, other rows unchanged |
| PageStore.SQLitePipeline.OpenSpider | crawler.py:88-92 | `CREATE TABLE IF NOT EXISTS` keeps the rows already stored |
| PageStore.SQLitePipeline.ProcessItem | crawler.py:97-103 | the table becomes the upsert of the item, and the item is returned unchanged |
| Spider.IsHtml | crawler.py:112-113 | a response is a page exactly when its Content-Type contains `text/html` or `application/xhtml+xml` at some position; without the header it is not |
| Spider.Skipped | crawler.py:135 | an href is skipped exactly when it begins with `#` or with the seven characters `mailto:` |
| Spider.PageTitle | crawler.py:120-122 | the title is the stripped title string, or '' without one |
| Spider.CanonicalUrl | crawler.py:124-125 | a non-empty canonical href is used stripped, otherwise the response url |
| Spider.StartsWithAny | crawler.py:138 | holds exactly when the url starts with some start url |
| Spider.FollowedUrls | crawler.py:133-139 | at most one followed url per anchor, each under a start url |
| Spider.FollowedUrlsSound | crawler.py:133-137 | every followed url is the joined url of an anchor whose href is neither `mailto:` nor `#` |
| Spider.FollowedUrlsComplete | crawler.py:133-139 | every such anchor under a start url is followed |
| Spider.FollowedUrlsAppend | crawler.py:133 | links are followed in document order |
| Spider.Parse | crawler.py:111-139 | nothing iff the Content-Type names neither HTML type; otherwise the page item first, then one follow request per followed url, in order |
| Spider.StartUrlScope | crawler.py:81-84 | only the start-url prefixes scope the crawl: `ethereum.org` pages and other OpenZeppelin versions are not followed, EIP pages are |
| Spider.BlankCanonicalHref | crawler.py:125 | a whitespace-only canonical href is used and strips to the empty url |
| TitleScraper.IsTitleTag | crawler.py:175 | a tag names the title exactly when it is the five letters of `title`, each in either case |
| TitleScraper.Step | crawler.py:174-184 | a title start tag enters the title and an end tag leaves it; data inside the title replaces the title with its stripped text; no other event changes either field |
| TitleScraper.Run | crawler.py:192 | after feeding a page the title is still the initial one or the stripped text of some data event of the page |
| TitleScraper.RunInsideTitle | crawler.py:174-180 | the parser is inside a title exactly when its last title tag, in any letter case, was a start tag |
| TitleScraper.RunTitleNone | crawler.py:172-184 | the title stays `None` when no data arrives inside a title |
| TitleScraper.RunTitleLast | crawler.py:182-184 | the title is the stripped text of the last data received inside a title |
| TitleScraper.LastEventSetsTitle | crawler.py:182-184 | data arriving inside a title as the last event sets the title to its stripped text |
| TitleScraper.LastEventKeepsTitle | crawler.py:174-184 | a last event that is not data inside a title leaves the title as it was |
| TitleScraper.TitleParser.constructor | crawler.py:169-172 | a new parser is outside a title and has no title |
| TitleScraper.TitleParser.HandleStartTag | crawler.py:174-176 | a title start tag sets `in_title`; the title is unchanged |
| TitleScraper.TitleParser.HandleEndTag | crawler.py:178-180 | a title end tag clears `in_title`; the title is unchanged |
| TitleScraper.TitleParser.HandleData | crawler.py:182-184 | inside a title, data replaces the title with its stripped text; elsewhere nothing changes |
| TitleScraper.TitleParser.Feed | crawler.py:192 | feeding runs the handlers for every event in order |
| TitleScraper.FetchTitle | crawler.py:191-193 | the returned title is what a fresh parser holds after the whole page |
| Ask.FieldOrElse | main.py:85-91 | the `text` / `page_content` and `url` / `source` fallbacks: a missing payload gives ''; a non-empty first field is used; otherwise the fallback field; a non-empty result is one of those two fields, and '' means both are missing or empty |
| Ask.ChunkOf | main.py:85-88 | a hit adds nothing to the context, or exactly one non-empty text |
| Ask.SourceOf | main.py:85-91 | a hit adds nothing to the sources, or exactly one non-empty entry |
| Ask.Gather | main.py:83-91 | when each hit adds at most one entry, a list of hits yields at most one entry per hit |
| Ask.GatherAppend | main.py:84-91 | the entries of a concatenation of hits are those of each part, in hit order |
| Ask.ContextChunks | main.py:83-88 | at most one context chunk per hit |
| Ask.Sources | main.py:83-91 | at most one source per hit |
| Ask.CollectedNonEmpty | main.py:86-91 | neither the context chunks nor the sources ever hold an empty string |
| Ask.CollectHits | main.py:82-91 | the hit loop collects exactly the chunks and the sources of the hits |
| Ask.CollectAppend | main.py:83-91 | both lists keep hit order and are not deduplicated |
| Ask.CollectOne | main.py:84-91 | a hit adds its text (`text`, else `page_content`) iff that is non-empty, and its source (`url`, else `source`) iff that is non-empty |
| Ask.ChunksAndSourcesIndependent | main.py:84-91 | a hit with text but no url adds a chunk and no source, so the lists can differ in length; the same text twice is kept twice |
| Ask.BuildPrompt | main.py:92-97 | the prompt is the fixed head, then the chunks joined by blank lines, then `\n\nQuestion: ` with the query and `\nAnswer:` |
| Ask.EmptyContextPrompt | main.py:92-97 | with no chunks the template still renders, around an empty context |
| Ask.KeySet | main.py:105 | the API key counts as missing exactly when it is unset or the empty string |
| Ask.SelectBackend | main.py:99-109 | local iff the model file exists; remote iff it does not and the key is set; unconfigured otherwise |
| Ask.RemoteAnswer | main.py:118-126 | a missing `choices` gives ''; an empty `choices` list or a non-object body fails; a successful answer is trimmed |
| Ask.RemoteAnswerPresent | main.py:118-126 | with every key present the answer is the first choice's message content, trimmed |
| Ask.RemoteAnswerMissingParts | main.py:118-126 | a first choice without `message`, or whose `message` object has no `content`, gives '' |
| Ask.RemoteReplyAnswer | main.py:110-126 | an unreachable API or a status from 400 to 599 fails upstream; a body that is not JSON is malformed; any other reply answers what the extraction makes of its body; a success is trimmed and a failure is never an HTTP exception of the endpoint |
| Ask.Generate | main.py:99-126 | a successful answer is trimmed; the local path answers the stripped completion; the remote path answers the remote reply's outcome; no generator means HTTP 500 |
| Ask.AskOutcome | main.py:68-128 | the endpoint raises an HTTP exception only as 400 for a query that strips to '' or as 500 with neither model file nor key; a successful answer is trimmed |
| Ask.HandleAsk | main.py:67-128 | the endpoint, with its hit loop, returns exactly `AskOutcome`: 400 for a query that strips to '', a failure when the search raises, otherwise the selected generator's answer to the prompt built from the hits for the stripped query, with their sources |
| Ask.EmptyQueryRejected | main.py:70-72 | the request fails with 400 "Query is empty" exactly when the query strips to ''; no later step can raise that error |
| Ask.RemoteNever400 | main.py:110-126 | generation on the remote backend never fails with an HTTP exception of the endpoint |
| Ask.AnsweredWithSources | main.py:99-128 | a successful request had a non-blank query and a search that returned; its answer is trimmed and its sources are the collected sources of the hits, unchanged |
| Ask.GeneratorChoice | main.py:100-109 | with the model file present the answer is the stripped local completion, whatever the key; with neither model nor key the request fails with 500 |
| Cli.Color | cli.py:21-22 | the text appears unchanged between the escape sequence selecting the code and the reset sequence |
| Cli.BulletLines | cli.py:26 | one line `"  – " + s` per source, in order |
| Cli.PrettySources | cli.py:25-26 | the result is `"  (none)"` exactly when there are no sources; otherwise it begins with the bullet |
| Cli.PrettySourcesLines | cli.py:26 | a non-empty list of newline-free sources prints as exactly one bulleted line per source, with no trailing newline |
| Cli.Render | cli.py:41-45 | the output begins with the green heading and then the answer, or "(no answer returned)" when it is missing, and ends with the sources block for the list, `[]` when it is missing |
| Cli.MissingSourcesAsEmpty | cli.py:45 | a reply without `sources` prints like one with an empty list |

## Left out

- The tokenizer, the sentence embedder and float vectors are inputs. Token ids, chunks and vectors are opaque, and `decode` is not modelled.
- Qdrant is not modelled: search, ranking, the `limit=5`, and upsert storage. The hits are an input. Each upsert call is recorded as its batch of points.
- sqlite is not modelled: connections, commits, the `id` rowid column, and `close_spider`. The `pages` table is a map from url to title and body.
- scrapy is not modelled: scheduling, request deduplication, `allowed_domains` offsite filtering, and the order in which requests run. `parse` returns the follow urls in order.
- BeautifulSoup, `nav` removal, markdownify and `urljoin` are library parsing. Their results are fields of the response the model receives.
- `urlopen` and UTF-8 decoding in `fetch_title` are not modelled. Nor is `HTMLParser`'s own tokenization: its event stream is the input, and text it keeps buffered because `close()` is never called is not modelled.
- The `crawl` placeholder, every argparse entry point, the FastAPI app, static files, `/`, `/health` and the chat page are out of scope. They are wiring with no logic of their own.
- `Llama` construction and inference, the Together request headers and body, and timeouts are foreign calls. Only the dispatch rule, `raise_for_status` on statuses 400-599, and the answer extraction are modelled.
- Ask.Generate: the local model never fails. Loading the model or running it (`Llama(...)` and `llm(...)`) can raise, and those failures are not modelled.
- The client's HTTP request is not modelled. Nor are its two error branches, which print an exception message and exit with status 1.
- Chunker.ChunkIds: `max_tokens` is a natural number. A negative `max_tokens` would make Python's slices count from the end, and that is not modelled.
- Text.LowerAscii: only ASCII letters are lower-cased, where Python's `lower` maps all of Unicode. The result is only ever compared with "title", and the non-ASCII mappings are not modelled.
- Ask.Payload: payload values are strings. Other JSON values, whose truth value Python would test, are not modelled.
- Ask.RemoteAnswer: JSON numbers are integers, and whether a body is JSON at all is an input. Floats and the decoder are not modelled.
- Spider.IsHtml: the Content-Type header is taken as already decoded text. A header that is not UTF-8 would make `decode` raise, and that is not modelled.
- Cli.Render: the reply's `answer` is a string when present. Python would print other JSON values using their own representation.
