# Doc-RAG crawler and chunker, modelled in Dafny

This project models the ingestion half of the Doc-RAG tool. There are two parts:

- **`DocumentationScraper`** (`src/doc_rag/scraper.py`) is a breadth-first crawler.
  - It starts at a base URL.
  - It follows only links on the same host whose path starts with the base path.
  - It normalises every URL: the fragment is cut, and trailing slashes are stripped except on a root path.
  - It fetches each URL at most once and stops after `max_pages` successful fetches.
  - It routes each response to a PDF extractor or an HTML extractor.
  - It keeps every document whose content is not blank.
- **`DocumentEmbedder`** (`src/doc_rag/embedder.py`):
  - `chunk_text` cuts a text into windows of `chunk_size` words that overlap by `overlap` words.
  - `embed_documents` flattens the chunks of all documents into three parallel lists (chunks, metadata, ids), embeds them, and adds them to the vector store in batches of 100.

Files:

- `wrappers.dfy`: `Option` and `Result`.
- `text.dfy`: the parts of Python's `str` the code relies on: `isspace`, `strip`, `split()`, `split(c)[0]`, `split(c)[-1]`, `rstrip(c)`, `startswith`, `endswith`, `in`, `join`.
- `urls.dfy`: the scheme / netloc / path projection of `urlparse`, and `normalize_url`.
- `crawler.dfy`: the scraper.
  - It is a class whose `visited`, `queued` and `documents` fields are updated in place, as in the source.
  - `Web` is a map from URL to a successful response. A URL outside the map is a failed fetch.
  - Pure specification functions (`NewLinks`, `Harvest`, `Crawled`) describe what the methods do.
  - `Discovered` states the breadth-first order of a run: which URLs each popped page put on the list, and where.
- `chunking.dfy`: `chunk_text` as a loop method proved against a specification function, plus the window lemmas.
- `embedding.dfy`: `embed_documents`.
  - The class records every `collection.add` call in `added`.
  - Embedding is a function from a chunk to its vector.

## Model

| member | source | states |
|---|---|---|
| Text.Strip | src/doc_rag/scraper.py:113 | `s.strip()` is empty exactly when every character of `s` is whitespace; otherwise it begins and ends with a non-space. It is a prefix of `s` with its leading whitespace removed, and all that is cut on the right is whitespace. |
| Text.WordsEmptyIffBlank | src/doc_rag/embedder.py:38 | `text.split()` is empty exactly when the text is blank. |
| Text.WordsAreWords | src/doc_rag/embedder.py:38 | Every entry `split()` yields is non-empty and contains no whitespace. |
| Text.WordsOfJoin | src/doc_rag/embedder.py:42 | Splitting a space-joined list of words gives back the same words. |
| Text.BeforeFirst | src/doc_rag/scraper.py:53 | `s.split(c)[0]` is a prefix of `s` with no `c`, ending at the first `c` or at the end. |
| Text.AfterLast | src/doc_rag/scraper.py:119 | `s.split(c)[-1]` is a suffix of `s` with no `c`, starting after the last `c` or at the start. |
| Text.RStripChar | src/doc_rag/scraper.py:18 | `rstrip(c)` removes every trailing `c`: the result is a prefix, all that was cut is `c`, and it does not end in `c`. |
| Text.StartsWith | src/doc_rag/scraper.py:37 | `startswith(p)` holds exactly when `p` is a prefix. |
| Text.EndsWith | src/doc_rag/scraper.py:165 | `endswith(p)` holds exactly when `p` is the suffix of its own length. |
| Text.Contains | src/doc_rag/scraper.py:165 | `t in s` holds exactly when `t` occurs at some position of `s`. |
| Urls.SplitNetloc | src/doc_rag/scraper.py:29-33 | After a leading `//` the netloc runs up to the first `/`, `?` or `#`: it contains none of them, what follows is empty or starts with one of them, and `//`, netloc and the rest make up the input again. Without a leading `//` the netloc is empty and the input is kept whole. |
| Urls.PathPart | src/doc_rag/scraper.py:29-37 | The path `urlparse` reports is a prefix of what follows the netloc, holds no `?` or `#`, and ends at the end, at the first `?` or `#`, or at a `;` where params are split off. Where params are not split (scheme without params, or no `;`), it is exactly the text before the first `?` or `#`. |
| Urls.CutParams | src/doc_rag/scraper.py:29-37 | `;params` are cut, at a `;`, only for a scheme that uses params and a path that has a `;`; any other path is kept whole. |
| Urls.Parse | src/doc_rag/scraper.py:29-37 | The parsed netloc holds no `/`, `?` or `#`, and the parsed path holds no `?` or `#`. Its values are those of `SplitNetloc` and `PathPart`, and `ParseAuthority` states them for a whole URL. |
| Urls.ParseAuthority | src/doc_rag/scraper.py:15-37 | For `scheme://host/path?query#fragment` with a valid scheme, a host without `/`, `?` or `#` and a path without `?`, `#` or `;`, `urlparse` gives exactly that host as netloc and that path as path, whatever query or fragment follows. |
| Urls.Lower | src/doc_rag/scraper.py:164 | Lower-casing keeps the length and maps each character on its own. |
| Urls.NormalizeUrl | src/doc_rag/scraper.py:50-58 | `normalize_url`: cut the fragment, then strip trailing slashes unless the path is `/`. Its meaning is stated by `NormalizeUrlShape`, `NormalizeIdempotent`, `FragmentIgnored` and `TrailingSlashIgnored`. |
| Urls.Netloc | src/doc_rag/scraper.py:29-33 | The netloc of `urlparse`. `ParseAuthority` states which host it yields. |
| Urls.Path | src/doc_rag/scraper.py:35-37 | The path of `urlparse`. `ParseAuthority` states which path it yields. |
| Urls.NormalizeUrlShape | src/doc_rag/scraper.py:50-58 | A normal form is a prefix of the URL without its fragment and without `#`. It removes only slashes. Off the root path it leaves no trailing slash, and on the root path it keeps the fragment-free URL unchanged, so the normal form is fixed. |
| Urls.NormalizeIdempotent | src/doc_rag/scraper.py:50-58 | Normalising a normal form changes nothing. |
| Urls.FragmentIgnored | src/doc_rag/scraper.py:53 | `u#anything` normalises like `u`. |
| Urls.TrailingSlashIgnored | src/doc_rag/scraper.py:54-57 | Off the root path, `u/` normalises like `u`. |
| Crawler.InScope | src/doc_rag/scraper.py:27-48 | The scope part of `is_valid_url`, without the seen check: same netloc, slash-stripped path that `startswith` the base path, no excluded extension. Characterised by `EndsWithAnyIffSome` and `Text.StartsWith`. |
| Crawler.DocumentationScraper.IsValidUrl | src/doc_rag/scraper.py:27-48 | `is_valid_url`: in scope and neither visited nor queued. `NewLinksFresh` and `NewLinksComplete` state what it admits. |
| Crawler.EndsWithAnyIffSome | src/doc_rag/scraper.py:45 | `endswith` with a tuple holds exactly when one of the excluded suffixes ends the URL. |
| Crawler.NewLinks | src/doc_rag/scraper.py:60-71 | The links `extract_links` returns. Characterised by `NewLinksFresh`, `NewLinksComplete`, `NewLinksInAnchorOrder` and `NewLinksFirstOccurrence`. |
| Crawler.NewLinksFresh | src/doc_rag/scraper.py:60-71 | Every returned link is an in-scope, previously unseen, normalised anchor, and no link is returned twice. |
| Crawler.NewLinksComplete | src/doc_rag/scraper.py:63-69 | No in-scope, unseen anchor is missed. |
| Crawler.NewLinksInAnchorOrder | src/doc_rag/scraper.py:63-68 | Links come out in anchor order. |
| Crawler.NewLinksFirstOccurrence | src/doc_rag/scraper.py:63-69 | Links come in the order of their first anchors: an earlier link has an anchor before every anchor of a later link, so a repeated anchor never reorders them. |
| Crawler.FindFirst | src/doc_rag/scraper.py:77-80 | `soup.find` returns the first element of the requested kind, or none when there is no such element. |
| Crawler.MainContent | src/doc_rag/scraper.py:76-81 | The `main or article or div.content or body` chain finds a region exactly when one of the four kinds is present. It picks the most preferred kind, and the earliest element of that kind. |
| Crawler.ExtractContent | src/doc_rag/scraper.py:73-101 | It gives a document exactly when a content region exists. The document has the page's URL, the `<h1>` text as title or else the URL, and as content the markdown of exactly the region the `main or article or div.content or body` chain selects. |
| Crawler.NonBlankPages | src/doc_rag/scraper.py:110-114 | The page texts kept for a PDF. Characterised by `NonBlankPagesSound`, `NonBlankPagesComplete`, `NonBlankPagesInOrder` and `NonBlankPagesCount`. |
| Crawler.NonBlankPagesSound | src/doc_rag/scraper.py:110-114 | Only non-blank page texts are kept, and no more than there are pages. |
| Crawler.NonBlankPagesComplete | src/doc_rag/scraper.py:111-114 | Every non-blank page text is kept. |
| Crawler.NonBlankPagesInOrder | src/doc_rag/scraper.py:111-114 | Kept pages stay in page order. |
| Crawler.NonBlankPagesCount | src/doc_rag/scraper.py:110-114 | Every non-blank page text is kept as many times as it occurs, and no blank one is kept. |
| Crawler.PdfTitle | src/doc_rag/scraper.py:118-126 | The title of a PDF document. Characterised by `PdfTitleChoice` and `BlankFirstLineFallsBack`. |
| Crawler.PdfTitleChoice | src/doc_rag/scraper.py:118-126 | The title is the metadata title when it is present and non-empty. Otherwise it is the stripped first line, when that is non-empty and shorter than 200 characters. Otherwise it is the file name. |
| Crawler.ExtractPdfContent | src/doc_rag/scraper.py:103-139 | The PDF document carries the fetched URL. |
| Crawler.UnreadablePdfIsDropped | src/doc_rag/scraper.py:133-139 | An unparsable PDF gives the file name as title and blank content. |
| Crawler.PdfKeptIffSomeTextPage | src/doc_rag/scraper.py:110-116 | A PDF's content is non-blank exactly when it parses and some page has text. |
| Crawler.BlankFirstLineFallsBack | src/doc_rag/scraper.py:122-126 | When the first page opens with a newline, the first line is blank, so the title falls back to the file name. |
| Crawler.IsPdf | src/doc_rag/scraper.py:164-165 | The PDF test of the fetch loop. Characterised by `IsPdfIff`. |
| Crawler.IsPdfIff | src/doc_rag/scraper.py:164-165 | A response is a PDF exactly when the URL ends in `.pdf` or the lower-cased content type contains `application/pdf`. |
| Crawler.DocumentsFromMeans | src/doc_rag/scraper.py:170-179 | Collected documents have non-blank content and come from distinct URLs of the given set. There are no more of them than URLs. |
| Crawler.HarvestedMeans | src/doc_rag/scraper.py:159-179 | A fetch adds at most one document: the page's own, from its URL, when the fetch succeeds and the content is not blank. |
| Crawler.PageLinksFresh | src/doc_rag/scraper.py:167-183 | The links a fetch adds are new, in scope, distinct, and taken from the fetched page's own normalised anchors. A failed fetch or a PDF adds none. |
| Crawler.FrontierExtend | src/doc_rag/scraper.py:182-183 | Appending fresh, distinct, in-scope links keeps the queue discipline: nothing is queued twice. |
| Crawler.CrawledStart | src/doc_rag/scraper.py:144-146 | The run starts with only the normalised base URL on the list, and it is queued. |
| Crawler.CrawledRound | src/doc_rag/scraper.py:149-192 | One loop round keeps the run invariant (queue discipline, visited set, documents, budget). Either a new link target was queued or the list got shorter. |
| Crawler.FreshRunDocuments | src/doc_rag/scraper.py:141-194 | A fresh run returns the harvest of the popped URLs in order. Each document comes from a distinct successfully fetched URL and has non-blank content, and there are no more documents than `max_pages`. At most `max_pages` popped URLs were fetched successfully. |
| Crawler.FreshRunOrder | src/doc_rag/scraper.py:144-183 | No URL is popped twice. The seed comes first and every later URL passed the scope test. The queued set is exactly what went on the list. |
| Crawler.BudgetRound | src/doc_rag/scraper.py:149-161 | Popping a URL while fewer than `max_pages` URLs are visited keeps the loop guard true at every pop so far, blank or failed pages included. |
| Crawler.DiscoveredStart | src/doc_rag/scraper.py:144-146 | Before the first round nothing was popped and the list is just the seed: the breadth-first order holds trivially. |
| Crawler.DiscoveredRound | src/doc_rag/scraper.py:149-183 | One round keeps the breadth-first order: the popped URLs followed by the list are the seed followed by every round's links in turn, and round `k`'s links are what page `k` yields against the visited and queued sets as they were before that round. |
| Crawler.ListedFromEarlierPage | src/doc_rag/scraper.py:149-183 | Every URL on the list after the seed was found on a page popped before it. |
| Crawler.DocumentationScraper.constructor | src/doc_rag/scraper.py:14-25 | The base URL loses its trailing slashes. Base path and domain come from `urlparse`. The crawler starts with nothing visited, queued or collected. |
| Crawler.DocumentationScraper.ExtractLinks | src/doc_rag/scraper.py:60-71 | Returns exactly the new in-scope links of the normalised anchors, and adds exactly those to `queued`. |
| Crawler.DocumentationScraper.Fetch | src/doc_rag/scraper.py:158-192 | A failed fetch changes nothing. A successful one marks the URL visited, appends the page's non-blank document, and queues and returns the page's new links. |
| Crawler.DocumentationScraper.Route | src/doc_rag/scraper.py:164-183 | A PDF adds its document and no links. HTML adds its document and queues its links, unless there is no content region. |
| Crawler.DocumentationScraper.Keep | src/doc_rag/scraper.py:170-171 | The document is appended exactly when its content is not blank, and the invariant is kept. |
| Crawler.DocumentationScraper.Visit | src/doc_rag/scraper.py:150-161 | A URL that is already visited is skipped. Any other URL is fetched. |
| Crawler.DocumentationScraper.Scrape | src/doc_rag/scraper.py:141-194 | The loop ends with the run invariant, and either the list is empty or `max_pages` URLs have been visited. The popped URLs and the remaining list follow the breadth-first order: seed first, then each popped page's new links in the order the pages were popped, each computed against the state before that page. |
| Crawler.Crawl | src/doc_rag/scraper.py:141-194 | A fresh `scrape()`: documents are the ordered harvest of the popped URLs, at most `max_pages` of them, with distinct URLs and non-blank content. Popped URLs are distinct, the normalised base comes first, and the others are in scope. The popped URLs follow the breadth-first order from the normalised base, and the run stops only when the list is empty or `max_pages` fetches succeeded. Every pop happened while fewer than `max_pages` URLs were visited, so at most `max_pages` fetches succeed, whether or not they gave a document. |
| Chunking.Slice | src/doc_rag/embedder.py:42 | Python's `words[i : i + chunk_size]`, with bounds clamped to the list. `WindowAt` states what it yields. |
| Chunking.Chunks | src/doc_rag/embedder.py:34-46 | The specification of `chunk_text`. Characterised by `ChunksOfText`, `ChunkCount`, `ChunkAt`, `WordInSomeChunk`, `ChunksOverlap` and `BlankTextNoChunks`. |
| Chunking.ChunkText | src/doc_rag/embedder.py:34-46 | Equals the chunk specification: a `range` error for a zero step, no chunks for a negative step, and otherwise the stepped windows. |
| Chunking.ChunkLoop | src/doc_rag/embedder.py:41-44 | The loop collects exactly the non-empty windows at `0, step, 2*step, ...`. |
| Chunking.ChunksOfText | src/doc_rag/embedder.py:38-41 | For `0 <= overlap < chunk_size`, the result is the stepped loop over `text.split()`, whose entries are all words. |
| Chunking.StridedCount | src/doc_rag/embedder.py:41 | When no window is dropped, the loop yields `ceil((n - i) / step)` items. |
| Chunking.StridedAt | src/doc_rag/embedder.py:41-44 | Item `k` is the window at `i + k*step`. |
| Chunking.WindowAt | src/doc_rag/embedder.py:42-43 | A window starting inside the words is the words up to `chunk_size` of them, and it is never empty. |
| Chunking.ChunkCount | src/doc_rag/embedder.py:34-46 | With `0 <= overlap < chunk_size`, a text of `n` words gives `ceil(n / (chunk_size - overlap))` chunks. |
| Chunking.ChunkAt | src/doc_rag/embedder.py:41-44 | Chunk `k` is the space-join of words `[k*s, k*s + chunk_size)`. Splitting it gives exactly those words, 1 to `chunk_size` of them. |
| Chunking.WordInSomeChunk | src/doc_rag/embedder.py:41-44 | Every word of the text lies in the fresh part of some chunk, so no word is lost. |
| Chunking.ChunksFirstAndLast | src/doc_rag/embedder.py:41-44 | The first chunk starts at word 0, and the last chunk reaches the final word. |
| Chunking.WindowsOverlap | src/doc_rag/embedder.py:41-42 | A full window's last `overlap` words are the next window's first `overlap` words. |
| Chunking.ChunksOverlap | src/doc_rag/embedder.py:41-44 | Consecutive chunks share exactly `overlap` words whenever the first one is full. |
| Chunking.BlankTextNoChunks | src/doc_rag/embedder.py:38-44 | For any non-zero step, the call succeeds and a blank text gives no chunks. With `0 <= overlap < chunk_size`, any other text gives at least one chunk. |
| Embedding.Encodings | src/doc_rag/embedder.py:67-69 | One vector per chunk: the embedding of that chunk. |
| Embedding.ChunkLists | src/doc_rag/embedder.py:55-57 | One chunk list per document. |
| Embedding.AllChunks | src/doc_rag/embedder.py:55-60 | `all_chunks`: the chunks of every document, document after document. `ChunkLocated` and `EntryLocated` state where each chunk lands. |
| Embedding.AllMetadatas | src/doc_rag/embedder.py:59-63 | One metadata entry per chunk. |
| Embedding.AllIds | src/doc_rag/embedder.py:59-64 | One id per chunk. |
| Embedding.AppendChunks | src/doc_rag/embedder.py:59-64 | Appends the document's chunks, their metadata numbered from 0, and their ids. |
| Embedding.Flatten | src/doc_rag/embedder.py:50-64 | Builds the three parallel lists of every document's chunks, in document order. |
| Embedding.ChunkLocated | src/doc_rag/embedder.py:55-64 | Chunk `c` of document `d` sits at the document's offset plus `c`, with that document's URL and title, `chunk_index == c`, and id `(d, c)`. |
| Embedding.EntryLocated | src/doc_rag/embedder.py:55-64 | Every entry of the lists is some chunk `c` of some document `d`. |
| Embedding.IdsDistinct | src/doc_rag/embedder.py:64 | No two entries share an id. |
| Embedding.BatchAt | src/doc_rag/embedder.py:73-82 | Batch `k` holds the entries `[100k, min(100k + 100, n))` of all four lists, 1 to 100 of them. |
| Embedding.BatchCount | src/doc_rag/embedder.py:74 | There are `ceil(n / 100)` batches. |
| Embedding.BatchesStoreAll | src/doc_rag/embedder.py:73-82 | The batches together store every entry exactly once, in order, with the four lists kept aligned. |
| Embedding.DocumentEmbedder.constructor | src/doc_rag/embedder.py:32 | The embedder starts with its model and an empty store log. |
| Embedding.DocumentEmbedder.AddBatches | src/doc_rag/embedder.py:73-82 | The loop adds exactly the batches of 100 in order. |
| Embedding.DocumentEmbedder.EmbedDocuments | src/doc_rag/embedder.py:48-86 | The store receives the batches of the flattened chunks, their embeddings, metadata and ids. |

## Left out

- Network access (`requests.get`, its 10-second timeout, `raise_for_status`), `time.sleep` and all logging are outside the model. A fetch is a lookup in a `Web` map, and a URL absent from it is a failed fetch.
- The counter `total_pages` is left out, because it only feeds a log message.
- BeautifulSoup and markdownify are outside the model.
  - A page is given as its elements, in document order, with each element's markdown already computed after the `script`/`style`/`nav`/`header`/`footer` clean-up.
  - The page also carries the stripped text of its first `<h1>`.
  - The page's hrefs are the anchors left after that clean-up of the chosen region, because `extract_links` runs on the soup after `decompose`. Under the `<body>` fallback this drops the links of the page's nav, header and footer.
  - The `decompose` step is therefore not modelled separately.
- `urljoin` is not modelled. A page's anchors arrive already resolved against the page URL.
- Crawler.DocumentationScraper.ExtractLinks: a malformed href on which `urljoin` or `urlparse` raises `ValueError` (for example `http://[x`) is not modelled. In the source the loop's `except` then drops the rest of that page's links, after the document was appended and after the page's earlier links were added to `queued_urls` without reaching the list. For such a page, the model's `queued == Elements(popped + pending)` and the breadth-first order do not hold. A `ValueError` on the base URL itself, outside the `try`, is not modelled either.
- pypdf is outside the model. A PDF body is its page texts and metadata title, or `Unreadable`, which stands for any exception while parsing.
- `urlparse` is modelled only as far as the scheme, netloc and path that the crawler reads. Lower-casing is ASCII-only.
- Urls.Parse: its own contract states only the shape of the result. The values are stated by the contracts of `SplitNetloc` and `PathPart`. `ParseAuthority` states them for a whole URL only in the `scheme://host/path?query#fragment` form with a plain path, and not for URLs without a scheme or with `;params`.
- Urls.Parse: it does not model `urlsplit`'s stripping of leading C0-control and space characters or its removal of `\t`, `\r` and `\n` anywhere in the URL.
- Crawler.DocumentationScraper: `normalize_url` and the scope part of `is_valid_url` are held as function-valued fields. The constructor fixes them to `NormalizeUrl` and the scope test, but the per-method contracts are stated over the fields.
- Crawler.ExtractContent: when no content region exists, the source raises on `None.find_all`, and the loop's `except` swallows it after the URL is marked visited. The model returns `None`, which has the same effect: the URL stays visited, with no document and no links.
- Crawler.DocumentationScraper.Scrape: `popped`, `pending` and `rounds` are ghost outputs; the source returns only the documents.
- Crawler.ExtractPdfContent: its own contract states only the URL. The title and content choices are proved in `PdfTitleChoice`, `PdfKeptIffSomeTextPage` and `UnreadablePdfIsDropped`.
- The `print` in `embed_documents` is left out, as are the log lines.
- `SentenceTransformer.encode` is modelled as a function applied to each chunk. Numeric vectors are abstract.
- ChromaDB is modelled as the ordered log of `collection.add` calls. Client and collection set-up, and `clear_collection`, are left out because they are database I/O.
- Embedding.AllIds: ids are kept as the `(doc_idx, chunk_idx)` pair that `doc_{d}_chunk_{c}` is formatted from. The string formatting is not modelled.
- `retriever.py`, `ui.py`, `cli.py` and `utils.py` are not part of this model.
