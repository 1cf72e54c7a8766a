/**
  * `DocumentationScraper`: a breadth-first crawler that stays on one host and
  * under one path prefix, fetches each queued URL at most once, routes the
  * response to an HTML or a PDF extractor and collects the non-blank documents.
  *
  * The network, HTML parsing, markdown conversion and PDF decoding are outside
  * the model; their results arrive as values (`Web`, `HtmlPage`, `PdfFile`).
  */
module Crawler {
  import opened Wrappers
  import opened Text
  import opened Urls

  /** The record the crawler produces for a page: `{"url", "title", "content"}`. */
  datatype Document = Document(url: string, title: string, content: string)

  /**
    * An HTML element as the parser finds it, in document order. `markdown` is
    * what the markdown conversion makes of the element once its script,
    * style, nav, header and footer descendants are removed.
    */
  datatype Element = Element(tag: string, classes: seq<string>, markdown: string)

  /**
    * A parsed HTML page: its elements, the stripped text of the first `<h1>`
    * left after the clean-up (if any), and the `href` of every anchor left
    * after the clean-up, in document order, already resolved against the
    * page's URL by `urljoin`. The clean-up removes the script, style, nav,
    * header and footer elements inside the chosen content region before the
    * links are walked, so anchors inside them are not among `hrefs` (under
    * the `<body>` fallback, none of the page's nav, header or footer links).
    */
  datatype HtmlPage = HtmlPage(elements: seq<Element>, h1: Option<string>, hrefs: seq<string>)

  /** What the PDF reader makes of the body: page texts and the metadata title, or a parse failure. */
  datatype PdfFile = Unreadable | PdfFile(pages: seq<string>, metadataTitle: Option<string>)

  /**
    * A successful response. `contentType` is the `content-type` header, `""`
    * when absent; the body is given in both readings and the crawler picks one.
    */
  datatype Response = Response(contentType: string, html: HtmlPage, pdf: PdfFile)

  /** The web as the crawler sees it: fetching a URL outside the map fails (network error or non-2xx status). */
  type Web = map<string, Response>

  /** The set of the elements of `s`, gathered from the back. */
  function Elements(s: seq<string>): set<string>
  {
    if s == [] then {} else Elements(s[..|s| - 1]) + {s[|s| - 1]}
  }

  lemma {:induction false} ElementsIff(s: seq<string>)
    ensures forall x :: x in Elements(s) <==> x in s
  {
    if s != [] {
      ElementsIff(s[..|s| - 1]);
      assert s == s[..|s| - 1] + [s[|s| - 1]];
    }
  }

  lemma {:induction false} ElementsAppend(a: seq<string>, b: seq<string>)
    ensures Elements(a + b) == Elements(a) + Elements(b)
    decreases |b|
  {
    if b == [] {
      assert a + b == a;
    } else {
      var init := b[..|b| - 1];
      ElementsAppend(a, init);
      assert (a + b)[..|a + b| - 1] == a + init;
    }
  }

  predicate NoDup<T(==)>(s: seq<T>)
  {
    forall i, j :: 0 <= i < j < |s| ==> s[i] != s[j]
  }

  // ---------------------------------------------------------------- scope

  /** The suffixes `is_valid_url` rejects, tested against the whole URL string (query included). */
  const ExcludedExtensions: seq<string> := [".zip", ".tar.gz", ".jpg", ".png", ".gif", ".svg", ".ico"]

  /** `url.endswith(tuple)`: the suffixes are tried in order. */
  function EndsWithAny(url: string, suffixes: seq<string>): bool
  {
    if suffixes == [] then false
    else EndsWith(url, suffixes[0]) || EndsWithAny(url, suffixes[1..])
  }

  /** `endswith` with a tuple holds exactly when one of the suffixes ends the string. */
  lemma {:induction false} EndsWithAnyIffSome(url: string, suffixes: seq<string>)
    ensures EndsWithAny(url, suffixes) <==>
      exists k :: 0 <= k < |suffixes| && |suffixes[k]| <= |url| && url[|url| - |suffixes[k]|..] == suffixes[k]
    decreases |suffixes|
  {
    if suffixes != [] {
      EndsWithAnyIffSome(url, suffixes[1..]);
      assert forall k :: 1 <= k < |suffixes| ==> suffixes[k] == suffixes[1..][k - 1];
      if !EndsWith(url, suffixes[0]) && exists k :: 0 <= k < |suffixes| && |suffixes[k]| <= |url| && url[|url| - |suffixes[k]|..] == suffixes[k] {
        var k :| 0 <= k < |suffixes| && |suffixes[k]| <= |url| && url[|url| - |suffixes[k]|..] == suffixes[k];
        assert k != 0;
        assert suffixes[1..][k - 1] == suffixes[k];
      }
    }
  }

  /**
    * The scope part of `is_valid_url`: same netloc, path (trailing slashes
    * removed) starting with the base path as a plain string prefix, and no
    * excluded extension.
    */
  predicate InScope(domain: string, basePath: string, url: string)
  {
    Netloc(url) == domain && StartsWith(RStripChar(Path(url), '/'), basePath) && !EndsWithAny(url, ExcludedExtensions)
  }

  // ---------------------------------------------------------------- links

  /** `normalize` applied to every anchor, in anchor order. */
  function NormalizeAll(normalize: string -> string, hrefs: seq<string>): (r: seq<string>)
    ensures |r| == |hrefs|
  {
    if hrefs == [] then [] else [normalize(hrefs[0])] + NormalizeAll(normalize, hrefs[1..])
  }

  lemma {:induction false} NormalizeAllAt(normalize: string -> string, hrefs: seq<string>, i: nat)
    requires i < |hrefs|
    ensures NormalizeAll(normalize, hrefs)[i] == normalize(hrefs[i])
    decreases i
  {
    if i > 0 {
      NormalizeAllAt(normalize, hrefs[1..], i - 1);
    }
  }

  /** The scope test as a value, so that the link walk below does not depend on how URLs are parsed. */
  function ScopeTest(domain: string, basePath: string): string -> bool
  {
    u => InScope(domain, basePath, u)
  }

  /**
    * The links `extract_links` returns for the normalised anchors `candidates`
    * when it starts with `seen` as `visited_urls | queued_urls`: a candidate is
    * kept when it is in scope and not seen yet, which makes it seen.
    */
  function NewLinks(inScope: string -> bool, seen: set<string>, candidates: seq<string>): seq<string>
    decreases |candidates|
  {
    if candidates == [] then []
    else
      var u := candidates[0];
      if inScope(u) && u !in seen then
        [u] + NewLinks(inScope, seen + {u}, candidates[1..])
      else
        NewLinks(inScope, seen, candidates[1..])
  }

  /** One step of the walk: what happens to the candidate at position `i`. */
  lemma NewLinksStep(inScope: string -> bool, seen: set<string>, candidates: seq<string>, i: nat)
    requires i < |candidates|
    ensures NewLinks(inScope, seen, candidates[i..]) ==
      if inScope(candidates[i]) && candidates[i] !in seen
      then [candidates[i]] + NewLinks(inScope, seen + {candidates[i]}, candidates[i + 1..])
      else NewLinks(inScope, seen, candidates[i + 1..])
  {
    assert candidates[i..][1..] == candidates[i + 1..];
  }

  /** Appending one link to the ones found so far. */
  lemma AppendOne(links: seq<string>, url: string)
    ensures Elements(links + [url]) == Elements(links) + {url}
  {
    assert (links + [url])[..|links|] == links;
  }

  /** Every link is a new, in-scope candidate, and none comes twice. */
  lemma {:induction false} NewLinksFresh(inScope: string -> bool, seen: set<string>, candidates: seq<string>)
    ensures var links := NewLinks(inScope, seen, candidates);
      NoDup(links) &&
      (forall k :: 0 <= k < |links| ==> links[k] !in seen && inScope(links[k]) && links[k] in candidates)
    decreases |candidates|
  {
    if candidates != [] {
      var u := candidates[0];
      if inScope(u) && u !in seen {
        NewLinksFresh(inScope, seen + {u}, candidates[1..]);
      } else {
        NewLinksFresh(inScope, seen, candidates[1..]);
      }
    }
  }

  /** No in-scope, unseen candidate is dropped. */
  lemma {:induction false} NewLinksComplete(inScope: string -> bool, seen: set<string>, candidates: seq<string>, i: nat)
    requires i < |candidates|
    requires inScope(candidates[i]) && candidates[i] !in seen
    ensures candidates[i] in NewLinks(inScope, seen, candidates)
    decreases i
  {
    var u := candidates[0];
    if i > 0 {
      assert candidates[1..][i - 1] == candidates[i];
      if inScope(u) && u !in seen {
        if u != candidates[i] {
          NewLinksComplete(inScope, seen + {u}, candidates[1..], i - 1);
        }
      } else {
        NewLinksComplete(inScope, seen, candidates[1..], i - 1);
      }
    }
  }

  /** `a` is `b` with some elements left out, order kept. */
  predicate IsSubsequence<T(==)>(a: seq<T>, b: seq<T>)
    decreases |b|
  {
    a == [] || (b != [] && if a[0] == b[0] then IsSubsequence(a[1..], b[1..]) else IsSubsequence(a, b[1..]))
  }

  /** The links come out in anchor order. */
  lemma {:induction false} NewLinksInAnchorOrder(inScope: string -> bool, seen: set<string>, candidates: seq<string>)
    ensures IsSubsequence(NewLinks(inScope, seen, candidates), candidates)
    decreases |candidates|
  {
    if candidates != [] {
      var u := candidates[0];
      if inScope(u) && u !in seen {
        NewLinksInAnchorOrder(inScope, seen + {u}, candidates[1..]);
      } else {
        var rest := NewLinks(inScope, seen, candidates[1..]);
        NewLinksInAnchorOrder(inScope, seen, candidates[1..]);
        NewLinksFresh(inScope, seen, candidates[1..]);
        assert rest == [] || rest[0] != u;
      }
    }
  }

  /**
    * Links come in the order of their first anchors: an earlier link has an
    * anchor before any anchor of a later one, so a repeated anchor never
    * reorders them.
    */
  lemma {:induction false} NewLinksFirstOccurrence(inScope: string -> bool, seen: set<string>, candidates: seq<string>)
    ensures var links := NewLinks(inScope, seen, candidates);
      forall k, l :: 0 <= k < l < |links| ==>
        exists i :: 0 <= i < |candidates| && candidates[i] == links[k] && links[l] !in candidates[..i + 1]
    decreases |candidates|
  {
    if candidates != [] {
      var u, cs := candidates[0], candidates[1..];
      var keep := inScope(u) && u !in seen;
      var seen' := if keep then seen + {u} else seen;
      var rest := NewLinks(inScope, seen', cs);
      NewLinksFirstOccurrence(inScope, seen', cs);
      NewLinksFresh(inScope, seen', cs);
      assert forall j :: 0 <= j < |rest| ==> rest[j] != u;
      var links := NewLinks(inScope, seen, candidates);
      forall k, l | 0 <= k < l < |links|
        ensures exists i :: 0 <= i < |candidates| && candidates[i] == links[k] && links[l] !in candidates[..i + 1]
      {
        var i := FirstOccurrenceCons(candidates, rest, links, keep, k, l);
      }
    }
  }

  /**
    * Putting one candidate in front keeps the first-occurrence order, whether
    * that candidate is kept or not: the witness for links `k < l`.
    */
  lemma FirstOccurrenceCons(candidates: seq<string>, rest: seq<string>, links: seq<string>, keep: bool, k: nat, l: nat)
    returns (i: nat)
    requires candidates != []
    requires links == if keep then [candidates[0]] + rest else rest
    requires forall j :: 0 <= j < |rest| ==> rest[j] != candidates[0]
    requires forall k, l :: 0 <= k < l < |rest| ==>
      exists i :: 0 <= i < |candidates[1..]| && candidates[1..][i] == rest[k] && rest[l] !in candidates[1..][..i + 1]
    requires k < l < |links|
    ensures i < |candidates| && candidates[i] == links[k] && links[l] !in candidates[..i + 1]
  {
    var u, cs := candidates[0], candidates[1..];
    var d := if keep then 1 else 0;
    assert links[l] == rest[l - d] && links[l] != u;
    if keep && k == 0 {
      assert candidates[..1] == [u];
      i := 0;
    } else {
      var i' :| 0 <= i' < |cs| && cs[i'] == rest[k - d] && rest[l - d] !in cs[..i' + 1];
      assert candidates[..i' + 2] == [u] + cs[..i' + 1];
      i := i' + 1;
    }
  }

  // ---------------------------------------------------------------- HTML

  /**
    * How a candidate for the main content region ranks: `<main>` first, then
    * `<article>`, then a `<div>` of class content, documentation or docs,
    * then `<body>`; 4 for everything else.
    */
  function Rank(e: Element): nat
  {
    if e.tag == "main" then 0
    else if e.tag == "article" then 1
    else if e.tag == "div" && ("content" in e.classes || "documentation" in e.classes || "docs" in e.classes) then 2
    else if e.tag == "body" then 3
    else 4
  }

  /** `soup.find(...)` for one kind of candidate: the first element of rank `k`. */
  function FindFirst(elements: seq<Element>, k: nat): (r: Option<nat>)
    ensures r.None? ==> forall i :: 0 <= i < |elements| ==> Rank(elements[i]) != k
    ensures r.Some? ==> r.value < |elements| && Rank(elements[r.value]) == k
    ensures r.Some? ==> forall i :: 0 <= i < r.value ==> Rank(elements[i]) != k
  {
    if elements == [] then None
    else if Rank(elements[0]) == k then Some(0)
    else match FindFirst(elements[1..], k)
      case None => None
      case Some(i) => Some(i + 1)
  }

  /** The `main or article or div.content or body` chain of `extract_content`. */
  function MainContent(elements: seq<Element>): (r: Option<nat>)
    ensures r.None? <==> forall i :: 0 <= i < |elements| ==> Rank(elements[i]) == 4
    ensures r.Some? ==> r.value < |elements| && Rank(elements[r.value]) < 4
    ensures r.Some? ==> forall i :: 0 <= i < |elements| ==>
      Rank(elements[r.value]) < Rank(elements[i]) || (Rank(elements[i]) == Rank(elements[r.value]) && r.value <= i)
  {
    match FindFirst(elements, 0)
    case Some(i) => Some(i)
    case None =>
      match FindFirst(elements, 1)
      case Some(i) => Some(i)
      case None =>
        match FindFirst(elements, 2)
        case Some(i) => Some(i)
        case None => FindFirst(elements, 3)
  }

  /**
    * `extract_content`: the record of an HTML page, or `None` where the source
    * raises because the page has no candidate region at all (not even `<body>`).
    */
  function ExtractContent(page: HtmlPage, url: string): (r: Option<Document>)
    ensures r.None? <==> MainContent(page.elements).None?
    ensures r.Some? ==> r.value.url == url
    ensures r.Some? ==> r.value.title == if page.h1.Some? then page.h1.value else url
    ensures r.Some? ==> r.value.content == page.elements[MainContent(page.elements).value].markdown
  {
    match MainContent(page.elements)
    case None => None
    case Some(i) => Some(Document(url, if page.h1.Some? then page.h1.value else url, page.elements[i].markdown))
  }

  // ---------------------------------------------------------------- PDF

  /** The page texts whose `strip()` is non-empty, in page order. */
  function NonBlankPages(pages: seq<string>): seq<string>
  {
    if pages == [] then []
    else if Strip(pages[0]) == "" then NonBlankPages(pages[1..])
    else [pages[0]] + NonBlankPages(pages[1..])
  }

  /** Every kept page is a non-blank page of the file, and no more pages are kept than there are. */
  lemma {:induction false} NonBlankPagesSound(pages: seq<string>)
    ensures var kept := NonBlankPages(pages);
      |kept| <= |pages| && forall k :: 0 <= k < |kept| ==> !IsBlank(kept[k]) && kept[k] in pages
  {
    if pages != [] {
      NonBlankPagesSound(pages[1..]);
    }
  }

  /** Every non-blank page is kept. */
  lemma NonBlankPagesComplete(pages: seq<string>)
    ensures forall i :: 0 <= i < |pages| && !IsBlank(pages[i]) ==> pages[i] in NonBlankPages(pages)
  {
    NonBlankPagesCount(pages);
    forall i | 0 <= i < |pages| && !IsBlank(pages[i])
      ensures pages[i] in NonBlankPages(pages)
    {
      assert pages[i] in multiset(pages);
      assert pages[i] in multiset(NonBlankPages(pages));
    }
  }

  /** The kept pages come in page order. */
  lemma {:induction false} NonBlankPagesInOrder(pages: seq<string>)
    ensures IsSubsequence(NonBlankPages(pages), pages)
  {
    if pages != [] {
      var rest := NonBlankPages(pages[1..]);
      NonBlankPagesInOrder(pages[1..]);
      if Strip(pages[0]) == "" {
        SubsequenceSkip(rest, pages);
      } else {
        assert ([pages[0]] + rest)[1..] == rest;
      }
    }
  }

  /**
    * Each non-blank text is kept as many times as pages carry it, and no
    * blank text is kept; with the page order above this fixes the result.
    */
  lemma {:induction false} NonBlankPagesCount(pages: seq<string>)
    ensures forall x :: multiset(NonBlankPages(pages))[x] == if IsBlank(x) then 0 else multiset(pages)[x]
  {
    if pages != [] {
      NonBlankPagesCount(pages[1..]);
      assert pages == [pages[0]] + pages[1..];
      assert multiset(pages) == multiset([pages[0]]) + multiset(pages[1..]);
    }
  }

  lemma {:induction false} SubsequenceSkip<T>(a: seq<T>, b: seq<T>)
    requires b != [] && IsSubsequence(a, b[1..])
    ensures IsSubsequence(a, b)
    decreases |b|, |a|
  {
    if a != [] && a[0] == b[0] {
      assert b[1..] != [];
      if a[0] == b[1..][0] {
        SubsequenceSkip(a[1..], b[1..]);
      } else {
        SubsequenceTail(a, b[1..]);
      }
    }
  }

  lemma {:induction false} SubsequenceTail<T>(a: seq<T>, b: seq<T>)
    requires a != [] && IsSubsequence(a, b)
    ensures IsSubsequence(a[1..], b)
    decreases |b|, |a|
  {
    if a[0] == b[0] {
      if a[1..] != [] { SubsequenceSkip(a[1..], b); }
    } else {
      SubsequenceTail(a, b[1..]);
      if a[1..] != [] { SubsequenceSkip(a[1..], b); }
    }
  }

  /** A metadata title counts only when it is present and non-empty (Python truthiness). */
  predicate HasMetadataTitle(t: Option<string>)
  {
    t.Some? && t.value != ""
  }

  /**
    * The PDF title: the metadata title when there is one; else the first
    * `"\n"`-line of the content, stripped, when that is non-empty and under
    * 200 characters; else the last `/`-segment of the URL.
    */
  function PdfTitle(metadataTitle: Option<string>, content: string, url: string): string
  {
    var fileName := AfterLast(url, '/');
    if HasMetadataTitle(metadataTitle) then metadataTitle.value
    else if content != "" then
      var firstLine := Strip(BeforeFirst(content, '\n'));
      if firstLine != "" && |firstLine| < 200 then firstLine else fileName
    else fileName
  }

  /**
    * The title is the metadata title when there is one; otherwise the first
    * line, when it is usable, and the file name in every other case.
    */
  lemma PdfTitleChoice(metadataTitle: Option<string>, content: string, url: string)
    ensures var title := PdfTitle(metadataTitle, content, url);
      (HasMetadataTitle(metadataTitle) ==> title == metadataTitle.value) &&
      (!HasMetadataTitle(metadataTitle) ==>
        title == AfterLast(url, '/') ||
        (content != "" && title == Strip(BeforeFirst(content, '\n')) && 0 < |title| < 200)) &&
      (!HasMetadataTitle(metadataTitle) && content != "" && 0 < |Strip(BeforeFirst(content, '\n'))| < 200 ==>
        title == Strip(BeforeFirst(content, '\n')))
  { }

  /**
    * `extract_pdf_content`: non-blank pages joined by a blank line; on a parse
    * failure it does not raise but returns empty content and the file name.
    */
  function ExtractPdfContent(pdf: PdfFile, url: string): (doc: Document)
    ensures doc.url == url
  {
    match pdf
    case Unreadable => Document(url, AfterLast(url, '/'), "")
    case PdfFile(pages, metadataTitle) =>
      var content := Join("\n\n", NonBlankPages(pages));
      Document(url, PdfTitle(metadataTitle, content, url), content)
  }

  /** A PDF that cannot be parsed gives empty content and the file name as title, so it is never kept. */
  lemma UnreadablePdfIsDropped(url: string)
    ensures ExtractPdfContent(Unreadable, url).title == AfterLast(url, '/')
    ensures IsBlank(ExtractPdfContent(Unreadable, url).content)
  { }

  /** A PDF yields a document to keep exactly when it parses and some page has text. */
  lemma PdfKeptIffSomeTextPage(pdf: PdfFile, url: string)
    ensures !IsBlank(ExtractPdfContent(pdf, url).content) <==>
      pdf.PdfFile? && exists i :: 0 <= i < |pdf.pages| && !IsBlank(pdf.pages[i])
  {
    if pdf.PdfFile? {
      var kept := NonBlankPages(pdf.pages);
      NonBlankPagesSound(pdf.pages);
      NonBlankPagesComplete(pdf.pages);
      if kept != [] {
        JoinNotBlank("\n\n", kept);
        assert kept[0] in pdf.pages;
      } else {
        assert forall i :: 0 <= i < |pdf.pages| ==> IsBlank(pdf.pages[i]);
      }
    }
  }

  /** A first page that opens with a newline gives a blank first line, so the title falls back to the file name. */
  lemma BlankFirstLineFallsBack(pdf: PdfFile, url: string)
    requires pdf.PdfFile? && !HasMetadataTitle(pdf.metadataTitle)
    requires pdf.pages != [] && !IsBlank(pdf.pages[0]) && pdf.pages[0][0] == '\n'
    ensures ExtractPdfContent(pdf, url).title == AfterLast(url, '/')
  {
    var kept := NonBlankPages(pdf.pages);
    assert kept[0] == pdf.pages[0];
    var content := Join("\n\n", kept);
    JoinStartsWithFirst("\n\n", kept);
    assert content[0] == '\n';
    assert BeforeFirst(content, '\n') == "";
  }


  // ---------------------------------------------------------------- routing

  /** PDF when the URL ends in `.pdf` or the lower-cased content type contains `application/pdf`. */
  function IsPdf(url: string, contentType: string): bool
  {
    EndsWith(url, ".pdf") || Contains(Lower(contentType), "application/pdf")
  }

  lemma IsPdfIff(url: string, contentType: string)
    ensures IsPdf(url, contentType) <==>
      (|url| >= 4 && url[|url| - 4..] == ".pdf") ||
      (exists i :: 0 <= i <= |contentType| - 15 && "application/pdf" <= Lower(contentType)[i..])
  {
    assert |".pdf"| == 4 && |"application/pdf"| == 15;
  }

  /** Every link target on every page of the web, normalised: the finite universe the frontier draws from. */
  ghost function LinkTargets(normalize: string -> string, web: Web): set<string>
  {
    set u, i | u in web && 0 <= i < |web[u].html.hrefs| :: normalize(web[u].html.hrefs[i])
  }

  lemma LinksAreTargets(normalize: string -> string, web: Web, url: string, links: seq<string>)
    requires url in web
    requires forall k :: 0 <= k < |links| ==> links[k] in NormalizeAll(normalize, web[url].html.hrefs)
    ensures forall k :: 0 <= k < |links| ==> links[k] in LinkTargets(normalize, web)
  {
    var hrefs := web[url].html.hrefs;
    forall k | 0 <= k < |links| ensures links[k] in LinkTargets(normalize, web) {
      var i :| 0 <= i < |hrefs| && NormalizeAll(normalize, hrefs)[i] == links[k];
      NormalizeAllAt(normalize, hrefs, i);
    }
  }

  /**
    * The documents have non-blank content and come from distinct URLs of
    * `urls`: the last one from some URL of `urls`, the others from the rest.
    */
  ghost predicate DocumentsFrom(docs: seq<Document>, urls: set<string>)
    decreases |docs|
  {
    docs == [] ||
    var last := docs[|docs| - 1];
    last.url in urls && !IsBlank(last.content) && DocumentsFrom(docs[..|docs| - 1], urls - {last.url})
  }

  /** What `DocumentsFrom` says document by document, and the bound it implies. */
  lemma {:induction false} DocumentsFromMeans(docs: seq<Document>, urls: set<string>)
    requires DocumentsFrom(docs, urls)
    ensures forall i :: 0 <= i < |docs| ==> docs[i].url in urls && !IsBlank(docs[i].content)
    ensures forall i, j :: 0 <= i < j < |docs| ==> docs[i].url != docs[j].url
    ensures |docs| <= |urls|
    decreases |docs|
  {
    if docs != [] {
      var last := docs[|docs| - 1];
      var init := docs[..|docs| - 1];
      DocumentsFromMeans(init, urls - {last.url});
      assert forall i :: 0 <= i < |init| ==> docs[i] == init[i];
    }
  }

  /** More URLs to draw from never hurts. */
  lemma {:induction false} DocumentsFromGrow(docs: seq<Document>, urls: set<string>, more: set<string>)
    requires DocumentsFrom(docs, urls) && urls <= more
    ensures DocumentsFrom(docs, more)
    decreases |docs|
  {
    if docs != [] {
      var last := docs[|docs| - 1];
      DocumentsFromGrow(docs[..|docs| - 1], urls - {last.url}, more - {last.url});
    }
  }

  /** Appending a non-blank document from a fresh URL. */
  lemma DocumentsFromAppend(docs: seq<Document>, urls: set<string>, doc: Document)
    requires DocumentsFrom(docs, urls) && doc.url !in urls && !IsBlank(doc.content)
    ensures DocumentsFrom(docs + [doc], urls + {doc.url})
  {
    assert (docs + [doc])[..|docs|] == docs;
    assert (urls + {doc.url}) - {doc.url} == urls;
  }

  /** Two duplicate-free sequences with nothing in common make a duplicate-free sequence. */
  lemma NoDupAppend(a: seq<string>, b: seq<string>)
    requires NoDup(a) && NoDup(b)
    requires forall k :: 0 <= k < |b| ==> b[k] !in a
    ensures NoDup(a + b)
  {
    forall i, j | 0 <= i < j < |a + b| ensures (a + b)[i] != (a + b)[j] {
      if j >= |a| && i < |a| {
        assert (a + b)[j] == b[j - |a|];
      }
    }
  }

  // ---------------------------------------------------------------- one fetch

  /**
    * The document a fetched page yields: the PDF extractor's for a PDF, the
    * HTML extractor's otherwise, `None` where `extract_content` raises.
    */
  function PageDocument(url: string, r: Response): Option<Document>
  {
    if IsPdf(url, r.contentType) then Some(ExtractPdfContent(r.pdf, url)) else ExtractContent(r.html, url)
  }

  /** The document worth keeping, if any: one whose content is not blank. */
  function Kept(page: Option<Document>): seq<Document>
  {
    if page.Some? && !IsBlank(page.value.content) then [page.value] else []
  }

  /** What fetching `url` adds to `documents`: the page's document when the fetch succeeds and its content is not blank. */
  function Harvested(url: string, web: Web): seq<Document>
  {
    if url in web then Kept(PageDocument(url, web[url])) else []
  }

  /** At most one document per fetch: the page's own, from its URL, with non-blank content. */
  lemma HarvestedMeans(url: string, web: Web)
    ensures var docs := Harvested(url, web);
      |docs| <= 1 &&
      (docs != [] <==> url in web && PageDocument(url, web[url]).Some? && !IsBlank(PageDocument(url, web[url]).value.content)) &&
      (docs != [] ==> docs[0] == PageDocument(url, web[url]).value && docs[0].url == url)
  { }

  /** What fetching `url` adds to the queue: the new links of an HTML page with a content region, else nothing. */
  function PageLinks(normalize: string -> string, inScope: string -> bool, url: string, web: Web, seen: set<string>): seq<string>
  {
    if url in web then ResponseLinks(normalize, inScope, url, web[url], seen) else []
  }

  /** The links a successful response for `url` yields. */
  function ResponseLinks(normalize: string -> string, inScope: string -> bool, url: string, r: Response, seen: set<string>): seq<string>
  {
    if !IsPdf(url, r.contentType) && ExtractContent(r.html, url).Some?
    then NewLinks(inScope, seen, NormalizeAll(normalize, r.html.hrefs))
    else []
  }

  /**
    * The links a fetch adds are new, in scope, distinct and drawn from the
    * fetched page's own normalised anchors (so from the link universe); a
    * failed fetch or a PDF adds none.
    */
  lemma PageLinksFresh(normalize: string -> string, inScope: string -> bool, url: string, web: Web, seen: set<string>)
    ensures var links := PageLinks(normalize, inScope, url, web, seen);
      NoDup(links) &&
      (forall k :: 0 <= k < |links| ==> links[k] !in seen && inScope(links[k]) && links[k] in LinkTargets(normalize, web)) &&
      (url in web ==> forall k :: 0 <= k < |links| ==> links[k] in NormalizeAll(normalize, web[url].html.hrefs)) &&
      (url !in web ==> links == []) &&
      (url in web && IsPdf(url, web[url].contentType) ==> links == [])
  {
    var links := PageLinks(normalize, inScope, url, web, seen);
    if links != [] {
      NewLinksFresh(inScope, seen, NormalizeAll(normalize, web[url].html.hrefs));
      LinksAreTargets(normalize, web, url, links);
    }
  }

  /**
    * The documents a run collects from the URLs it took off the queue, in
    * order; a URL of `skip` was already visited and yields nothing.
    */
  function Harvest(urls: seq<string>, web: Web, skip: set<string>): seq<Document>
  {
    if urls == [] then []
    else
      var last := urls[|urls| - 1];
      Harvest(urls[..|urls| - 1], web, skip) + (if last in skip then [] else Harvested(last, web))
  }

  lemma HarvestSnoc(urls: seq<string>, url: string, web: Web, skip: set<string>)
    ensures Harvest(urls + [url], web, skip) == Harvest(urls, web, skip) + (if url in skip then [] else Harvested(url, web))
  {
    assert (urls + [url])[..|urls|] == urls;
  }

  // ---------------------------------------------------------------- the queue

  /**
    * The queue discipline of `scrape`: `order` lists every URL ever put on
    * `urls_to_visit`, the seed first and none twice; every later one passed
    * the scope test and was not queued before the run; and the queued set
    * grew by exactly these URLs.
    */
  ghost predicate Frontier(order: seq<string>, seed: string, inScope: string -> bool, queued0: set<string>, queued: set<string>)
  {
    order != [] && order[0] == seed && NoDup(order) &&
    (forall k :: 1 <= k < |order| ==> inScope(order[k]) && order[k] !in queued0) &&
    queued == queued0 + Elements(order)
  }

  /** Taking the front of the list off: it joins the popped URLs, and it was not popped before. */
  lemma PopFront(order: seq<string>, popped: seq<string>, toVisit: seq<string>)
    requires order == popped + toVisit && toVisit != [] && NoDup(order)
    ensures order == (popped + [toVisit[0]]) + toVisit[1..]
    ensures toVisit[0] !in popped && toVisit[0] in order
  {
    assert order[|popped|] == toVisit[0];
    assert forall k :: 0 <= k < |popped| ==> popped[k] == order[k];
  }

  /** Extending the list with fresh, distinct, in-scope links keeps the discipline. */
  lemma FrontierExtend(order: seq<string>, seed: string, inScope: string -> bool, queued0: set<string>, queued: set<string>, links: seq<string>)
    requires Frontier(order, seed, inScope, queued0, queued)
    requires NoDup(links) && forall k :: 0 <= k < |links| ==> links[k] !in queued && inScope(links[k])
    ensures Frontier(order + links, seed, inScope, queued0, queued + Elements(links))
  {
    ElementsIff(order);
    NoDupAppend(order, links);
    ElementsAppend(order, links);
    forall k | |order| <= k < |order + links| ensures (order + links)[k] == links[k - |order|] { }
  }

  /** The visited set after one more URL is taken off the list: it gains that URL only when the fetch succeeds. */
  lemma VisitedStep(visited0: set<string>, popped: set<string>, url: string, fetched: set<string>, before: set<string>, after: set<string>)
    requires before == visited0 + (popped * fetched)
    requires after == if url in fetched then before + {url} else before
    ensures after == visited0 + ((popped + {url}) * fetched)
  { }

  /** The documents after one more URL is taken off the list. */
  lemma DocumentsStep(documents0: seq<Document>, popped: seq<string>, url: string, web: Web, skip: set<string>,
                      visitedBefore: set<string>, before: seq<Document>, after: seq<Document>)
    requires before == documents0 + Harvest(popped, web, skip)
    requires after == before + (if url in visitedBefore then [] else Harvested(url, web))
    requires url in visitedBefore <==> url in skip
    ensures after == documents0 + Harvest(popped + [url], web, skip)
  {
    HarvestSnoc(popped, url, web, skip);
  }

  /** Adding one element grows a set by at most one. */
  lemma AddOneBound(s: set<string>, x: string)
    ensures |s + {x}| <= |s| + 1
  {
    if x !in s {
      assert |s + {x}| == |s| + 1;
    } else {
      assert s + {x} == s;
    }
  }

  /** Queueing at least one link from a finite universe leaves fewer of it unqueued. */
  lemma QueueShrinks(targets: set<string>, queued: set<string>, links: seq<string>)
    requires links != [] && links[0] in targets && links[0] !in queued
    ensures targets - (queued + Elements(links)) < targets - queued
  {
    ElementsIff(links);
  }

  /**
    * The state of a `scrape` run after the URLs `popped` were taken off the
    * list, `toVisit` being what is left on it, for a run that started from
    * `visited0`, `queued0` and `documents0` with the list `[seed]`: the queue
    * discipline holds, exactly the popped URLs whose fetch succeeds were
    * visited, their documents were collected in order, and the page budget
    * was kept.
    */
  ghost predicate Crawled(web: Web, inScope: string -> bool, seed: string, maxPages: int,
                          visited0: set<string>, queued0: set<string>, documents0: seq<Document>,
                          popped: seq<string>, toVisit: seq<string>,
                          visited: set<string>, queued: set<string>, documents: seq<Document>)
  {
    Frontier(popped + toVisit, seed, inScope, queued0, queued) &&
    visited == visited0 + (Elements(popped) * web.Keys) &&
    documents == documents0 + Harvest(popped, web, visited0) &&
    (|visited| <= maxPages || visited == visited0)
  }

  /** The run starts with the seed queued and nothing popped. */
  lemma CrawledStart(web: Web, inScope: string -> bool, seed: string, maxPages: int,
                     visited0: set<string>, queued0: set<string>, documents0: seq<Document>)
    ensures Crawled(web, inScope, seed, maxPages, visited0, queued0, documents0, [], [seed], visited0, queued0 + {seed}, documents0)
  {
    assert Elements([seed]) == {seed} by { assert [seed][..0] == []; }
    assert [] + [seed] == [seed];
  }

  /** The URL at the front of the list is queued. */
  lemma FrontQueued(web: Web, inScope: string -> bool, seed: string, maxPages: int,
                    visited0: set<string>, queued0: set<string>, documents0: seq<Document>,
                    popped: seq<string>, toVisit: seq<string>,
                    visited: set<string>, queued: set<string>, documents: seq<Document>)
    requires Crawled(web, inScope, seed, maxPages, visited0, queued0, documents0, popped, toVisit, visited, queued, documents)
    requires toVisit != []
    ensures toVisit[0] in queued
  {
    ElementsIff(popped + toVisit);
    assert (popped + toVisit)[|popped|] == toVisit[0];
  }

  /** One round keeps the queue discipline; either some link target got queued or the list got shorter. */
  lemma RoundFrontier(web: Web, normalize: string -> string, inScope: string -> bool, seed: string, queued0: set<string>,
                      popped: seq<string>, toVisit: seq<string>, visited: set<string>, queued: set<string>,
                      links: seq<string>, queued': set<string>)
    requires Frontier(popped + toVisit, seed, inScope, queued0, queued) && toVisit != []
    requires links == (if toVisit[0] in visited then [] else PageLinks(normalize, inScope, toVisit[0], web, visited + queued))
    requires queued' == queued + Elements(links)
    ensures Frontier((popped + [toVisit[0]]) + (toVisit[1..] + links), seed, inScope, queued0, queued')
    ensures LinkTargets(normalize, web) - queued' < LinkTargets(normalize, web) - queued ||
            (queued' == queued && |toVisit[1..] + links| < |toVisit|)
  {
    var order := popped + toVisit;
    PopFront(order, popped, toVisit);
    PageLinksFresh(normalize, inScope, toVisit[0], web, visited + queued);
    FrontierExtend(order, seed, inScope, queued0, queued, links);
    AppendAssoc(popped + [toVisit[0]], toVisit[1..], links);
    if links != [] {
      QueueShrinks(LinkTargets(normalize, web), queued, links);
    } else {
      assert Elements(links) == {};
    }
  }

  /** One round keeps the visited set, the documents and the budget in step with the popped URLs. */
  lemma RoundRecords(web: Web, maxPages: int, visited0: set<string>, documents0: seq<Document>,
                     popped: seq<string>, url: string, visited: set<string>, documents: seq<Document>,
                     visited': set<string>, documents': seq<Document>)
    requires visited == visited0 + (Elements(popped) * web.Keys)
    requires documents == documents0 + Harvest(popped, web, visited0)
    requires url !in popped && |visited| < maxPages
    requires visited' == (if url in web then visited + {url} else visited)
    requires documents' == documents + (if url in visited then [] else Harvested(url, web))
    ensures visited' == visited0 + (Elements(popped + [url]) * web.Keys)
    ensures documents' == documents0 + Harvest(popped + [url], web, visited0)
    ensures |visited'| <= maxPages
  {
    assert url in visited <==> url in visited0 by { ElementsIff(popped); }
    assert Elements(popped + [url]) == Elements(popped) + {url} by { AppendOne(popped, url); }
    VisitedStep(visited0, Elements(popped), url, web.Keys, visited, visited');
    AddOneBound(visited, url);
    DocumentsStep(documents0, popped, url, web, visited0, visited, documents, documents');
  }

  /**
    * One round of the loop keeps the run state: the front URL is popped,
    * visited if its fetch succeeds (and it was not visited already), its
    * document collected and its new links appended to the list. Either some
    * link target got queued or the list got shorter.
    */
  lemma CrawledRound(web: Web, normalize: string -> string, inScope: string -> bool, seed: string, maxPages: int,
                     visited0: set<string>, queued0: set<string>, documents0: seq<Document>,
                     popped: seq<string>, toVisit: seq<string>,
                     visited: set<string>, queued: set<string>, documents: seq<Document>,
                     links: seq<string>, visited': set<string>, queued': set<string>, documents': seq<Document>)
    requires Crawled(web, inScope, seed, maxPages, visited0, queued0, documents0, popped, toVisit, visited, queued, documents)
    requires toVisit != [] && |visited| < maxPages
    requires var url := toVisit[0];
      visited' == (if url in web then visited + {url} else visited) &&
      documents' == documents + (if url in visited then [] else Harvested(url, web)) &&
      links == (if url in visited then [] else PageLinks(normalize, inScope, url, web, visited + queued)) &&
      queued' == queued + Elements(links)
    ensures Crawled(web, inScope, seed, maxPages, visited0, queued0, documents0,
                    popped + [toVisit[0]], toVisit[1..] + links, visited', queued', documents')
    ensures LinkTargets(normalize, web) - queued' < LinkTargets(normalize, web) - queued ||
            (queued' == queued && |toVisit[1..] + links| < |toVisit|)
  {
    PopFront(popped + toVisit, popped, toVisit);
    RoundFrontier(web, normalize, inScope, seed, queued0, popped, toVisit, visited, queued, links, queued');
    RoundRecords(web, maxPages, visited0, documents0, popped, toVisit[0], visited, documents, visited', documents');
  }

  /**
    * The documents of a run from a fresh crawler: the harvest of the popped
    * URLs in order, each from a distinct popped URL whose fetch succeeded,
    * with non-blank content, and no more of them than the page budget.
    */
  lemma FreshRunDocuments(web: Web, inScope: string -> bool, seed: string, maxPages: int,
                          popped: seq<string>, pending: seq<string>,
                          visited: set<string>, queued: set<string>, documents: seq<Document>)
    requires Crawled(web, inScope, seed, maxPages, {}, {}, [], popped, pending, visited, queued, documents)
    requires DocumentsFrom(documents, visited)
    ensures documents == Harvest(popped, web, {})
    ensures |documents| <= maxPages || documents == []
    ensures |Elements(popped) * web.Keys| <= maxPages || Elements(popped) * web.Keys == {}
    ensures forall i :: 0 <= i < |documents| ==>
      documents[i].url in popped && documents[i].url in web && !IsBlank(documents[i].content)
    ensures forall i, j :: 0 <= i < j < |documents| ==> documents[i].url != documents[j].url
  {
    DocumentsFromMeans(documents, visited);
    ElementsIff(popped);
    assert [] + Harvest(popped, web, {}) == Harvest(popped, web, {});
  }

  /**
    * The list of a run from a fresh crawler: no URL was popped twice, the
    * seed came first and every other one passed the scope test, and the
    * queued set is exactly what went on the list.
    */
  lemma FreshRunOrder(web: Web, inScope: string -> bool, seed: string, maxPages: int,
                      popped: seq<string>, pending: seq<string>,
                      visited: set<string>, queued: set<string>, documents: seq<Document>)
    requires Crawled(web, inScope, seed, maxPages, {}, {}, [], popped, pending, visited, queued, documents)
    ensures NoDup(popped) && (popped != [] ==> popped[0] == seed)
    ensures forall k :: 1 <= k < |popped| ==> inScope(popped[k])
    ensures queued == Elements(popped + pending)
  {
    var order := popped + pending;
    assert forall k :: 0 <= k < |popped| ==> popped[k] == order[k];
    assert {} + Elements(order) == Elements(order);
  }

  /**
    * The loop guard held at every pop: before the `k`-th URL was taken off
    * the list, fewer than `maxPages` URLs were visited.
    */
  ghost predicate WithinBudget(web: Web, maxPages: int, visited0: set<string>, popped: seq<string>)
  {
    forall k :: 0 <= k < |popped| ==> |VisitedBy(web, visited0, popped[..k])| < maxPages
  }

  /** The visited set once `popped` were taken off the list: the fetches that succeeded. */
  function VisitedBy(web: Web, visited0: set<string>, popped: seq<string>): set<string>
  {
    visited0 + Elements(popped) * web.Keys
  }

  /** Popping one more URL while the guard holds keeps every earlier pop within the budget. */
  lemma BudgetRound(web: Web, maxPages: int, visited0: set<string>, popped: seq<string>, url: string)
    requires WithinBudget(web, maxPages, visited0, popped)
    requires |VisitedBy(web, visited0, popped)| < maxPages
    ensures WithinBudget(web, maxPages, visited0, popped + [url])
  {
    var popped' := popped + [url];
    assert forall k :: 0 <= k < |popped| ==> popped'[..k] == popped[..k];
    assert popped'[..|popped|] == popped;
  }

  // ---------------------------------------------------------------- the breadth-first order

  /** The links of the rounds, one round after the other. */
  function Appended(rounds: seq<seq<string>>): seq<string>
  {
    if rounds == [] then [] else Appended(rounds[..|rounds| - 1]) + rounds[|rounds| - 1]
  }

  /**
    * The links the round for `url` appends to `urls_to_visit`, when the URLs
    * `before` were popped in the earlier rounds and those rounds appended
    * `earlier`: nothing for a URL visited by then, else the page's new links
    * against `visited_urls | queued_urls` as they stood when the round began.
    */
  ghost function RoundOf(web: Web, normalize: string -> string, inScope: string -> bool, seed: string,
                         visited0: set<string>, queued0: set<string>,
                         before: seq<string>, earlier: seq<seq<string>>, url: string): seq<string>
  {
    var visited := visited0 + (Elements(before) * web.Keys);
    var queued := queued0 + Elements([seed] + Appended(earlier));
    if url in visited then [] else PageLinks(normalize, inScope, url, web, visited + queued)
  }

  /**
    * The order of a `scrape` run: `rounds[k]` is what the `k`-th round
    * appended, each the links its popped page yields at that moment, and the
    * list ever built (popped, then still waiting) is the seed followed by the
    * rounds' links in the order the rounds ran. Each round pops a URL that
    * was listed when it began.
    */
  ghost predicate Discovered(web: Web, normalize: string -> string, inScope: string -> bool, seed: string,
                             visited0: set<string>, queued0: set<string>,
                             popped: seq<string>, toVisit: seq<string>, rounds: seq<seq<string>>)
  {
    |rounds| == |popped| &&
    popped + toVisit == [seed] + Appended(rounds) &&
    forall k :: 0 <= k < |rounds| ==>
      rounds[k] == RoundOf(web, normalize, inScope, seed, visited0, queued0, popped[..k], rounds[..k], popped[k]) &&
      k <= |Appended(rounds[..k])|
  }

  /** Before the first round only the seed is listed. */
  lemma DiscoveredStart(web: Web, normalize: string -> string, inScope: string -> bool, seed: string,
                        visited0: set<string>, queued0: set<string>)
    ensures Discovered(web, normalize, inScope, seed, visited0, queued0, [], [seed], [])
  {
    assert [] + [seed] == [seed] + [];
  }

  /**
    * A round pops the front URL and appends its links: when those are the
    * links its page yields against the visited and queued sets of the moment,
    * the run keeps its breadth-first order.
    */
  lemma DiscoveredRound(web: Web, normalize: string -> string, inScope: string -> bool, seed: string,
                        visited0: set<string>, queued0: set<string>,
                        popped: seq<string>, toVisit: seq<string>, rounds: seq<seq<string>>,
                        visited: set<string>, queued: set<string>, links: seq<string>)
    requires Discovered(web, normalize, inScope, seed, visited0, queued0, popped, toVisit, rounds)
    requires visited == visited0 + (Elements(popped) * web.Keys)
    requires queued == queued0 + Elements(popped + toVisit)
    requires toVisit != []
    requires links == if toVisit[0] in visited then [] else PageLinks(normalize, inScope, toVisit[0], web, visited + queued)
    ensures Discovered(web, normalize, inScope, seed, visited0, queued0,
                       popped + [toVisit[0]], toVisit[1..] + links, rounds + [links])
  {
    OrderRound(seed, popped, toVisit, rounds, links);
    assert links == RoundOf(web, normalize, inScope, seed, visited0, queued0, popped, rounds, toVisit[0]);
    RoundsSnoc(web, normalize, inScope, seed, visited0, queued0, popped, rounds, toVisit[0], links);
  }

  /** The list after a round is the seed followed by the links of every round so far. */
  lemma OrderRound(seed: string, popped: seq<string>, toVisit: seq<string>, rounds: seq<seq<string>>, links: seq<string>)
    requires popped + toVisit == [seed] + Appended(rounds) && toVisit != []
    ensures (popped + [toVisit[0]]) + (toVisit[1..] + links) == [seed] + Appended(rounds + [links])
    ensures |popped| <= |Appended(rounds)|
  {
    var popped', rounds' := popped + [toVisit[0]], rounds + [links];
    assert |popped + toVisit| == |[seed] + Appended(rounds)|;
    assert rounds'[..|rounds|] == rounds;
    assert Appended(rounds') == Appended(rounds) + links;
    assert toVisit == [toVisit[0]] + toVisit[1..];
    calc {
      popped' + (toVisit[1..] + links);
      { AppendAssoc(popped, [toVisit[0]], toVisit[1..]); AppendAssoc(popped', toVisit[1..], links); }
      (popped + toVisit) + links;
      { AppendAssoc([seed], Appended(rounds), links); }
      [seed] + Appended(rounds');
    }
  }

  /** Recording one more round leaves the earlier rounds as they were. */
  lemma RoundsSnoc(web: Web, normalize: string -> string, inScope: string -> bool, seed: string,
                   visited0: set<string>, queued0: set<string>,
                   popped: seq<string>, rounds: seq<seq<string>>, url: string, links: seq<string>)
    requires |rounds| == |popped| <= |Appended(rounds)|
    requires forall k :: 0 <= k < |rounds| ==>
      rounds[k] == RoundOf(web, normalize, inScope, seed, visited0, queued0, popped[..k], rounds[..k], popped[k]) &&
      k <= |Appended(rounds[..k])|
    requires links == RoundOf(web, normalize, inScope, seed, visited0, queued0, popped, rounds, url)
    ensures forall k :: 0 <= k < |rounds + [links]| ==>
      (rounds + [links])[k] == RoundOf(web, normalize, inScope, seed, visited0, queued0,
                                       (popped + [url])[..k], (rounds + [links])[..k], (popped + [url])[k]) &&
      k <= |Appended((rounds + [links])[..k])|
  {
    var popped', rounds' := popped + [url], rounds + [links];
    forall k | 0 <= k < |rounds'|
      ensures rounds'[k] == RoundOf(web, normalize, inScope, seed, visited0, queued0, popped'[..k], rounds'[..k], popped'[k])
      ensures k <= |Appended(rounds'[..k])|
    {
      if k < |rounds| {
        assert popped'[..k] == popped[..k] && rounds'[..k] == rounds[..k];
      } else {
        assert popped'[..k] == popped && rounds'[..k] == rounds;
      }
    }
  }

  /** Position `p` of the appended links is link `i` of round `k`. */
  lemma {:induction false} AppendedAt(rounds: seq<seq<string>>, p: nat) returns (k: nat, i: nat)
    requires p < |Appended(rounds)|
    ensures k < |rounds| && i < |rounds[k]|
    ensures p == |Appended(rounds[..k])| + i && Appended(rounds)[p] == rounds[k][i]
    decreases |rounds|
  {
    var last := |rounds| - 1;
    var front := rounds[..last];
    if p < |Appended(front)| {
      k, i := AppendedAt(front, p);
      assert front[..k] == rounds[..k];
    } else {
      k, i := last, p - |Appended(front)|;
    }
  }

  /**
    * Breadth-first discovery: every URL listed after the seed is one of the
    * links of a page popped before it was listed, in an earlier round.
    */
  lemma ListedFromEarlierPage(web: Web, normalize: string -> string, inScope: string -> bool, seed: string,
                              visited0: set<string>, queued0: set<string>,
                              popped: seq<string>, toVisit: seq<string>, rounds: seq<seq<string>>, p: nat)
    requires Discovered(web, normalize, inScope, seed, visited0, queued0, popped, toVisit, rounds)
    requires 1 <= p < |popped + toVisit|
    ensures exists k :: 0 <= k < p && k < |popped| && (popped + toVisit)[p] in rounds[k]
  {
    var k := ListedInRound(seed, popped, toVisit, rounds, p);
  }

  /** The round that listed position `p`: it ran before `p` was listed. */
  lemma ListedInRound(seed: string, popped: seq<string>, toVisit: seq<string>, rounds: seq<seq<string>>, p: nat)
    returns (k: nat)
    requires |rounds| == |popped| && popped + toVisit == [seed] + Appended(rounds)
    requires forall k :: 0 <= k < |rounds| ==> k <= |Appended(rounds[..k])|
    requires 1 <= p < |popped + toVisit|
    ensures k < p && k < |popped| && (popped + toVisit)[p] in rounds[k]
  {
    var order := popped + toVisit;
    assert order[p] == Appended(rounds)[p - 1] by {
      assert order == [seed] + Appended(rounds);
    }
    var i;
    k, i := AppendedAt(rounds, p - 1);
  }

  // ---------------------------------------------------------------- the crawler

  class DocumentationScraper {
    const baseUrl: string
    const basePath: string
    const domain: string
    const maxPages: int
    /** `normalize_url`, held as a value so that the crawl does not depend on how URLs are parsed. */
    const normalize: string -> string
    /** The scope part of `is_valid_url`, fixed by the base URL. */
    const scope: string -> bool
    var visited: set<string>
    var queued: set<string>
    var documents: seq<Document>

    /**
      * Every visited URL was queued; every document has non-blank content
      * and comes from a distinct visited URL.
      */
    ghost predicate Valid()
      reads this
    {
      visited <= queued && DocumentsFrom(documents, visited)
    }

    constructor (baseUrl: string, maxPages: int)
      ensures Valid()
      ensures this.baseUrl == RStripChar(baseUrl, '/') && this.maxPages == maxPages
      ensures basePath == RStripChar(Path(baseUrl), '/') && domain == Netloc(baseUrl)
      ensures normalize == NormalizeUrl && scope == ScopeTest(domain, basePath)
      ensures visited == {} && queued == {} && documents == []
    {
      var d, p := Netloc(baseUrl), RStripChar(Path(baseUrl), '/');
      this.baseUrl := RStripChar(baseUrl, '/');
      basePath := p;
      this.maxPages := maxPages;
      domain := d;
      normalize := NormalizeUrl;
      scope := ScopeTest(d, p);
      visited, queued, documents := {}, {}, [];
    }

    /** `is_valid_url`: in scope and neither visited nor queued. */
    function IsValidUrl(url: string): bool
      reads this
    {
      scope(url) && url !in visited && url !in queued
    }

    /** `extract_links`: walk the anchors, queueing and returning each new in-scope link. */
    method ExtractLinks(hrefs: seq<string>) returns (links: seq<string>)
      requires Valid()
      modifies this`queued
      ensures Valid()
      ensures links == NewLinks(scope, old(visited + queued), NormalizeAll(normalize, hrefs))
      ensures queued == old(queued) + Elements(links)
    {
      ghost var candidates := NormalizeAll(normalize, hrefs);
      links := [];
      var i := 0;
      while i < |hrefs|
        invariant 0 <= i <= |hrefs|
        invariant Valid()
        invariant queued == old(queued) + Elements(links)
        invariant links + NewLinks(scope, visited + queued, candidates[i..])
               == NewLinks(scope, old(visited + queued), candidates)
      {
        var url := normalize(hrefs[i]);
        NormalizeAllAt(normalize, hrefs, i);
        ghost var seen := visited + queued;
        NewLinksStep(scope, seen, candidates, i);
        if IsValidUrl(url) {
          AppendAssoc(links, [url], NewLinks(scope, seen + {url}, candidates[i + 1..]));
          AppendOne(links, url);
          links := links + [url];
          queued := queued + {url};
          assert visited + queued == seen + {url};
        }
        i := i + 1;
      }
      assert candidates[i..] == [];
    }

    /**
      * The body of the `scrape` loop for a queued URL not yet visited: fetch
      * it, mark it visited once the fetch succeeds, route the response to the
      * PDF or the HTML extractor, keep a non-blank document, and queue the
      * page's new links. A failed fetch changes nothing; an HTML page without
      * a content region stays visited but yields neither document nor links.
      */
    method Fetch(url: string, web: Web) returns (links: seq<string>)
      requires Valid() && url in queued && url !in visited
      modifies this`visited, this`queued, this`documents
      ensures Valid()
      ensures visited == if url in web then old(visited) + {url} else old(visited)
      ensures documents == old(documents) + Harvested(url, web)
      ensures links == PageLinks(normalize, scope, url, web, old(visited + queued))
      ensures queued == old(queued) + Elements(links)
    {
      if url !in web {
        return [];
      }
      var response := web[url];
      visited := visited + {url};
      assert visited - {url} == old(visited);
      assert visited + queued == old(visited + queued);
      links := Route(url, response);
    }

    /**
      * The part of the `scrape` loop after a successful fetch of `url`: a PDF
      * goes to the PDF extractor and adds no links; anything else goes to the
      * HTML extractor, then its links are queued, unless the extractor raises.
      */
    method Route(url: string, response: Response) returns (links: seq<string>)
      requires visited <= queued && url in visited && DocumentsFrom(documents, visited - {url})
      modifies this`queued, this`documents
      ensures Valid()
      ensures documents == old(documents) + Kept(PageDocument(url, response))
      ensures links == ResponseLinks(normalize, scope, url, response, old(visited + queued))
      ensures queued == old(queued) + Elements(links)
    {
      if IsPdf(url, response.contentType) {
        var doc := ExtractPdfContent(response.pdf, url);
        Keep(doc);
        links := [];
      } else {
        var content := ExtractContent(response.html, url);
        if content.None? {
          DocumentsFromGrow(documents, visited - {url}, visited);
          return [];
        }
        Keep(content.value);
        links := ExtractLinks(response.html.hrefs);
      }
    }

    /**
      * Append `doc` to the documents when `doc["content"].strip()` is
      * non-empty, that is, when the content is not blank.
      */
    method Keep(doc: Document)
      requires visited <= queued && doc.url in visited && DocumentsFrom(documents, visited - {doc.url})
      modifies this`documents
      ensures Valid()
      ensures documents == old(documents) + Kept(Some(doc))
    {
      if !IsBlank(doc.content) {
        DocumentsFromAppend(documents, visited - {doc.url}, doc);
        assert visited - {doc.url} + {doc.url} == visited;
        documents := documents + [doc];
      } else {
        DocumentsFromGrow(documents, visited - {doc.url}, visited);
      }
    }

    /**
      * One round of the `scrape` loop for a URL taken off the list: a URL
      * already visited is skipped, any other one is fetched.
      */
    method Visit(url: string, web: Web) returns (links: seq<string>)
      requires Valid() && url in queued
      modifies this`visited, this`queued, this`documents
      ensures Valid()
      ensures visited == if url in web then old(visited) + {url} else old(visited)
      ensures documents == old(documents) + (if url in old(visited) then [] else Harvested(url, web))
      ensures links == if url in old(visited) then [] else PageLinks(normalize, scope, url, web, old(visited + queued))
      ensures queued == old(queued) + Elements(links)
    {
      if url in visited {
        return [];
      }
      links := Fetch(url, web);
    }

    /**
      * `scrape`: breadth-first from the normalised base URL while the list is
      * not empty and the page budget is not spent. `popped` are the URLs taken
      * off the list, in order, `pending` what is left on it, and `rounds` what
      * each round appended to it.
      */
    method Scrape(web: Web) returns (docs: seq<Document>, ghost popped: seq<string>, ghost pending: seq<string>,
                                     ghost rounds: seq<seq<string>>)
      requires Valid()
      modifies this`visited, this`queued, this`documents
      ensures Valid() && docs == documents
      ensures Crawled(web, scope, normalize(baseUrl), maxPages, old(visited), old(queued), old(documents),
                      popped, pending, visited, queued, documents)
      ensures Discovered(web, normalize, scope, normalize(baseUrl), old(visited), old(queued), popped, pending, rounds)
      ensures pending == [] || |visited| >= maxPages
      ensures WithinBudget(web, maxPages, old(visited), popped)
    {
      var seed := normalize(baseUrl);
      var toVisit := [seed];
      CrawledStart(web, scope, seed, maxPages, visited, queued, documents);
      queued := queued + {seed};
      popped, rounds := [], [];
      DiscoveredStart(web, normalize, scope, seed, old(visited), old(queued));
      ghost var targets := LinkTargets(normalize, web);
      while toVisit != [] && |visited| < maxPages
        invariant Valid()
        invariant Crawled(web, scope, seed, maxPages, old(visited), old(queued), old(documents),
                          popped, toVisit, visited, queued, documents)
        invariant Discovered(web, normalize, scope, seed, old(visited), old(queued), popped, toVisit, rounds)
        invariant WithinBudget(web, maxPages, old(visited), popped)
        decreases targets - queued, |toVisit|
      {
        var url := toVisit[0];
        FrontQueued(web, scope, seed, maxPages, old(visited), old(queued), old(documents), popped, toVisit, visited, queued, documents);
        ghost var visitedBefore, queuedBefore, documentsBefore := visited, queued, documents;
        var links := Visit(url, web);
        CrawledRound(web, normalize, scope, seed, maxPages, old(visited), old(queued), old(documents),
                     popped, toVisit, visitedBefore, queuedBefore, documentsBefore, links, visited, queued, documents);
        DiscoveredRound(web, normalize, scope, seed, old(visited), old(queued), popped, toVisit, rounds,
                        visitedBefore, queuedBefore, links);
        BudgetRound(web, maxPages, old(visited), popped, url);
        popped, rounds := popped + [url], rounds + [links];
        toVisit := toVisit[1..] + links;
      }
      docs := documents;
      pending := toVisit;
    }
  }

  /**
    * `DocumentationScraper(base_url, max_pages).scrape()` over `web`: a fresh
    * crawler run to the end. `popped` are the URLs taken off the list,
    * `pending` those left on it, and `rounds` what each round appended.
    */
  method Crawl(baseUrl: string, maxPages: int, web: Web)
    returns (docs: seq<Document>, ghost popped: seq<string>, ghost pending: seq<string>, ghost rounds: seq<seq<string>>)
    ensures docs == Harvest(popped, web, {})
    ensures |docs| <= maxPages || docs == []
    ensures forall i :: 0 <= i < |docs| ==> docs[i].url in popped && docs[i].url in web && !IsBlank(docs[i].content)
    ensures forall i, j :: 0 <= i < j < |docs| ==> docs[i].url != docs[j].url
    ensures NoDup(popped)
    ensures popped != [] ==> popped[0] == NormalizeUrl(RStripChar(baseUrl, '/'))
    ensures forall k :: 1 <= k < |popped| ==> InScope(Netloc(baseUrl), RStripChar(Path(baseUrl), '/'), popped[k])
    ensures Discovered(web, NormalizeUrl, ScopeTest(Netloc(baseUrl), RStripChar(Path(baseUrl), '/')),
                       NormalizeUrl(RStripChar(baseUrl, '/')), {}, {}, popped, pending, rounds)
    ensures pending == [] || |Elements(popped) * web.Keys| >= maxPages
    ensures WithinBudget(web, maxPages, {}, popped)
    ensures |Elements(popped) * web.Keys| <= maxPages || Elements(popped) * web.Keys == {}
  {
    var scraper := new DocumentationScraper(baseUrl, maxPages);
    docs, popped, pending, rounds := scraper.Scrape(web);
    FreshRunDocuments(web, scraper.scope, scraper.normalize(scraper.baseUrl), maxPages, popped, pending,
                      scraper.visited, scraper.queued, scraper.documents);
    FreshRunOrder(web, scraper.scope, scraper.normalize(scraper.baseUrl), maxPages, popped, pending,
                  scraper.visited, scraper.queued, scraper.documents);
  }
}
