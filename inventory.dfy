/**
 * The `shopify-inventory` edge function: it pages through the shop's product
 * list, storing every variant's inventory quantity under the variant's global
 * id, and follows the `rel="next"` link of each page until there is none.
 *
 * The network is a parameter: `script` lists, in order, what each `fetch`
 * call ends in. The access token is a parameter as well. A script that runs
 * out while the function still wants another page ends the model's run with
 * `ScriptExhausted`; the function itself would go on fetching.
 */
module Inventory {
  import opened Wrappers
  import opened Text

  // ---------------------------------------------------------------------------
  // Pages.
  // ---------------------------------------------------------------------------

  /** A variant: its numeric id and `inventory_quantity`, which may be null or absent. */
  datatype Variant = Variant(id: nat, inventoryQuantity: Option<int>)

  /** A product of a page; `variants` may be null or absent. */
  datatype ProductEntry = ProductEntry(variants: Option<seq<Variant>>)

  /** What `res.json()` gives: the page's `products` (null or absent allowed), or a parse error. */
  datatype Body = Parsed(products: Option<seq<ProductEntry>>) | Unparsable(message: string)

  /**
   * One `fetch`: it rejects (with an `Error`'s message, or something that is
   * not an `Error`), or answers with a status, the body as text, the body as
   * JSON and the `link` header (null when absent).
   */
  datatype FetchResult =
    | Rejected(error: Option<string>)
    | Answered(status: nat, text: string, body: Body, link: Option<string>)

  /** The function's answer. `Failure` is a JSON `{ error, details? }` body with that status. */
  datatype Response =
    | Preflight
    | Failure(status: nat, error: string, details: Option<string>)
    | Success(inventory: map<string, int>)
    | ScriptExhausted

  const ShopifyStore: string := "streim.myshopify.com"
  const ApiVersion: string := "2025-01"

  /** The first page's URL. */
  const ProductsUrl: string := "https://" + ShopifyStore + "/admin/api/" + ApiVersion + "/products.json?limit=250&fields=id,variants"

  const MissingToken: string := "Missing Shopify token"

  /** `res.ok`. */
  predicate IsOk(status: nat)
  {
    200 <= status <= 299
  }

  /** `!token` is false: the token is set and not empty. */
  predicate HasToken(token: Option<string>)
  {
    token.Some? && token.value != ""
  }

  // ---------------------------------------------------------------------------
  // Variant ids and quantities.
  // ---------------------------------------------------------------------------

  const GidPrefix: string := "gid://shopify/ProductVariant/"

  /** `` `gid://shopify/ProductVariant/${variant.id}` ``. */
  function Gid(id: nat): (g: string)
    ensures |g| > |GidPrefix| && g[..|GidPrefix|] == GidPrefix
  {
    GidPrefix + NatToString(id)
  }

  /** Different variants are stored under different keys. */
  lemma GidInjective(a: nat, b: nat)
    requires Gid(a) == Gid(b)
    ensures a == b
  {
    assert NatToString(a) == Gid(a)[|GidPrefix|..];
    assert NatToString(b) == Gid(b)[|GidPrefix|..];
    NatToStringInjective(a, b);
  }

  /** `variant.inventory_quantity ?? 0`. */
  function QuantityOf(v: Variant): int
  {
    v.inventoryQuantity.GetOr(0)
  }

  /** Only null or absent becomes 0: a zero or a negative quantity is stored as it is. */
  lemma QuantityExamples()
    ensures QuantityOf(Variant(1, None)) == 0
    ensures QuantityOf(Variant(1, Some(0))) == 0
    ensures QuantityOf(Variant(1, Some(-3))) == -3
    ensures QuantityOf(Variant(1, Some(12))) == 12
  {
  }

  function VariantsOf(p: ProductEntry): seq<Variant>
  {
    p.variants.GetOr([])
  }

  /** The products of a page that parsed; `data.products || []`. */
  function PageProducts(page: FetchResult): seq<ProductEntry>
  {
    if page.Answered? && page.body.Parsed? then page.body.products.GetOr([]) else []
  }

  // ---------------------------------------------------------------------------
  // Filling the inventory record.
  // ---------------------------------------------------------------------------

  /** The record after storing `vs` one after the other. */
  function AddVariants(inv: map<string, int>, vs: seq<Variant>): (r: map<string, int>)
    ensures inv.Keys <= r.Keys
  {
    if vs == [] then inv
    else
      var v := vs[|vs| - 1];
      AddVariants(inv, vs[..|vs| - 1])[Gid(v.id) := QuantityOf(v)]
  }

  /** Every variant stored has an entry. */
  lemma {:induction false} AddVariantsStores(inv: map<string, int>, vs: seq<Variant>, i: nat)
    requires i < |vs|
    ensures Gid(vs[i].id) in AddVariants(inv, vs)
  {
    if i < |vs| - 1 {
      AddVariantsStores(inv, vs[..|vs| - 1], i);
    }
  }

  /** A key no stored variant maps to keeps its entry, or its absence. */
  lemma {:induction false} AddVariantsElsewhere(inv: map<string, int>, vs: seq<Variant>, k: string)
    requires forall i :: 0 <= i < |vs| ==> Gid(vs[i].id) != k
    ensures k in AddVariants(inv, vs) <==> k in inv
    ensures k in inv ==> AddVariants(inv, vs)[k] == inv[k]
  {
    if vs != [] {
      AddVariantsElsewhere(inv, vs[..|vs| - 1], k);
    }
  }

  /** Storing `a` and then `b` is storing `a + b`. */
  lemma {:induction false} AddVariantsConcat(inv: map<string, int>, a: seq<Variant>, b: seq<Variant>)
    ensures AddVariants(inv, a + b) == AddVariants(AddVariants(inv, a), b)
  {
    if b != [] {
      var b' := b[..|b| - 1];
      AddVariantsConcat(inv, a, b');
      assert (a + b)[..|a + b| - 1] == a + b';
    } else {
      assert a + b == a;
    }
  }

  /** Last write wins: a variant no later variant shares its id with decides the stored quantity. */
  lemma {:induction false} AddVariantsLastWins(inv: map<string, int>, vs: seq<Variant>, i: nat)
    requires i < |vs|
    requires forall j :: i < j < |vs| ==> vs[j].id != vs[i].id
    ensures Gid(vs[i].id) in AddVariants(inv, vs) && AddVariants(inv, vs)[Gid(vs[i].id)] == QuantityOf(vs[i])
  {
    AddVariantsStores(inv, vs, i);
    var last := |vs| - 1;
    if i < last {
      var p := vs[..last];
      assert forall j :: i < j < |p| ==> p[j].id != p[i].id;
      AddVariantsLastWins(inv, p, i);
      if Gid(vs[last].id) == Gid(vs[i].id) {
        GidInjective(vs[last].id, vs[i].id);
      }
    }
  }

  /** All variants of `ps`, product by product. */
  function AllVariants(ps: seq<ProductEntry>): seq<Variant>
  {
    if ps == [] then [] else AllVariants(ps[..|ps| - 1]) + VariantsOf(ps[|ps| - 1])
  }

  /** `for (const product of products) for (const variant of product.variants || []) …`, as a function. */
  function AddProducts(inv: map<string, int>, ps: seq<ProductEntry>): map<string, int>
  {
    if ps == [] then inv else AddVariants(AddProducts(inv, ps[..|ps| - 1]), VariantsOf(ps[|ps| - 1]))
  }

  /** The nested loops store exactly what one loop over all the variants in order stores. */
  lemma {:induction false} AddProductsFlat(inv: map<string, int>, ps: seq<ProductEntry>)
    ensures AddProducts(inv, ps) == AddVariants(inv, AllVariants(ps))
  {
    if ps != [] {
      var p := ps[..|ps| - 1];
      AddProductsFlat(inv, p);
      AddVariantsConcat(inv, AllVariants(p), VariantsOf(ps[|ps| - 1]));
    }
  }

  // ---------------------------------------------------------------------------
  // The `link` header.
  // ---------------------------------------------------------------------------

  const RelNext: string := "rel=\"next\""

  /** A character `\s` matches in a JavaScript regular expression. */
  predicate IsJsSpace(c: char)
  {
    || c == ' ' || c == '\t' || c == '\n' || c == '\r' || c == '\U{000B}' || c == '\U{000C}'
    || c == '\U{00A0}' || c == '\U{1680}' || ('\U{2000}' <= c <= '\U{200A}')
    || c == '\U{2028}' || c == '\U{2029}' || c == '\U{202F}' || c == '\U{205F}'
    || c == '\U{3000}' || c == '\U{FEFF}'
  }

  /** How many characters `\s*` takes at the start of `s`. */
  function LeadingSpaces(s: string): (n: nat)
    ensures n <= |s|
    ensures forall i :: 0 <= i < n ==> IsJsSpace(s[i])
    ensures n < |s| ==> !IsJsSpace(s[n])
  {
    if s == [] || !IsJsSpace(s[0]) then 0 else 1 + LeadingSpaces(s[1..])
  }

  /**
   * The capture of `/<([^>]+)>;\s*rel="next"/` for a match starting at `i`.
   * `[^>]+` can only stop at the first `>`, and `\s*` can only stop before
   * the `r`, so neither needs backtracking.
   */
  function MatchAt(s: string, i: nat): (r: Option<string>)
    requires i <= |s|
    ensures r.Some? ==> |r.value| >= 1 && '>' !in r.value && Contains(s, RelNext)
  {
    if i == |s| || s[i] != '<' then None
    else
      match IndexOf(s[i + 1..], '>')
      case None => None
      case Some(j) =>
        assert s[i + 1..i + 1 + j] == s[i + 1..][..j];
        if j == 0 then None else MatchTail(s, i, j)
  }

  /** The rest of a match capturing `s[i + 1..i + 1 + j]`: a `;`, `\s*`, then `rel="next"`. */
  function MatchTail(s: string, i: nat, j: nat): (r: Option<string>)
    requires 1 <= j && i + j + 2 <= |s| && '>' !in s[i + 1..i + 1 + j]
    ensures r.Some? ==> r == Some(s[i + 1..i + 1 + j]) && Contains(s, RelNext)
  {
    if i + j + 2 == |s| || s[i + j + 2] != ';' then None
    else
      var k := i + j + 3 + LeadingSpaces(s[i + j + 3..]);
      if RelNext <= s[k..] then
        assert 0 <= k <= |s| - |RelNext| && RelNext <= s[k..];
        Some(s[i + 1..i + 1 + j])
      else None
  }

  /** The leftmost match at or after `i`. */
  function FirstMatch(s: string, i: nat): (r: Option<string>)
    requires i <= |s|
    ensures r.Some? ==> |r.value| >= 1 && '>' !in r.value && Contains(s, RelNext)
    decreases |s| - i
  {
    match MatchAt(s, i)
    case Some(t) => Some(t)
    case None => if i == |s| then None else FirstMatch(s, i + 1)
  }

  /** `linkHeader.match(/<([^>]+)>;\s*rel="next"/)?.[1]`. */
  function LinkTarget(s: string): (r: Option<string>)
    ensures r.Some? ==> |r.value| >= 1 && '>' !in r.value && Contains(s, RelNext)
  {
    FirstMatch(s, 0)
  }

  /** The URL of the next page, or `None` when the loop stops. */
  function NextPage(link: Option<string>): Option<string>
  {
    if link.Some? && link.value != "" && Contains(link.value, RelNext) then LinkTarget(link.value) else None
  }

  /**
   * The two tests before the regular expression never change the outcome: a
   * header the pattern matches is not empty and contains `rel="next"`.
   */
  lemma NextPageIsLinkTarget(link: Option<string>)
    ensures NextPage(link) == if link.Some? then LinkTarget(link.value) else None
  {
    if link.Some? && link.value == "" {
      assert MatchAt(link.value, 0) == None;
    }
  }

  /** Positions that are not `<` start no match. */
  lemma {:induction false} FirstMatchSkip(s: string, a: nat, b: nat)
    requires a <= b <= |s|
    requires forall i :: a <= i < b ==> s[i] != '<'
    ensures FirstMatch(s, a) == FirstMatch(s, b)
    decreases b - a
  {
    if a < b {
      assert MatchAt(s, a) == None;
      FirstMatchStep(s, a);
      FirstMatchSkip(s, a + 1, b);
    }
  }

  /** A match of the pattern at `i`, assembled from its parts. */
  lemma MatchAtIntro(s: string, i: nat, j: nat, sp: nat)
    requires i < |s| && s[i] == '<'
    requires IndexOf(s[i + 1..], '>') == Some(j) && j >= 1
    requires i + j + 2 < |s| && s[i + j + 2] == ';'
    requires LeadingSpaces(s[i + j + 3..]) == sp
    requires i + j + 3 + sp <= |s| && RelNext <= s[i + j + 3 + sp..]
    ensures MatchAt(s, i) == Some(s[i + 1..i + 1 + j])
  {
    assert MatchTail(s, i, j) == Some(s[i + 1..i + 1 + j]);
  }

  /** `\s*` in front of a non-space takes one space. */
  lemma OneSpace(t: string)
    requires |t| >= 2 && t[0] == ' ' && !IsJsSpace(t[1])
    ensures LeadingSpaces(t) == 1
  {
    assert t[1..][0] == t[1];
  }

  const RelPrevious: string := "rel=\"previous\""

  /** The header entry `<u>; ` followed by `rest`. */
  function Entry(u: string, rest: string): string
  {
    "<" + (u + (">; " + rest))
  }

  /** An entry `<u>; rel="next"` at position `|pre|` is a match, and its capture is `u`. */
  lemma NextEntryMatches(pre: string, u: string, post: string)
    requires |u| >= 1 && '>' !in u
    ensures MatchAt(pre + Entry(u, RelNext + post), |pre|) == Some(u)
  {
    var s := pre + Entry(u, RelNext + post);
    var i, j := |pre|, |u|;
    EntryParts(pre, u, RelNext + post);
    var w := s[i + j + 3..];
    assert w[1] == RelNext[0];
    OneSpace(w);
    assert s[i + j + 4..] == w[1..] == RelNext + post;
    MatchAtIntro(s, i, j, 1);
  }

  /** An entry `<u>; rel="previous"` at position `|pre|` is not a match. */
  lemma PreviousEntryFails(pre: string, u: string, post: string)
    requires |u| >= 1 && '>' !in u
    ensures MatchAt(pre + Entry(u, RelPrevious + post), |pre|) == None
  {
    var s := pre + Entry(u, RelPrevious + post);
    var i, j := |pre|, |u|;
    EntryParts(pre, u, RelPrevious + post);
    var w := s[i + j + 3..];
    assert w[1] == RelPrevious[0];
    OneSpace(w);
    assert s[i + j + 2..][1..] == w;
    assert s[i + j + 4..] == w[1..] == RelPrevious + post;
    assert s[i + j + 4..][5] == RelPrevious[5] != RelNext[5];
  }

  /** Where the parts of an entry lie: the bracket, the first `>` after it, the semicolon and the rest. */
  lemma EntryParts(pre: string, u: string, rest: string)
    requires '>' !in u
    ensures var s := pre + Entry(u, rest);
      && |s| == |pre| + |u| + 4 + |rest|
      && s[|pre|] == '<'
      && IndexOf(s[|pre| + 1..], '>') == Some(|u|)
      && s[|pre| + 1..|pre| + 1 + |u|] == u
      && s[|pre| + |u| + 2] == ';'
      && s[|pre| + |u| + 3..] == " " + rest
  {
    var t := u + (">; " + rest);
    var s := pre + Entry(u, rest);
    AfterBracket(pre, t);
    EntryBody(u, rest);
    assert s[|pre| + 1..|pre| + 1 + |u|] == t[..|u|];
    assert s[|pre| + |u| + 2] == t[|u| + 1];
    assert s[|pre| + |u| + 3..] == t[|u| + 2..];
  }

  /** A `<` placed after `pre`, and what follows it. */
  lemma AfterBracket(pre: string, t: string)
    ensures (pre + ("<" + t))[|pre|] == '<' && (pre + ("<" + t))[|pre| + 1..] == t
  {
    assert (pre + ("<" + t))[|pre|..] == "<" + t;
  }

  /** Inside an entry: the URL, the first `>` right after it, then `; ` and the rest. */
  lemma EntryBody(u: string, rest: string)
    requires '>' !in u
    ensures var t := u + (">; " + rest);
      && t[..|u|] == u && IndexOf(t, '>') == Some(|u|)
      && t[|u| + 1] == ';' && t[|u| + 2..] == " " + rest
  {
    var r := ">; " + rest;
    var t := u + r;
    assert t[..|u|] == u && t[|u|..] == r;
    IndexOfIs(t, '>', |u|);
    assert t[|u| + 2..] == r[2..];
  }

  /** A header whose first `<` opens a next entry yields that entry's URL. */
  lemma LinkTargetFirstNext(pre: string, u: string, post: string)
    requires |u| >= 1 && '>' !in u && '<' !in pre
    ensures LinkTarget(pre + Entry(u, RelNext + post)) == Some(u)
  {
    var s := pre + Entry(u, RelNext + post);
    assert s[..|pre|] == pre;
    FirstMatchSkip(s, 0, |pre|);
    NextEntryMatches(pre, u, post);
  }

  /** A previous entry, then text without `<`, then a next entry: the next entry's URL is followed. */
  lemma LinkTargetAfterPrevious(p: string, mid: string, u: string, post: string)
    requires |p| >= 1 && '>' !in p && '<' !in p
    requires |u| >= 1 && '>' !in u && '<' !in mid
    ensures LinkTarget(Entry(p, RelPrevious + mid) + Entry(u, RelNext + post)) == Some(u)
  {
    var first := Entry(p, RelPrevious + mid);
    var s := first + Entry(u, RelNext + post);
    assert s == [] + Entry(p, RelPrevious + (mid + Entry(u, RelNext + post)));
    PreviousEntryFails([], p, mid + Entry(u, RelNext + post));
    NoOpeningBracket(p, RelPrevious + mid);
    assert forall i :: 1 <= i < |first| ==> s[i] == first[i];
    FirstMatchSkip(s, 1, |first|);
    NextEntryMatches(first, u, post);
  }

  /** A header whose only `<` opens a previous entry has no next page. */
  lemma LinkTargetOnlyPreviousEntry(pre: string, p: string, post: string)
    requires |p| >= 1 && '>' !in p && '<' !in p && '<' !in pre && '<' !in post
    ensures LinkTarget(pre + Entry(p, RelPrevious + post)) == None
  {
    var e := Entry(p, RelPrevious + post);
    var s := pre + e;
    assert s[..|pre|] == pre;
    FirstMatchSkip(s, 0, |pre|);
    PreviousEntryFails(pre, p, post);
    FirstMatchStep(s, |pre|);
    NoOpeningBracket(p, RelPrevious + post);
    assert forall i :: |pre| + 1 <= i < |s| ==> s[i] == e[i - |pre|];
    NoMatchFrom(s, |pre| + 1);
  }

  /** Past the last `<` the search finds nothing. */
  lemma NoMatchFrom(s: string, a: nat)
    requires a <= |s|
    requires forall i :: a <= i < |s| ==> s[i] != '<'
    ensures FirstMatch(s, a) == None
  {
    FirstMatchSkip(s, a, |s|);
    FirstMatchEnd(s);
  }

  /** A position that starts no match passes the search on to the next one. */
  lemma FirstMatchStep(s: string, i: nat)
    requires i < |s| && MatchAt(s, i) == None
    ensures FirstMatch(s, i) == FirstMatch(s, i + 1)
  {
  }

  /** The search finds nothing at the end of the header. */
  lemma FirstMatchEnd(s: string)
    ensures FirstMatch(s, |s|) == None
  {
  }

  /** Past its first character, an entry holds no `<` of its own. */
  lemma NoOpeningBracket(u: string, rest: string)
    requires '<' !in u && '<' !in rest
    ensures forall i :: 1 <= i < |Entry(u, rest)| ==> Entry(u, rest)[i] != '<'
  {
    var e := Entry(u, rest);
    forall i | 1 <= i < |e|
      ensures e[i] != '<'
    {
      assert e[1..] == u + (">; " + rest);
      assert e[i] == e[1..][i - 1];
      if i - 1 >= |u| + 3 {
        assert e[i] == rest[i - 1 - |u| - 3];
      }
    }
  }

  /** A header with only a next link. */
  lemma LinkTargetOnlyNext()
    ensures LinkTarget("<u>; rel=\"next\"") == Some("u")
  {
    assert "<u>; rel=\"next\"" == "" + Entry("u", RelNext + "");
    LinkTargetFirstNext("", "u", "");
  }

  /** A header listing the previous page first: the match is the next link, not the first link. */
  lemma LinkTargetSkipsPrevious()
    ensures LinkTarget("<p>; rel=\"previous\", <n>; rel=\"next\"") == Some("n")
  {
    PreviousThenNext("<p>; rel=\"previous\", <n>; rel=\"next\"");
    LinkTargetAfterPrevious("p", ", ", "n", "");
  }

  lemma PreviousThenNext(s: string)
    requires s == "<p>; rel=\"previous\", <n>; rel=\"next\""
    ensures s == Entry("p", RelPrevious + ", ") + Entry("n", RelNext + "")
  {
    PreviousEntryText();
    NextEntryText();
    assert s == "<p>; rel=\"previous\", " + "<n>; rel=\"next\"";
  }

  lemma PreviousEntryText()
    ensures Entry("p", RelPrevious + ", ") == "<p>; rel=\"previous\", "
  {
  }

  lemma NextEntryText()
    ensures Entry("n", RelNext + "") == "<n>; rel=\"next\""
  {
  }

  /** A header with only a previous link ends the loop. */
  lemma LinkTargetOnlyPrevious()
    ensures LinkTarget("<p>; rel=\"previous\"") == None
  {
    assert "<p>; rel=\"previous\"" == "" + Entry("p", RelPrevious + "");
    LinkTargetOnlyPreviousEntry("", "p", "");
  }


  // ---------------------------------------------------------------------------
  // The paging loop, as a specification.
  // ---------------------------------------------------------------------------

  /** The response a page ends the run with, if it does: a rejection, a non-ok status or a body that is not JSON. */
  function PageError(page: FetchResult): (r: Option<Response>)
    ensures r.None? <==> page.Answered? && IsOk(page.status) && page.body.Parsed?
    ensures r.Some? ==> r.value.Failure?
    ensures r.Some? && page.Answered? && !IsOk(page.status) ==> r.value.status == page.status
  {
    match page
    case Rejected(error) => Some(Failure(500, error.GetOr("Unknown error"), None))
    case Answered(status, text, body, _) =>
      if !IsOk(status) then Some(Failure(status, "Shopify API error: " + NatToString(status), Some(text)))
      else match body
        case Unparsable(message) => Some(Failure(500, message, None))
        case Parsed(_) => None
  }

  /** The run from the page at `url` on, with the record so far: the response and the URLs fetched. */
  function Crawl(script: seq<FetchResult>, url: string, inv: map<string, int>): (r: (Response, seq<string>))
    ensures |r.1| <= |script|
    ensures script != [] ==> |r.1| >= 1 && r.1[0] == url
    ensures script == [] ==> r == (ScriptExhausted, [])
  {
    if script == [] then (ScriptExhausted, [])
    else
      var page := script[0];
      match PageError(page)
      case Some(failure) => (failure, [url])
      case None =>
        var out := AddProducts(inv, PageProducts(page));
        match NextPage(page.link)
        case None => (Success(out), [url])
        case Some(next) =>
          var rest := Crawl(script[1..], next, out);
          (rest.0, [url] + rest.1)
  }

  /** The whole request. */
  function Serve(requestMethod: string, token: Option<string>, script: seq<FetchResult>): (Response, seq<string>)
  {
    if requestMethod == "OPTIONS" then (Preflight, [])
    else if !HasToken(token) then (Failure(500, MissingToken, None), [])
    else Crawl(script, ProductsUrl, map[])
  }

  /** The variants of the pages, page by page. */
  function PagesVariants(pages: seq<FetchResult>): seq<Variant>
  {
    if pages == [] then [] else AllVariants(PageProducts(pages[0])) + PagesVariants(pages[1..])
  }

  /**
   * Every URL after the first is the next link of the page before, and every
   * page before the last one fetched was ok and parsed.
   */
  lemma {:induction false} CrawlFollowsLinks(script: seq<FetchResult>, url: string, inv: map<string, int>, k: nat)
    requires k + 1 < |Crawl(script, url, inv).1|
    ensures PageError(script[k]).None?
    ensures NextPage(script[k].link) == Some(Crawl(script, url, inv).1[k + 1])
  {
    var page := script[0];
    var out := AddProducts(inv, PageProducts(page));
    var next := NextPage(page.link).value;
    if k > 0 {
      CrawlFollowsLinks(script[1..], next, out, k - 1);
    }
  }

  /**
   * A successful run stored exactly the variants of the pages it fetched, in
   * order, after what the record held; those pages were all ok and parsed,
   * and the last one had no next link.
   */
  lemma {:induction false} CrawlSuccess(script: seq<FetchResult>, url: string, inv: map<string, int>)
    requires Crawl(script, url, inv).0.Success?
    ensures var (r, urls) := Crawl(script, url, inv);
      && |urls| >= 1
      && r.inventory == AddVariants(inv, PagesVariants(script[..|urls|]))
      && (forall k :: 0 <= k < |urls| ==> PageError(script[k]).None?)
      && NextPage(script[|urls| - 1].link) == None
  {
    var page := script[0];
    var out := AddProducts(inv, PageProducts(page));
    var urls := Crawl(script, url, inv).1;
    AddProductsFlat(inv, PageProducts(page));
    match NextPage(page.link)
    case None =>
      var only := AllVariants(PageProducts(page));
      assert script[..|urls|] == [page];
      assert PagesVariants([page]) == only + PagesVariants([]);
      assert only + [] == only;
    case Some(next) =>
      var rest := script[1..];
      CrawlSuccess(rest, next, out);
      var m := |Crawl(rest, next, out).1|;
      assert script[..|urls|][1..] == rest[..m];
      AddVariantsConcat(inv, AllVariants(PageProducts(page)), PagesVariants(rest[..m]));
      forall k | 0 < k < |urls|
        ensures PageError(script[k]).None?
      {
        assert script[k] == rest[k - 1];
      }
  }

  /** A failed run ends at the page that failed, with that page's error. */
  lemma {:induction false} CrawlFailure(script: seq<FetchResult>, url: string, inv: map<string, int>)
    requires Crawl(script, url, inv).0.Failure?
    ensures var (r, urls) := Crawl(script, url, inv);
      |urls| >= 1 && PageError(script[|urls| - 1]) == Some(r)
  {
    var page := script[0];
    if PageError(page).None? {
      var out := AddProducts(inv, PageProducts(page));
      var next := NextPage(page.link).value;
      CrawlFailure(script[1..], next, out);
    }
  }

  /** On success every variant of every fetched page has an entry. */
  lemma SuccessCoversEveryVariant(token: Option<string>, script: seq<FetchResult>, v: Variant)
    requires Serve("GET", token, script).0.Success?
    requires v in PagesVariants(script[..|Serve("GET", token, script).1|])
    ensures Gid(v.id) in Serve("GET", token, script).0.inventory
  {
    CrawlSuccess(script, ProductsUrl, map[]);
    var vs := PagesVariants(script[..|Serve("GET", token, script).1|]);
    var i :| 0 <= i < |vs| && vs[i] == v;
    AddVariantsStores(map[], vs, i);
  }

  /**
   * On success a variant id's entry holds the quantity of its last occurrence
   * over all fetched pages, so a later page overwrites an earlier one.
   */
  lemma SuccessLastWriteWins(token: Option<string>, script: seq<FetchResult>, i: nat)
    requires Serve("GET", token, script).0.Success?
    requires var vs := PagesVariants(script[..|Serve("GET", token, script).1|]);
      i < |vs| && forall j :: i < j < |vs| ==> vs[j].id != vs[i].id
    ensures var vs := PagesVariants(script[..|Serve("GET", token, script).1|]);
      var inv := Serve("GET", token, script).0.inventory;
      Gid(vs[i].id) in inv && inv[Gid(vs[i].id)] == QuantityOf(vs[i])
  {
    CrawlSuccess(script, ProductsUrl, map[]);
    var vs := PagesVariants(script[..|Serve("GET", token, script).1|]);
    AddVariantsLastWins(map[], vs, i);
  }

  // ---------------------------------------------------------------------------
  // The handler.
  // ---------------------------------------------------------------------------

  /** `pageInfo ? pageInfo : <first page URL>`. */
  function PageUrl(pageInfo: Option<string>): string
  {
    if pageInfo.Some? && pageInfo.value != "" then pageInfo.value else ProductsUrl
  }

  /** The loop state after `n` fetches is on the way of the specified run. */
  ghost predicate Resumes(script: seq<FetchResult>, n: nat, url: string, inv: map<string, int>, fetched: seq<string>)
  {
    n <= |script|
    && Crawl(script, ProductsUrl, map[]).0 == Crawl(script[n..], url, inv).0
    && Crawl(script, ProductsUrl, map[]).1 == fetched + Crawl(script[n..], url, inv).1
  }

  lemma ResumeExhausted(script: seq<FetchResult>, n: nat, url: string, inv: map<string, int>, fetched: seq<string>)
    requires Resumes(script, n, url, inv, fetched) && n == |script|
    ensures Crawl(script, ProductsUrl, map[]) == (ScriptExhausted, fetched)
  {
    assert script[n..] == [];
    assert Crawl(script[n..], url, inv) == (ScriptExhausted, []);
    assert fetched + [] == fetched;
  }

  lemma ResumeFailed(script: seq<FetchResult>, n: nat, url: string, inv: map<string, int>, fetched: seq<string>)
    requires Resumes(script, n, url, inv, fetched) && n < |script| && PageError(script[n]).Some?
    ensures Crawl(script, ProductsUrl, map[]) == (PageError(script[n]).value, fetched + [url])
  {
    assert script[n..][0] == script[n];
  }

  lemma ResumeNext(script: seq<FetchResult>, n: nat, url: string, inv: map<string, int>, fetched: seq<string>)
    requires Resumes(script, n, url, inv, fetched) && n < |script| && PageError(script[n]).None?
    ensures var out := AddProducts(inv, PageProducts(script[n]));
      match NextPage(script[n].link)
      case None => Crawl(script, ProductsUrl, map[]) == (Success(out), fetched + [url])
      case Some(next) => Resumes(script, n + 1, next, out, fetched + [url])
  {
    var t := script[n..];
    assert t[0] == script[n];
    assert t[1..] == script[n + 1..];
    CrawlOkPage(t, url, inv);
    var out := AddProducts(inv, PageProducts(script[n]));
    match NextPage(script[n].link)
    case None =>
    case Some(next) =>
      var rest := Crawl(t[1..], next, out).1;
      assert fetched + ([url] + rest) == fetched + [url] + rest;
  }

  /** One step of the run at a page that is ok and parsed. */
  lemma CrawlOkPage(t: seq<FetchResult>, url: string, inv: map<string, int>)
    requires t != [] && PageError(t[0]).None?
    ensures var out := AddProducts(inv, PageProducts(t[0]));
      match NextPage(t[0].link)
      case None => Crawl(t, url, inv) == (Success(out), [url])
      case Some(next) => Crawl(t, url, inv) == (Crawl(t[1..], next, out).0, [url] + Crawl(t[1..], next, out).1)
  {
  }

  /**
   * The edge function's handler. OPTIONS and a missing token answer without
   * fetching anything; otherwise the pages are fetched and stored as `Crawl`
   * specifies. `fetched` lists the URLs requested, in order.
   */
  method HandleRequest(requestMethod: string, token: Option<string>, script: seq<FetchResult>)
    returns (response: Response, fetched: seq<string>)
    ensures (response, fetched) == Serve(requestMethod, token, script)
    ensures requestMethod == "OPTIONS" ==> response == Preflight && fetched == []
    ensures requestMethod != "OPTIONS" && !HasToken(token) ==>
      response == Failure(500, MissingToken, None) && fetched == []
    ensures requestMethod != "OPTIONS" && HasToken(token) && script != [] ==> fetched[0] == ProductsUrl
  {
    if requestMethod == "OPTIONS" {
      return Preflight, [];
    }
    if !HasToken(token) {
      return Failure(500, MissingToken, None), [];
    }
    var inventory: map<string, int> := map[];
    var pageInfo: Option<string> := None;
    var hasMore := true;
    var n := 0;
    fetched := [];
    while hasMore
      invariant n <= |script|
      invariant hasMore ==> Resumes(script, n, PageUrl(pageInfo), inventory, fetched)
      invariant !hasMore ==> Crawl(script, ProductsUrl, map[]) == (Success(inventory), fetched)
      decreases |script| - n
    {
      var url := if pageInfo.Some? && pageInfo.value != "" then pageInfo.value else ProductsUrl;
      if n == |script| {
        ResumeExhausted(script, n, url, inventory, fetched);
        return ScriptExhausted, fetched;
      }
      var res := script[n];
      if res.Rejected? {
        ResumeFailed(script, n, url, inventory, fetched);
        return Failure(500, res.error.GetOr("Unknown error"), None), fetched + [url];
      }
      if !IsOk(res.status) {
        ResumeFailed(script, n, url, inventory, fetched);
        return Failure(res.status, "Shopify API error: " + NatToString(res.status), Some(res.text)), fetched + [url];
      }
      if res.body.Unparsable? {
        ResumeFailed(script, n, url, inventory, fetched);
        return Failure(500, res.body.message, None), fetched + [url];
      }
      ghost var before := inventory;
      inventory := StoreProducts(inventory, res.body.products.GetOr([]));
      ResumeNext(script, n, url, before, fetched);
      fetched := fetched + [url];
      n := n + 1;

      var linkHeader := res.link;
      if linkHeader.Some? && linkHeader.value != "" && Contains(linkHeader.value, RelNext) {
        pageInfo := LinkTarget(linkHeader.value);
        hasMore := pageInfo.Some? && pageInfo.value != "";
      } else {
        hasMore := false;
      }
    }
    response := Success(inventory);
  }

  /** The nested loops over a page's products and their variants. */
  method StoreProducts(inventory: map<string, int>, products: seq<ProductEntry>) returns (updated: map<string, int>)
    ensures updated == AddProducts(inventory, products)
  {
    updated := inventory;
    for i := 0 to |products|
      invariant updated == AddProducts(inventory, products[..i])
    {
      var variants := products[i].variants.GetOr([]);
      ghost var before := updated;
      for j := 0 to |variants|
        invariant updated == AddVariants(before, variants[..j])
      {
        var variant := variants[j];
        updated := updated[Gid(variant.id) := variant.inventoryQuantity.GetOr(0)];
        assert variants[..j + 1][..j] == variants[..j];
      }
      assert variants[..|variants|] == variants;
      assert products[..i + 1][..i] == products[..i];
    }
    assert products[..|products|] == products;
  }
}
