/**
 The search-by-image dialog. An image file (any MIME type starting with
 `image/`) can be chosen; a search sends it to the model, which answers
 with a list of product ids, and each id is mapped back to the first
 catalogue product carrying it. The network exchange is an input here: the
 reply is either the parsed `productIds` field (possibly absent) or a
 failure of any kind.
 */
module ImageSearch {
  import opened Js
  import opened Types
  import opened Catalog

  const NO_MATCH_ERROR: string := "No similar products found in our collection."
  const FAILURE_ERROR: string := "Sorry, we couldn't process your image. Please try again."

  datatype File = File(name: string, mimeType: string)

  datatype SearchState = SearchState(
    preview: Option<string>,
    file: Option<File>,
    isLoading: bool,
    error: Option<string>,
    results: seq<Product>)

  /** What `resetState` sets every field to. */
  const INITIAL: SearchState := SearchState(None, None, false, None, [])

  /** `resetState`. Closing the dialog schedules this reset. */
  function Reset(s: SearchState): (r: SearchState)
    ensures r.preview.None? && r.file.None? && !r.isLoading && r.error.None? && r.results == []
  {
    INITIAL
  }

  predicate IsImage(f: File) {
    StartsWith(f.mimeType, "image/")
  }

  /** `handleFileChange`: an image file replaces all state (the preview URL
      the browser makes for it is a parameter); anything else is ignored. */
  function FileChange(s: SearchState, f: Option<File>, previewUrl: string): (r: SearchState)
    ensures f.Some? && IsImage(f.value) ==>
      r.file == f && r.preview == Some(previewUrl) && !r.isLoading && r.error.None? && r.results == []
    ensures !(f.Some? && IsImage(f.value)) ==> r == s
  {
    if f.Some? && IsImage(f.value) then INITIAL.(file := f, preview := Some(previewUrl)) else s
  }

  /** The model's reply after JSON parsing: the `productIds` field, or a
      failure anywhere along the way (reading the file, the request, a
      non-OK status, or the parse). */
  datatype Reply = Parsed(productIds: Option<seq<int>>) | Failed

  /** `products.find(p => p.id === id)`. */
  function FindById(products: seq<Product>, id: int): (r: Option<Product>)
    ensures r.Some? ==> r.value in products && r.value.id == id
    ensures r.None? <==> forall k :: 0 <= k < |products| ==> products[k].id != id
    ensures r.Some? ==> exists k :: 0 <= k < |products| && products[k] == r.value
                         && forall j :: 0 <= j < k ==> products[j].id != id
  {
    if products == [] then None
    else if products[0].id == id then Some(products[0])
    else
      var t := FindById(products[1..], id);
      if t.Some? then
        var k :| 0 <= k < |products[1..]| && products[1..][k] == t.value
                 && forall j :: 0 <= j < k ==> products[1..][j].id != id;
        assert products[k + 1] == t.value;
        t
      else t
  }

  /** `ids.map(find).filter(defined)`. */
  function MatchIds(ids: seq<int>, products: seq<Product>): (r: seq<Product>)
    ensures |r| <= |ids|
    ensures forall p :: p in r ==> p in products && p.id in ids
    ensures forall k :: 0 <= k < |ids| && FindById(products, ids[k]).Some? ==> FindById(products, ids[k]).value in r
  {
    if ids == [] then []
    else
      var rest := MatchIds(ids[1..], products);
      var found := FindById(products, ids[0]);
      if found.Some? then [found.value] + rest else rest
  }

  /** With no product ids in the catalogue, nothing is found. */
  lemma {:induction false} NoMatchesGiveNothing(ids: seq<int>, products: seq<Product>)
    requires forall k, j :: 0 <= k < |ids| && 0 <= j < |products| ==> products[j].id != ids[k]
    ensures MatchIds(ids, products) == []
  {
    if ids != [] {
      NoMatchesGiveNothing(ids[1..], products);
    }
  }

  /** Ids are mapped one at a time, so the results for two id lists in a row
      are the results for the first followed by those for the second. */
  lemma {:induction false} MatchAppend(a: seq<int>, b: seq<int>, products: seq<Product>)
    ensures MatchIds(a + b, products) == MatchIds(a, products) + MatchIds(b, products)
  {
    if a != [] {
      assert (a + b)[1..] == a[1..] + b;
      MatchAppend(a[1..], b, products);
    } else {
      assert a + b == b;
    }
  }

  /** With distinct ids, looking up a product's id finds that product. */
  lemma FindUnique(products: seq<Product>, k: nat)
    requires IdsDistinct(products) && k < |products|
    ensures FindById(products, products[k].id) == Some(products[k])
  {
    var r := FindById(products, products[k].id);
    var j :| 0 <= j < |products| && products[j] == r.value
             && forall m :: 0 <= m < j ==> products[m].id != products[k].id;
  }

  /** Ids found, missing and found again give the two found products in
      the order of the ids. */
  lemma {:induction false} FoundMissingFound(products: seq<Product>, i: nat, j: nat, missing: int)
    requires IdsDistinct(products) && i < |products| && j < |products|
    requires forall k :: 0 <= k < |products| ==> products[k].id != missing
    ensures MatchIds([products[i].id, missing, products[j].id], products) == [products[i], products[j]]
  {
    FindUnique(products, i);
    FindUnique(products, j);
    var ids := [products[i].id, missing, products[j].id];
    assert ids[1..] == [missing, products[j].id];
    assert ids[1..][1..] == [products[j].id];
    assert MatchIds([products[j].id], products) == [products[j]] by {
      assert [products[j].id][1..] == [];
    }
  }

  /** `[2, 99, 5]` against the catalogue (no id 99) gives products 2 and 5, in that order. */
  lemma ExampleTwoNinetyNineFive()
    ensures MatchIds([2, 99, 5], PRODUCTS) == [PRODUCTS[1], PRODUCTS[4]]
  {
    CatalogIdsDistinct();
    FoundMissingFound(PRODUCTS, 1, 4, 99);
  }

  /** Pressing search: without a file nothing happens; otherwise loading
      starts with the error cleared and no results. */
  function BeginSearch(s: SearchState): (r: SearchState)
    ensures s.file.None? ==> r == s
    ensures s.file.Some? ==> r == s.(isLoading := true, error := None, results := [])
  {
    if s.file.None? then s else s.(isLoading := true, error := None, results := [])
  }

  /** How the reply settles the state. Loading always ends. */
  function FinishSearch(s: SearchState, products: seq<Product>, reply: Reply): (r: SearchState)
    ensures !r.isLoading && r.file == s.file && r.preview == s.preview
    ensures reply.Failed? ==> r.error == Some(FAILURE_ERROR) && r.results == s.results
    ensures reply.Parsed? && reply.productIds.Some? && |reply.productIds.value| > 0 ==>
      r.error == s.error && r.results == MatchIds(reply.productIds.value, products)
    ensures reply.Parsed? && (reply.productIds.None? || |reply.productIds.value| == 0) ==>
      r.error == Some(NO_MATCH_ERROR) && r.results == s.results
  {
    match reply
    case Failed => s.(error := Some(FAILURE_ERROR), isLoading := false)
    case Parsed(ids) =>
      if ids.Some? && |ids.value| > 0 then s.(results := MatchIds(ids.value, products), isLoading := false)
      else s.(error := Some(NO_MATCH_ERROR), isLoading := false)
  }

  /** `handleSearch` as one step. */
  function Search(s: SearchState, products: seq<Product>, reply: Reply): (r: SearchState)
    ensures s.file.None? ==> r == s
  {
    if s.file.None? then s else FinishSearch(BeginSearch(s), products, reply)
  }

  /** A search with a file: an empty or missing id list is reported as "no
      similar products" with no results; a non-empty list gives the matches
      and no error, even when nothing matched; a failure gives the fixed
      apology and no results. */
  lemma SearchOutcomes(s: SearchState, products: seq<Product>, reply: Reply)
    requires s.file.Some?
    ensures var r := Search(s, products, reply);
      !r.isLoading
      && (reply.Failed? ==> r.error == Some(FAILURE_ERROR) && r.results == [])
      && (reply.Parsed? && reply.productIds.Some? && |reply.productIds.value| > 0 ==>
            r.error.None? && r.results == MatchIds(reply.productIds.value, products))
      && (reply.Parsed? && (reply.productIds.None? || |reply.productIds.value| == 0) ==>
            r.error == Some(NO_MATCH_ERROR) && r.results == [])
  {
  }

  /** Choosing an image after any earlier search leaves no trace of it. */
  lemma NewImageClearsSearch(s: SearchState, products: seq<Product>, reply: Reply, f: File, url: string)
    requires IsImage(f)
    ensures FileChange(Search(s, products, reply), Some(f), url) == FileChange(INITIAL, Some(f), url)
  {
  }

  /** A non-empty id list none of whose ids is in the catalogue gives no
      results and no error message. */
  lemma UnmatchedIdsNoError(s: SearchState, products: seq<Product>, ids: seq<int>)
    requires s.file.Some? && |ids| > 0
    requires forall k, j :: 0 <= k < |ids| && 0 <= j < |products| ==> products[j].id != ids[k]
    ensures Search(s, products, Parsed(Some(ids))).results == []
    ensures Search(s, products, Parsed(Some(ids))).error.None?
  {
    NoMatchesGiveNothing(ids, products);
    SearchOutcomes(s, products, Parsed(Some(ids)));
  }
}
