/** The products page object: the product names the listing shows, the search
    relevance filter over them, and the selector of a brand filter link. */
module ProductsPage {
  import opened Outcomes
  import opened Text
  import opened Dom

  /** `getAllProductNames`: the text of every `.productinfo p` element, in page
      order, exactly as read: nothing is trimmed, dropped or reordered. */
  function AllProductNames(nameCells: seq<Option<string>>): (names: seq<string>)
    ensures |names| == |nameCells|
    ensures forall i :: 0 <= i < |nameCells| ==> names[i] == nameCells[i].GetOr("")
  {
    AllTextContents(nameCells)
  }

  /** The filter of `getRelevantProducts`: the names whose lower-cased form
      contains the lower-cased search term, in their original order, each kept
      as many times as it is listed. */
  function Relevant(names: seq<string>, searchTerm: string): (relevant: seq<string>)
    ensures forall i :: 0 <= i < |relevant| ==> ContainsIgnoringCase(relevant[i], searchTerm)
  {
    if names == [] then []
    else if ContainsIgnoringCase(names[0], searchTerm) then
      var rest := Relevant(names[1..], searchTerm);
      assert ([names[0]] + rest)[1..] == rest;
      [names[0]] + rest
    else Relevant(names[1..], searchTerm)
  }

  /** The kept names are taken from the listing in order. */
  lemma {:induction false} RelevantIsSubsequence(names: seq<string>, searchTerm: string)
    ensures IsSubsequence(Relevant(names, searchTerm), names)
  {
    if names != [] {
      RelevantIsSubsequence(names[1..], searchTerm);
      if ContainsIgnoringCase(names[0], searchTerm) {
        var rest := Relevant(names[1..], searchTerm);
        assert ([names[0]] + rest)[1..] == rest;
      }
    }
  }

  /** Every matching name is kept as many times as it is listed, and no other
      name is kept. */
  lemma {:induction false} RelevantCounts(names: seq<string>, searchTerm: string)
    ensures forall x ::
      multiset(Relevant(names, searchTerm))[x] == if ContainsIgnoringCase(x, searchTerm) then multiset(names)[x] else 0
  {
    if names != [] {
      RelevantCounts(names[1..], searchTerm);
      assert names == [names[0]] + names[1..];
    }
  }

  /** Filtering a listing in two parts filters each part: the filter works name
      by name, keeping the order. */
  lemma {:induction false} RelevantOfConcat(a: seq<string>, b: seq<string>, searchTerm: string)
    ensures Relevant(a + b, searchTerm) == Relevant(a, searchTerm) + Relevant(b, searchTerm)
  {
    if a == [] {
      assert a + b == b;
    } else {
      var ab := a + b;
      assert ab[0] == a[0];
      assert ab[1..] == a[1..] + b by {
        assert forall i :: 0 <= i < |a[1..] + b| ==> ab[1..][i] == (a[1..] + b)[i];
      }
      RelevantOfConcat(a[1..], b, searchTerm);
      RelevantStep(a, searchTerm);
      RelevantStep(ab, searchTerm);
    }
  }

  /** One step of the filter: the first name, if it matches, ahead of the
      filtered rest. */
  lemma RelevantStep(names: seq<string>, searchTerm: string)
    requires names != []
    ensures Relevant(names, searchTerm) ==
      (if ContainsIgnoringCase(names[0], searchTerm) then [names[0]] else []) + Relevant(names[1..], searchTerm)
  {
  }

  /** A single name is kept iff it matches. */
  lemma RelevantOfSingle(name: string, searchTerm: string)
    ensures Relevant([name], searchTerm) == if ContainsIgnoringCase(name, searchTerm) then [name] else []
  {
    assert [name][1..] == [];
  }

  /** Completeness: every name that contains the term, ignoring case, is kept. */
  lemma {:induction false} RelevantComplete(names: seq<string>, searchTerm: string)
    ensures forall i :: 0 <= i < |names| && ContainsIgnoringCase(names[i], searchTerm) ==>
      names[i] in Relevant(names, searchTerm)
  {
    if names != [] {
      RelevantComplete(names[1..], searchTerm);
      forall i | 0 <= i < |names| && ContainsIgnoringCase(names[i], searchTerm)
        ensures names[i] in Relevant(names, searchTerm)
      {
        if i > 0 {
          assert names[i] == names[1..][i - 1];
        }
      }
    }
  }

  /** The filter keeps a name exactly when the name matches: a name that is kept
      matches, and a name that matches is kept. */
  lemma RelevantIff(names: seq<string>, searchTerm: string, name: string)
    requires name in names
    ensures name in Relevant(names, searchTerm) <==> ContainsIgnoringCase(name, searchTerm)
  {
    RelevantComplete(names, searchTerm);
    var relevant := Relevant(names, searchTerm);
    if name in relevant {
      var i :| 0 <= i < |relevant| && relevant[i] == name;
    }
  }

  /** An empty search term matches every name, so nothing is filtered out. */
  lemma {:induction false} RelevantOfEmptyTerm(names: seq<string>)
    ensures Relevant(names, "") == names
  {
    if names != [] {
      ContainsEmpty(ToLower(names[0]));
      assert ToLower("") == "";
      RelevantOfEmptyTerm(names[1..]);
      assert [names[0]] + names[1..] == names;
    }
  }

  /** Filtering the relevant names again with the same term changes nothing. */
  lemma {:induction false} RelevantIdempotent(names: seq<string>, searchTerm: string)
    ensures Relevant(Relevant(names, searchTerm), searchTerm) == Relevant(names, searchTerm)
  {
    if names != [] {
      RelevantIdempotent(names[1..], searchTerm);
      if ContainsIgnoringCase(names[0], searchTerm) {
        var rest := Relevant(names[1..], searchTerm);
        assert ([names[0]] + rest)[1..] == rest;
      }
    }
  }

  /** What `getRelevantProducts` returns: every name of the listing, and the ones
      that match the search term. */
  datatype SearchResults = SearchResults(productNames: seq<string>, relevant: seq<string>)

  /** `getRelevantProducts`: `productNames` is the listing's text unchanged, and
      `relevant` is exactly its matching names, in order. */
  function GetRelevantProducts(nameCells: seq<Option<string>>, searchTerm: string): (r: SearchResults)
    ensures |r.productNames| == |nameCells|
    ensures forall i :: 0 <= i < |nameCells| ==> r.productNames[i] == nameCells[i].GetOr("")
    ensures IsSubsequence(r.relevant, r.productNames)
    ensures forall i :: 0 <= i < |r.relevant| ==> ContainsIgnoringCase(r.relevant[i], searchTerm)
    ensures forall i :: 0 <= i < |r.productNames| && ContainsIgnoringCase(r.productNames[i], searchTerm) ==>
      r.productNames[i] in r.relevant
    ensures forall x ::
      multiset(r.relevant)[x] == if ContainsIgnoringCase(x, searchTerm) then multiset(r.productNames)[x] else 0
  {
    var productNames := AllProductNames(nameCells);
    RelevantComplete(productNames, searchTerm);
    RelevantCounts(productNames, searchTerm);
    RelevantIsSubsequence(productNames, searchTerm);
    SearchResults(productNames, Relevant(productNames, searchTerm))
  }

  /** The fixed text before and after the brand name in a brand link selector. */
  const BrandSelectorStart := ".brands-name li a:has-text(\""
  const BrandSelectorEnd := "\")"

  /** The selector `clickBrand` clicks: a brand link whose text contains the
      brand name, which is embedded verbatim between the fixed parts. */
  function BrandSelector(brandName: string): (selector: string)
    ensures |selector| == |BrandSelectorStart| + |brandName| + |BrandSelectorEnd|
    ensures selector[..|BrandSelectorStart|] == BrandSelectorStart
    ensures selector[|selector| - |BrandSelectorEnd|..] == BrandSelectorEnd
    ensures selector[|BrandSelectorStart|..|selector| - |BrandSelectorEnd|] == brandName
  {
    BrandSelectorStart + brandName + BrandSelectorEnd
  }

  /** Different brands give different selectors. */
  lemma BrandSelectorInjective(a: string, b: string)
    requires BrandSelector(a) == BrandSelector(b)
    ensures a == b
  {
    var s := BrandSelector(a);
    assert a == s[|BrandSelectorStart|..|s| - |BrandSelectorEnd|];
  }
}
