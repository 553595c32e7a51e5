/** The citation list at the end of `generateFullDocumentContent`
    (services/geminiService.js, line 144): the URLs of the collected sources
    go through a `Set`, which keeps the first occurrence of each in insertion
    order, and each URL is mapped back to the first source that carries it
    with `find`. */
module SourceDedup {
  import opened Wrappers

  /** One grounding citation as the streaming loop records it. */
  datatype Source = Source(title: string, url: string)

  /** `sources.map(s => s.url)`. */
  function Urls(sources: seq<Source>): (r: seq<string>)
    ensures |r| == |sources| && forall i :: 0 <= i < |r| ==> r[i] == sources[i].url
    decreases |sources|
  {
    if sources == [] then [] else [sources[0].url] + Urls(sources[1..])
  }

  /** The position of the first occurrence of `x`. */
  function IndexOf(xs: seq<string>, x: string): (k: nat)
    requires x in xs
    ensures k < |xs| && xs[k] == x && forall j :: 0 <= j < k ==> xs[j] != x
    decreases |xs|
  {
    if xs[0] == x then 0 else 1 + IndexOf(xs[1..], x)
  }

  /** `Array.from(new Set(xs))`: each value once, at the place of its first
      occurrence (the order is `DistinctInFirstOccurrenceOrder`). */
  function Distinct(xs: seq<string>): (r: seq<string>)
    ensures forall x :: x in r <==> x in xs
    ensures forall i, j :: 0 <= i < j < |r| ==> r[i] != r[j]
    ensures |r| <= |xs|
    decreases |xs|
  {
    if xs == [] then []
    else
      var init := xs[..|xs| - 1];
      var last := xs[|xs| - 1];
      var r := Distinct(init);
      assert xs == init + [last];
      if last in r then r else r + [last]
  }

  /** The first occurrence of a value already in `init` stays where it was
      when something is appended. */
  lemma IndexOfAppend(init: seq<string>, last: string, x: string)
    requires x in init
    ensures IndexOf(init + [last], x) == IndexOf(init, x)
  {
    var k := IndexOf(init, x);
    assert (init + [last])[k] == x;
    assert forall j :: 0 <= j < k ==> (init + [last])[j] == init[j];
  }

  /** A value appended after `init` that `init` lacks first occurs last. */
  lemma IndexOfNew(init: seq<string>, last: string)
    requires last !in init
    ensures IndexOf(init + [last], last) == |init|
  {
    var xs := init + [last];
    assert xs[|init|] == last;
    assert forall j :: 0 <= j < |init| ==> xs[j] == init[j];
  }

  /** The `Set` keeps the values in the order of their first occurrence. */
  lemma {:induction false} DistinctInFirstOccurrenceOrder(xs: seq<string>)
    ensures forall i, j :: 0 <= i < j < |Distinct(xs)| ==> IndexOf(xs, Distinct(xs)[i]) < IndexOf(xs, Distinct(xs)[j])
    decreases |xs|
  {
    if xs != [] {
      var init := xs[..|xs| - 1];
      var last := xs[|xs| - 1];
      var r := Distinct(init);
      assert xs == init + [last];
      DistinctInFirstOccurrenceOrder(init);
      forall x | x in init ensures IndexOf(xs, x) == IndexOf(init, x) {
        IndexOfAppend(init, last, x);
      }
      if last !in r {
        IndexOfNew(init, last);
        assert Distinct(xs) == r + [last];
        forall i, j | 0 <= i < j < |r| + 1
          ensures IndexOf(xs, (r + [last])[i]) < IndexOf(xs, (r + [last])[j])
        {
          assert (r + [last])[i] == r[i];
          assert IndexOf(init, r[i]) < |init|;
        }
      }
    }
  }

  /** `sources.find(s => s.url === url)`: the first source with that URL. */
  function Find(sources: seq<Source>, url: string): (r: Option<Source>)
    ensures r.None? <==> url !in Urls(sources)
    ensures r.Some? ==> r.value == sources[IndexOf(Urls(sources), url)]
    decreases |sources|
  {
    if sources == [] then None
    else if sources[0].url == url then Some(sources[0])
    else
      var r := Find(sources[1..], url);
      assert Urls(sources) == [sources[0].url] + Urls(sources[1..]);
      r
  }

  /** The whole expression: the distinct URLs, each mapped back to its first
      source. Every URL comes from `sources`, so `find` never comes back
      empty here. */
  function Dedup(sources: seq<Source>): (r: seq<Source>)
    ensures |r| <= |sources|
    ensures Urls(r) == Distinct(Urls(sources))
    ensures forall i :: 0 <= i < |r| ==> r[i] == sources[IndexOf(Urls(sources), r[i].url)]
  {
    FindEach(sources, Distinct(Urls(sources)))
  }

  function FindEach(sources: seq<Source>, urls: seq<string>): (r: seq<Source>)
    requires forall u :: u in urls ==> u in Urls(sources)
    ensures |r| == |urls|
    ensures forall i :: 0 <= i < |r| ==> r[i].url == urls[i] && r[i] == sources[IndexOf(Urls(sources), urls[i])]
    decreases |urls|
  {
    if urls == [] then []
    else
      var rest := FindEach(sources, urls[1..]);
      var r := [Find(sources, urls[0]).value] + rest;
      assert forall i :: 1 <= i < |r| ==> r[i] == rest[i - 1] && urls[i] == urls[1..][i - 1];
      r
  }

  /** No URL appears twice in the result, and the result holds exactly the
      URLs of the input. */
  lemma DedupUrlsDistinctAndComplete(sources: seq<Source>)
    ensures forall i, j :: 0 <= i < j < |Dedup(sources)| ==> Dedup(sources)[i].url != Dedup(sources)[j].url
    ensures forall u :: u in Urls(Dedup(sources)) <==> u in Urls(sources)
  {
    var r := Dedup(sources);
    forall i, j | 0 <= i < j < |r| ensures r[i].url != r[j].url {
      assert r[i].url == Urls(r)[i] && r[j].url == Urls(r)[j];
    }
  }

  /** The result follows the order in which the URLs first appear in the
      input. */
  lemma DedupInOrder(sources: seq<Source>)
    ensures forall i, j :: 0 <= i < j < |Dedup(sources)| ==>
      IndexOf(Urls(sources), Dedup(sources)[i].url) < IndexOf(Urls(sources), Dedup(sources)[j].url)
  {
    var r := Dedup(sources);
    DistinctInFirstOccurrenceOrder(Urls(sources));
    forall i, j | 0 <= i < j < |r|
      ensures IndexOf(Urls(sources), r[i].url) < IndexOf(Urls(sources), r[j].url)
    {
      assert r[i].url == Urls(r)[i] && r[j].url == Urls(r)[j];
    }
  }

  /** Each entry is the first record carrying its URL. */
  lemma DedupTakesFirstRecord(sources: seq<Source>)
    ensures forall i :: 0 <= i < |Dedup(sources)| ==>
      exists k :: 0 <= k < |sources| && sources[k] == Dedup(sources)[i]
                  && (forall j :: 0 <= j < k ==> sources[j].url != Dedup(sources)[i].url)
  {
    var r := Dedup(sources);
    forall i | 0 <= i < |r|
      ensures exists k :: 0 <= k < |sources| && sources[k] == r[i]
                          && (forall j :: 0 <= j < k ==> sources[j].url != r[i].url)
    {
      var k := IndexOf(Urls(sources), r[i].url);
      assert forall j :: 0 <= j < k ==> sources[j].url == Urls(sources)[j];
    }
  }

  /** `new Set` over values that are already distinct keeps them all, in
      order. */
  lemma {:induction false} DistinctOfDistinct(xs: seq<string>)
    requires forall i, j :: 0 <= i < j < |xs| ==> xs[i] != xs[j]
    ensures Distinct(xs) == xs
    decreases |xs|
  {
    if xs != [] {
      var init := xs[..|xs| - 1];
      DistinctOfDistinct(init);
      assert xs[|xs| - 1] !in init;
      assert init + [xs[|xs| - 1]] == xs;
    }
  }

  /** A list whose URLs are already distinct comes back unchanged. */
  lemma DedupKeepsDistinct(r: seq<Source>)
    requires forall i, j :: 0 <= i < j < |r| ==> r[i].url != r[j].url
    ensures Dedup(r) == r
  {
    UrlsDistinct(r);
    DistinctOfDistinct(Urls(r));
    FindEachOwnUrls(r);
  }

  lemma UrlsDistinct(r: seq<Source>)
    requires forall i, j :: 0 <= i < j < |r| ==> r[i].url != r[j].url
    ensures forall i, j :: 0 <= i < j < |Urls(r)| ==> Urls(r)[i] != Urls(r)[j]
  {
  }

  lemma FindEachOwnUrls(r: seq<Source>)
    requires forall i, j :: 0 <= i < j < |r| ==> r[i].url != r[j].url
    ensures FindEach(r, Urls(r)) == r
  {
    var u := Urls(r);
    var rr := FindEach(r, u);
    forall i | 0 <= i < |r| ensures rr[i] == r[i] {
      assert IndexOf(u, u[i]) == i;
    }
  }

  /** Running the expression twice gives what running it once did. */
  lemma DedupIdempotent(sources: seq<Source>)
    ensures Dedup(Dedup(sources)) == Dedup(sources)
  {
    DedupUrlsDistinctAndComplete(sources);
    DedupKeepsDistinct(Dedup(sources));
  }
}
