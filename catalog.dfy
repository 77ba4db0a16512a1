/** The category index and the quote selection of script.js:
    populateCategories derives the distinct categories and restores the saved
    filter; filterQuotes narrows the list to the selected category and picks
    one record at random. */
module Catalog {
  import opened Quotes

  predicate HasCategory(qs: seq<Quote>, c: string) {
    exists q :: q in qs && q.category == c
  }

  /** `Array.from(new Set(qs.map(q => q.category)))`: every category of the
      list exactly once. */
  function Categories(qs: seq<Quote>): (r: seq<string>)
    ensures forall i, j :: 0 <= i < j < |r| ==> r[i] != r[j]
    ensures forall c :: c in r <==> HasCategory(qs, c)
  {
    if qs == [] then []
    else
      var init, last := qs[..|qs| - 1], qs[|qs| - 1];
      assert qs == init + [last];
      var rest := Categories(init);
      if last.category in rest then rest else rest + [last.category]
  }

  /** Category a occurs in qs before the first occurrence of category b. */
  ghost predicate SeenBefore(qs: seq<Quote>, a: string, b: string) {
    exists p :: 0 <= p < |qs| && qs[p].category == a && !HasCategory(qs[..p], b)
  }

  /** The categories come in first-seen order (the insertion order of a
      JavaScript Set). */
  lemma {:induction false} CategoriesFirstSeen(qs: seq<Quote>)
    ensures forall i, j :: 0 <= i < j < |Categories(qs)| ==>
      SeenBefore(qs, Categories(qs)[i], Categories(qs)[j])
  {
    if qs != [] {
      var init, last := qs[..|qs| - 1], qs[|qs| - 1];
      CategoriesFirstSeen(init);
      var r, rest := Categories(qs), Categories(init);
      forall i, j | 0 <= i < j < |r| ensures SeenBefore(qs, r[i], r[j]) {
        assert r[i] == rest[i];
        if j < |rest| {
          assert r[j] == rest[j] && SeenBefore(init, rest[i], rest[j]);
          var p :| 0 <= p < |init| && init[p].category == rest[i] && !HasCategory(init[..p], rest[j]);
          assert qs[..p] == init[..p] && qs[p] == init[p];
        } else {
          assert r[j] == last.category && !HasCategory(init, last.category);
          assert rest[i] in rest;
          var q :| q in init && q.category == rest[i];
          var p :| 0 <= p < |init| && init[p] == q;
          assert qs[p] == q;
          forall q' | q' in qs[..p] ensures q'.category != last.category {
            assert q' in init[..p];
            assert q' in init;
          }
        }
      }
    }
  }

  /** Appending records never removes a category. */
  lemma CategoriesGrow(qs: seq<Quote>, more: seq<Quote>)
    ensures forall c :: c in Categories(qs) ==> c in Categories(qs + more)
  {
  }

  /** The filter populateCategories restores. The saved value is kept exactly
      when it is non-empty and is "all" or a known category; otherwise the
      filter falls back to "all". Either way the result is "all" or a known
      category. */
  function SelectedFilter(cats: seq<string>, last: Option<string>): (r: string)
    ensures r == "all" || r in cats
    ensures (last.Some? && r == last.value)
        <==> (last.Some? && last.value != "" && (last.value == "all" || last.value in cats))
    ensures !(last.Some? && last.value != "" && (last.value == "all" || last.value in cats)) ==> r == "all"
  {
    if last.Some? && last.value != "" && (last.value == "all" || last.value in cats)
    then last.value
    else "all"
  }

  /** `qs.filter(q => q.category === c)`: every record of that category, with
      its multiplicity, and no other. */
  function OfCategory(qs: seq<Quote>, c: string): (r: seq<Quote>)
    ensures forall q :: multiset(r)[q] == if q.category == c then multiset(qs)[q] else 0
  {
    if qs == [] then []
    else
      assert qs == [qs[0]] + qs[1..];
      (if qs[0].category == c then [qs[0]] else []) + OfCategory(qs[1..], c)
  }

  /** The candidate set of filterQuotes: the whole list for "all", otherwise
      the records of the selected category. */
  function Candidates(qs: seq<Quote>, selected: string): seq<Quote> {
    if selected == "all" then qs else OfCategory(qs, selected)
  }

  /** What the quote area shows. */
  datatype Display = NoQuotes | Shown(quote: Quote)

  /** `Math.floor(random * n)` for `random` in [0, 1): always a valid index. */
  function PickIndex(random: real, n: nat): (k: nat)
    requires 0.0 <= random < 1.0 && 0 < n
    ensures k < n
  {
    assert 0.0 <= random * n as real < n as real by {
      assert (1.0 - random) * n as real > 0.0;
    }
    (random * n as real).Floor
  }

  /** filterQuotes' choice. The empty candidate set gives the "No quotes
      found" state; otherwise the shown record is in the list and, unless the
      filter is "all", of the selected category. */
  function Pick(qs: seq<Quote>, selected: string, random: real): (d: Display)
    requires 0.0 <= random < 1.0
    ensures d.NoQuotes? <==> Candidates(qs, selected) == []
    ensures d.Shown? ==> d.quote in qs && (selected != "all" ==> d.quote.category == selected)
  {
    var filtered := Candidates(qs, selected);
    if |filtered| == 0 then NoQuotes
    else
      var q := filtered[PickIndex(random, |filtered|)];
      assert q in multiset(filtered);
      Shown(q)
  }

  /** Every candidate can be shown: candidate k is picked when random is k/n. */
  lemma PickReaches(qs: seq<Quote>, selected: string, k: nat)
    requires k < |Candidates(qs, selected)|
    ensures var n := |Candidates(qs, selected)|;
      var random := k as real / n as real;
      0.0 <= random < 1.0 && Pick(qs, selected, random) == Shown(Candidates(qs, selected)[k])
  {
    var n := |Candidates(qs, selected)|;
    FloorAtIndex(k, n);
  }

  lemma FloorAtIndex(k: nat, n: nat)
    requires k < n
    ensures 0.0 <= k as real / n as real < 1.0
    ensures PickIndex(k as real / n as real, n) == k
  {
  }

  /** A filter that is "all" or a known category shows a quote whenever the
      list is non-empty. */
  lemma KnownFilterShows(qs: seq<Quote>, selected: string, random: real)
    requires 0.0 <= random < 1.0
    requires selected == "all" || selected in Categories(qs)
    requires qs != []
    ensures Pick(qs, selected, random).Shown?
  {
  }
}
