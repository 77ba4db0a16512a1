/** The page controller of script.js: the module-level quote list, the two
    storage keys, the filter control and the quote area, with the operations
    that load, add, import and sync records. */
module QuoteApp {
  import opened Quotes
  import opened Strings
  import opened Catalog
  import opened Intake

  /** The quote list under its storage key, as loadQuotesFromStorage reads
      it: absent (or the empty string), text that JSON.parse rejects, a
      parsed value that is not an array, or a parsed array of records. */
  datatype StoredQuotes = Missing | Unparseable | NotArray | ArrayOf(items: seq<Quote>)

  /** The three records the page seeds an empty list with: each has a truthy
      text and a non-empty category, and their categories are distinct. */
  function Defaults(): (r: seq<Quote>)
    ensures |r| == 3
    ensures forall q :: q in r ==> Truthy(q.text) && q.category != ""
    ensures forall i, j :: 0 <= i < j < |r| ==> r[i].category != r[j].category
  {
    [
    Quote(Str("Life is what happens when you're busy making other plans."), "Life"),
    Quote(Str("The purpose of our lives is to be happy."), "Philosophy"),
    Quote(Str("Get busy living or get busy dying."), "Motivation")
    ]
  }

  class QuoteBoard {
    /** The quote list. */
    var quotes: seq<Quote>
    /** What the quote-list storage key holds. */
    var storedQuotes: StoredQuotes
    /** What the filter storage key holds (None: never written). */
    var storedFilter: Option<string>
    /** The value of the category filter control. */
    var selected: string
    /** What the quote area shows. */
    var display: Display

    /** The filter control always holds "all" or a category of the list. */
    ghost predicate Valid()
      reads this
    {
      selected == "all" || selected in Categories(quotes)
    }

    /** Page start-up: load the stored list, seed and save the defaults when
        the list is still empty, rebuild the filter and show a quote. */
    constructor (stored: StoredQuotes, lastFilter: Option<string>, random: real)
      requires 0.0 <= random < 1.0
      ensures Valid()
      ensures stored.ArrayOf? && stored.items != [] ==> quotes == stored.items && storedQuotes == stored
      ensures !(stored.ArrayOf? && stored.items != []) ==> quotes == Defaults() && storedQuotes == ArrayOf(Defaults())
      ensures selected == SelectedFilter(Categories(quotes), lastFilter)
      ensures storedFilter == Some(selected)
      ensures display == Pick(quotes, selected, random)
    {
      quotes := [];
      storedQuotes := stored;
      storedFilter := lastFilter;
      selected := "all";
      display := NoQuotes;
      new;
      LoadQuotesFromStorage();
      if |quotes| == 0 {
        SeedDefaults();
      }
      PopulateCategories();
      FilterQuotes(random);
    }

    /** Stored data replaces the list only when it parsed to an array. */
    method LoadQuotesFromStorage()
      modifies this
      ensures quotes == if old(storedQuotes).ArrayOf? then old(storedQuotes).items else old(quotes)
      ensures storedQuotes == old(storedQuotes) && storedFilter == old(storedFilter)
      ensures selected == old(selected) && display == old(display)
    {
      if storedQuotes.ArrayOf? {
        quotes := storedQuotes.items;
      }
    }

    /** The seeding branch of start-up: the defaults become the list and are
        saved. */
    method SeedDefaults()
      modifies this
      ensures quotes == Defaults() && storedQuotes == ArrayOf(Defaults())
      ensures storedFilter == old(storedFilter) && selected == old(selected) && display == old(display)
    {
      quotes := Defaults();
      SaveQuotesToStorage();
    }

    method SaveQuotesToStorage()
      modifies this
      ensures storedQuotes == ArrayOf(quotes)
      ensures quotes == old(quotes) && storedFilter == old(storedFilter)
      ensures selected == old(selected) && display == old(display)
    {
      storedQuotes := ArrayOf(quotes);
    }

    /** Rebuild the filter options and restore the saved filter, falling
        back to "all". */
    method PopulateCategories()
      modifies this
      ensures Valid()
      ensures selected == SelectedFilter(Categories(quotes), storedFilter)
      ensures quotes == old(quotes) && storedQuotes == old(storedQuotes)
      ensures storedFilter == old(storedFilter) && display == old(display)
    {
      var categories := Categories(quotes);
      selected := SelectedFilter(categories, storedFilter);
    }

    /** Save the filter and show a random quote of the selected category;
        the list itself is left alone. */
    method FilterQuotes(random: real)
      requires 0.0 <= random < 1.0
      modifies this
      ensures storedFilter == Some(selected)
      ensures display == Pick(quotes, selected, random)
      ensures quotes == old(quotes) && storedQuotes == old(storedQuotes) && selected == old(selected)
    {
      storedFilter := Some(selected);
      display := Pick(quotes, selected, random);
    }

    /** The add form. A field that is only whitespace rejects the add and
        changes nothing; otherwise exactly one record of the trimmed fields is
        appended, saved, and the filter and quote area are refreshed. */
    method AddQuote(rawText: string, rawCategory: string, random: real) returns (ok: bool)
      requires Valid() && 0.0 <= random < 1.0
      modifies this
      ensures Valid()
      ensures ok <==> !AllSpace(rawText) && !AllSpace(rawCategory)
      ensures !ok ==> unchanged(this)
      ensures ok ==> quotes == old(quotes) + [Quote(Str(Trim(rawText)), Trim(rawCategory))]
      ensures ok ==> storedQuotes == ArrayOf(quotes)
      ensures ok ==> selected == SelectedFilter(Categories(quotes), old(storedFilter))
      ensures ok ==> storedFilter == Some(selected) && display == Pick(quotes, selected, random)
    {
      var q := NewQuote(rawText, rawCategory);
      if q.None? {
        return false;
      }
      quotes := quotes + [q.value];
      SaveQuotesToStorage();
      PopulateCategories();
      FilterQuotes(random);
      ok := true;
    }

    /** The import handler, given what JSON.parse made of the file (None: the
        text is not JSON). Anything but an array fails before any push. For
        an array, every accepted entry is pushed in order; a null entry makes
        the loop throw, which leaves the records pushed before it in the list
        but skips the save and the refresh. */
    method ImportFromJsonFile(parsed: Option<Value>, random: real) returns (ok: bool)
      requires Valid() && 0.0 <= random < 1.0
      modifies this
      ensures Valid()
      ensures !(parsed.Some? && parsed.value.Arr?) ==> !ok && unchanged(this)
      ensures parsed.Some? && parsed.value.Arr? ==>
        var items := parsed.value.items;
        var k := FirstNullish(items);
        && quotes == old(quotes) + Accepted(items[..k])
        && ok == (k == |items|)
      ensures ok ==> (storedQuotes == ArrayOf(quotes)
        && selected == SelectedFilter(Categories(quotes), old(storedFilter))
        && storedFilter == Some(selected) && display == Pick(quotes, selected, random))
      ensures !ok ==> (storedQuotes == old(storedQuotes) && storedFilter == old(storedFilter)
        && selected == old(selected) && display == old(display))
    {
      if parsed.None? || !parsed.value.Arr? {
        return false;
      }
      ok := PushAccepted(parsed.value.items);
      CategoriesGrow(old(quotes), Accepted(parsed.value.items[..FirstNullish(parsed.value.items)]));
      if !ok {
        return false;
      }
      SaveQuotesToStorage();
      PopulateCategories();
      FilterQuotes(random);
    }

    /** The `forEach` of the import: every accepted entry is pushed in order
        until a nullish entry throws. `completed` says whether the loop ran to
        the end; the records pushed before a throw stay in the list. */
    method PushAccepted(items: seq<Value>) returns (completed: bool)
      modifies this`quotes
      ensures quotes == old(quotes) + Accepted(items[..FirstNullish(items)])
      ensures completed == (FirstNullish(items) == |items|)
    {
      var i := 0;
      while i < |items|
        invariant i <= FirstNullish(items)
        invariant quotes == old(quotes) + Accepted(items[..i])
      {
        var obj := items[i];
        if Nullish(obj) {
          assert FirstNullish(items) == i;
          return false;
        }
        AcceptedStep(items, i);
        if Accepts(obj) {
          quotes := quotes + [RecordOf(obj)];
        }
        i := i + 1;
      }
      assert items[..i] == items;
      completed := true;
    }

    /** The sync handler, given the parsed response (None: the fetch or the
        parse failed). A failure anywhere before the merge changes nothing;
        otherwise the mapped server quotes are merged. */
    method FetchFromServer(response: Option<Value>, random: real) returns (conflicts: nat)
      requires Valid() && 0.0 <= random < 1.0
      modifies this
      ensures Valid()
      ensures var mapped := if response.Some? then ServerQuotes(response.value) else None;
        quotes == (if mapped.Some? then Merged(old(quotes), mapped.value) else old(quotes))
      ensures conflicts == |quotes| - |old(quotes)|
      ensures conflicts == 0 ==> unchanged(this)
      ensures conflicts > 0 ==> (storedQuotes == ArrayOf(quotes)
        && selected == SelectedFilter(Categories(quotes), old(storedFilter))
        && storedFilter == Some(selected) && display == Pick(quotes, selected, random))
    {
      if response.None? {
        return 0;
      }
      var serverQuotes := ServerQuotes(response.value);
      if serverQuotes.None? {
        return 0;
      }
      conflicts := HandleServerData(serverQuotes.value, random);
    }

    /** handleServerData: merge into a copy of the list, counting the records
        appended; the list is replaced, saved and the page refreshed only when
        that count is positive, and otherwise nothing changes. */
    method HandleServerData(serverQuotes: seq<Quote>, random: real) returns (conflicts: nat)
      requires Valid() && 0.0 <= random < 1.0
      modifies this
      ensures Valid()
      ensures quotes == Merged(old(quotes), serverQuotes)
      ensures conflicts == |quotes| - |old(quotes)|
      ensures conflicts == 0 ==> unchanged(this)
      ensures conflicts > 0 ==> (storedQuotes == ArrayOf(quotes)
        && selected == SelectedFilter(Categories(quotes), old(storedFilter))
        && storedFilter == Some(selected) && display == Pick(quotes, selected, random))
    {
      var localArr;
      localArr, conflicts := MergeIntoCopy(quotes, serverQuotes);
      if conflicts > 0 {
        quotes := localArr;
        SaveQuotesToStorage();
        PopulateCategories();
        FilterQuotes(random);
      }
    }
  }

  /** The loop of handleServerData over a copy of the list: each server quote
      is pushed onto the copy unless a record of the copy has its text, and
      `conflicts` counts the pushes. The list itself is not touched. */
  method MergeIntoCopy(quotes: seq<Quote>, serverQuotes: seq<Quote>) returns (localArr: seq<Quote>, conflicts: nat)
    ensures localArr == Merged(quotes, serverQuotes)
    ensures |quotes| <= |localArr| && localArr[..|quotes|] == quotes
    ensures conflicts == |localArr| - |quotes| && conflicts <= |serverQuotes|
  {
    conflicts := 0;
    localArr := quotes;
    for i := 0 to |serverQuotes|
      invariant localArr == Merged(quotes, serverQuotes[..i])
      invariant |quotes| <= |localArr| && conflicts == |localArr| - |quotes|
    {
      var sq := serverQuotes[i];
      var found := HasText(localArr, sq.text);
      if !found {
        localArr := localArr + [sq];
        conflicts := conflicts + 1;
      }
      assert serverQuotes[..i + 1][..i] == serverQuotes[..i];
    }
    assert serverQuotes[..|serverQuotes|] == serverQuotes;
    MergedExtends(quotes, serverQuotes);
  }

  /** Start-up always leaves a non-empty list, so the filter restored at
      start-up always shows a quote. */
  lemma StartupShowsQuote(stored: StoredQuotes, lastFilter: Option<string>, random: real)
    requires 0.0 <= random < 1.0
    ensures var qs := if stored.ArrayOf? && stored.items != [] then stored.items else Defaults();
      Pick(qs, SelectedFilter(Categories(qs), lastFilter), random).Shown?
  {
  }
}
