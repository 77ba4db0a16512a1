/** The sync script of dom-manipulation/script.js: server posts become quotes
    and are merged into the global list in place. */
module DomSync {
  import opened Quotes

  /** The mapping in fetchQuotesFromServer: `serverData.slice(0, 5).map(...)`
      with `text: post.title`. It throws (None) when the response is not an
      array or one of its first five items is nullish; otherwise it keeps the
      first five posts at most, in server order, each as a record of category
      "Server" whose text is the post's title (undefined when it has none). */
  function PostQuotes(data: Value): (r: Option<seq<Quote>>)
    ensures r.Some? <==> data.Arr? && FirstNullish(Leading(data.items)) == |Leading(data.items)|
    ensures r.Some? ==> |r.value| <= ServerLimit && |r.value| == |Leading(data.items)|
    ensures r.Some? ==> forall i :: 0 <= i < |r.value| ==>
      !Nullish(data.items[i]) && r.value[i] == Quote(Prop(data.items[i], "title"), ServerCategory)
  {
    if !data.Arr? then None
    else
      var head := Leading(data.items);
      if FirstNullish(head) < |head| then None
      else Some(seq(|head|, i requires 0 <= i < |head| => Quote(Prop(head[i], "title"), ServerCategory)))
  }

  class SyncClient {
    /** The global quote list. */
    var quotes: seq<Quote>
    /** What the 'quotes' storage key holds (None: never written here). */
    var stored: Option<seq<Quote>>

    constructor (initial: seq<Quote>, saved: Option<seq<Quote>>)
      ensures quotes == initial && stored == saved
    {
      quotes := initial;
      stored := saved;
    }

    /** resolveConflicts: each server quote is pushed onto the list unless a
        record already in it (including one pushed earlier in this call) has
        the same text. `localUpdated` says whether anything was pushed, and
        the list is persisted only then. */
    method ResolveConflicts(serverQuotes: seq<Quote>) returns (localUpdated: bool)
      modifies this
      ensures quotes == Merged(old(quotes), serverQuotes)
      ensures localUpdated <==> |quotes| > |old(quotes)|
      ensures stored == if localUpdated then Some(quotes) else old(stored)
    {
      localUpdated := false;
      for i := 0 to |serverQuotes|
        invariant quotes == Merged(old(quotes), serverQuotes[..i])
        invariant |old(quotes)| <= |quotes|
        invariant localUpdated <==> |quotes| > |old(quotes)|
        invariant stored == old(stored)
      {
        var sQuote := serverQuotes[i];
        var found := HasText(quotes, sQuote.text);
        if !found {
          quotes := quotes + [sQuote];
          localUpdated := true;
        }
        assert serverQuotes[..i + 1][..i] == serverQuotes[..i];
      }
      assert serverQuotes[..|serverQuotes|] == serverQuotes;
      if localUpdated {
        stored := Some(quotes);
      }
    }

    /** The periodic sync, given the parsed response (None: the fetch or the
        parse failed, which is only logged). */
    method FetchQuotesFromServer(response: Option<Value>) returns (localUpdated: bool)
      modifies this
      ensures var mapped := if response.Some? then PostQuotes(response.value) else None;
        quotes == (if mapped.Some? then Merged(old(quotes), mapped.value) else old(quotes))
      ensures localUpdated <==> |quotes| > |old(quotes)|
      ensures stored == if localUpdated then Some(quotes) else old(stored)
    {
      if response.None? {
        return false;
      }
      var serverQuotes := PostQuotes(response.value);
      if serverQuotes.None? {
        return false;
      }
      localUpdated := ResolveConflicts(serverQuotes.value);
    }
  }

  /** Resolving the same batch twice: the second call pushes nothing,
      reports no update and leaves the list and the storage as the first
      call left them. */
  method ResolveTwice(client: SyncClient, serverQuotes: seq<Quote>) returns (first: bool, second: bool)
    modifies client
    ensures client.quotes == Merged(old(client.quotes), serverQuotes)
    ensures !second
    ensures client.stored == if first then Some(client.quotes) else old(client.stored)
  {
    first := client.ResolveConflicts(serverQuotes);
    MergedIdempotent(old(client.quotes), serverQuotes);
    second := client.ResolveConflicts(serverQuotes);
  }
}
