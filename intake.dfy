/** The ways records enter the list in script.js: the add form, a JSON import
    (and the export it reads back), and the mapping of server posts. */
module Intake {
  import opened Quotes
  import opened Strings

  /** addQuote's validation. Both fields are trimmed; the add is rejected
      when either field is nothing but whitespace, and otherwise yields a
      record of the two trimmed fields, both non-empty. */
  function NewQuote(rawText: string, rawCategory: string): (r: Option<Quote>)
    ensures r.None? <==> AllSpace(rawText) || AllSpace(rawCategory)
    ensures r.Some? ==> r.value == Quote(Str(Trim(rawText)), Trim(rawCategory))
    ensures r.Some? ==> Truthy(r.value.text) && r.value.category != ""
  {
    var text, category := Trim(rawText), Trim(rawCategory);
    if text == "" || category == "" then None else Some(Quote(Str(text), category))
  }

  /** The test importFromJsonFile applies to a (non-nullish) entry: a truthy
      `text` and a `category` that is a string. */
  predicate Accepts(v: Value) {
    !Nullish(v) && Truthy(Prop(v, "text")) && Prop(v, "category").Str?
  }

  /** The record pushed for an accepted entry. */
  function RecordOf(v: Value): Quote
    requires Accepts(v)
  {
    Quote(Prop(v, "text"), Prop(v, "category").s)
  }

  /** The records the import loop pushes for `items`, in order, when none of
      them is null (the import applies it to the entries before the first
      nullish one, where the loop throws). Every pushed record has a truthy
      text, and every accepted entry is pushed. */
  function Accepted(items: seq<Value>): (r: seq<Quote>)
    ensures |r| <= |items|
    ensures forall k :: 0 <= k < |r| ==> Truthy(r[k].text)
    ensures forall i {:trigger Accepts(items[i])} :: 0 <= i < |items| && Accepts(items[i]) ==> RecordOf(items[i]) in r
  {
    if items == [] then []
    else
      var init, last := items[..|items| - 1], items[|items| - 1];
      assert items == init + [last];
      var rest := Accepted(init);
      var r := rest + if Accepts(last) then [RecordOf(last)] else [];
      assert forall q :: q in r ==> q in rest || (Accepts(last) && q == RecordOf(last));
      assert forall i :: 0 <= i < |init| ==> items[i] == init[i];
      r
  }

  /** Every pushed record comes from an accepted entry. */
  lemma {:induction false} AcceptedFromEntries(items: seq<Value>, q: Quote)
    requires q in Accepted(items)
    ensures exists i :: 0 <= i < |items| && Accepts(items[i]) && q == RecordOf(items[i])
  {
    var init, last := items[..|items| - 1], items[|items| - 1];
    if q in Accepted(init) {
      AcceptedFromEntries(init, q);
      var i :| 0 <= i < |init| && Accepts(init[i]) && q == RecordOf(init[i]);
      assert items[i] == init[i];
    } else {
      assert Accepts(last) && q == RecordOf(items[|items| - 1]);
    }
  }

  /** The import of a single entry pushes its record exactly when the entry
      is accepted. */
  lemma AcceptedSingle(v: Value)
    ensures Accepted([v]) == if Accepts(v) then [RecordOf(v)] else []
  {
    assert [v][..0] == [];
  }

  /** One more turn of the import loop pushes the record of entry i exactly
      when that entry is accepted. */
  lemma AcceptedStep(items: seq<Value>, i: nat)
    requires i < |items|
    ensures Accepted(items[..i + 1])
         == Accepted(items[..i]) + if Accepts(items[i]) then [RecordOf(items[i])] else []
  {
    assert items[..i + 1][..i] == items[..i];
  }

  /** For entries none of which is null, importing `a + b` pushes the records
      of `a`, in order, followed by those of `b`: each accepted entry is
      pushed once, in entry order. */
  lemma {:induction false} AcceptedConcat(a: seq<Value>, b: seq<Value>)
    ensures Accepted(a + b) == Accepted(a) + Accepted(b)
  {
    if b == [] {
      assert a + b == a;
    } else {
      var init, last := b[..|b| - 1], b[|b| - 1];
      AcceptedConcat(a, init);
      assert (a + b)[..|a + b| - 1] == a + init;
      assert (a + b)[|a + b| - 1] == last;
    }
  }

  /** The object exportQuotes serialises for one record. A record whose text
      is undefined loses the property, which reads back as undefined. */
  function ExportRecord(q: Quote): Value {
    Obj(map["text" := q.text, "category" := Str(q.category)])
  }

  /** `JSON.stringify(quotes)` read back by JSON.parse: an array with one
      object per record, in list order. */
  function Export(qs: seq<Quote>): (v: Value)
    ensures v.Arr? && |v.items| == |qs|
    ensures forall i :: 0 <= i < |qs| ==>
      && !Nullish(v.items[i])
      && Prop(v.items[i], "text") == qs[i].text
      && Prop(v.items[i], "category") == Str(qs[i].category)
  {
    Arr(seq(|qs|, i requires 0 <= i < |qs| => ExportRecord(qs[i])))
  }

  /** Importing an export reproduces the list, entry for entry, when every
      record has a truthy text. (A record with a falsy text, such as a server
      quote whose title and body were both empty, is dropped by the import.) */
  lemma {:induction false} ExportImportRoundTrip(qs: seq<Quote>)
    requires forall q :: q in qs ==> Truthy(q.text)
    ensures FirstNullish(Export(qs).items) == |qs|
    ensures Accepted(Export(qs).items) == qs
  {
    var items := Export(qs).items;
    forall i | 0 <= i < |items| ensures !Nullish(items[i]) {
      assert items[i] == ExportRecord(qs[i]);
    }
    ExportAccepted(qs);
  }

  lemma {:induction false} ExportAccepted(qs: seq<Quote>)
    requires forall q :: q in qs ==> Truthy(q.text)
    ensures Accepted(Export(qs).items) == qs
  {
    if qs != [] {
      var init, last := qs[..|qs| - 1], qs[|qs| - 1];
      assert forall q :: q in init ==> q in qs;
      ExportAccepted(init);
      assert qs == init + [last];
      ExportSnoc(init, last);
      AcceptedConcat(Export(init).items, [ExportRecord(last)]);
      AcceptedSingle(ExportRecord(last));
      assert last in qs;
      assert qs == init + [last];
    }
  }

  lemma ExportSnoc(qs: seq<Quote>, q: Quote)
    ensures Export(qs + [q]).items == Export(qs).items + [ExportRecord(q)]
  {
  }

  /** A record with a falsy text never survives an export and import. */
  lemma ExportDropsFalsyText(qs: seq<Quote>, q: Quote)
    requires q in qs && !Truthy(q.text)
    ensures q !in Accepted(Export(qs).items)
  {
  }

  /** The text fetchFromServer gives a server item: `item.title || item.body || ""`. */
  function ServerText(item: Value): Value
    requires !Nullish(item)
  {
    Or(Or(Prop(item, "title"), Prop(item, "body")), Str(""))
  }

  /** The mapping in fetchFromServer: `serverData.slice(0, 5).map(...)`. It
      throws (None) when the response is not an array or one of its first
      five items is nullish; otherwise it keeps the first five items at most,
      in server order, each as a record of category "Server". */
  function ServerQuotes(data: Value): (r: Option<seq<Quote>>)
    ensures r.Some? <==> data.Arr? && FirstNullish(Leading(data.items)) == |Leading(data.items)|
    ensures r.Some? ==> |r.value| <= ServerLimit && |r.value| == |Leading(data.items)|
    ensures r.Some? ==> forall i :: 0 <= i < |r.value| ==>
      !Nullish(data.items[i]) && r.value[i] == Quote(ServerText(data.items[i]), ServerCategory)
  {
    if !data.Arr? then None
    else
      var head := Leading(data.items);
      if FirstNullish(head) < |head| then None
      else Some(seq(|head|, i requires 0 <= i < |head| => Quote(ServerText(head[i]), ServerCategory)))
  }
}
