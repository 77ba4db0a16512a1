/** Quote records, the JavaScript values they are built from, and the
    merge-by-text rule that both sync variants apply to a batch of server
    quotes. */
module Quotes {

  datatype Option<+T> = None | Some(value: T)

  /** A JavaScript value as JSON.parse produces it. `Undefined` stands for a
      property that is absent. Numbers are modelled as reals. */
  datatype Value =
    | Undefined
    | Null
    | Bool(b: bool)
    | Num(n: real)
    | Str(s: string)
    | Arr(items: seq<Value>)
    | Obj(fields: map<string, Value>)

  /** JavaScript truthiness: undefined, null, false, 0 and "" are falsy. */
  predicate Truthy(v: Value) {
    match v
    case Undefined => false
    case Null => false
    case Bool(b) => b
    case Num(n) => n != 0.0
    case Str(s) => s != ""
    case Arr(_) => true
    case Obj(_) => true
  }

  /** Reading any property of these throws a TypeError. */
  predicate Nullish(v: Value) {
    v.Undefined? || v.Null?
  }

  /** `v.key` for a value that is not nullish. None of the keys this model
      reads (text, category, title, body) exists on a string, number,
      boolean or array, so only parsed objects have them. */
  function Prop(v: Value, key: string): Value
    requires !Nullish(v)
  {
    if v.Obj? && key in v.fields then v.fields[key] else Undefined
  }

  /** `a || b` */
  function Or(a: Value, b: Value): Value {
    if Truthy(a) then a else b
  }

  /** Index of the first nullish entry of `items`, or |items| when there is
      none: the entry on which a loop reading a property of each entry throws. */
  function FirstNullish(items: seq<Value>): (k: nat)
    ensures k <= |items|
    ensures k < |items| ==> Nullish(items[k])
    ensures forall i :: 0 <= i < k ==> !Nullish(items[i])
  {
    if items == [] || Nullish(items[0]) then 0 else 1 + FirstNullish(items[1..])
  }

  /** Both sync variants keep at most this many server items ... */
  const ServerLimit: nat := 5
  /** ... and give each of them this category. */
  const ServerCategory: string := "Server"

  /** `items.slice(0, 5)` */
  function Leading(items: seq<Value>): (r: seq<Value>)
    ensures |r| == if |items| < ServerLimit then |items| else ServerLimit
    ensures r == items[..|r|]
  {
    if |items| <= ServerLimit then items else items[..ServerLimit]
  }

  /** A quote record. Records have no identity: the merge compares `text` only. */
  datatype Quote = Quote(text: Value, category: string)

  /** `qs.some(q => q.text === t)` */
  predicate HasText(qs: seq<Quote>, t: Value) {
    exists q :: q in qs && q.text == t
  }

  /** One turn of the merge loop: the candidate is pushed unless a record of
      the working list already has its text. */
  function MergeOne(qs: seq<Quote>, c: Quote): seq<Quote> {
    if HasText(qs, c.text) then qs else qs + [c]
  }

  /** The working list after every candidate of `batch` has been offered to
      MergeOne in order; candidates pushed earlier are visible to later ones. */
  function Merged(qs: seq<Quote>, batch: seq<Quote>): seq<Quote> {
    if batch == [] then qs
    else MergeOne(Merged(qs, batch[..|batch| - 1]), batch[|batch| - 1])
  }

  /** Candidate k is new: no record of `qs` and no earlier candidate has its text. */
  predicate FirstNew(qs: seq<Quote>, batch: seq<Quote>, k: nat)
    requires k < |batch|
  {
    !HasText(qs, batch[k].text) && !HasText(batch[..k], batch[k].text)
  }

  /** The new candidates at positions k and after, in batch order. This is an
      index-wise description of what the merge appends, independent of the
      loop that Merged follows. */
  function NewFrom(qs: seq<Quote>, batch: seq<Quote>, k: nat): seq<Quote>
    decreases |batch| - k
  {
    if k >= |batch| then []
    else (if FirstNew(qs, batch, k) then [batch[k]] else []) + NewFrom(qs, batch, k + 1)
  }

  lemma HasTextConcat(a: seq<Quote>, b: seq<Quote>, t: Value)
    ensures HasText(a + b, t) <==> HasText(a, t) || HasText(b, t)
  {
  }

  /** The merge only appends: the original list is a prefix of the result, so
      no existing record (and no record's category) is replaced, and the list
      grows by at most the size of the batch. */
  lemma {:induction false} MergedExtends(qs: seq<Quote>, batch: seq<Quote>)
    ensures |qs| <= |Merged(qs, batch)| <= |qs| + |batch|
    ensures Merged(qs, batch)[..|qs|] == qs
  {
    if batch != [] {
      var init := batch[..|batch| - 1];
      MergedExtends(qs, init);
      var m := Merged(qs, init);
      assert (m + [batch[|batch| - 1]])[..|qs|] == m[..|qs|];
    }
  }

  /** After the merge a text is present exactly when it was in the list or
      on some candidate: every server text ends up in the list, and no other
      text is introduced. */
  lemma {:induction false} MergedTexts(qs: seq<Quote>, batch: seq<Quote>, t: Value)
    ensures HasText(Merged(qs, batch), t) <==> HasText(qs, t) || HasText(batch, t)
  {
    if batch != [] {
      var init, last := batch[..|batch| - 1], batch[|batch| - 1];
      assert batch == init + [last];
      MergedTexts(qs, init, t);
      HasTextConcat(init, [last], t);
      HasTextConcat(Merged(qs, init), [last], t);
      assert HasText([last], t) <==> last.text == t by {
        if last.text == t { assert last in [last]; }
      }
    }
  }

  /** Every appended record has a text that differs from the text of every
      record before it: the appended texts are new to the list and pairwise
      distinct. */
  lemma {:induction false} MergedAppendsFresh(qs: seq<Quote>, batch: seq<Quote>)
    ensures |qs| <= |Merged(qs, batch)|
    ensures forall i, j :: 0 <= i < j < |Merged(qs, batch)| && |qs| <= j ==>
      Merged(qs, batch)[i].text != Merged(qs, batch)[j].text
  {
    MergedExtends(qs, batch);
    if batch != [] {
      var init, last := batch[..|batch| - 1], batch[|batch| - 1];
      MergedAppendsFresh(qs, init);
      var m := Merged(qs, init);
      if !HasText(m, last.text) {
        forall i | 0 <= i < |m| ensures m[i].text != last.text {
          assert m[i] in m;
        }
      }
    }
  }

  /** The merge appends exactly the candidates whose text is neither in the
      list nor on an earlier candidate, in batch order. */
  lemma {:induction false} MergedAsNewFrom(qs: seq<Quote>, batch: seq<Quote>)
    ensures Merged(qs, batch) == qs + NewFrom(qs, batch, 0)
  {
    if batch != [] {
      var init, last := batch[..|batch| - 1], batch[|batch| - 1];
      assert batch == init + [last];
      MergedAsNewFrom(qs, init);
      NewFromSnoc(qs, init, last, 0);
      MergedTexts(qs, init, last.text);
      assert batch[..|init|] == init;
      assert FirstNew(qs, batch, |init|) <==> !HasText(Merged(qs, init), last.text);
    }
  }

  lemma {:induction false} NewFromSnoc(qs: seq<Quote>, init: seq<Quote>, last: Quote, k: nat)
    requires k <= |init|
    ensures NewFrom(qs, init + [last], k)
         == NewFrom(qs, init, k) + (if FirstNew(qs, init + [last], |init|) then [last] else [])
    decreases |init| - k
  {
    var batch := init + [last];
    if k < |init| {
      NewFromSnoc(qs, init, last, k + 1);
      assert batch[k] == init[k] && batch[..k] == init[..k];
    } else {
      assert NewFrom(qs, batch, k + 1) == [];
    }
  }

  /** A batch whose every text is already present changes nothing. */
  lemma {:induction false} MergedKnown(qs: seq<Quote>, batch: seq<Quote>)
    requires forall i :: 0 <= i < |batch| ==> HasText(qs, batch[i].text)
    ensures Merged(qs, batch) == qs
  {
    if batch != [] {
      MergedKnown(qs, batch[..|batch| - 1]);
    }
  }

  /** Merging the same batch a second time appends nothing. */
  lemma MergedIdempotent(qs: seq<Quote>, batch: seq<Quote>)
    ensures Merged(Merged(qs, batch), batch) == Merged(qs, batch)
  {
    var m := Merged(qs, batch);
    forall i | 0 <= i < |batch| ensures HasText(m, batch[i].text) {
      assert batch[i] in batch;
      MergedTexts(qs, batch, batch[i].text);
    }
    MergedKnown(m, batch);
  }
}
