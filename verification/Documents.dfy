/** Lists and records of JSON documents, built and decoded element by element. */
module Documents {
  import opened Common

  type Fields = map<string, Json>

  /** A list built element by element. */
  function Each<A>(items: seq<A>, f: A -> Json): (r: seq<Json>)
    ensures |r| == |items|
  {
    seq(|items|, i requires 0 <= i < |items| => f(items[i]))
  }

  /** A missing field reads as null. */
  function Field(j: Json, key: string): Json {
    if j.Obj? && key in j.fields then j.fields[key] else Null
  }

  function Items(j: Json): seq<Json> {
    if j.Arr? then j.items else []
  }

  predicate IsByte(j: Json) {
    j.Num? && 0 <= j.n < 0x100
  }

  /** A list decodes when every element does. */
  function DecodeAll(items: seq<Json>, f: Json -> Option<Json>): Option<seq<Json>> {
    if items == [] then Some([])
    else
      var head, tail := f(items[0]), DecodeAll(items[1..], f);
      if head.Some? && tail.Some? then Some([head.value] + tail.value) else None
  }

  /** Something decoded, if all of it was in range. */
  function When<A>(ok: bool, a: A): Option<A> {
    if ok then Some(a) else None
  }

  lemma {:induction false} DecodeEach<A>(items: seq<A>, pack: A -> Json, f: Json -> Option<Json>, ok: A -> bool, name: A -> Json)
    requires forall a :: a in items ==> f(pack(a)) == When(ok(a), name(a))
    ensures DecodeAll(Each(items, pack), f) == When(forall a :: a in items ==> ok(a), Each(items, name))
    decreases |items|
  {
    if items != [] {
      var rest := items[1..];
      assert Each(items, pack)[1..] == Each(rest, pack);
      DecodeEach(rest, pack, f, ok, name);
      assert Each(items, name) == [name(items[0])] + Each(rest, name);
      assert (forall a :: a in items ==> ok(a)) <==> ok(items[0]) && forall a :: a in rest ==> ok(a);
    }
  }

  /** The first element that does not decode ends a loop over the list. */
  lemma {:induction false} DecodeAllIs(items: seq<Json>, f: Json -> Option<Json>, done: seq<Json>)
    requires |done| <= |items| && forall k :: 0 <= k < |done| ==> f(items[k]) == Some(done[k])
    ensures |done| == |items| ==> DecodeAll(items, f) == Some(done)
    ensures |done| < |items| && f(items[|done|]).None? ==> DecodeAll(items, f).None?
  {
    if done != [] {
      assert forall k :: 0 <= k < |done| - 1 ==> f(items[1..][k]) == Some(done[1..][k]);
      DecodeAllIs(items[1..], f, done[1..]);
      assert done == [done[0]] + done[1..];
    }
  }

  // ----- reading a list back

  function ReadEach<A>(items: seq<Json>, read: Json -> A): (r: seq<A>)
    ensures |r| == |items|
  {
    seq(|items|, i requires 0 <= i < |items| => read(items[i]))
  }

  /** The elements up to what no document tells apart. */
  function PlainEach<A>(items: seq<A>, plain: A -> A): (r: seq<A>)
    ensures |r| == |items|
  {
    seq(|items|, i requires 0 <= i < |items| => plain(items[i]))
  }

  lemma {:induction false} EachBack<A>(items: seq<A>, write: A -> Json, read: Json -> A, plain: A -> A)
    requires forall a :: a in items ==> read(write(a)) == plain(a)
    ensures ReadEach(Each(items, write), read) == PlainEach(items, plain)
  {
  }

  // ----- records that differ only after their fixed positions

  /** Two records that agree on their first `n` positions. */
  predicate SameStart(j: Json, k: Json, n: nat) {
    j.Arr? && k.Arr? && |j.items| >= n && |k.items| >= n && j.items[..n] == k.items[..n]
  }

  predicate Pairwise(js: seq<Json>, ks: seq<Json>, r: (Json, Json) -> bool) {
    |js| == |ks| && forall i :: 0 <= i < |js| ==> r(js[i], ks[i])
  }

  predicate PaddedList(j: Json, k: Json, r: (Json, Json) -> bool) {
    j == k || (j.Arr? && k.Arr? && Pairwise(j.items, k.items, r))
  }

  lemma {:induction false} PaddingKeepsList(js: seq<Json>, ks: seq<Json>, r: (Json, Json) -> bool, f: Json -> Option<Json>)
    requires Pairwise(js, ks, r)
    requires forall j, k :: r(j, k) ==> f(j) == f(k)
    ensures DecodeAll(js, f) == DecodeAll(ks, f)
  {
    if js != [] {
      assert r(js[0], ks[0]);
      assert forall i :: 0 <= i < |js| - 1 ==> r(js[1..][i], ks[1..][i]);
      PaddingKeepsList(js[1..], ks[1..], r, f);
    }
  }

  lemma {:induction false} SameStartAt(j: Json, k: Json, n: nat, i: nat)
    requires SameStart(j, k, n) && i < n
    ensures j.items[i] == k.items[i]
  {
    assert j.items[i] == j.items[..n][i] == k.items[..n][i] == k.items[i];
  }
}
