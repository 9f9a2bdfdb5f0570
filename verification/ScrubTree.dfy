/** A structured result neutralised string by string, keys included. */
module ScrubTree {
  import opened Patterns
  import opened Rules
  import opened Scrub

  /**
   * A value as the walk sees it: strings, dictionaries in insertion order, lists, and everything it cannot reach into.
   */
  datatype Value = Words(text: string) | Dict(items: Items) | List(values: Values) | Other

  datatype Items = NoItems | Item(key: string, value: Value, rest: Items)

  datatype Values = NoValues | Elem(value: Value, rest: Values)

  predicate HasKey(d: Items, k: string) { d.Item? && (d.key == k || HasKey(d.rest, k)) }

  function Size(d: Items): nat { if d.NoItems? then 0 else 1 + Size(d.rest) }

  /** `d[k] = v`: in place when the key is there, else at the end. */
  function Put(d: Items, k: string, v: Value): Items {
    match d
    case NoItems => Item(k, v, NoItems)
    case Item(key, value, rest) => if key == k then Item(k, v, rest) else Item(key, value, Put(rest, k, v))
  }

  function Walk(v: Value): Value {
    match v
    case Words(text) => Words(Fence(text))
    case Dict(items) => Dict(WalkItems(items, NoItems))
    case List(values) => List(WalkValues(values))
    case Other => Other
  }

  /** The new dictionary, filled entry by entry: a key that fences to one already there overwrites its value. */
  function WalkItems(items: Items, built: Items): Items
    decreases items
  {
    match items
    case NoItems => built
    case Item(key, value, rest) => WalkItems(rest, Put(built, Fence(key), Walk(value)))
  }

  function WalkValues(values: Values): Values {
    match values
    case NoValues => NoValues
    case Elem(value, rest) => Elem(Walk(value), WalkValues(rest))
  }

  // ------------------------------------------------------------ what the walk leaves

  predicate Distinct(d: Items) { d.Item? ==> !HasKey(d.rest, d.key) && Distinct(d.rest) }

  /** Every string, at every depth, is one no rule changes, and every dictionary has distinct keys. */
  predicate Neutral(v: Value) {
    match v
    case Words(text) => Fence(text) == text
    case Dict(items) => NeutralItems(items)
    case List(values) => NeutralValues(values)
    case Other => true
  }

  predicate NeutralItems(d: Items) {
    d.Item? ==> Fence(d.key) == d.key && Neutral(d.value) && !HasKey(d.rest, d.key) && NeutralItems(d.rest)
  }

  predicate NeutralValues(vs: Values) { vs.Elem? ==> Neutral(vs.value) && NeutralValues(vs.rest) }

  lemma {:induction false} PutHas(d: Items, k: string, v: Value, x: string)
    ensures HasKey(Put(d, k, v), x) <==> x == k || HasKey(d, x)
  {
    if d.Item? { PutHas(d.rest, k, v, x); }
  }

  lemma {:induction false} PutNeutral(d: Items, k: string, v: Value)
    requires NeutralItems(d) && Fence(k) == k && Neutral(v)
    ensures NeutralItems(Put(d, k, v))
  {
    hide Fence;
    if d.Item? && d.key != k {
      PutNeutral(d.rest, k, v);
      PutHas(d.rest, k, v, d.key);
    }
  }

  /** However deep, nothing a rule matches is left. */
  lemma {:induction false} WalkNeutral(v: Value)
    ensures Neutral(Walk(v))
  {
    hide Fence;
    match v
    case Words(text) => FenceOnce(text);
    case Dict(items) => WalkItemsNeutral(items, NoItems);
    case List(values) => WalkValuesNeutral(values);
    case Other =>
  }

  lemma {:induction false} WalkItemsNeutral(items: Items, built: Items)
    requires NeutralItems(built)
    ensures NeutralItems(WalkItems(items, built))
    decreases items
  {
    hide Fence;
    match items
    case NoItems =>
    case Item(key, value, rest) =>
      FenceOnce(key);
      WalkNeutral(value);
      PutNeutral(built, Fence(key), Walk(value));
      WalkItemsNeutral(rest, Put(built, Fence(key), Walk(value)));
  }

  lemma {:induction false} WalkValuesNeutral(values: Values)
    ensures NeutralValues(WalkValues(values))
  {
    hide Fence;
    match values
    case NoValues =>
    case Elem(value, rest) =>
      WalkNeutral(value);
      WalkValuesNeutral(rest);
  }

  // ------------------------------------------------------------ and a second walk changes nothing

  function Joined(a: Items, b: Items): Items {
    match a
    case NoItems => b
    case Item(key, value, rest) => Item(key, value, Joined(rest, b))
  }

  lemma {:induction false} PutNew(d: Items, k: string, v: Value)
    requires !HasKey(d, k)
    ensures Put(d, k, v) == Joined(d, Item(k, v, NoItems))
  {
    if d.Item? { PutNew(d.rest, k, v); }
  }

  lemma {:induction false} JoinedOnward(a: Items, k: string, v: Value, b: Items)
    ensures Joined(Joined(a, Item(k, v, NoItems)), b) == Joined(a, Item(k, v, b))
  {
    if a.Item? { JoinedOnward(a.rest, k, v, b); }
  }

  lemma {:induction false} JoinedNone(a: Items)
    ensures Joined(a, NoItems) == a
  {
    if a.Item? { JoinedNone(a.rest); }
  }

  /** No key of one is a key of the other. */
  ghost predicate Apart(a: Items, b: Items) { forall k :: !(HasKey(a, k) && HasKey(b, k)) }

  lemma {:induction false} WalkTwice(v: Value)
    requires Neutral(v)
    ensures Walk(v) == v
  {
    hide Fence;
    match v
    case Words(text) =>
    case Dict(items) => WalkItemsTwice(items, NoItems);
    case List(values) => WalkValuesTwice(values);
    case Other =>
  }

  lemma {:induction false} WalkItemsTwice(items: Items, built: Items)
    requires NeutralItems(items) && Apart(items, built)
    ensures WalkItems(items, built) == Joined(built, items)
    decreases items
  {
    hide Fence;
    match items
    case NoItems => JoinedNone(built);
    case Item(key, value, rest) =>
      WalkTwice(value);
      assert HasKey(items, key);
      PutNew(built, key, value);
      var more := Put(built, key, value);
      forall k ensures !(HasKey(rest, k) && HasKey(more, k)) {
        PutHas(built, key, value, k);
        assert HasKey(rest, k) ==> HasKey(items, k);
      }
      WalkItemsTwice(rest, more);
      JoinedOnward(built, key, value, rest);
  }

  lemma {:induction false} WalkValuesTwice(values: Values)
    requires NeutralValues(values)
    ensures WalkValues(values) == values
  {
    hide Fence;
    match values
    case NoValues =>
    case Elem(value, rest) =>
      WalkTwice(value);
      WalkValuesTwice(rest);
  }

  /** Walking once is enough. */
  lemma WalkOnce(v: Value)
    ensures Walk(Walk(v)) == Walk(v)
  {
    WalkNeutral(v);
    WalkTwice(Walk(v));
  }

  // ------------------------------------------------------------ entries lost

  predicate FencedKey(d: Items, k: string) { d.Item? && (Fence(d.key) == k || FencedKey(d.rest, k)) }

  /** No two keys become the same key. */
  predicate KeysStayApart(d: Items) { d.Item? ==> !FencedKey(d.rest, Fence(d.key)) && KeysStayApart(d.rest) }

  lemma {:induction false} PutSize(d: Items, k: string, v: Value)
    ensures Size(Put(d, k, v)) == Size(d) + (if HasKey(d, k) then 0 else 1)
  {
    if d.Item? { PutSize(d.rest, k, v); }
  }

  /** None of the keys to come is there already. */
  ghost predicate AllNew(items: Items, built: Items) { forall k :: !(FencedKey(items, k) && HasKey(built, k)) }

  lemma {:induction false} WalkItemsSize(items: Items, built: Items)
    ensures Size(WalkItems(items, built)) <= Size(built) + Size(items)
    ensures Size(WalkItems(items, built)) == Size(built) + Size(items) <==> KeysStayApart(items) && AllNew(items, built)
    decreases items
  {
    hide Fence;
    if items.Item? {
      var key, rest := Fence(items.key), items.rest;
      var more := Put(built, key, Walk(items.value));
      PutSize(built, key, Walk(items.value));
      WalkItemsSize(rest, more);
      forall k ensures HasKey(more, k) <==> k == key || HasKey(built, k) { PutHas(built, key, Walk(items.value), k); }
      assert FencedKey(items, key);
      assert forall k :: FencedKey(items, k) <==> k == key || FencedKey(rest, k);
      if HasKey(built, key) { assert !AllNew(items, built); }
      if KeysStayApart(items) && AllNew(items, built) { assert AllNew(rest, more); }
      if AllNew(rest, more) && !HasKey(built, key) { assert HasKey(more, key); assert AllNew(items, built); }
    }
  }

  /** A dictionary keeps every entry exactly when no two of its keys are neutralised to the same key. */
  lemma EntriesKeptExactly(items: Items)
    ensures Size(WalkItems(items, NoItems)) == Size(items) <==> KeysStayApart(items)
  {
    hide Fence;
    WalkItemsSize(items, NoItems);
    assert AllNew(items, NoItems);
  }

  /** A key beside the way it is neutralised: the first entry is gone, and nothing says so. */
  lemma TwinIsLost(k: string, a: Value, b: Value)
    requires Fence(k) != k
    ensures Walk(Dict(Item(k, a, Item(Fence(k), b, NoItems)))) == Dict(Item(Fence(k), Walk(b), NoItems))
  {
    FenceOnce(k);
    hide Fence, Walk;
    var once := Put(NoItems, Fence(k), Walk(a));
    assert Put(once, Fence(k), Walk(b)) == Item(Fence(k), Walk(b), NoItems);
    WalkPair(k, a, Fence(k), b);
    WalkDict(Item(k, a, Item(Fence(k), b, NoItems)));
  }

  lemma WalkDict(items: Items)
    ensures Walk(Dict(items)) == Dict(WalkItems(items, NoItems))
  {
    hide Fence;
  }

  lemma WalkPair(k: string, a: Value, l: string, b: Value)
    ensures WalkItems(Item(k, a, Item(l, b, NoItems)), NoItems)
            == Put(Put(NoItems, Fence(k), Walk(a)), Fence(l), Walk(b))
  {
    hide Fence, Walk, Put;
    var once := Put(NoItems, Fence(k), Walk(a));
    assert WalkItems(Item(l, b, NoItems), once) == Put(once, Fence(l), Walk(b));
  }

  /** There are such keys. */
  lemma SomeKeyChanges()
    ensures Fence("<|") != "<|"
  {
    FenceCleans("<|");
    SpecialHit();
    hide Fence, AllRules, SpecialToken, HitAt;
    assert SpecialToken() in AllRules() by { SpecialListed(); }
  }

  lemma SpecialHit()
    ensures HitAt(SpecialToken(), "<|", 0)
  {
    var r := SpecialToken();
    assert Match(r.look, "<|", 1, 2);
  }

  lemma SpecialListed()
    ensures SpecialToken() in AllRules()
  {
    hide SpecialToken;
    assert AllRules()[1] == SpecialToken();
  }

  // ------------------------------------------------------------ the walked value is the value, fenced

  /** What `d[k]` answers. */
  function Get(d: Items, k: string): Value
    requires HasKey(d, k)
  {
    if d.key == k then d.value else Get(d.rest, k)
  }

  function Length(vs: Values): nat { if vs.NoValues? then 0 else 1 + Length(vs.rest) }

  function At(vs: Values, i: nat): Value
    requires i < Length(vs)
  {
    if i == 0 then vs.value else At(vs.rest, i - 1)
  }

  /** A list keeps its length, and each value in it its place. */
  lemma {:induction false} ListKept(vs: Values, i: nat)
    ensures Walk(List(vs)) == List(WalkValues(vs)) && Length(WalkValues(vs)) == Length(vs)
    ensures i < Length(vs) ==> At(WalkValues(vs), i) == Walk(At(vs, i))
    decreases vs
  {
    hide Fence;
    if vs.Elem? { ListKept(vs.rest, if i > 0 then i - 1 else 0); }
  }

  /** The value of the last entry whose key fences to `k`. */
  function LastFor(d: Items, k: string): Value
    requires FencedKey(d, k)
  {
    if FencedKey(d.rest, k) then LastFor(d.rest, k) else d.value
  }

  lemma {:induction false} PutGets(d: Items, k: string, v: Value, x: string)
    requires x == k || HasKey(d, x)
    ensures HasKey(Put(d, k, v), x) && Get(Put(d, k, v), x) == if x == k then v else Get(d, x)
  {
    if d.Item? && d.key != k && d.key != x { PutGets(d.rest, k, v, x); }
    else if d.Item? && d.key != k { PutHas(d.rest, k, v, x); }
  }

  lemma {:induction false} ItemsKept(items: Items, built: Items, k: string)
    ensures HasKey(WalkItems(items, built), k) <==> FencedKey(items, k) || HasKey(built, k)
    ensures FencedKey(items, k) ==>
              HasKey(WalkItems(items, built), k) && Get(WalkItems(items, built), k) == Walk(LastFor(items, k))
    ensures !FencedKey(items, k) && HasKey(built, k) ==> Get(WalkItems(items, built), k) == Get(built, k)
    decreases items
  {
    hide Fence, Walk;
    if items.Item? {
      var next := Put(built, Fence(items.key), Walk(items.value));
      ItemsKept(items.rest, next, k);
      PutHas(built, Fence(items.key), Walk(items.value), k);
      if k == Fence(items.key) || HasKey(built, k) { PutGets(built, Fence(items.key), Walk(items.value), k); }
    }
  }

  /** A dictionary's keys are its own keys fenced, and each has the walked value of the last entry that fences to it. */
  lemma DictKept(items: Items, k: string)
    ensures var walked := Walk(Dict(items));
            && walked.Dict? && (HasKey(walked.items, k) <==> FencedKey(items, k))
            && (FencedKey(items, k) ==> Get(walked.items, k) == Walk(LastFor(items, k)))
  {
    hide Fence, WalkItems;
    ItemsKept(items, NoItems, k);
  }

  /** Words are fenced where they stand, and what is no string, list or dictionary is left alone. */
  lemma WordsKept(text: string)
    ensures Walk(Words(text)) == Words(Fence(text)) && Walk(Other) == Other
  {
    hide Fence;
  }
}
