/** The table of minted tokens, one to a subject and audience: what is served, and when a live one can go missing. */
module TokenCache {
  import opened Text
  import opened Lru

  datatype Key = Key(subject: string, audience: string)

  /** A minted token and the moment it stops being worth serving. */
  datatype Minted = Minted(token: string, notAfter: real)

  type Tokens = seq<Slot<Key, Minted>>

  datatype Op = Get(key: Key, now: real) | Put(key: Key, minted: Minted) | Drop(key: Key)

  /** The live token, and what asking for it leaves: an expired one is deleted, a live one becomes the newest. */
  function Asked(d: Tokens, k: Key, now: real): (Tokens, Option<string>) {
    var v := Lookup(d, k);
    if v.None? then (d, None)
    else if now >= v.value.notAfter then (Without(d, k), None)
    else (Without(d, k) + [Slot(k, v.value)], Some(v.value.token))
  }

  function After(d: Tokens, op: Op, cap: nat): Tokens {
    match op
    case Get(k, now) => Asked(d, k, now).0
    case Put(k, minted) => Use(d, k, minted, cap)
    case Drop(k) => Without(d, k)
  }

  class TokenCache {
    const maxEntries: nat
    const margin: real
    var entries: Tokens

    ghost predicate Valid()
      reads this
    {
      maxEntries >= 1 && Unique(entries) && |entries| <= maxEntries
    }

    constructor (maxEntries: nat, margin: real)
      requires maxEntries >= 1
      ensures Valid() && entries == [] && this.maxEntries == maxEntries && this.margin == margin
    {
      this.maxEntries, this.margin, entries := maxEntries, margin, [];
    }

    method Find(subject: string, audience: string, now: real) returns (token: Option<string>)
      requires Valid()
      modifies this
      ensures Valid() && entries == After(old(entries), Get(Key(subject, audience), now), maxEntries)
      ensures token == Asked(old(entries), Key(subject, audience), now).1
    {
      hide Lookup, Without, Unique;
      var key := Key(subject, audience);
      AfterValid(entries, Get(key, now), maxEntries);
      var entry := Lookup(entries, key);
      if entry.None? { return None; }
      entries := Without(entries, key);
      if now >= entry.value.notAfter { return None; }
      entries := entries + [Slot(key, entry.value)];
      token := Some(entry.value.token);
    }

    method Hold(subject: string, audience: string, token: string, expiresIn: int, now: real)
      requires Valid()
      modifies this
      ensures Valid()
      ensures var minted := Minted(token, now + expiresIn as real - margin);
              entries == After(old(entries), Put(Key(subject, audience), minted), maxEntries)
    {
      hide Without, Unique;
      var key, minted := Key(subject, audience), Minted(token, now + expiresIn as real - margin);
      AfterValid(entries, Put(key, minted), maxEntries);
      entries := Without(entries, key);
      entries := entries + [Slot(key, minted)];
      ghost var grown := entries;
      while |entries| > maxEntries
        invariant Trim(entries, maxEntries) == Trim(grown, maxEntries)
      {
        entries := entries[1..];
      }
    }

    method Forget(subject: string, audience: string)
      requires Valid()
      modifies this
      ensures Valid() && entries == After(old(entries), Drop(Key(subject, audience)), maxEntries)
    {
      hide Without, Unique;
      AfterValid(entries, Drop(Key(subject, audience)), maxEntries);
      entries := Without(entries, Key(subject, audience));
    }
  }

  /**
   * One person's authority, minted per audience. `minted` is what keyring would answer now, or nothing if it refuses.
   */
  class TokenBroker {
    const cache: TokenCache
    const subject: string

    constructor (cache: TokenCache, subject: string)
      ensures this.cache == cache && this.subject == subject
    {
      this.cache, this.subject := cache, subject;
    }

    /** The table once this answer is held; a refusal leaves it alone. */
    function Minting(d: Tokens, audience: string, now: real, minted: Option<(string, int)>): Tokens
      reads cache
    {
      if minted.None? then d
      else
        var held := Minted(minted.value.0, now + minted.value.1 as real - cache.margin);
        Use(d, Key(subject, audience), held, cache.maxEntries)
    }

    method Mint(audience: string, now: real, minted: Option<(string, int)>) returns (token: Option<string>)
      requires cache.Valid()
      modifies cache
      ensures cache.Valid()
      ensures token == if minted.Some? then Some(minted.value.0) else None
      ensures cache.entries == Minting(old(cache.entries), audience, now, minted)
    {
      hide Lru.Use, Unique;
      if minted.None? { return None; }
      cache.Hold(subject, audience, minted.value.0, minted.value.1, now);
      token := Some(minted.value.0);
    }

    /** The table after a token was asked for: renewed, or with what was minted. */
    function Fetching(d: Tokens, audience: string, now: real, minted: Option<(string, int)>): Tokens
      reads cache
    {
      var (asked, held) := Asked(d, Key(subject, audience), now);
      if held.Some? then asked else Minting(asked, audience, now, minted)
    }

    /** The token an ask comes back with. */
    function Fetched(d: Tokens, audience: string, now: real, minted: Option<(string, int)>): Option<string> {
      var held := Asked(d, Key(subject, audience), now).1;
      if held.Some? then held else if minted.Some? then Some(minted.value.0) else None
    }

    /** A live token from the cache, or a freshly minted one, held from then on. */
    method TokenFor(audience: string, now: real, minted: Option<(string, int)>) returns (token: Option<string>)
      requires cache.Valid()
      modifies cache
      ensures cache.Valid()
      ensures token == Fetched(old(cache.entries), audience, now, minted)
      ensures cache.entries == Fetching(old(cache.entries), audience, now, minted)
    {
      hide Lru.Use, Unique, Lookup, Without;
      token := cache.Find(subject, audience, now);
      if token.None? { token := Mint(audience, now, minted); }
    }

    /** Discard whatever is held and mint again: what the cache held is never what comes back. */
    method Remint(audience: string, now: real, minted: Option<(string, int)>) returns (token: Option<string>)
      requires cache.Valid()
      modifies cache
      ensures cache.Valid()
      ensures token == if minted.Some? then Some(minted.value.0) else None
      ensures cache.entries == Minting(Without(old(cache.entries), Key(subject, audience)), audience, now, minted)
      ensures minted.None? ==> Lookup(cache.entries, Key(subject, audience)).None?
    {
      hide Lru.Use, Unique, Lookup, Without;
      var key := Key(subject, audience);
      WithoutHas(cache.entries, key, key);
      LookupAt(Without(cache.entries, key), key);
      cache.Forget(subject, audience);
      token := Mint(audience, now, minted);
    }
  }

  /** The tokens one call sends: one, and after a refusal one more, freshly minted; never a third. */
  method Attempt(broker: TokenBroker, audience: string, refused: string -> bool, now: real,
                 minted: Option<(string, int)>, later: real, reminted: Option<(string, int)>)
      returns (sent: seq<string>)
    requires broker.cache.Valid()
    modifies broker.cache
    ensures broker.cache.Valid()
    ensures var before := old(broker.cache.entries);
            var first := broker.Fetched(before, audience, now, minted);
            var held := broker.Fetching(before, audience, now, minted);
            if first.None? then sent == [] && broker.cache.entries == held
            else if !refused(first.value) then sent == [first.value] && broker.cache.entries == held
            else
              && sent == [first.value] + (if reminted.Some? then [reminted.value.0] else [])
              && broker.cache.entries
                 == broker.Minting(Without(held, Key(broker.subject, audience)), audience, later, reminted)
  {
    hide Lru.Use, Unique, Lookup, Without;
    var token := broker.TokenFor(audience, now, minted);
    if token.None? { return []; }
    sent := [token.value];
    if refused(token.value) {
      var again := broker.Remint(audience, later, reminted);
      if again.Some? { sent := sent + [again.value]; }
    }
  }

  /** A freshly minted token is held from then on, whole and the newest of all; and it is served while it lives. */
  lemma MintedIsHeld(broker: TokenBroker, d: Tokens, audience: string, now: real, minted: (string, int), later: real)
    requires broker.cache.maxEntries >= 1 && Unique(d) && |d| <= broker.cache.maxEntries
    ensures var key, held := Key(broker.subject, audience), broker.Minting(d, audience, now, Some(minted));
            && Lookup(held, key) == Some(Minted(minted.0, now + minted.1 as real - broker.cache.margin))
            && Newer(held, key) == {}
            && (later < now + minted.1 as real - broker.cache.margin ==> Asked(held, key, later).1 == Some(minted.0))
  {
    hide Unique, Lookup, Without, Newer;
    var key, entry := Key(broker.subject, audience), Minted(minted.0, now + minted.1 as real - broker.cache.margin);
    UsedIsNewest(d, Put(key, entry), broker.cache.maxEntries);
    HeldAsPut(d, key, entry, broker.cache.maxEntries);
  }

  lemma HeldAsPut(d: Tokens, k: Key, minted: Minted, cap: nat)
    requires Unique(d) && |d| <= cap && cap >= 1
    ensures Lookup(Use(d, k, minted, cap), k) == Some(minted)
  {
    hide Unique, Lookup, Without, Newer;
    var grown := Without(d, k) + [Slot(k, minted)];
    UsedIsNewest(d, Put(k, minted), cap);
    LookupWithout(d, k, k);
    LookupSnoc(Without(d, k), Slot(k, minted), k);
    UniqueUse(d, k, minted);
    if |grown| > cap { LookupDropped(grown, |grown| - cap, k); }
  }

  lemma AfterValid(d: Tokens, op: Op, cap: nat)
    requires Unique(d) && |d| <= cap && cap >= 1
    ensures Unique(After(d, op, cap)) && |After(d, op, cap)| <= cap
  {
    hide Unique, Lookup, Without;
    var k := op.key;
    LookupAt(d, k);
    UsedLength(d, k);
    UniqueWithout(d, k);
    match op
    case Get(_, now) =>
      if Lookup(d, k).Some? { UniqueUse(d, k, Lookup(d, k).value); }
    case Put(_, minted) =>
      UniqueUse(d, k, minted);
      var grown := Without(d, k) + [Slot(k, minted)];
      if |grown| > cap { UniqueTail(grown, |grown| - cap); }
    case Drop(_) =>
  }

  lemma UniqueWithout(d: Tokens, k: Key)
    requires Unique(d)
    ensures Unique(Without(d, k))
  {
    if Has(d, k) {
      var i :| 0 <= i < |d| && d[i].key == k;
      WithoutAt(d, i);
    } else {
      WithoutAbsent(d, k);
    }
  }

  // ------------------------------------------------------------ runs

  /** The table after these operations. */
  function Served(d: Tokens, ops: seq<Op>, cap: nat): Tokens {
    if ops == [] then d else After(Served(d, ops[..|ops| - 1], cap), ops[|ops| - 1], cap)
  }

  lemma {:induction false} ServedValid(d: Tokens, ops: seq<Op>, cap: nat)
    requires Unique(d) && |d| <= cap && cap >= 1
    ensures Unique(Served(d, ops, cap)) && |Served(d, ops, cap)| <= cap
  {
    hide Unique, After;
    if ops != [] {
      ServedValid(d, ops[..|ops| - 1], cap);
      AfterValid(Served(d, ops[..|ops| - 1], cap), ops[|ops| - 1], cap);
    }
  }

  /** The last token put for a key and not dropped since. */
  function LastPut(ops: seq<Op>, k: Key): Option<Minted> {
    if ops == [] then None
    else
      var last := ops[|ops| - 1];
      if last.key == k && last.Put? then Some(last.minted)
      else if last.key == k && last.Drop? then None
      else LastPut(ops[..|ops| - 1], k)
  }

  lemma {:induction false} LookupWithout(d: Tokens, x: Key, k: Key)
    ensures Lookup(Without(d, x), k) == if x == k then None else Lookup(d, k)
  {
    if d != [] { LookupWithout(d[1..], x, k); }
  }

  lemma {:induction false} LookupSnoc(d: Tokens, e: Slot<Key, Minted>, k: Key)
    ensures Lookup(d + [e], k)
            == if Lookup(d, k).Some? then Lookup(d, k) else if e.key == k then Some(e.value) else None
  {
    if d == [] {
      assert d + [e] == [e];
    } else {
      LookupSnoc(d[1..], e, k);
      assert (d + [e])[1..] == d[1..] + [e];
    }
  }

  lemma {:induction false} LookupDropped(d: Tokens, n: nat, k: Key)
    requires Unique(d) && n <= |d|
    ensures Lookup(d[n..], k).Some? ==> Lookup(d, k) == Lookup(d[n..], k)
    decreases n
  {
    if n > 0 {
      UniqueTail(d, 1);
      LookupDropped(d[1..], n - 1, k);
      assert d[n..] == d[1..][n - 1..];
      LookupAt(d[n..], k);
      if Lookup(d[n..], k).Some? {
        var i :| 0 <= i < |d[n..]| && d[n..][i].key == k;
        assert d[n + i].key == k;
      }
    }
  }

  /** What the table holds for a key is the last token put for it. */
  lemma {:induction false} HeldIsLastPut(ops: seq<Op>, cap: nat, k: Key)
    requires cap >= 1
    ensures Lookup(Served([], ops, cap), k).Some? ==> LastPut(ops, k) == Lookup(Served([], ops, cap), k)
  {
    hide Unique, Lookup, Without;
    if ops == [] {
      LookupEmpty(k);
    } else {
      var earlier, op := ops[..|ops| - 1], ops[|ops| - 1];
      var s := Served([], earlier, cap);
      HeldIsLastPut(earlier, cap, k);
      ServedValid([], earlier, cap) by { EmptyUnique(); }
      LookupWithout(s, op.key, k);
      match op
      case Get(x, now) =>
        if Lookup(s, x).Some? { LookupSnoc(Without(s, x), Slot(x, Lookup(s, x).value), k); }
      case Put(x, minted) =>
        var grown := Without(s, x) + [Slot(x, minted)];
        LookupSnoc(Without(s, x), Slot(x, minted), k);
        UniqueUse(s, x, minted);
        if |grown| > cap { LookupDropped(grown, |grown| - cap, k); }
      case Drop(_) =>
    }
  }

  lemma LookupEmpty(k: Key)
    ensures Lookup<Key, Minted>([], k).None?
  {
  }

  lemma EmptyUnique()
    ensures Unique<Key, Minted>([])
  {
  }

  /**
   * Never a wrong token: what is served was the last put for that subject and audience, not dropped, and not expired.
   */
  lemma ServesLastLive(ops: seq<Op>, cap: nat, k: Key, now: real)
    requires cap >= 1
    ensures var token := Asked(Served([], ops, cap), k, now).1;
            token.Some? ==> LastPut(ops, k).Some? && LastPut(ops, k).value.token == token.value
                            && now < LastPut(ops, k).value.notAfter
  {
    hide Served, LastPut, Lookup, Without;
    HeldIsLastPut(ops, cap, k);
  }

  // ------------------------------------------------------------ how a live token goes missing

  function Keys(d: Tokens): set<Key> {
    if d == [] then {} else {d[0].key} + Keys(d[1..])
  }

  /** The keys used more recently than this one. */
  function Newer(d: Tokens, k: Key): set<Key> {
    if d == [] then {} else if d[0].key == k then Keys(d[1..]) else Newer(d[1..], k)
  }

  /** The keys put, or asked for and served, during these operations. */
  function Touched(d: Tokens, ops: seq<Op>, cap: nat): set<Key> {
    if ops == [] then {}
    else Touched(d, ops[..|ops| - 1], cap) + Touch(Served(d, ops[..|ops| - 1], cap), ops[|ops| - 1])
  }

  function Touch(s: Tokens, op: Op): set<Key> {
    match op
    case Get(k, now) => if Asked(s, k, now).1.Some? then {k} else {}
    case Put(k, _) => {k}
    case Drop(_) => {}
  }

  /** Takes an entry out, other than by making room. */
  predicate Removes(s: Tokens, op: Op) {
    match op
    case Get(k, now) => Lookup(s, k).Some? && now >= Lookup(s, k).value.notAfter
    case Put(_, _) => false
    case Drop(k) => Lookup(s, k).Some?
  }

  ghost predicate NothingRemoved(d: Tokens, ops: seq<Op>, cap: nat) {
    ops == [] || (NothingRemoved(d, ops[..|ops| - 1], cap)
        && !Removes(Served(d, ops[..|ops| - 1], cap), ops[|ops| - 1]))
  }

  lemma {:induction false} KeysAre(d: Tokens, x: Key)
    ensures x in Keys(d) <==> Has(d, x)
  {
    hide Has;
    if d == [] { NothingHas<Key, Minted>(x); } else { HasTail(d, x); KeysAre(d[1..], x); }
  }

  lemma {:induction false} KeysWithout(d: Tokens, x: Key)
    ensures Keys(Without(d, x)) == Keys(d) - {x}
  {
    if d != [] { KeysWithout(d[1..], x); }
  }

  lemma {:induction false} KeysSnoc(d: Tokens, e: Slot<Key, Minted>)
    ensures Keys(d + [e]) == Keys(d) + {e.key}
  {
    if d == [] {
      assert d + [e] == [e];
    } else {
      KeysSnoc(d[1..], e);
      assert (d + [e])[1..] == d[1..] + [e];
    }
  }

  lemma HeadOnce(d: Tokens)
    requires Unique(d) && d != []
    ensures !Has(d[1..], d[0].key)
  {
  }

  lemma {:induction false} KeysCount(d: Tokens)
    requires Unique(d)
    ensures |Keys(d)| == |d|
  {
    if d != [] {
      UniqueTail(d, 1);
      KeysCount(d[1..]);
      KeysAre(d[1..], d[0].key);
      HeadOnce(d);
    }
  }

  lemma {:induction false} NewerWithout(d: Tokens, x: Key, k: Key)
    requires x != k
    ensures Newer(Without(d, x), k) == Newer(d, k) - {x}
  {
    if d != [] {
      NewerWithout(d[1..], x, k);
      KeysWithout(d[1..], x);
    }
  }

  lemma {:induction false} NewerSnoc(d: Tokens, e: Slot<Key, Minted>, k: Key)
    requires Lookup(d, k).Some?
    ensures Newer(d + [e], k) == Newer(d, k) + {e.key}
  {
    assert (d + [e])[1..] == d[1..] + [e];
    if d[0].key == k { KeysSnoc(d[1..], e); } else { NewerSnoc(d[1..], e, k); }
  }

  /** Room for one more is made by the oldest; that is this key only when every other place is newer. */
  lemma NewerTrimmed(d: Tokens, k: Key, cap: nat)
    requires Unique(d) && |d| <= cap + 1 && Lookup(d, k).Some?
    ensures Lookup(Trim(d, cap), k).Some? <==> |Newer(d, k)| < cap
    ensures Lookup(Trim(d, cap), k).Some?
            ==> Lookup(Trim(d, cap), k) == Lookup(d, k) && Newer(Trim(d, cap), k) == Newer(d, k)
  {
    if |d| == cap + 1 {
      UniqueTail(d, 1);
      LookupAt(d[1..], k);
      KeysCount(d[1..]);
      if d[0].key == k { HeadOnce(d); } else { NewerBounded(d[1..], k); }
    } else {
      NewerBounded(d, k);
    }
  }

  lemma {:induction false} NewerBounded(d: Tokens, k: Key)
    requires Unique(d) && Lookup(d, k).Some?
    ensures |Newer(d, k)| < |d|
  {
    UniqueTail(d, 1);
    if d[0].key == k { KeysCount(d[1..]); } else { NewerBounded(d[1..], k); }
  }

  /** One operation on another key. */
  lemma OtherOp(s: Tokens, op: Op, k: Key, cap: nat)
    requires Unique(s) && |s| <= cap && cap >= 1 && op.key != k && Lookup(s, k).Some?
    ensures var s' := After(s, op, cap); var newer := Newer(s, k) + Touch(s, op);
            && (Lookup(s', k).Some? ==> Lookup(s', k) == Lookup(s, k) && Newer(s', k) <= newer)
            && (!Removes(s, op) && Lookup(s', k).Some? ==> Newer(s', k) == newer)
            && (Lookup(s', k).Some? <==> !(op.Put? && |newer| >= cap))
  {
    hide Unique, Lookup, Without, Newer, Trim;
    var x := op.key;
    NewerWithout(s, x, k);
    LookupWithout(s, x, k);
    NewerFits(s, k);
    match op
    case Get(_, now) => if Lookup(s, x).Some? { MovedToEnd(s, x, Lookup(s, x).value, k); }
    case Put(_, minted) =>
      MovedToEnd(s, x, minted, k);
      NewerTrimmed(Without(s, x) + [Slot(x, minted)], k, cap);
    case Drop(_) => if Lookup(s, x).None? { LookupAbsent(s, x); }
  }

  /** Another key put at the new end. */
  lemma MovedToEnd(s: Tokens, x: Key, v: Minted, k: Key)
    requires Unique(s) && x != k && Lookup(s, k).Some?
    ensures var moved := Without(s, x) + [Slot(x, v)];
            && Unique(moved) && |moved| <= |s| + 1
            && Lookup(moved, k) == Lookup(s, k) && Newer(moved, k) == Newer(s, k) + {x}
  {
    hide Unique, Lookup, Without, Newer;
    NewerWithout(s, x, k);
    LookupWithout(s, x, k);
    UsedLength(s, x);
    UniqueUse(s, x, v);
    NewerSnoc(Without(s, x), Slot(x, v), k);
    LookupSnoc(Without(s, x), Slot(x, v), k);
  }

  lemma NewerFits(s: Tokens, k: Key)
    requires Unique(s) && Lookup(s, k).Some?
    ensures |Newer(s, k)| < |s|
  {
    NewerBounded(s, k);
  }

  lemma LookupAbsent(s: Tokens, x: Key)
    requires Lookup(s, x).None?
    ensures Without(s, x) == s
  {
    LookupAt(s, x);
    WithoutAbsent(s, x);
  }

  /** Operations on other keys only. */
  ghost predicate Elsewhere(ops: seq<Op>, k: Key) { forall i | 0 <= i < |ops| :: ops[i].key != k }

  /**
   * A token just used stays, whatever is done for other keys, until `cap` others have been put or served: it can go
   * missing earlier only by being dropped, replaced or found expired.
   */
  lemma {:induction false} KeptUntilCrowded(d: Tokens, k: Key, ops: seq<Op>, cap: nat)
    requires Unique(d) && |d| <= cap && cap >= 1 && Lookup(d, k).Some? && Newer(d, k) == {} && Elsewhere(ops, k)
    requires |Touched(d, ops, cap)| < cap
    ensures Lookup(Served(d, ops, cap), k) == Lookup(d, k) && Newer(Served(d, ops, cap), k) <= Touched(d, ops, cap)
    decreases |ops|
  {
    hide Unique, Lookup, After, Newer, Touch;
    if ops != [] {
      var earlier, op := ops[..|ops| - 1], ops[|ops| - 1];
      var s, t := Served(d, earlier, cap), Touched(d, earlier, cap);
      SubsetCard(t, Touched(d, ops, cap));
      assert Elsewhere(earlier, k);
      KeptUntilCrowded(d, k, earlier, cap);
      ServedValid(d, earlier, cap);
      OtherOp(s, op, k, cap);
      SubsetCard(Newer(s, k) + Touch(s, op), Touched(d, ops, cap));
    }
  }

  lemma {:induction false} SubsetCard<T>(a: set<T>, b: set<T>)
    requires a <= b
    ensures |a| <= |b|
  {
    if a != {} {
      var x :| x in a;
      SubsetCard(a - {x}, b - {x});
    }
  }

  /** When nothing was dropped or found expired meanwhile, that is exact: gone if and only if `cap` others were used. */
  lemma {:induction false} GoneExactlyWhenCrowded(d: Tokens, k: Key, ops: seq<Op>, cap: nat)
    requires Unique(d) && |d| <= cap && cap >= 1 && Lookup(d, k).Some? && Newer(d, k) == {} && Elsewhere(ops, k)
    requires NothingRemoved(d, ops, cap)
    ensures Lookup(Served(d, ops, cap), k).None? <==> |Touched(d, ops, cap)| >= cap
    ensures Lookup(Served(d, ops, cap), k).Some? ==> Newer(Served(d, ops, cap), k) == Touched(d, ops, cap)
    decreases |ops|
  {
    hide Unique, Lookup, Newer, Touch;
    if ops != [] {
      var earlier, op := ops[..|ops| - 1], ops[|ops| - 1];
      var s := Served(d, earlier, cap);
      assert Elsewhere(earlier, k);
      GoneExactlyWhenCrowded(d, k, earlier, cap);
      ServedValid(d, earlier, cap);
      if Lookup(s, k).Some? {
        OtherOp(s, op, k, cap);
        AfterValid(s, op, cap);
        if !op.Put? { NewerFits(After(s, op, cap), k); }
      } else {
        StaysGone(s, op, k, cap);
        SubsetCard(Touched(d, earlier, cap), Touched(d, ops, cap));
      }
    }
  }

  lemma StaysGone(s: Tokens, op: Op, k: Key, cap: nat)
    requires Unique(s) && op.key != k && Lookup(s, k).None?
    ensures Lookup(After(s, op, cap), k).None?
  {
    hide Unique, Lookup, Without;
    var x := op.key;
    LookupWithout(s, x, k);
    match op
    case Get(_, now) => if Lookup(s, x).Some? { LookupSnoc(Without(s, x), Slot(x, Lookup(s, x).value), k); }
    case Put(_, minted) =>
      var grown := Without(s, x) + [Slot(x, minted)];
      LookupSnoc(Without(s, x), Slot(x, minted), k);
      UniqueUse(s, x, minted);
      if |grown| > cap { LookupDropped(grown, |grown| - cap, k); }
    case Drop(_) =>
  }

  /** A put, and an ask that is served, make the key the newest there is. */
  lemma UsedIsNewest(s: Tokens, op: Op, cap: nat)
    requires Unique(s) && |s| <= cap && cap >= 1 && (op.Put? || (op.Get? && Asked(s, op.key, op.now).1.Some?))
    ensures Lookup(After(s, op, cap), op.key).Some? && Newer(After(s, op, cap), op.key) == {}
  {
    hide Unique, Lookup, Without, Newer;
    var k := op.key;
    var v := if op.Put? then op.minted else Lookup(s, k).value;
    var rest := Without(s, k);
    LookupWithout(s, k, k);
    LookupSnoc(rest, Slot(k, v), k);
    NewestAtEnd(rest, Slot(k, v));
    UniqueUse(s, k, v);
    UsedLength(s, k);
    if op.Put? { NewerTrimmed(rest + [Slot(k, v)], k, cap); }
  }

  lemma {:induction false} NewestAtEnd(d: Tokens, e: Slot<Key, Minted>)
    requires Lookup(d, e.key).None?
    ensures Newer(d + [e], e.key) == {}
  {
    if d == [] {
      assert d + [e] == [e];
    } else {
      NewestAtEnd(d[1..], e);
      assert (d + [e])[1..] == d[1..] + [e];
    }
  }
}
