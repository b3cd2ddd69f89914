/** The normal form of an nftables listing as JSON, where handles and counter values come and go. */
module NftJson {
  import opened Sequences

  datatype Json =
    | Null
    | Boolean(flag: bool)
    | Number(number: int)
    | Text(text: string)
    | Array(items: seq<Json>)
    | Object(fields: map<Key, Json>)
  {
    /** Only objects have fields. */
    predicate Has(key: Key) {
      Object? && key in fields
    }

    predicate HasArray(key: Key) {
      Has(key) && fields[key].Array?
    }
  }

  /** The field names the normal form depends on; every other name is itself. */
  datatype Key = RULE | CHAIN | OBJECTS | METAINFO | HANDLE | COUNTER | PACKETS | BYTES | Other(name: string)

  predicate Volatile(key: Key) {
    key == METAINFO || key == HANDLE
  }

  predicate CountsTraffic(v: Json) {
    v.Has(PACKETS) || v.Has(BYTES)
  }

  function Others(items: seq<Json>): seq<Json> {
    if items == [] then [] else (if items[0].Has(RULE) then [] else [items[0]]) + Others(items[1..])
  }

  function Rules(items: seq<Json>): seq<Json> {
    if items == [] then [] else (if items[0].Has(RULE) then [items[0]] else []) + Rules(items[1..])
  }

  /** A stable partition with the rules last. */
  function RulesLast(items: seq<Json>): (r: seq<Json>)
    ensures forall x :: x in r ==> x in items
  {
    PartsBelong(items);
    Others(items) + Rules(items)
  }

  lemma {:induction false} PartsBelong(items: seq<Json>)
    ensures forall x :: x in Others(items) ==> x in items
    ensures forall x :: x in Rules(items) ==> x in items
  {
    if items != [] {
      PartsBelong(items[1..]);
    }
  }

  function Normalize(v: Json): Json {
    match v
    case Array(items) => Array(seq(|items|, i requires 0 <= i < |items| => Normalize(items[i])))
    case Object(fields) =>
      Object(map key | key in fields && !Volatile(key) :: NormalizeField(v, key))
    case _ => v
  }

  function NormalizeField(v: Json, key: Key): Json
    requires v.Has(key)
    decreases v, 0
  {
    var value := v.fields[key];
    if key == COUNTER && CountsTraffic(value) then
      Null
    else if key == OBJECTS && value.Array? then
      var ordered := RulesLast(value.items);
      Array(seq(|ordered|, i requires 0 <= i < |ordered| => NormalizeItem(value, ordered[i])))
    else
      Normalize(value)
  }

  function NormalizeItem(list: Json, item: Json): Json
    requires list.Array? && item in list.items
    decreases list, 1
  {
    Normalize(item)
  }

  function NormalizeAll(items: seq<Json>): seq<Json> {
    seq(|items|, i requires 0 <= i < |items| => Normalize(items[i]))
  }

  // What normalising keeps.

  lemma ShapeKept(v: Json)
    ensures Normalize(v).Array? == v.Array? && Normalize(v).Object? == v.Object?
    ensures forall key :: !Volatile(key) ==> Normalize(v).Has(key) == v.Has(key)
    ensures v.Text? ==> Normalize(v) == v
  {
  }

  lemma ListNormalizes(v: Json)
    requires v.HasArray(OBJECTS)
    ensures NormalizeField(v, OBJECTS) == Array(NormalizeAll(RulesLast(v.fields[OBJECTS].items)))
  {
    var value := v.fields[OBJECTS];
    var ordered := RulesLast(value.items);
    forall i | 0 <= i < |ordered|
      ensures NormalizeItem(value, ordered[i]) == Normalize(ordered[i])
    {
      assert ordered[i] in ordered;
    }
  }

  lemma {:induction false} OthersAppend(a: seq<Json>, b: seq<Json>)
    ensures Others(a + b) == Others(a) + Others(b)
  {
    if a == [] {
      Nothing(b);
      Nothing(Others(b));
    } else {
      TailOfAppend(a, b);
      OthersAppend(a[1..], b);
      Regroup(if a[0].Has(RULE) then [] else [a[0]], Others(a[1..]), Others(b));
    }
  }

  lemma {:induction false} RulesAppend(a: seq<Json>, b: seq<Json>)
    ensures Rules(a + b) == Rules(a) + Rules(b)
  {
    if a == [] {
      Nothing(b);
      Nothing(Rules(b));
    } else {
      TailOfAppend(a, b);
      RulesAppend(a[1..], b);
      Regroup(if a[0].Has(RULE) then [a[0]] else [], Rules(a[1..]), Rules(b));
    }
  }

  lemma PartitionAppend(a: seq<Json>, b: seq<Json>)
    ensures Others(a + b) == Others(a) + Others(b)
    ensures Rules(a + b) == Rules(a) + Rules(b)
  {
    OthersAppend(a, b);
    RulesAppend(a, b);
  }

  ghost predicate AllRules(items: seq<Json>) {
    forall x: Json :: x in items ==> x.Has(RULE)
  }

  ghost predicate NoRules(items: seq<Json>) {
    forall x: Json :: x in items ==> !x.Has(RULE)
  }

  lemma {:induction false} PartitionPure(items: seq<Json>)
    ensures AllRules(items) ==> Others(items) == [] && Rules(items) == items
    ensures NoRules(items) ==> Others(items) == items && Rules(items) == []
  {
    if items != [] {
      PartitionPure(items[1..]);
      assert items[0] in items;
    }
  }

  lemma {:induction false} PartsArePure(items: seq<Json>)
    ensures NoRules(Others(items)) && AllRules(Rules(items))
  {
    if items != [] {
      PartsArePure(items[1..]);
    }
  }

  lemma PartsOfConcat(others: seq<Json>, rules: seq<Json>)
    requires NoRules(others) && AllRules(rules)
    ensures Others(others + rules) == others
    ensures Rules(others + rules) == rules
  {
    PartitionPure(others);
    PartitionPure(rules);
    PartitionAppend(others, rules);
    assert others + [] == others && [] + rules == rules;
  }

  lemma RulesLastTwice(items: seq<Json>)
    ensures RulesLast(RulesLast(items)) == RulesLast(items)
  {
    PartsArePure(items);
    PartsOfConcat(Others(items), Rules(items));
  }

  lemma NormalizeAllAppend(a: seq<Json>, b: seq<Json>)
    ensures NormalizeAll(a + b) == NormalizeAll(a) + NormalizeAll(b)
  {
  }

  lemma NormalizeAllStep(items: seq<Json>)
    requires items != []
    ensures NormalizeAll(items) == [Normalize(items[0])] + NormalizeAll(items[1..])
  {
  }

  lemma {:induction false} OthersCommute(items: seq<Json>)
    ensures Others(NormalizeAll(items)) == NormalizeAll(Others(items))
  {
    if items != [] {
      OthersCommute(items[1..]);
      NormalizeAllStep(items);
      ShapeKept(items[0]);
      if !items[0].Has(RULE) {
        NormalizeAllAppend([items[0]], Others(items[1..]));
        assert NormalizeAll([items[0]]) == [Normalize(items[0])];
      }
    }
  }

  lemma {:induction false} RulesCommute(items: seq<Json>)
    ensures Rules(NormalizeAll(items)) == NormalizeAll(Rules(items))
  {
    if items != [] {
      RulesCommute(items[1..]);
      NormalizeAllStep(items);
      ShapeKept(items[0]);
      if items[0].Has(RULE) {
        NormalizeAllAppend([items[0]], Rules(items[1..]));
        assert NormalizeAll([items[0]]) == [Normalize(items[0])];
      }
    }
  }

  lemma PartitionCommutes(items: seq<Json>)
    ensures RulesLast(NormalizeAll(items)) == NormalizeAll(RulesLast(items))
  {
    OthersCommute(items);
    RulesCommute(items);
    NormalizeAllAppend(Others(items), Rules(items));
  }

  /** A normal form is its own normal form. */
  lemma {:induction false} NormalizeIsIdempotent(v: Json)
    ensures Normalize(Normalize(v)) == Normalize(v)
  {
    match v
    case Array(items) =>
      forall i | 0 <= i < |items|
        ensures Normalize(Normalize(items[i])) == Normalize(items[i])
      {
        NormalizeIsIdempotent(items[i]);
      }
    case Object(fields) =>
      var w := Normalize(v);
      forall key | key in fields && !Volatile(key)
        ensures NormalizeField(w, key) == w.fields[key]
      {
        FieldIsStable(v, key);
      }
      assert Normalize(w).fields.Keys == w.fields.Keys;
    case _ =>
  }

  lemma FieldIsStable(v: Json, key: Key)
    requires v.Has(key) && !Volatile(key)
    ensures NormalizeField(Normalize(v), key) == Normalize(v).fields[key]
    decreases v, 0
  {
    var w, value := Normalize(v), v.fields[key];
    assert w.fields[key] == NormalizeField(v, key);
    ShapeKept(value);
    if key == OBJECTS && value.Array? {
      ListIsStable(v, value);
    } else {
      NormalizeIsIdempotent(value);
    }
  }

  lemma ListIsStable(v: Json, list: Json)
    requires v.HasArray(OBJECTS) && list == v.fields[OBJECTS]
    ensures NormalizeField(Normalize(v), OBJECTS) == Normalize(v).fields[OBJECTS]
    decreases list, 1
  {
    var items := list.items;
    var w := Normalize(v);
    ListNormalizes(v);
    assert w.fields[OBJECTS] == Array(NormalizeAll(RulesLast(items)));
    ListNormalizes(w);
    PartitionCommutes(items);
    PartitionCommutes(RulesLast(items));
    RulesLastTwice(items);
    var ordered := RulesLast(items);
    forall i | 0 <= i < |ordered|
      ensures Normalize(Normalize(ordered[i])) == Normalize(ordered[i])
    {
      assert ordered[i] in items;
      NormalizeIsIdempotent(ordered[i]);
    }
    assert NormalizeAll(NormalizeAll(ordered)) == NormalizeAll(ordered);
  }

  // Listings.

  function Listing(items: seq<Json>): Json {
    Object(map[OBJECTS := Array(items)])
  }

  /** One chain with its rules. */
  datatype Block = Block(chain: Json, rules: seq<Json>)

  ghost predicate ValidBlock(b: Block) {
    !b.chain.Has(RULE) && AllRules(b.rules)
  }

  function Interleaved(blocks: seq<Block>): seq<Json> {
    if blocks == [] then [] else [blocks[0].chain] + blocks[0].rules + Interleaved(blocks[1..])
  }

  function ChainItems(blocks: seq<Block>): seq<Json> {
    if blocks == [] then [] else [blocks[0].chain] + ChainItems(blocks[1..])
  }

  function RuleItems(blocks: seq<Block>): seq<Json> {
    if blocks == [] then [] else blocks[0].rules + RuleItems(blocks[1..])
  }

  lemma BlockParts(b: Block)
    requires ValidBlock(b)
    ensures Others([b.chain] + b.rules) == [b.chain] && Rules([b.chain] + b.rules) == b.rules
  {
    PartsOfConcat([b.chain], b.rules);
  }

  lemma {:induction false} InterleavedParts(blocks: seq<Block>)
    requires forall b :: b in blocks ==> ValidBlock(b)
    ensures Others(Interleaved(blocks)) == ChainItems(blocks)
    ensures Rules(Interleaved(blocks)) == RuleItems(blocks)
  {
    if blocks != [] {
      BlockParts(blocks[0]);
      InterleavedParts(blocks[1..]);
      PartitionAppend([blocks[0].chain] + blocks[0].rules, Interleaved(blocks[1..]));
    }
  }

  lemma {:induction false} ItemsArePure(blocks: seq<Block>)
    requires forall b :: b in blocks ==> ValidBlock(b)
    ensures NoRules(ChainItems(blocks)) && AllRules(RuleItems(blocks))
  {
    if blocks != [] {
      assert ValidBlock(blocks[0]);
      ItemsArePure(blocks[1..]);
    }
  }

  lemma ListingsOrderAlike(head: seq<Json>, blocks: seq<Block>)
    requires NoRules(head) && forall b :: b in blocks ==> ValidBlock(b)
    ensures RulesLast(head + Interleaved(blocks)) == RulesLast(head + (ChainItems(blocks) + RuleItems(blocks)))
  {
    InterleavedParts(blocks);
    ItemsArePure(blocks);
    PartsOfConcat(ChainItems(blocks), RuleItems(blocks));
    PartitionAppend(head, Interleaved(blocks));
    PartitionAppend(head, ChainItems(blocks) + RuleItems(blocks));
  }

  lemma ListingForm(items: seq<Json>)
    ensures Normalize(Listing(items)) == Listing(NormalizeAll(RulesLast(items)))
  {
    var v := Listing(items);
    ListNormalizes(v);
    assert Normalize(v).fields == map[OBJECTS := NormalizeField(v, OBJECTS)];
  }

  /** Rules listed under their own chains or after every chain: the two listings have one normal form. */
  lemma BothListingsNormalizeAlike(head: seq<Json>, blocks: seq<Block>)
    requires NoRules(head) && forall b :: b in blocks ==> ValidBlock(b)
    ensures Normalize(Listing(head + Interleaved(blocks)))
            == Normalize(Listing(head + (ChainItems(blocks) + RuleItems(blocks))))
  {
    ListingsOrderAlike(head, blocks);
    ListingForm(head + Interleaved(blocks));
    ListingForm(head + (ChainItems(blocks) + RuleItems(blocks)));
  }

  /** The rules of one chain, in listing order. */
  predicate InChain(item: Json, name: string) {
    item.Has(RULE) && item.fields[RULE].Has(CHAIN) && item.fields[RULE].fields[CHAIN] == Text(name)
  }

  function RulesOfChain(items: seq<Json>, name: string): seq<Json> {
    if items == [] then
      []
    else
      (if InChain(items[0], name) then [items[0]] else []) + RulesOfChain(items[1..], name)
  }

  lemma InChainKept(item: Json, name: string)
    ensures InChain(Normalize(item), name) == InChain(item, name)
  {
    ShapeKept(item);
    if item.Has(RULE) {
      var rule := item.fields[RULE];
      ShapeKept(rule);
      assert Normalize(item).fields[RULE] == Normalize(rule);
      if rule.Has(CHAIN) {
        assert Normalize(rule).fields[CHAIN] == Normalize(rule.fields[CHAIN]);
      }
    }
  }

  lemma {:induction false} RulesOfChainAppend(a: seq<Json>, b: seq<Json>, name: string)
    ensures RulesOfChain(a + b, name) == RulesOfChain(a, name) + RulesOfChain(b, name)
  {
    if a == [] {
      Nothing(b);
      Nothing(RulesOfChain(b, name));
    } else {
      TailOfAppend(a, b);
      RulesOfChainAppend(a[1..], b, name);
      Regroup(if InChain(a[0], name) then [a[0]] else [], RulesOfChain(a[1..], name), RulesOfChain(b, name));
    }
  }

  lemma {:induction false} PartitionKeepsRules(items: seq<Json>, name: string)
    ensures RulesOfChain(Others(items), name) == []
    ensures RulesOfChain(Rules(items), name) == RulesOfChain(items, name)
  {
    if items != [] {
      PartitionKeepsRules(items[1..], name);
      if items[0].Has(RULE) {
        assert Rules(items)[0] == items[0] && Rules(items)[1..] == Rules(items[1..]);
        assert Others(items) == Others(items[1..]);
      } else {
        assert Others(items)[0] == items[0] && Others(items)[1..] == Others(items[1..]);
        assert Rules(items) == Rules(items[1..]);
      }
    }
  }

  lemma {:induction false} NormalizedRulesOfChain(items: seq<Json>, name: string)
    ensures RulesOfChain(NormalizeAll(items), name) == NormalizeAll(RulesOfChain(items, name))
  {
    if items != [] {
      var all := NormalizeAll(items);
      assert all[0] == Normalize(items[0]) && all[1..] == NormalizeAll(items[1..]);
      NormalizedRulesOfChain(items[1..], name);
      InChainKept(items[0], name);
      if InChain(items[0], name) {
        assert RulesOfChain(items, name)[1..] == RulesOfChain(items[1..], name);
      } else {
        assert RulesOfChain(items, name) == RulesOfChain(items[1..], name);
      }
    }
  }

  /** Within each chain, normalising changes neither which rules there are nor their order. */
  lemma RuleOrderIsKept(items: seq<Json>, name: string)
    ensures Normalize(Listing(items)).HasArray(OBJECTS)
    ensures RulesOfChain(Normalize(Listing(items)).fields[OBJECTS].items, name)
            == NormalizeAll(RulesOfChain(items, name))
  {
    ListingForm(items);
    NormalizedRulesOfChain(RulesLast(items), name);
    RulesOfChainAppend(Others(items), Rules(items), name);
    PartitionKeepsRules(items, name);
    Nothing(RulesOfChain(items, name));
  }

  /** Handles, listing metadata and counter values do not show in the normal form. */
  lemma VolatileFieldsAreErased(fields: map<Key, Json>, key: Key, value: Json)
    requires Volatile(key) || (key == COUNTER && CountsTraffic(value))
    ensures Normalize(Object(fields[key := value])) ==
            Normalize(Object(if Volatile(key) then fields - {key} else fields[key := Null]))
  {
    var a := Object(fields[key := value]);
    var b := Object(if Volatile(key) then fields - {key} else fields[key := Null]);
    forall k | k in a.fields && k in b.fields
      ensures NormalizeField(a, k) == NormalizeField(b, k)
    {
      if k != key {
        assert a.fields[k] == b.fields[k];
        SameFieldSameForm(a, b, k);
      }
    }
    assert Normalize(a).fields.Keys == Normalize(b).fields.Keys;
  }

  lemma SameFieldSameForm(a: Json, b: Json, key: Key)
    requires a.Has(key) && b.Has(key) && a.fields[key] == b.fields[key]
    ensures NormalizeField(a, key) == NormalizeField(b, key)
  {
    if key == OBJECTS && a.fields[key].Array? {
      ListNormalizes(a);
      ListNormalizes(b);
    }
  }

  // What a normal form tells.

  /** The traffic counted so far, or none to count. */
  predicate Counter(v: Json) {
    v == Null || v.Has(PACKETS) || v.Has(BYTES)
  }

  /** Equal but for handles, listing metadata, traffic counted, and where the rules of a listing stand among the rest. */
  ghost predicate Alike(a: Json, b: Json)
    decreases a, 0
  {
    if a.Array? && b.Array? then
      && |a.items| == |b.items|
      && forall i :: 0 <= i < |a.items| ==> Alike(a.items[i], b.items[i])
    else if a.Object? && b.Object? then
      forall key :: key != METAINFO && key != HANDLE ==>
        (a.Has(key) <==> b.Has(key)) && (a.Has(key) ==> AlikeUnder(key, a.fields[key], b.fields[key]))
    else
      a == b
  }

  ghost predicate AlikeUnder(key: Key, a: Json, b: Json)
    decreases a, 2
  {
    || (key == COUNTER && Counter(a) && Counter(b))
    || (key == OBJECTS && a.Array? && b.Array?
        && AlikeIn(a, Others(a.items), Others(b.items)) && AlikeIn(a, Rules(a.items), Rules(b.items)))
    || (!(key == OBJECTS && a.Array? && b.Array?) && !(key == COUNTER && (Counter(a) || Counter(b))) && Alike(a, b))
  }

  ghost predicate AlikeIn(list: Json, s: seq<Json>, t: seq<Json>)
    decreases list, 1
  {
    |s| == |t| && forall i :: 0 <= i < |s| && list.Array? && s[i] in list.items ==> Alike(s[i], t[i])
  }

  /** Two values have one normal form exactly when they are alike. */
  lemma {:induction false} NormalFormTellsAlike(a: Json, b: Json)
    ensures Normalize(a) == Normalize(b) <==> Alike(a, b)
    decreases a, 0
  {
    ShapeKept(a);
    ShapeKept(b);
    if a.Array? && b.Array? {
      forall i | 0 <= i < |a.items| && i < |b.items|
        ensures Normalize(a.items[i]) == Normalize(b.items[i]) <==> Alike(a.items[i], b.items[i])
      {
        NormalFormTellsAlike(a.items[i], b.items[i]);
      }
      SameItems(a.items, b.items);
    } else if a.Object? && b.Object? {
      forall key | a.Has(key) && b.Has(key)
        ensures NormalizeField(a, key) == NormalizeField(b, key) <==> AlikeUnder(key, a.fields[key], b.fields[key])
      {
        FieldTellsAlike(a, b, key);
      }
      SameFields(a, b);
    }
  }

  lemma SameItems(s: seq<Json>, t: seq<Json>)
    ensures NormalizeAll(s) == NormalizeAll(t)
            <==> |s| == |t| && forall i :: 0 <= i < |s| ==> Normalize(s[i]) == Normalize(t[i])
    ensures Normalize(Array(s)) == Array(NormalizeAll(s)) && Normalize(Array(t)) == Array(NormalizeAll(t))
  {
    if NormalizeAll(s) == NormalizeAll(t) {
      assert |NormalizeAll(s)| == |s| && |NormalizeAll(t)| == |t|;
      forall i | 0 <= i < |s| ensures Normalize(s[i]) == Normalize(t[i]) {
        assert NormalizeAll(s)[i] == NormalizeAll(t)[i];
      }
    }
  }

  lemma FieldsKept(v: Json, key: Key)
    requires v.Object?
    ensures Normalize(v).Has(key) <==> v.Has(key) && key != METAINFO && key != HANDLE
    ensures Normalize(v).Has(key) ==> Normalize(v).fields[key] == NormalizeField(v, key)
  {
  }

  ghost predicate SameFieldForms(a: Json, b: Json) {
    forall key :: key != METAINFO && key != HANDLE ==>
      (a.Has(key) <==> b.Has(key)) && (a.Has(key) && b.Has(key) ==> NormalizeField(a, key) == NormalizeField(b, key))
  }

  lemma SameFields(a: Json, b: Json)
    requires a.Object? && b.Object?
    ensures Normalize(a) == Normalize(b) <==> SameFieldForms(a, b)
  {
    forall key
      ensures Normalize(a).Has(key) <==> a.Has(key) && key != METAINFO && key != HANDLE
      ensures Normalize(b).Has(key) <==> b.Has(key) && key != METAINFO && key != HANDLE
      ensures Normalize(a).Has(key) ==> Normalize(a).fields[key] == NormalizeField(a, key)
      ensures Normalize(b).Has(key) ==> Normalize(b).fields[key] == NormalizeField(b, key)
    {
      FieldsKept(a, key);
      FieldsKept(b, key);
    }
    if SameFieldForms(a, b) {
      forall key ensures Normalize(a).Has(key) <==> Normalize(b).Has(key) {
      }
      assert Normalize(a).fields == Normalize(b).fields;
    }
  }

  lemma FieldTellsAlike(a: Json, b: Json, key: Key)
    requires a.Has(key) && b.Has(key)
    ensures NormalizeField(a, key) == NormalizeField(b, key) <==> AlikeUnder(key, a.fields[key], b.fields[key])
    decreases a.fields[key], 2
  {
    var x, y := a.fields[key], b.fields[key];
    ShapeKept(x);
    ShapeKept(y);
    if key == OBJECTS && x.Array? && y.Array? {
      ListNormalizes(a);
      ListNormalizes(b);
      ListTellsAlike(x, y);
    } else {
      NormalFormTellsAlike(x, y);
    }
  }

  lemma ListTellsAlike(a: Json, b: Json)
    requires a.Array? && b.Array?
    ensures NormalizeAll(RulesLast(a.items)) == NormalizeAll(RulesLast(b.items))
            <==> AlikeIn(a, Others(a.items), Others(b.items)) && AlikeIn(a, Rules(a.items), Rules(b.items))
    decreases a, 1
  {
    PartsBelong(a.items);
    PartTellsAlike(a, Others(a.items), Others(b.items));
    PartTellsAlike(a, Rules(a.items), Rules(b.items));
    SamePartition(a.items, b.items);
  }

  lemma PartTellsAlike(list: Json, s: seq<Json>, t: seq<Json>)
    requires list.Array? && forall x :: x in s ==> x in list.items
    ensures NormalizeAll(s) == NormalizeAll(t) <==> AlikeIn(list, s, t)
    decreases list, 0
  {
    forall i | 0 <= i < |s| && i < |t| ensures Normalize(s[i]) == Normalize(t[i]) <==> Alike(s[i], t[i]) {
      assert s[i] in list.items;
      NormalFormTellsAlike(s[i], t[i]);
    }
    SameItems(s, t);
  }

  /** A normalised listing still shows which of its items are rules. */
  lemma SamePartition(s: seq<Json>, t: seq<Json>)
    ensures NormalizeAll(RulesLast(s)) == NormalizeAll(RulesLast(t))
            <==> NormalizeAll(Others(s)) == NormalizeAll(Others(t)) && NormalizeAll(Rules(s)) == NormalizeAll(Rules(t))
  {
    NormalizeAllAppend(Others(s), Rules(s));
    NormalizeAllAppend(Others(t), Rules(t));
    PartsOfNormalized(s);
    PartsOfNormalized(t);
  }

  lemma PartsOfNormalized(items: seq<Json>)
    ensures Others(NormalizeAll(RulesLast(items))) == NormalizeAll(Others(items))
    ensures Rules(NormalizeAll(RulesLast(items))) == NormalizeAll(Rules(items))
  {
    PartsArePure(items);
    PartsOfConcat(Others(items), Rules(items));
    OthersCommute(RulesLast(items));
    RulesCommute(RulesLast(items));
  }
}
