/** The content binding of a work request: a tagged encoding, canonical up to object key order. */
module RequestScope {
  import opened Lexical
  import opened Sorting

  /** JavaScript strings compare by UTF-16 code units. */
  type CodeUnit = n: nat | n < 0x1_0000
  type Text = seq<CodeUnit>

  /** A request value as the encoder sees it; a finite number is known by its text. */
  datatype Value =
    | Null | Str(text: Text) | Bool(b: bool) | Number(text: Text) | NonFinite
    | Array(items: seq<Value>) | Object(entries: seq<Entry>) | Unsupported
  datatype Entry = Entry(key: Text, value: Value)

  /** The tagged tree that is hashed. */
  datatype Code =
    | NullCode | StrCode(text: Text) | BoolCode(b: bool) | NumberCode(text: Text)
    | ArrayCode(items: seq<Code>) | ObjectCode(entries: seq<Field>)
  datatype Field = Field(key: Text, code: Code)

  datatype ScopeError = NonFiniteNumber | UnsupportedValue
  datatype Result<T> = Done(value: T) | Refused(error: ScopeError)

  // ---------------------------------------------------------------------
  // Key order
  // ---------------------------------------------------------------------

  predicate UnitLess(a: CodeUnit, b: CodeUnit) {
    a < b
  }

  predicate Precedes(a: Text, b: Text) {
    a == b || Before(UnitLess, a, b)
  }

  predicate KeyOrder(a: Entry, b: Entry) {
    Precedes(a.key, b.key)
  }

  lemma PrecedesIsTotal(a: Text, b: Text)
    ensures Precedes(a, b) || Precedes(b, a)
    ensures Precedes(a, b) && Precedes(b, a) ==> a == b
  {
    BeforeIsTotal(UnitLess, a, b);
    if Before(UnitLess, a, b) && Before(UnitLess, b, a) {
      BeforeIsTransitive(UnitLess, a, b, a);
      BeforeIsIrreflexive(UnitLess, a);
      assert false;
    }
  }

  lemma PrecedesIsTransitive(a: Text, b: Text, c: Text)
    requires Precedes(a, b) && Precedes(b, c)
    ensures Precedes(a, c)
  {
    if a != b && b != c {
      BeforeIsTransitive(UnitLess, a, b, c);
    }
  }

  lemma KeyOrderIsPreorder()
    ensures TotalPreorder(KeyOrder)
  {
    forall a, b ensures KeyOrder(a, b) || KeyOrder(b, a) {
      PrecedesIsTotal(a.key, b.key);
    }
    forall a, b, c | KeyOrder(a, b) && KeyOrder(b, c) ensures KeyOrder(a, c) {
      PrecedesIsTransitive(a.key, b.key, c.key);
    }
  }

  // ---------------------------------------------------------------------
  // The encoder
  // ---------------------------------------------------------------------

  function Size(v: Value): nat {
    match v
    case Array(items) => 1 + ItemsSize(items)
    case Object(entries) => 1 + EntriesSize(entries)
    case _ => 0
  }

  function ItemsSize(items: seq<Value>): nat {
    if items == [] then 0 else ItemsSize(items[..|items| - 1]) + 1 + Size(items[|items| - 1])
  }

  function EntriesSize(entries: seq<Entry>): nat {
    if entries == [] then 0 else EntriesSize(entries[..|entries| - 1]) + 1 + Size(entries[|entries| - 1].value)
  }

  lemma {:induction false} InsertSize(entries: seq<Entry>, x: Entry)
    ensures EntriesSize(Insert(KeyOrder, entries, x)) == EntriesSize(entries) + 1 + Size(x.value)
  {
    if entries == [] || KeyOrder(entries[|entries| - 1], x) {
      assert (entries + [x])[..|entries|] == entries;
    } else {
      var front, last := entries[..|entries| - 1], entries[|entries| - 1];
      InsertSize(front, x);
      var more := Insert(KeyOrder, front, x);
      assert (more + [last])[..|more|] == more;
    }
  }

  lemma {:induction false} OrderedSize(entries: seq<Entry>)
    ensures EntriesSize(Sort(KeyOrder, entries)) == EntriesSize(entries)
  {
    if entries != [] {
      OrderedSize(entries[..|entries| - 1]);
      InsertSize(Sort(KeyOrder, entries[..|entries| - 1]), entries[|entries| - 1]);
    }
  }

  function Encode(v: Value): Result<Code>
    decreases Size(v), 1
  {
    match v
    case Null => Done(NullCode)
    case Str(text) => Done(StrCode(text))
    case Bool(b) => Done(BoolCode(b))
    case Number(text) => Done(NumberCode(text))
    case NonFinite => Refused(NonFiniteNumber)
    case Array(items) =>
      (match EncodeItems(items)
       case Refused(error) => Refused(error)
       case Done(codes) => Done(ArrayCode(codes)))
    case Object(entries) =>
      OrderedSize(entries);
      (match EncodeEntries(Sort(KeyOrder, entries))
       case Refused(error) => Refused(error)
       case Done(codes) => Done(ObjectCode(codes)))
    case Unsupported => Refused(UnsupportedValue)
  }

  /** In order; the first refusal stops. */
  function EncodeItems(items: seq<Value>): (r: Result<seq<Code>>)
    ensures r.Done? ==> |r.value| == |items|
    decreases ItemsSize(items), 0
  {
    if items == [] then Done([])
    else
      var before := EncodeItems(items[..|items| - 1]);
      if before.Refused? then before
      else
        match Encode(items[|items| - 1])
        case Refused(error) => Refused(error)
        case Done(code) => Done(before.value + [code])
  }

  function EncodeEntries(entries: seq<Entry>): (r: Result<seq<Field>>)
    ensures r.Done? ==> |r.value| == |entries| && forall i :: 0 <= i < |entries| ==> r.value[i].key == entries[i].key
    decreases EntriesSize(entries), 0
  {
    if entries == [] then Done([])
    else
      var before, last := EncodeEntries(entries[..|entries| - 1]), entries[|entries| - 1];
      if before.Refused? then before
      else
        match Encode(last.value)
        case Refused(error) => Refused(error)
        case Done(code) => Done(before.value + [Field(last.key, code)])
  }

  // ---------------------------------------------------------------------
  // What a request means
  // ---------------------------------------------------------------------

  /** A request value without key order. */
  datatype Meaning =
    | NullMeaning | StrMeaning(text: Text) | BoolMeaning(b: bool) | NumberMeaning(text: Text) | NoMeaning
    | ArrayMeaning(items: seq<Meaning>) | ObjectMeaning(fields: map<Text, Meaning>)

  function Denote(v: Value): Meaning
    decreases Size(v), 1
  {
    match v
    case Null => NullMeaning
    case Str(text) => StrMeaning(text)
    case Bool(b) => BoolMeaning(b)
    case Number(text) => NumberMeaning(text)
    case Array(items) => ArrayMeaning(DenoteItems(items))
    case Object(entries) => ObjectMeaning(DenoteEntries(entries))
    case _ => NoMeaning
  }

  function DenoteItems(items: seq<Value>): seq<Meaning>
    decreases ItemsSize(items), 0
  {
    if items == [] then [] else DenoteItems(items[..|items| - 1]) + [Denote(items[|items| - 1])]
  }

  function DenoteEntries(entries: seq<Entry>): map<Text, Meaning>
    decreases EntriesSize(entries), 0
  {
    if entries == [] then map[]
    else DenoteEntries(entries[..|entries| - 1])[entries[|entries| - 1].key := Denote(entries[|entries| - 1].value)]
  }

  predicate DistinctKeys(entries: seq<Entry>) {
    forall i, j :: 0 <= i < j < |entries| ==> entries[i].key != entries[j].key
  }

  /** Every object has each key once, as JavaScript objects do. */
  predicate WellFormed(v: Value)
    decreases Size(v), 1
  {
    match v
    case Array(items) => WellFormedItems(items)
    case Object(entries) => DistinctKeys(entries) && WellFormedEntries(entries)
    case _ => true
  }

  predicate WellFormedItems(items: seq<Value>)
    decreases ItemsSize(items), 0
  {
    items == [] || (WellFormedItems(items[..|items| - 1]) && WellFormed(items[|items| - 1]))
  }

  predicate WellFormedEntries(entries: seq<Entry>)
    decreases EntriesSize(entries), 0
  {
    entries == [] || (WellFormedEntries(entries[..|entries| - 1]) && WellFormed(entries[|entries| - 1].value))
  }

  // ---------------------------------------------------------------------
  // The tree keeps the meaning
  // ---------------------------------------------------------------------

  function Read(c: Code): Meaning
    decreases c
  {
    match c
    case NullCode => NullMeaning
    case StrCode(text) => StrMeaning(text)
    case BoolCode(b) => BoolMeaning(b)
    case NumberCode(text) => NumberMeaning(text)
    case ArrayCode(items) => ArrayMeaning(ReadItems(items))
    case ObjectCode(entries) => ObjectMeaning(ReadEntries(entries))
  }

  function ReadItems(items: seq<Code>): (r: seq<Meaning>)
    ensures |r| == |items|
    decreases items
  {
    if items == [] then [] else ReadItems(items[..|items| - 1]) + [Read(items[|items| - 1])]
  }

  function ReadEntries(entries: seq<Field>): map<Text, Meaning>
    decreases entries
  {
    if entries == [] then map[]
    else ReadEntries(entries[..|entries| - 1])[entries[|entries| - 1].key := Read(entries[|entries| - 1].code)]
  }

  lemma {:induction false} WellFormedAt(entries: seq<Entry>)
    ensures WellFormedEntries(entries) <==> forall x :: x in entries ==> WellFormed(x.value)
  {
    if entries != [] {
      var front, last := entries[..|entries| - 1], entries[|entries| - 1];
      WellFormedAt(front);
      assert entries == front + [last];
    }
  }

  lemma {:induction false} DenotedAt(entries: seq<Entry>)
    requires DistinctKeys(entries)
    ensures forall x :: x in entries ==> x.key in DenoteEntries(entries) && DenoteEntries(entries)[x.key] == Denote(x.value)
    ensures forall k :: k in DenoteEntries(entries) ==> exists x :: x in entries && x.key == k
  {
    hide Denote, DistinctKeys;
    if entries != [] {
      LastKeyApart(entries);
      DenotedAt(entries[..|entries| - 1]);
    }
  }

  lemma LastKeyApart(entries: seq<Entry>)
    requires DistinctKeys(entries) && entries != []
    ensures var (front, last) := (entries[..|entries| - 1], entries[|entries| - 1]);
            && DistinctKeys(front) && (forall x :: x in entries <==> x in front || x == last)
            && forall x :: x in front ==> x.key != last.key
  {
    var front, last := entries[..|entries| - 1], entries[|entries| - 1];
    assert entries == front + [last];
    forall x | x in front ensures x.key != last.key {
      var i :| 0 <= i < |front| && front[i] == x;
      assert entries[i].key != entries[|entries| - 1].key;
    }
  }

  lemma DistinctUnderOrder(entries: seq<Entry>)
    requires DistinctKeys(entries)
    ensures DistinctKeys(Sort(KeyOrder, entries))
  {
    SortFacts(KeyOrder, entries);
    hide Sort, DistinctKeys;
    DistinctByCount(entries, Sort(KeyOrder, entries));
  }

  lemma DistinctByCount(entries: seq<Entry>, ordered: seq<Entry>)
    requires DistinctKeys(entries) && multiset(ordered) == multiset(entries)
    ensures DistinctKeys(ordered)
  {
    forall i, j | 0 <= i < j < |ordered| && ordered[i].key == ordered[j].key ensures false {
      SameEntry(entries, ordered, i, j);
      TwiceInOrder(ordered, i, j);
      assert ordered[i] in multiset(entries);
      var p :| 0 <= p < |entries| && entries[p] == ordered[i];
      OnceIn(entries, p);
    }
  }

  lemma SameEntry(entries: seq<Entry>, ordered: seq<Entry>, i: nat, j: nat)
    requires DistinctKeys(entries) && multiset(ordered) == multiset(entries)
    requires i < |ordered| && j < |ordered| && ordered[i].key == ordered[j].key
    ensures ordered[i] == ordered[j]
  {
    assert ordered[i] in multiset(entries) && ordered[j] in multiset(entries);
    var p :| 0 <= p < |entries| && entries[p] == ordered[i];
    var q :| 0 <= q < |entries| && entries[q] == ordered[j];
    assert p == q;
  }

  lemma TwiceInOrder<T>(s: seq<T>, i: nat, j: nat)
    requires i < j < |s| && s[i] == s[j]
    ensures multiset(s)[s[i]] >= 2
  {
    assert s == s[..j] + s[j..];
    assert s[..j][i] == s[i] && s[j..][0] == s[j];
    assert s[i] in multiset(s[..j]) && s[i] in multiset(s[j..]);
  }

  lemma OnceIn(entries: seq<Entry>, p: nat)
    requires DistinctKeys(entries) && p < |entries|
    ensures multiset(entries)[entries[p]] == 1
  {
    var before, after := entries[..p], entries[p + 1..];
    assert entries == before + [entries[p]] + after;
    forall k | 0 <= k < |before| ensures before[k] != entries[p] { assert entries[k].key != entries[p].key; }
    forall k | 0 <= k < |after| ensures after[k] != entries[p] { assert entries[p].key != entries[p + 1 + k].key; }
    assert entries[p] !in multiset(before) && entries[p] !in multiset(after);
  }

  lemma OrderKeepsMeaning(entries: seq<Entry>)
    requires DistinctKeys(entries) && WellFormedEntries(entries)
    ensures var ordered := Sort(KeyOrder, entries);
            DistinctKeys(ordered) && WellFormedEntries(ordered) && DenoteEntries(ordered) == DenoteEntries(entries)
  {
    var ordered := Sort(KeyOrder, entries);
    SortFacts(KeyOrder, entries);
    DistinctUnderOrder(entries);
    WellFormedAt(entries);
    WellFormedAt(ordered);
    DenotedAt(entries);
    DenotedAt(ordered);
    hide Sort, DenoteEntries, WellFormedEntries, DistinctKeys, Denote, WellFormed;
    SameTable(entries, ordered, DenoteEntries(entries), DenoteEntries(ordered));
  }

  lemma SameTable(a: seq<Entry>, b: seq<Entry>, m: map<Text, Meaning>, n: map<Text, Meaning>)
    requires forall x :: x in a <==> x in b
    requires forall x :: x in a ==> x.key in m && m[x.key] == Denote(x.value)
    requires forall x :: x in b ==> x.key in n && n[x.key] == Denote(x.value)
    requires forall k :: k in m ==> exists x :: x in a && x.key == k
    requires forall k :: k in n ==> exists x :: x in b && x.key == k
    ensures m == n
  {
    hide Denote;
    forall k | k in m ensures k in n && n[k] == m[k] {
      var x :| x in a && x.key == k;
    }
    forall k | k in n ensures k in m {
      var x :| x in b && x.key == k;
    }
  }

  lemma {:induction false} EncodingKeepsMeaning(v: Value)
    requires WellFormed(v) && Encode(v).Done?
    ensures Read(Encode(v).value) == Denote(v)
    decreases Size(v), 1
  {
    hide EncodeItems, DenoteItems, ReadItems, EncodeEntries, DenoteEntries, ReadEntries, Sort, DistinctKeys, WellFormedItems, WellFormedEntries;
    if v.Array? {
      ItemsKeepMeaning(v.items);
    } else if v.Object? {
      OrderedSize(v.entries);
      OrderKeepsMeaning(v.entries);
      EntriesKeepMeaning(Sort(KeyOrder, v.entries));
    }
  }

  lemma {:induction false} ItemsKeepMeaning(items: seq<Value>)
    requires WellFormedItems(items) && EncodeItems(items).Done?
    ensures ReadItems(EncodeItems(items).value) == DenoteItems(items)
    decreases ItemsSize(items), 0
  {
    if items != [] {
      ItemsKeepMeaning(items[..|items| - 1]);
      EncodingKeepsMeaning(items[|items| - 1]);
      var before := EncodeItems(items[..|items| - 1]).value;
      assert EncodeItems(items).value[..|before|] == before;
    }
  }

  lemma {:induction false} EntriesKeepMeaning(entries: seq<Entry>)
    requires WellFormedEntries(entries) && EncodeEntries(entries).Done?
    ensures ReadEntries(EncodeEntries(entries).value) == DenoteEntries(entries)
    decreases EntriesSize(entries), 0
  {
    if entries != [] {
      EntriesKeepMeaning(entries[..|entries| - 1]);
      EncodingKeepsMeaning(entries[|entries| - 1].value);
      var before := EncodeEntries(entries[..|entries| - 1]).value;
      assert EncodeEntries(entries).value[..|before|] == before;
    }
  }

  // ---------------------------------------------------------------------
  // The tree is canonical
  // ---------------------------------------------------------------------

  /** Every object lists its keys in strictly increasing order. */
  predicate Canonical(c: Code)
    decreases c
  {
    match c
    case ArrayCode(items) => CanonicalItems(items)
    case ObjectCode(entries) => CanonicalEntries(entries)
    case _ => true
  }

  predicate CanonicalItems(items: seq<Code>)
    decreases items
  {
    items == [] || (CanonicalItems(items[..|items| - 1]) && Canonical(items[|items| - 1]))
  }

  predicate Above(entries: seq<Field>, key: Text) {
    forall i :: 0 <= i < |entries| ==> Precedes(entries[i].key, key) && entries[i].key != key
  }

  predicate CanonicalEntries(entries: seq<Field>)
    decreases entries
  {
    entries == []
    || (&& CanonicalEntries(entries[..|entries| - 1]) && Canonical(entries[|entries| - 1].code)
        && Above(entries[..|entries| - 1], entries[|entries| - 1].key))
  }

  lemma {:induction false} EncodingIsCanonical(v: Value)
    requires WellFormed(v) && Encode(v).Done?
    ensures Canonical(Encode(v).value)
    decreases Size(v), 1
  {
    hide EncodeItems, CanonicalItems, EncodeEntries, CanonicalEntries, Sort, Sorted, TotalPreorder, DistinctKeys, WellFormedItems, WellFormedEntries;
    if v.Array? {
      ItemsAreCanonical(v.items);
    } else if v.Object? {
      OrderedSize(v.entries);
      OrderKeepsMeaning(v.entries);
      KeyOrderIsPreorder();
      SortSorted(KeyOrder, v.entries);
      EntriesAreCanonical(Sort(KeyOrder, v.entries));
    }
  }

  lemma {:induction false} ItemsAreCanonical(items: seq<Value>)
    requires WellFormedItems(items) && EncodeItems(items).Done?
    ensures CanonicalItems(EncodeItems(items).value)
    decreases ItemsSize(items), 0
  {
    if items != [] {
      ItemsAreCanonical(items[..|items| - 1]);
      EncodingIsCanonical(items[|items| - 1]);
      var before := EncodeItems(items[..|items| - 1]).value;
      assert EncodeItems(items).value[..|before|] == before;
    }
  }

  lemma {:induction false} EntriesAreCanonical(entries: seq<Entry>)
    requires WellFormedEntries(entries) && DistinctKeys(entries) && Sorted(KeyOrder, entries) && EncodeEntries(entries).Done?
    ensures CanonicalEntries(EncodeEntries(entries).value)
    decreases EntriesSize(entries), 0
  {
    if entries != [] {
      var front, last := entries[..|entries| - 1], entries[|entries| - 1];
      EntriesAreCanonical(front);
      EncodingIsCanonical(last.value);
      var before := EncodeEntries(front).value;
      assert EncodeEntries(entries).value[..|before|] == before;
      forall i | 0 <= i < |before| ensures Precedes(before[i].key, last.key) && before[i].key != last.key {
        assert before[i].key == entries[i].key;
        assert KeyOrder(entries[i], entries[|entries| - 1]);
      }
    }
  }

  // ---------------------------------------------------------------------
  // Canonical trees with one meaning are one tree
  // ---------------------------------------------------------------------

  lemma {:induction false} ReadKeys(entries: seq<Field>)
    ensures forall k :: k in ReadEntries(entries) <==> exists i :: 0 <= i < |entries| && entries[i].key == k
  {
    if entries != [] {
      var front := entries[..|entries| - 1];
      ReadKeys(front);
      forall k ensures k in ReadEntries(entries) <==> exists i :: 0 <= i < |entries| && entries[i].key == k {
        if k in ReadEntries(front) {
          var i :| 0 <= i < |front| && front[i].key == k;
          assert entries[i].key == k;
        }
        if i :| 0 <= i < |front| && entries[i].key == k {
          assert front[i].key == k;
        }
      }
    }
  }

  /** The last key is the greatest one the object has. */
  lemma LastKeyIsGreatest(entries: seq<Field>, k: Text)
    requires CanonicalEntries(entries) && entries != [] && k in ReadEntries(entries)
    ensures Precedes(k, entries[|entries| - 1].key)
  {
    ReadKeys(entries);
    var i :| 0 <= i < |entries| && entries[i].key == k;
    PrecedesIsTotal(k, k);
    if i < |entries| - 1 {
      assert entries[..|entries| - 1][i].key == k;
    }
  }

  lemma WithoutLast(entries: seq<Field>)
    requires CanonicalEntries(entries) && entries != []
    ensures ReadEntries(entries[..|entries| - 1]) == ReadEntries(entries) - {entries[|entries| - 1].key}
  {
    var front, last := entries[..|entries| - 1], entries[|entries| - 1];
    ReadKeys(front);
    var before := ReadEntries(front);
    hide ReadEntries, Read, CanonicalEntries;
    assert last.key !in before;
    assert before[last.key := Read(last.code)] - {last.key} == before;
  }

  lemma SameLastKey(xs: seq<Field>, ys: seq<Field>)
    requires CanonicalEntries(xs) && CanonicalEntries(ys) && xs != [] && ReadEntries(xs) == ReadEntries(ys)
    ensures ys != [] && xs[|xs| - 1].key == ys[|ys| - 1].key
  {
    assert xs[|xs| - 1].key in ReadEntries(ys);
    assert ys != [];
    assert ys[|ys| - 1].key in ReadEntries(xs);
    LastKeyIsGreatest(xs, ys[|ys| - 1].key);
    LastKeyIsGreatest(ys, xs[|xs| - 1].key);
    PrecedesIsTotal(xs[|xs| - 1].key, ys[|ys| - 1].key);
  }

  lemma {:induction false} CanonicalIsUnique(c: Code, d: Code)
    requires Canonical(c) && Canonical(d) && Read(c) == Read(d)
    ensures c == d
    decreases c
  {
    if c.ArrayCode? {
      ItemsAreUnique(c.items, d.items);
    } else if c.ObjectCode? {
      EntriesAreUnique(c.entries, d.entries);
    }
  }

  lemma {:induction false} ItemsAreUnique(xs: seq<Code>, ys: seq<Code>)
    requires CanonicalItems(xs) && CanonicalItems(ys) && ReadItems(xs) == ReadItems(ys)
    ensures xs == ys
    decreases xs
  {
    assert |xs| == |ReadItems(xs)| == |ReadItems(ys)| == |ys|;
    if xs != [] {
      var n := |xs| - 1;
      assert ReadItems(xs)[..n] == ReadItems(xs[..n]) && ReadItems(ys)[..n] == ReadItems(ys[..n]);
      assert ReadItems(xs)[n] == Read(xs[n]) && ReadItems(ys)[n] == Read(ys[n]);
      ItemsAreUnique(xs[..n], ys[..n]);
      CanonicalIsUnique(xs[n], ys[n]);
      assert xs == xs[..n] + [xs[n]] && ys == ys[..n] + [ys[n]];
    }
  }

  lemma {:induction false} EntriesAreUnique(xs: seq<Field>, ys: seq<Field>)
    requires CanonicalEntries(xs) && CanonicalEntries(ys) && ReadEntries(xs) == ReadEntries(ys)
    ensures xs == ys
    decreases xs
  {
    if xs != [] {
      SameLastKey(xs, ys);
      var m, n := |xs| - 1, |ys| - 1;
      assert ReadEntries(xs)[xs[m].key] == Read(xs[m].code) && ReadEntries(ys)[ys[n].key] == Read(ys[n].code);
      CanonicalIsUnique(xs[m].code, ys[n].code);
      WithoutLast(xs);
      WithoutLast(ys);
      EntriesAreUnique(xs[..m], ys[..n]);
      assert xs == xs[..m] + [xs[m]] && ys == ys[..n] + [ys[n]];
    } else if ys != [] {
      SameLastKey(ys, xs);
    }
  }

  // ---------------------------------------------------------------------
  // The binding
  // ---------------------------------------------------------------------

  /** Two requests encode alike exactly when they are the same value up to key order. */
  lemma EncodingIsInjective(a: Value, b: Value)
    requires WellFormed(a) && WellFormed(b) && Encode(a).Done? && Encode(b).Done?
    ensures Encode(a) == Encode(b) <==> Denote(a) == Denote(b)
  {
    EncodingKeepsMeaning(a);
    EncodingKeepsMeaning(b);
    EncodingIsCanonical(a);
    EncodingIsCanonical(b);
    if Denote(a) == Denote(b) {
      CanonicalIsUnique(Encode(a).value, Encode(b).value);
    }
  }

  ghost predicate CollisionFree<H(!new)>(hash: Code -> H) {
    forall c, d :: hash(c) == hash(d) ==> c == d
  }

  function RequestHash<H>(hash: Code -> H, v: Value): Result<H> {
    match Encode(v)
    case Refused(error) => Refused(error)
    case Done(code) => Done(hash(code))
  }

  /** An equal request hash means the delivered request is the agreed one. */
  lemma HashBindsRequest<H(!new)>(hash: Code -> H, agreed: Value, delivered: Value)
    requires CollisionFree(hash) && WellFormed(agreed) && WellFormed(delivered)
    requires RequestHash(hash, agreed).Done? && RequestHash(hash, delivered).Done?
    ensures RequestHash(hash, agreed) == RequestHash(hash, delivered) <==> Denote(agreed) == Denote(delivered)
  {
    EncodingIsInjective(agreed, delivered);
    assert RequestHash(hash, agreed) == RequestHash(hash, delivered) ==> Encode(agreed) == Encode(delivered);
  }

  // ---------------------------------------------------------------------
  // Refusals
  // ---------------------------------------------------------------------

  /** Nothing inside the value is a non-finite number or of an unsupported type. */
  predicate Encodable(v: Value)
    decreases Size(v), 1
  {
    match v
    case NonFinite => false
    case Unsupported => false
    case Array(items) => EncodableItems(items)
    case Object(entries) => EncodableEntries(entries)
    case _ => true
  }

  predicate EncodableItems(items: seq<Value>)
    decreases ItemsSize(items), 0
  {
    items == [] || (EncodableItems(items[..|items| - 1]) && Encodable(items[|items| - 1]))
  }

  predicate EncodableEntries(entries: seq<Entry>)
    decreases EntriesSize(entries), 0
  {
    entries == [] || (EncodableEntries(entries[..|entries| - 1]) && Encodable(entries[|entries| - 1].value))
  }

  lemma {:induction false} EncodableAt(entries: seq<Entry>)
    ensures EncodableEntries(entries) <==> forall x :: x in entries ==> Encodable(x.value)
  {
    if entries != [] {
      var front, last := entries[..|entries| - 1], entries[|entries| - 1];
      EncodableAt(front);
      assert entries == front + [last];
    }
  }

  lemma {:induction false} RefusedExactly(v: Value)
    ensures Encode(v).Done? <==> Encodable(v)
    decreases Size(v), 1
  {
    match v
    case Array(items) => ItemsRefusedExactly(items);
    case Object(entries) =>
      OrderedSize(entries);
      var ordered := Sort(KeyOrder, entries);
      SortFacts(KeyOrder, entries);
      EncodableAt(entries);
      EncodableAt(ordered);
      EntriesRefusedExactly(ordered);
    case _ =>
  }

  lemma {:induction false} ItemsRefusedExactly(items: seq<Value>)
    ensures EncodeItems(items).Done? <==> EncodableItems(items)
    decreases ItemsSize(items), 0
  {
    if items != [] {
      ItemsRefusedExactly(items[..|items| - 1]);
      RefusedExactly(items[|items| - 1]);
    }
  }

  lemma {:induction false} EntriesRefusedExactly(entries: seq<Entry>)
    ensures EncodeEntries(entries).Done? <==> EncodableEntries(entries)
    decreases EntriesSize(entries), 0
  {
    if entries != [] {
      EntriesRefusedExactly(entries[..|entries| - 1]);
      RefusedExactly(entries[|entries| - 1].value);
    }
  }
}
