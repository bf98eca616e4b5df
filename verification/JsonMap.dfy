/**
 `serde_json::Map` without order preservation: members sorted by the bytes of their keys, later
 insertions replacing earlier ones; and the records that serialized structs become.
 */
module JsonMap {
  import opened Results
  import opened JsonText
  import opened JsonPrinter
  import opened StringOrder
  import Decimal

  // ----- ordered maps

  predicate Sorted(ms: seq<Member>) {
    forall i, j :: 0 <= i < j < |ms| ==> Less(ms[i].key, ms[j].key)
  }

  function Insert(ms: seq<Member>, m: Member): seq<Member> {
    if ms == [] then [m]
    else if m.key == ms[0].key then [m] + ms[1..]
    else if Less(m.key, ms[0].key) then [m] + ms
    else [ms[0]] + Insert(ms[1..], m)
  }

  function FromPairs(ms: seq<Member>): seq<Member> {
    if ms == [] then [] else Insert(FromPairs(ms[..|ms| - 1]), ms[|ms| - 1])
  }

  function Without(ms: seq<Member>, key: string): seq<Member> {
    if ms == [] then []
    else if ms[0].key == key then Without(ms[1..], key)
    else [ms[0]] + Without(ms[1..], key)
  }

  function Lookup(ms: seq<Member>, key: string): Option<Json> {
    if ms == [] then None
    else if ms[0].key == key then Some(ms[0].value)
    else Lookup(ms[1..], key)
  }

  /** The last occurrence wins, as repeated insertion makes it. */
  function LastLookup(ms: seq<Member>, key: string): Option<Json> {
    if ms == [] then None
    else if ms[|ms| - 1].key == key then Some(ms[|ms| - 1].value)
    else LastLookup(ms[..|ms| - 1], key)
  }

  lemma {:induction false} LookupFinds(ms: seq<Member>, key: string)
    ensures Lookup(ms, key).Some? <==> exists i :: 0 <= i < |ms| && ms[i].key == key
  {
    if ms != [] {
      LookupFinds(ms[1..], key);
      if Lookup(ms[1..], key).Some? {
        var i :| 0 <= i < |ms[1..]| && ms[1..][i].key == key;
        assert ms[i + 1].key == key;
      }
      forall i | 0 < i < |ms| && ms[i].key == key
        ensures Lookup(ms[1..], key).Some?
      {
        assert ms[1..][i - 1].key == key;
      }
    }
  }

  lemma {:induction false} SortedLookup(ms: seq<Member>, i: nat)
    requires Sorted(ms) && i < |ms|
    ensures Lookup(ms, ms[i].key) == Some(ms[i].value)
  {
    if i > 0 {
      LessIsTotal(ms[0].key, ms[i].key);
      assert ms[1..][i - 1] == ms[i];
      SortedLookup(ms[1..], i - 1);
    }
  }

  lemma {:induction false} InsertIsSorted(ms: seq<Member>, m: Member)
    requires Sorted(ms)
    ensures Sorted(Insert(ms, m))
    ensures forall i :: 0 <= i < |Insert(ms, m)| ==>
      Insert(ms, m)[i].key == m.key || exists j :: 0 <= j < |ms| && ms[j].key == Insert(ms, m)[i].key
  {
    var r := Insert(ms, m);
    if ms == [] {
    } else if m.key == ms[0].key {
      assert forall i :: 0 < i < |r| ==> r[i] == ms[i];
    } else if Less(m.key, ms[0].key) {
      forall i | 0 < i < |r|
        ensures r[i] == ms[i - 1] && Less(m.key, r[i].key)
      {
        if i > 1 { LessIsTransitive(m.key, ms[0].key, r[i].key); }
      }
    } else {
      LessIsTotal(m.key, ms[0].key);
      InsertIsSorted(ms[1..], m);
      var rest := Insert(ms[1..], m);
      forall i | 0 < i < |r|
        ensures r[i] == rest[i - 1] && Less(ms[0].key, r[i].key)
        ensures r[i].key == m.key || exists j :: 0 <= j < |ms| && ms[j].key == r[i].key
      {
        if r[i].key != m.key {
          var j :| 0 <= j < |ms[1..]| && ms[1..][j].key == rest[i - 1].key;
          assert ms[j + 1].key == r[i].key;
        }
      }
    }
  }

  lemma {:induction false} LookupInsert(ms: seq<Member>, m: Member, key: string)
    requires Sorted(ms)
    ensures Lookup(Insert(ms, m), key) == if key == m.key then Some(m.value) else Lookup(ms, key)
  {
    var r := Insert(ms, m);
    if ms == [] {
    } else if m.key == ms[0].key {
      assert r[1..] == ms[1..];
    } else if Less(m.key, ms[0].key) {
      assert r[1..] == ms;
    } else {
      LookupInsert(ms[1..], m, key);
      assert r[1..] == Insert(ms[1..], m);
    }
  }

  lemma {:induction false} FromPairsIsSorted(ms: seq<Member>)
    ensures Sorted(FromPairs(ms))
  {
    if ms != [] {
      FromPairsIsSorted(ms[..|ms| - 1]);
      InsertIsSorted(FromPairs(ms[..|ms| - 1]), ms[|ms| - 1]);
    }
  }

  lemma {:induction false} LookupFromPairs(ms: seq<Member>, key: string)
    ensures Lookup(FromPairs(ms), key) == LastLookup(ms, key)
  {
    if ms != [] {
      FromPairsIsSorted(ms[..|ms| - 1]);
      LookupFromPairs(ms[..|ms| - 1], key);
      LookupInsert(FromPairs(ms[..|ms| - 1]), ms[|ms| - 1], key);
    }
  }

  lemma {:induction false} LookupWithout(ms: seq<Member>, gone: string, key: string)
    ensures Lookup(Without(ms, gone), key) == if key == gone then None else Lookup(ms, key)
  {
    if ms != [] {
      LookupWithout(ms[1..], gone, key);
      if ms[0].key != gone {
        assert Without(ms, gone)[1..] == Without(ms[1..], gone);
      }
    }
  }

  lemma {:induction false} WithoutComesFrom(ms: seq<Member>, gone: string, i: nat)
    requires i < |Without(ms, gone)|
    ensures Without(ms, gone)[i] in ms
  {
    if ms[0].key == gone {
      WithoutComesFrom(ms[1..], gone, i);
    } else if i > 0 {
      WithoutComesFrom(ms[1..], gone, i - 1);
    }
  }

  lemma {:induction false} WithoutIsSorted(ms: seq<Member>, gone: string)
    requires Sorted(ms)
    ensures Sorted(Without(ms, gone))
  {
    if ms != [] {
      var rest := Without(ms[1..], gone);
      WithoutIsSorted(ms[1..], gone);
      forall i | 0 <= i < |rest|
        ensures Less(ms[0].key, rest[i].key)
      {
        WithoutComesFrom(ms[1..], gone, i);
        var j :| 0 <= j < |ms[1..]| && ms[1..][j] == rest[i];
        assert ms[j + 1] == rest[i];
      }
    }
  }

  /** Members already in order are inserted at the end, so the map they build is the list itself. */
  lemma {:induction false} SortedPairsAreKept(ms: seq<Member>)
    requires Sorted(ms)
    ensures FromPairs(ms) == ms
  {
    if ms != [] {
      var init, last := ms[..|ms| - 1], ms[|ms| - 1];
      SortedPairsAreKept(init);
      InsertAtEnd(init, last);
      assert ms == init + [last];
    }
  }

  lemma {:induction false} InsertAtEnd(ms: seq<Member>, m: Member)
    requires forall i :: 0 <= i < |ms| ==> Less(ms[i].key, m.key)
    ensures Insert(ms, m) == ms + [m]
  {
    if ms != [] {
      LessIsTotal(ms[0].key, m.key);
      InsertAtEnd(ms[1..], m);
      assert ms + [m] == [ms[0]] + (ms[1..] + [m]);
    }
  }

  /** An ordered map is determined by what its keys are bound to. */
  lemma {:induction false} SortedIsDetermined(a: seq<Member>, b: seq<Member>)
    requires Sorted(a) && Sorted(b)
    requires forall key :: Lookup(a, key) == Lookup(b, key)
    ensures a == b
  {
    if a == [] {
      if b != [] {
        SortedLookup(b, 0);
      }
    } else if b == [] {
      SortedLookup(a, 0);
    } else {
      SortedLookup(a, 0);
      SortedLookup(b, 0);
      FirstKeyIsLeast(a, b[0].key);
      FirstKeyIsLeast(b, a[0].key);
      assert Lookup(b, a[0].key) == Some(a[0].value);
      assert Lookup(a, b[0].key) == Some(b[0].value);
      LessIsTotal(a[0].key, b[0].key);
      forall key
        ensures Lookup(a[1..], key) == Lookup(b[1..], key)
      {
        if key == a[0].key {
          FirstKeyIsGone(a);
          FirstKeyIsGone(b);
        } else {
          assert Lookup(a, key) == Lookup(b, key);
        }
      }
      SortedIsDetermined(a[1..], b[1..]);
      assert a == [a[0]] + a[1..] && b == [b[0]] + b[1..];
    }
  }

  lemma FirstKeyIsLeast(a: seq<Member>, key: string)
    requires Sorted(a) && a != []
    ensures Lookup(a, key).Some? ==> key == a[0].key || Less(a[0].key, key)
  {
    LookupFinds(a, key);
  }

  lemma FirstKeyIsGone(a: seq<Member>)
    requires Sorted(a) && a != []
    ensures Lookup(a[1..], a[0].key) == None
  {
    LookupFinds(a[1..], a[0].key);
    LessIsTotal(a[0].key, a[0].key);
  }

  // ----- canonical values

  /** `serde_json::to_value` and the recursive re-insertion of `canonical_value`. */
  function Canonical(v: Json): Json
    decreases v
  {
    match v
    case Array(items) => Array(CanonicalItems(items))
    case Object(members) => Object(FromPairs(CanonicalMembers(members)))
    case _ => v
  }

  function CanonicalItems(items: seq<Json>): (r: seq<Json>)
    ensures |r| == |items|
    decreases items
  {
    if items == [] then [] else [Canonical(items[0])] + CanonicalItems(items[1..])
  }

  function CanonicalMembers(members: seq<Member>): (r: seq<Member>)
    ensures |r| == |members|
    decreases members
  {
    if members == [] then [] else [CanonicalMember(members[0])] + CanonicalMembers(members[1..])
  }

  function CanonicalMember(m: Member): Member
    decreases m
  {
    Member(m.key, Canonical(m.value))
  }

  function CanonicalOption(o: Option<Json>): Option<Json> {
    match o case None => None case Some(v) => Some(Canonical(v))
  }

  lemma {:induction false} CanonicalItemAt(items: seq<Json>, i: nat)
    requires i < |items|
    ensures CanonicalItems(items)[i] == Canonical(items[i])
  {
    if i > 0 {
      CanonicalItemAt(items[1..], i - 1);
    }
  }

  lemma {:induction false} CanonicalMemberAt(members: seq<Member>, i: nat)
    requires i < |members|
    ensures CanonicalMembers(members)[i] == CanonicalMember(members[i])
  {
    if i > 0 {
      CanonicalMemberAt(members[1..], i - 1);
    }
  }

  lemma {:induction false} LastLookupOfCanonical(ms: seq<Member>, key: string)
    ensures LastLookup(CanonicalMembers(ms), key) == CanonicalOption(LastLookup(ms, key))
  {
    if ms != [] {
      var n := |ms| - 1;
      CanonicalMemberAt(ms, n);
      CanonicalMembersPrefix(ms, n);
      LastLookupOfCanonical(ms[..n], key);
    }
  }

  lemma CanonicalMembersPrefix(ms: seq<Member>, n: nat)
    requires n <= |ms|
    ensures CanonicalMembers(ms)[..n] == CanonicalMembers(ms[..n])
  {
    forall i | 0 <= i < n
      ensures CanonicalMembers(ms)[i] == CanonicalMembers(ms[..n])[i]
    {
      CanonicalMemberAt(ms, i);
      CanonicalMemberAt(ms[..n], i);
    }
  }

  /** Looking a key up in a canonical object gives the canonical form of its last binding. */
  lemma CanonicalLookup(ms: seq<Member>, key: string)
    ensures Lookup(Canonical(Object(ms)).members, key) == CanonicalOption(LastLookup(ms, key))
  {
    LookupFromPairs(CanonicalMembers(ms), key);
    LastLookupOfCanonical(ms, key);
  }

  /** What an object binds a key to, in canonical form. */
  function Binding(ms: seq<Member>, key: string): Option<Json> {
    CanonicalOption(LastLookup(ms, key))
  }

  /** Two objects have the same canonical form exactly when every key has the same canonical binding. */
  lemma CanonicalObjectsAgree(a: seq<Member>, b: seq<Member>)
    ensures Canonical(Object(a)) == Canonical(Object(b)) <==> forall key :: Binding(a, key) == Binding(b, key)
  {
    if Canonical(Object(a)) == Canonical(Object(b)) {
      forall key
        ensures Binding(a, key) == Binding(b, key)
      {
        CanonicalLookup(a, key);
        CanonicalLookup(b, key);
      }
    }
    if forall key :: Binding(a, key) == Binding(b, key) {
      SameBindingsAgree(a, b);
    }
  }

  lemma SameBindingsAgree(a: seq<Member>, b: seq<Member>)
    requires forall key :: Binding(a, key) == Binding(b, key)
    ensures Canonical(Object(a)) == Canonical(Object(b))
  {
    var ca, cb := Canonical(Object(a)).members, Canonical(Object(b)).members;
    FromPairsIsSorted(CanonicalMembers(a));
    FromPairsIsSorted(CanonicalMembers(b));
    forall key
      ensures Lookup(ca, key) == Lookup(cb, key)
    {
      CanonicalLookup(a, key);
      CanonicalLookup(b, key);
      assert Binding(a, key) == Binding(b, key);
    }
    SortedIsDetermined(ca, cb);
  }

  lemma {:induction false} InsertedFrom(ms: seq<Member>, m: Member, i: nat)
    requires i < |Insert(ms, m)|
    ensures Insert(ms, m)[i] == m || Insert(ms, m)[i] in ms
  {
    if ms != [] && m.key != ms[0].key && !Less(m.key, ms[0].key) && i > 0 {
      InsertedFrom(ms[1..], m, i - 1);
    }
  }

  lemma {:induction false} PairsComeFrom(ms: seq<Member>, i: nat)
    requires i < |FromPairs(ms)|
    ensures FromPairs(ms)[i] in ms
  {
    var init := ms[..|ms| - 1];
    InsertedFrom(FromPairs(init), ms[|ms| - 1], i);
    if FromPairs(ms)[i] != ms[|ms| - 1] {
      var j :| 0 <= j < |FromPairs(init)| && FromPairs(init)[j] == FromPairs(ms)[i];
      PairsComeFrom(init, j);
    }
  }

  /** Canonicalizing twice changes nothing: a value read from a map is already in canonical order. */
  lemma {:induction false} CanonicalIsIdempotent(v: Json)
    ensures Canonical(Canonical(v)) == Canonical(v)
    decreases v
  {
    match v
    case Array(items) =>
      forall i | 0 <= i < |items|
        ensures CanonicalItems(CanonicalItems(items))[i] == CanonicalItems(items)[i]
      {
        CanonicalItemAt(items, i);
        CanonicalItemAt(CanonicalItems(items), i);
        CanonicalIsIdempotent(items[i]);
      }
      assert CanonicalItems(CanonicalItems(items)) == CanonicalItems(items);
    case Object(members) =>
      var ms := FromPairs(CanonicalMembers(members));
      FromPairsIsSorted(CanonicalMembers(members));
      forall i | 0 <= i < |ms|
        ensures CanonicalMembers(ms)[i] == ms[i]
      {
        CanonicalMemberAt(ms, i);
        PairsComeFrom(CanonicalMembers(members), i);
        var j :| 0 <= j < |members| && CanonicalMembers(members)[j] == ms[i];
        CanonicalMemberAt(members, j);
        CanonicalIsIdempotent(members[j].value);
      }
      assert CanonicalMembers(ms) == ms;
      SortedPairsAreKept(ms);
    case _ =>
  }

  // ----- records

  function Zip(names: seq<string>, values: seq<Json>): (ms: seq<Member>)
    requires |names| == |values|
    ensures |ms| == |names| && forall i :: 0 <= i < |ms| ==> ms[i] == Member(names[i], values[i])
  {
    seq(|names|, i requires 0 <= i < |names| => Member(names[i], values[i]))
  }

  /** What a struct serializes to: its fields in declaration order. */
  function Record(names: seq<string>, values: seq<Json>): Json
    requires |names| == |values|
  {
    Object(Zip(names, values))
  }

  lemma {:induction false} LookupAt(ms: seq<Member>, i: nat)
    requires i < |ms| && forall j, k :: 0 <= j < k < |ms| ==> ms[j].key != ms[k].key
    ensures Lookup(ms, ms[i].key) == Some(ms[i].value)
  {
    if i > 0 {
      LookupAt(ms[1..], i - 1);
    }
  }

  lemma {:induction false} LastLookupAt(ms: seq<Member>, i: nat)
    requires i < |ms| && forall j, k :: 0 <= j < k < |ms| ==> ms[j].key != ms[k].key
    ensures LastLookup(ms, ms[i].key) == Some(ms[i].value)
  {
    if i < |ms| - 1 {
      assert ms[..|ms| - 1][i] == ms[i];
      LastLookupAt(ms[..|ms| - 1], i);
    }
  }

  /** Equal canonical records are canonically equal field by field. */
  lemma CanonicalRecordFields(names: seq<string>, v: seq<Json>, w: seq<Json>, i: nat)
    requires |names| == |v| == |w| && Distinct(names) && i < |names|
    requires Canonical(Record(names, v)) == Canonical(Record(names, w))
    ensures Canonical(v[i]) == Canonical(w[i])
  {
    CanonicalLookup(Zip(names, v), names[i]);
    CanonicalLookup(Zip(names, w), names[i]);
    LastLookupAt(Zip(names, v), i);
    LastLookupAt(Zip(names, w), i);
  }

  /** Every key is one of the names, and no key occurs twice. */
  predicate WellKeyed(ms: seq<Member>, names: seq<string>) {
    ms != [] ==> ms[0].key in names && Lookup(ms[1..], ms[0].key).None? && WellKeyed(ms[1..], names)
  }

  lemma {:induction false} DistinctKnownKeys(ms: seq<Member>, names: seq<string>)
    requires forall i :: 0 <= i < |ms| ==> ms[i].key in names
    requires forall i, j :: 0 <= i < j < |ms| ==> ms[i].key != ms[j].key
    ensures WellKeyed(ms, names)
  {
    if ms != [] {
      LookupFinds(ms[1..], ms[0].key);
      DistinctKnownKeys(ms[1..], names);
    }
  }

  function LookupAll(ms: seq<Member>, names: seq<string>): (fields: seq<Option<Json>>)
    ensures |fields| == |names|
  {
    if names == [] then [] else [Lookup(ms, names[0])] + LookupAll(ms, names[1..])
  }

  lemma {:induction false} LookupAllAt(ms: seq<Member>, names: seq<string>, i: nat)
    requires i < |names|
    ensures LookupAll(ms, names)[i] == Lookup(ms, names[i])
  {
    if i > 0 {
      LookupAllAt(ms, names[1..], i - 1);
    }
  }

  /** A struct decoder that denies unknown fields and refuses repeated ones: the bindings of the given names. */
  function Decode(names: seq<string>, v: Json): (fields: Option<seq<Option<Json>>>)
    ensures fields.Some? ==> |fields.value| == |names|
  {
    if v.Object? && WellKeyed(v.members, names) then Some(LookupAll(v.members, names)) else None
  }

  lemma DecodeRecord(names: seq<string>, values: seq<Json>)
    requires |names| == |values| && Distinct(names)
    ensures Decode(names, Record(names, values)).Some?
    ensures var fields := Decode(names, Record(names, values)).value;
      |fields| == |names| && forall i :: 0 <= i < |names| ==> fields[i] == Some(values[i])
  {
    var ms := Zip(names, values);
    DistinctKnownKeys(ms, names);
    forall i | 0 <= i < |names|
      ensures LookupAll(ms, names)[i] == Some(values[i])
    {
      LookupAt(ms, i);
      LookupAllAt(ms, names, i);
    }
  }

  /** Decoding does not see the order a map puts the fields in. */
  lemma DecodeCanonicalRecord(names: seq<string>, values: seq<Json>)
    requires |names| == |values| && Distinct(names)
    ensures Decode(names, Canonical(Record(names, values))).Some?
    ensures var fields := Decode(names, Canonical(Record(names, values))).value;
      |fields| == |names| && forall i :: 0 <= i < |names| ==> fields[i] == Some(Canonical(values[i]))
  {
    var zipped := Zip(names, values);
    var ms := Canonical(Record(names, values)).members;
    FromPairsIsSorted(CanonicalMembers(zipped));
    forall i, j | 0 <= i < j < |ms|
      ensures ms[i].key != ms[j].key
    {
      LessIsTotal(ms[i].key, ms[j].key);
    }
    forall i | 0 <= i < |ms|
      ensures ms[i].key in names
    {
      PairsComeFrom(CanonicalMembers(zipped), i);
      var j :| 0 <= j < |zipped| && CanonicalMembers(zipped)[j] == ms[i];
      CanonicalMemberAt(zipped, j);
    }
    DistinctKnownKeys(ms, names);
    forall i | 0 <= i < |names|
      ensures LookupAll(ms, names)[i] == Some(Canonical(values[i]))
    {
      CanonicalLookup(zipped, names[i]);
      LastLookupAt(zipped, i);
      LookupAllAt(ms, names, i);
    }
  }

  // ----- typed fields

  function AsString(o: Option<Json>): Option<string> {
    if o.Some? && o.value.Str? then Some(o.value.chars) else None
  }

  function AsBool(o: Option<Json>): Option<bool> {
    if o.Some? && o.value.Bool? then Some(o.value.b) else None
  }

  /** An unsigned integer field: digits only, below the limit of its type. */
  function AsNat(o: Option<Json>, limit: nat): Option<nat> {
    if o.Some? && o.value.Number? && Decimal.Canonical(o.value.token) && Decimal.ValueOf(o.value.token) < limit
    then Some(Decimal.ValueOf(o.value.token)) else None
  }

  /** An optional string field: absent and null both mean none. */
  function AsOptionalString(o: Option<Json>): Option<Option<string>> {
    if o.None? || o.value.Null? then Some(None)
    else if o.value.Str? then Some(Some(o.value.chars))
    else None
  }

  function AsStrings(o: Option<Json>): Option<seq<string>> {
    if o.Some? && o.value.Array? && (forall i :: 0 <= i < |o.value.items| ==> o.value.items[i].Str?)
    then Some(seq(|o.value.items|, i requires 0 <= i < |o.value.items| => o.value.items[i].chars))
    else None
  }

  function OfOptionalString(o: Option<string>): Json {
    match o case None => Null case Some(s) => Str(s)
  }

  function OfStrings(ss: seq<string>): Json {
    Array(seq(|ss|, i requires 0 <= i < |ss| => Str(ss[i])))
  }

  lemma NatField(n: nat, limit: nat)
    requires n < limit
    ensures AsNat(Some(OfNat(n)), limit) == Some(n)
  {
    Decimal.PrintIsCanonical(n);
  }

  lemma StringsField(ss: seq<string>)
    ensures AsStrings(Some(OfStrings(ss))) == Some(ss)
    ensures Canonical(OfStrings(ss)) == OfStrings(ss)
  {
    var items := OfStrings(ss).items;
    assert AsStrings(Some(OfStrings(ss))).value == ss;
    forall i | 0 <= i < |items|
      ensures CanonicalItems(items)[i] == items[i]
    {
      CanonicalItemAt(items, i);
    }
    assert CanonicalItems(items) == items;
  }

  lemma {:induction false} ItemsArePrintable(items: seq<Json>)
    requires forall i :: 0 <= i < |items| ==> Printable(items[i])
    ensures PrintableItems(items)
  {
    if items != [] {
      ItemsArePrintable(items[1..]);
    }
  }

  lemma {:induction false} MembersArePrintable(ms: seq<Member>)
    requires forall i :: 0 <= i < |ms| ==> PrintableMember(ms[i])
    ensures PrintableMembers(ms)
  {
    if ms != [] {
      MembersArePrintable(ms[1..]);
    }
  }

  lemma StringsArePrintable(ss: seq<string>)
    ensures Printable(OfStrings(ss))
  {
    ItemsArePrintable(OfStrings(ss).items);
  }

  lemma RecordIsPrintable(names: seq<string>, values: seq<Json>)
    requires |names| == |values|
    requires forall i :: 0 <= i < |values| ==> Printable(values[i])
    ensures Printable(Record(names, values))
  {
    MembersArePrintable(Zip(names, values));
  }

  lemma {:induction false} PrintableItemAt(items: seq<Json>, i: nat)
    requires PrintableItems(items) && i < |items|
    ensures Printable(items[i])
  {
    if i > 0 {
      PrintableItemAt(items[1..], i - 1);
    }
  }

  lemma {:induction false} PrintableMemberAt(ms: seq<Member>, i: nat)
    requires PrintableMembers(ms) && i < |ms|
    ensures PrintableMember(ms[i])
  {
    if i > 0 {
      PrintableMemberAt(ms[1..], i - 1);
    }
  }

  lemma {:induction false} CanonicalIsPrintable(v: Json)
    requires Printable(v)
    ensures Printable(Canonical(v))
    decreases v
  {
    match v
    case Array(items) =>
      forall i | 0 <= i < |items|
        ensures Printable(CanonicalItems(items)[i])
      {
        CanonicalItemAt(items, i);
        PrintableItemAt(items, i);
        CanonicalIsPrintable(items[i]);
      }
      ItemsArePrintable(CanonicalItems(items));
    case Object(members) =>
      var ms := CanonicalMembers(members);
      forall i | 0 <= i < |ms|
        ensures PrintableMember(ms[i])
      {
        CanonicalMemberAt(members, i);
        PrintableMemberAt(members, i);
        CanonicalIsPrintable(members[i].value);
      }
      forall i | 0 <= i < |FromPairs(ms)|
        ensures PrintableMember(FromPairs(ms)[i])
      {
        PairsComeFrom(ms, i);
      }
      MembersArePrintable(FromPairs(ms));
    case _ =>
  }
}
