/**
 * The property pipeline of `DumpObject`: public getters, then the exclusion
 * list, then the set-only filter, then the default-value filter, then a
 * stable order-by on the configured key.
 */
module PropertyPipeline {
  import opened Wrappers
  import opened Values
  import opened Options

  /** LINQ `Where`: the elements satisfying `p`, in their original order. */
  function Filter<T(==,!new)>(s: seq<T>, p: T -> bool): (r: seq<T>)
    ensures |r| <= |s|
    ensures forall x :: x in r <==> x in s && p(x)
  {
    if s == [] then []
    else (if p(s[0]) then [s[0]] else []) + Filter(s[1..], p)
  }

  /** Filtering twice keeps what satisfies both predicates. */
  lemma {:induction false} FilterTwice<T(!new)>(s: seq<T>, p: T -> bool, q: T -> bool, both: T -> bool)
    requires forall x :: both(x) == (p(x) && q(x))
    ensures Filter(Filter(s, p), q) == Filter(s, both)
  {
    if s != [] {
      var head := if p(s[0]) then [s[0]] else [];
      FilterAppend(head, Filter(s[1..], p), q);
      FilterTwice(s[1..], p, q, both);
      if p(s[0]) {
        assert Filter(head, q) == (if q(s[0]) then [s[0]] else []) by {
          assert head[1..] == [];
        }
      }
    }
  }

  lemma {:induction false} FilterAppend<T(!new)>(a: seq<T>, b: seq<T>, p: T -> bool)
    ensures Filter(a + b, p) == Filter(a, p) + Filter(b, p)
  {
    if a == [] {
      assert a + b == b;
    } else {
      assert (a + b)[1..] == a[1..] + b;
      FilterAppend(a[1..], b, p);
    }
  }

  /** A filter that keeps everything is the identity. */
  lemma {:induction false} FilterAll<T(!new)>(s: seq<T>, p: T -> bool)
    requires forall x :: p(x)
    ensures Filter(s, p) == s
  {
    if s != [] {
      FilterAll(s[1..], p);
    }
  }

  /** What a property must satisfy to be dumped under options `o`. */
  predicate Kept(o: DumpOptions, m: Member)
  {
    && m.publicGetter
    && m.name !in o.excludeProperties
    && (o.setPropertiesOnly ==> m.publicSetter)
    && (o.ignoreDefaultValues ==> !m.isDefault)
  }

  /** The four `Where` stages, applied in the order the source applies them;
      a stage whose option is off is skipped. */
  function Filtered(o: DumpOptions, ms: seq<Member>): seq<Member>
  {
    var readable := Filter(ms, (m: Member) => m.publicGetter);
    var included :=
      if |o.excludeProperties| > 0
      then Filter(readable, (m: Member) => m.name !in o.excludeProperties)
      else readable;
    var settable :=
      if o.setPropertiesOnly then Filter(included, (m: Member) => m.publicSetter) else included;
    if o.ignoreDefaultValues then Filter(settable, (m: Member) => !m.isDefault) else settable
  }

  /** The properties `DumpObject` walks, in the order it walks them. */
  function Select(o: DumpOptions, ms: seq<Member>): seq<Member>
  {
    var kept := Filtered(o, ms);
    match o.propertyOrderBy
    case None => kept
    case Some(key) => StableSort(kept, key)
  }

  /** The stages together keep exactly the members satisfying `Kept`, in order. */
  lemma FilteredIsKept(o: DumpOptions, ms: seq<Member>)
    ensures Filtered(o, ms) == Filter(ms, (m: Member) => Kept(o, m))
  {
    var p0 := (m: Member) => m.publicGetter;
    var p1 := (m: Member) => m.publicGetter && m.name !in o.excludeProperties;
    var p2 := (m: Member) => p1(m) && (o.setPropertiesOnly ==> m.publicSetter);
    var p3 := (m: Member) => Kept(o, m);
    var readable := Filter(ms, p0);
    var included :=
      if |o.excludeProperties| > 0
      then Filter(readable, (m: Member) => m.name !in o.excludeProperties)
      else readable;
    if |o.excludeProperties| > 0 {
      FilterTwice(ms, p0, (m: Member) => m.name !in o.excludeProperties, p1);
    } else {
      assert o.excludeProperties == {};
      FilterTwice(ms, p0, (m: Member) => true, p1);
      FilterAll(readable, (m: Member) => true);
    }
    assert included == Filter(ms, p1);
    var settable :=
      if o.setPropertiesOnly then Filter(included, (m: Member) => m.publicSetter) else included;
    if o.setPropertiesOnly {
      FilterTwice(ms, p1, (m: Member) => m.publicSetter, p2);
    } else {
      FilterTwice(ms, p1, (m: Member) => true, p2);
      FilterAll(included, (m: Member) => true);
    }
    assert settable == Filter(ms, p2);
    if o.ignoreDefaultValues {
      FilterTwice(ms, p2, (m: Member) => !m.isDefault, p3);
    } else {
      FilterTwice(ms, p2, (m: Member) => true, p3);
      FilterAll(settable, (m: Member) => true);
    }
  }

  // ---- stable order-by ----

  /** Puts `x` before the first element whose key is not smaller than its own. */
  function Insert<T>(x: T, s: seq<T>, key: T -> int): (r: seq<T>)
    ensures multiset(r) == multiset(s) + multiset{x}
  {
    if s == [] || key(x) <= key(s[0]) then [x] + s
    else
      assert s == [s[0]] + s[1..];
      [s[0]] + Insert(x, s[1..], key)
  }

  /** LINQ `OrderBy(key)`: an insertion sort from the back, so that equal keys
      keep their original order. */
  function StableSort<T>(s: seq<T>, key: T -> int): (r: seq<T>)
    ensures multiset(r) == multiset(s)
  {
    if s == [] then []
    else
      assert s == [s[0]] + s[1..];
      Insert(s[0], StableSort(s[1..], key), key)
  }

  predicate SortedBy<T>(s: seq<T>, key: T -> int)
  {
    forall i, j :: 0 <= i < j < |s| ==> key(s[i]) <= key(s[j])
  }

  /** The elements of `s` whose key is `k`, in order. */
  function WithKey<T>(s: seq<T>, key: T -> int, k: int): seq<T>
  {
    if s == [] then [] else (if key(s[0]) == k then [s[0]] else []) + WithKey(s[1..], key, k)
  }

  /** What `Insert` can put in front: `x` or an element of `s`. */
  lemma {:induction false} InsertMembers<T>(x: T, s: seq<T>, key: T -> int, y: T)
    requires y in Insert(x, s, key)
    ensures y == x || y in s
  {
    if !(s == [] || key(x) <= key(s[0])) && y != s[0] {
      assert y in Insert(x, s[1..], key);
      InsertMembers(x, s[1..], key, y);
    }
  }

  lemma {:induction false} InsertSorted<T>(x: T, s: seq<T>, key: T -> int)
    requires SortedBy(s, key)
    ensures SortedBy(Insert(x, s, key), key)
  {
    if s != [] && key(x) > key(s[0]) {
      var rest := Insert(x, s[1..], key);
      assert Insert(x, s, key) == [s[0]] + rest;
      assert SortedBy(s[1..], key) by {
        forall i, j | 0 <= i < j < |s[1..]| ensures key(s[1..][i]) <= key(s[1..][j]) {
          assert s[1..][i] == s[i + 1] && s[1..][j] == s[j + 1];
        }
      }
      InsertSorted(x, s[1..], key);
      var r := [s[0]] + rest;
      forall i, j | 0 <= i < j < |r| ensures key(r[i]) <= key(r[j]) {
        if i > 0 {
          assert r[i] == rest[i - 1] && r[j] == rest[j - 1];
        } else {
          assert r[j] == rest[j - 1];
          InsertMembers(x, s[1..], key, r[j]);
        }
      }
    }
  }

  /** `WithKey` of a sequence with a known first element. */
  lemma WithKeyCons<T>(a: T, t: seq<T>, key: T -> int, k: int)
    ensures WithKey([a] + t, key, k) == (if key(a) == k then [a] else []) + WithKey(t, key, k)
  {
    assert ([a] + t)[1..] == t;
  }

  lemma {:induction false} InsertWithKey<T>(x: T, s: seq<T>, key: T -> int, k: int)
    ensures WithKey(Insert(x, s, key), key, k)
         == (if key(x) == k then [x] else []) + WithKey(s, key, k)
  {
    if s == [] || key(x) <= key(s[0]) {
      assert Insert(x, s, key) == [x] + s;
      WithKeyCons(x, s, key, k);
    } else {
      var rest := Insert(x, s[1..], key);
      var tail := WithKey(s[1..], key, k);
      var head := if key(s[0]) == k then [s[0]] else [];
      var mine := if key(x) == k then [x] else [];
      assert Insert(x, s, key) == [s[0]] + rest;
      WithKeyCons(s[0], rest, key, k);
      InsertWithKey(x, s[1..], key, k);
      assert WithKey(Insert(x, s, key), key, k) == head + (mine + tail);
      assert WithKey(s, key, k) == head + tail;
      // key(x) > key(s[0]), so at most one of the two is kept
      if head == [] {
        assert head + (mine + tail) == mine + tail;
        assert mine + (head + tail) == mine + tail;
      } else {
        assert mine == [];
        assert head + (mine + tail) == head + tail;
        assert mine + (head + tail) == head + tail;
      }
    }
  }

  /** The sort orders by key. */
  lemma {:induction false} StableSortSorted<T>(s: seq<T>, key: T -> int)
    ensures SortedBy(StableSort(s, key), key)
  {
    if s != [] {
      StableSortSorted(s[1..], key);
      InsertSorted(s[0], StableSort(s[1..], key), key);
    }
  }

  /** The sort is stable: for every key, the elements carrying it come out in
      the order they went in. */
  lemma {:induction false} StableSortStable<T>(s: seq<T>, key: T -> int, k: int)
    ensures WithKey(StableSort(s, key), key, k) == WithKey(s, key, k)
  {
    if s != [] {
      StableSortStable(s[1..], key, k);
      InsertWithKey(s[0], StableSort(s[1..], key), key, k);
    }
  }

  /** Membership: a property is dumped iff it is one of the object's and
      passes every enabled filter. */
  lemma SelectMembers(o: DumpOptions, ms: seq<Member>, m: Member)
    ensures m in Select(o, ms) <==> m in ms && Kept(o, m)
  {
    FilteredIsKept(o, ms);
    var kept := Filtered(o, ms);
    if o.propertyOrderBy.Some? {
      var sorted := StableSort(kept, o.propertyOrderBy.value);
      assert m in sorted <==> m in multiset(sorted);
      assert m in kept <==> m in multiset(kept);
    }
  }

  /** Every dumped property is one of the object's. */
  lemma SelectSubset(o: DumpOptions, ms: seq<Member>)
    ensures forall m :: m in Select(o, ms) ==> m in ms
  {
    forall m | m in Select(o, ms) ensures m in ms {
      SelectMembers(o, ms, m);
    }
  }

  /** Without an ordering key the properties keep reflection order. */
  lemma SelectUnordered(o: DumpOptions, ms: seq<Member>)
    requires o.propertyOrderBy.None?
    ensures Select(o, ms) == Filter(ms, (m: Member) => Kept(o, m))
  {
    FilteredIsKept(o, ms);
  }

  /** With an ordering key the properties are sorted by it, and properties with
      equal keys keep reflection order. */
  lemma SelectOrdered(o: DumpOptions, ms: seq<Member>, k: int)
    requires o.propertyOrderBy.Some?
    ensures SortedBy(Select(o, ms), o.propertyOrderBy.value)
    ensures WithKey(Select(o, ms), o.propertyOrderBy.value, k)
         == WithKey(Filter(ms, (m: Member) => Kept(o, m)), o.propertyOrderBy.value, k)
  {
    FilteredIsKept(o, ms);
    StableSortSorted(Filtered(o, ms), o.propertyOrderBy.value);
    StableSortStable(Filtered(o, ms), o.propertyOrderBy.value, k);
  }

  /** With the default options only the getter filter acts. */
  lemma SelectDefault(newLine: string, ms: seq<Member>)
    ensures Select(Default(newLine), ms) == Filter(ms, (m: Member) => m.publicGetter)
  {
    var o := Default(newLine);
    FilteredIsKept(o, ms);
    FilterTwice(ms, (m: Member) => Kept(o, m), (m: Member) => true, (m: Member) => m.publicGetter);
    FilterAll(Filter(ms, (m: Member) => Kept(o, m)), (m: Member) => true);
  }
}
