/** Strings in dictionary order, the order of `String::cmp` and of `BTreeMap` keys. */
module StringOrder {

  predicate Less(a: string, b: string) {
    b != "" && (a == "" || a[0] < b[0] || (a[0] == b[0] && Less(a[1..], b[1..])))
  }

  lemma {:induction false} Irreflexive(a: string)
    ensures !Less(a, a)
  {
    if a != "" {
      Irreflexive(a[1..]);
    }
  }

  lemma {:induction false} Transitive(a: string, b: string, c: string)
    requires Less(a, b) && Less(b, c)
    ensures Less(a, c)
  {
    if a != "" && a[0] == b[0] == c[0] {
      Transitive(a[1..], b[1..], c[1..]);
    }
  }

  lemma {:induction false} Total(a: string, b: string)
    ensures a == b || Less(a, b) || Less(b, a)
  {
    if a != "" && b != "" && a[0] == b[0] {
      Total(a[1..], b[1..]);
      assert a == [a[0]] + a[1..] && b == [b[0]] + b[1..];
    }
  }
}

/** Key/value entries, and their sequence in ascending key order, as a `BTreeMap` yields it. */
module SortedEntries {
  import StringOrder

  datatype Entry<+V> = Entry(key: string, value: V)

  ghost predicate DistinctKeys<V>(entries: seq<Entry<V>>) {
    forall i, j :: 0 <= i < j < |entries| ==> entries[i].key != entries[j].key
  }

  ghost predicate Sorted<V>(entries: seq<Entry<V>>) {
    forall i, j :: 0 <= i < j < |entries| ==> StringOrder.Less(entries[i].key, entries[j].key)
  }

  function Insert<V>(f: Entry<V>, entries: seq<Entry<V>>): seq<Entry<V>> {
    if entries == [] || StringOrder.Less(f.key, entries[0].key) then [f] + entries
    else [entries[0]] + Insert(f, entries[1..])
  }

  function Sort<V>(entries: seq<Entry<V>>): seq<Entry<V>> {
    if entries == [] then [] else Insert(entries[0], Sort(entries[1..]))
  }

  lemma {:induction false} InsertElements<V>(f: Entry<V>, entries: seq<Entry<V>>)
    ensures multiset(Insert(f, entries)) == multiset([f] + entries)
  {
    if entries == [] || StringOrder.Less(f.key, entries[0].key) {
    } else {
      InsertElements(f, entries[1..]);
      assert entries == [entries[0]] + entries[1..];
    }
  }

  lemma {:induction false} SortElements<V>(entries: seq<Entry<V>>)
    ensures multiset(Sort(entries)) == multiset(entries)
  {
    if entries != [] {
      SortElements(entries[1..]);
      InsertElements(entries[0], Sort(entries[1..]));
      assert entries == [entries[0]] + entries[1..];
    }
  }

  lemma {:induction false} InsertSorted<V>(f: Entry<V>, entries: seq<Entry<V>>)
    requires Sorted(entries) && forall x :: x in entries ==> x.key != f.key
    ensures Sorted(Insert(f, entries))
  {
    if entries == [] {
    } else if StringOrder.Less(f.key, entries[0].key) {
      forall j | 0 <= j < |entries| ensures StringOrder.Less(f.key, entries[j].key) {
        if j > 0 { StringOrder.Transitive(f.key, entries[0].key, entries[j].key); }
      }
    } else {
      StringOrder.Total(f.key, entries[0].key);
      InsertSorted(f, entries[1..]);
      InsertElements(f, entries[1..]);
      var tail := Insert(f, entries[1..]);
      forall x | x in tail ensures StringOrder.Less(entries[0].key, x.key) {
        assert x in multiset(tail);
        assert x == f || x in entries[1..];
      }
    }
  }

  lemma {:induction false} SortSorted<V>(entries: seq<Entry<V>>)
    requires DistinctKeys(entries)
    ensures Sorted(Sort(entries))
  {
    if entries != [] {
      SortSorted(entries[1..]);
      SortElements(entries[1..]);
      forall x | x in Sort(entries[1..]) ensures x.key != entries[0].key {
        assert x in multiset(entries[1..]);
      }
      InsertSorted(entries[0], Sort(entries[1..]));
    }
  }

  lemma SortedHasDistinctKeys<V>(a: seq<Entry<V>>)
    requires Sorted(a)
    ensures DistinctKeys(a)
  {
    forall i, j | 0 <= i < j < |a| ensures a[i].key != a[j].key {
      StringOrder.Irreflexive(a[i].key);
    }
  }

  /** A sorted sequence is determined by its elements. */
  lemma {:induction false} SortedUnique<V>(a: seq<Entry<V>>, b: seq<Entry<V>>)
    requires Sorted(a) && Sorted(b)
    requires forall x :: x in a <==> x in b
    ensures a == b
  {
    assert b != [] ==> b[0] in b;
    if a != [] {
      assert a[0] in a;
      assert b[0] in b;
      SortedHead(a, b);
      var a', b' := a[1..], b[1..];
      forall x ensures x in a' <==> x in b' {
        SortedTail(a, x);
        SortedTail(b, x);
      }
      SortedUnique(a', b');
      assert a == [a[0]] + a' && b == [b[0]] + b';
    }
  }

  lemma SortedHead<V>(a: seq<Entry<V>>, b: seq<Entry<V>>)
    requires Sorted(a) && Sorted(b) && a != [] && b != []
    requires a[0] in b && b[0] in a
    ensures a[0] == b[0]
  {
    if a[0] != b[0] {
      StringOrder.Transitive(a[0].key, b[0].key, a[0].key);
      StringOrder.Irreflexive(a[0].key);
    }
  }

  lemma SortedTail<V>(a: seq<Entry<V>>, x: Entry<V>)
    requires Sorted(a) && a != []
    ensures x in a[1..] <==> x in a && x != a[0]
  {
    StringOrder.Irreflexive(a[0].key);
    assert a == [a[0]] + a[1..];
  }
}
