/** `std::map<std::string, V>`: entries kept in strictly ascending key order. */
module OrderedMaps {
  import opened Bytes

  type Key = seq<Byte>

  datatype Entry<V> = Entry(key: Key, value: V)

  type Entries<V> = seq<Entry<V>>

  /** Lexicographic order on unsigned bytes. */
  predicate Less(a: Key, b: Key) {
    b != [] && (a == [] || a[0] < b[0] || (a[0] == b[0] && Less(a[1..], b[1..])))
  }

  /** `a` and `b` agree on their first `k` bytes; then `a` ends, or its next byte is smaller. */
  predicate FirstDifference(a: Key, b: Key, k: nat) {
    k <= |a| && k < |b| && a[..k] == b[..k] && (k == |a| || a[k] < b[k])
  }

  /** The order is decided by the first difference. */
  lemma {:induction false} LessIff(a: Key, b: Key)
    ensures Less(a, b) <==> exists k: nat :: FirstDifference(a, b, k)
  {
    if b != [] && a != [] && a[0] == b[0] {
      LessIff(a[1..], b[1..]);
      assert a == [a[0]] + a[1..] && b == [b[0]] + b[1..];
      if k: nat :| FirstDifference(a[1..], b[1..], k) {
        assert a[..k + 1] == [a[0]] + a[1..][..k] && b[..k + 1] == [b[0]] + b[1..][..k];
        assert FirstDifference(a, b, k + 1);
      }
      if k: nat :| FirstDifference(a, b, k) {
        assert k > 0;
        assert a[1..][..k - 1] == a[..k][1..] && b[1..][..k - 1] == b[..k][1..];
        assert FirstDifference(a[1..], b[1..], k - 1);
      }
    } else if Less(a, b) {
      assert a[..0] == b[..0];
      assert FirstDifference(a, b, 0);
    } else {
      forall k: nat | FirstDifference(a, b, k) ensures k == 0 || (a != [] && a[0] == b[0]) {
        SameHead(a, b, k);
      }
    }
  }

  lemma SameHead(a: Key, b: Key, k: nat)
    requires FirstDifference(a, b, k)
    ensures k == 0 || (a != [] && a[0] == b[0])
  {
    if k > 0 {
      assert a[..k][0] == b[..k][0];
    }
  }

  lemma {:induction false} LessTransitive(a: Key, b: Key, c: Key)
    requires Less(a, b) && Less(b, c)
    ensures Less(a, c)
  {
    if a != [] && a[0] == b[0] == c[0] {
      LessTransitive(a[1..], b[1..], c[1..]);
    }
  }

  lemma {:induction false} LessTotal(a: Key, b: Key)
    ensures !(Less(a, b) && Less(b, a))
    ensures Less(a, b) || Less(b, a) <==> a != b
  {
    if a != [] && b != [] {
      LessTotal(a[1..], b[1..]);
      assert a == [a[0]] + a[1..] && b == [b[0]] + b[1..];
    }
  }

  /** Every entry comes before the ones behind it. */
  ghost predicate Sorted<V>(s: Entries<V>) {
    s == [] || ((forall e :: e in s[1..] ==> Less(s[0].key, e.key)) && Sorted(s[1..]))
  }

  function Find<V>(s: Entries<V>, key: Key): Option<V> {
    if s == [] then None
    else if s[0].key == key then Some(s[0].value)
    else Find(s[1..], key)
  }

  /** `emplace` leaves an existing entry alone; `operator[]=` overwrites it. */
  function Insert<V>(s: Entries<V>, key: Key, value: V, overwrite: bool): Entries<V> {
    if s == [] then [Entry(key, value)]
    else if key == s[0].key then (if overwrite then [Entry(key, value)] + s[1..] else s)
    else if Less(key, s[0].key) then [Entry(key, value)] + s
    else [s[0]] + Insert(s[1..], key, value, overwrite)
  }

  lemma {:induction false} InsertMembers<V>(s: Entries<V>, key: Key, value: V, overwrite: bool)
    ensures forall e :: e in Insert(s, key, value, overwrite) ==> e in s || e == Entry(key, value)
  {
    if s != [] {
      InsertMembers(s[1..], key, value, overwrite);
    }
  }

  lemma {:induction false} InsertSorted<V>(s: Entries<V>, key: Key, value: V, overwrite: bool)
    requires Sorted(s)
    ensures Sorted(Insert(s, key, value, overwrite))
  {
    if s != [] {
      LessTotal(key, s[0].key);
      if key == s[0].key {
        assert ([Entry(key, value)] + s[1..])[1..] == s[1..];
      } else if Less(key, s[0].key) {
        forall e | e in s ensures Less(key, e.key) {
          if e != s[0] {
            LessTransitive(key, s[0].key, e.key);
          }
        }
        assert ([Entry(key, value)] + s)[1..] == s;
      } else {
        InsertMembers(s[1..], key, value, overwrite);
        InsertSorted(s[1..], key, value, overwrite);
        assert ([s[0]] + Insert(s[1..], key, value, overwrite))[1..] == Insert(s[1..], key, value, overwrite);
      }
    }
  }

  lemma {:induction false} BelowIsAbsent<V>(s: Entries<V>, key: Key)
    requires forall e :: e in s ==> Less(key, e.key)
    ensures Find(s, key) == None
  {
    if s != [] {
      LessTotal(key, s[0].key);
      BelowIsAbsent(s[1..], key);
    }
  }

  /** Looking a key up after an insertion. */
  lemma {:induction false} InsertFind<V>(s: Entries<V>, key: Key, value: V, overwrite: bool, k: Key)
    requires Sorted(s)
    ensures Find(Insert(s, key, value, overwrite), k)
      == if k == key && (overwrite || Find(s, key).None?) then Some(value) else Find(s, k)
  {
    if s != [] {
      LessTotal(key, s[0].key);
      if key == s[0].key {
        assert ([Entry(key, value)] + s[1..])[1..] == s[1..];
      } else if Less(key, s[0].key) {
        forall e | e in s ensures Less(key, e.key) {
          if e != s[0] {
            LessTransitive(key, s[0].key, e.key);
          }
        }
        BelowIsAbsent(s, key);
        assert ([Entry(key, value)] + s)[1..] == s;
      } else {
        InsertFind(s[1..], key, value, overwrite, k);
        assert ([s[0]] + Insert(s[1..], key, value, overwrite))[1..] == Insert(s[1..], key, value, overwrite);
      }
    }
  }

  /** A key above all others goes to the end. */
  lemma {:induction false} InsertLast<V>(s: Entries<V>, key: Key, value: V, overwrite: bool)
    requires forall e :: e in s ==> Less(e.key, key)
    ensures Insert(s, key, value, overwrite) == s + [Entry(key, value)]
  {
    if s != [] {
      LessTotal(s[0].key, key);
      InsertLast(s[1..], key, value, overwrite);
      assert s == [s[0]] + s[1..];
    }
  }

  /** Inserting a list of entries one after the other. */
  function InsertAll<V>(s: Entries<V>, more: Entries<V>, overwrite: bool): Entries<V>
    decreases |more|
  {
    if more == [] then s
    else InsertAll(Insert(s, more[0].key, more[0].value, overwrite), more[1..], overwrite)
  }

  lemma {:induction false} InsertAllSorted<V>(s: Entries<V>, more: Entries<V>, overwrite: bool)
    requires Sorted(s)
    ensures Sorted(InsertAll(s, more, overwrite))
    decreases |more|
  {
    if more != [] {
      InsertSorted(s, more[0].key, more[0].value, overwrite);
      InsertAllSorted(Insert(s, more[0].key, more[0].value, overwrite), more[1..], overwrite);
    }
  }

  lemma AppendFirst<V>(s: Entries<V>, more: Entries<V>, overwrite: bool)
    requires more != [] && forall a :: a in s ==> Less(a.key, more[0].key)
    ensures InsertAll(s, more, overwrite) == InsertAll(s + [more[0]], more[1..], overwrite)
  {
    InsertLast(s, more[0].key, more[0].value, overwrite);
    hide Insert, Less;
    assert more[0] == Entry(more[0].key, more[0].value);
  }

  lemma StillBefore<V>(s: Entries<V>, more: Entries<V>)
    requires more != [] && Sorted(more)
    requires forall a, b :: a in s && b in more ==> Less(a.key, b.key)
    ensures Sorted(more[1..])
    ensures forall a, b :: a in s + [more[0]] && b in more[1..] ==> Less(a.key, b.key)
  {
    hide Less;
  }

  /** Sorted entries behind all present ones are simply appended. */
  lemma {:induction false} InsertAllAppends<V>(s: Entries<V>, more: Entries<V>, overwrite: bool)
    requires Sorted(more)
    requires forall a, b :: a in s && b in more ==> Less(a.key, b.key)
    ensures InsertAll(s, more, overwrite) == s + more
    decreases |more|
  {
    if more == [] {
      assert s + more == s;
    } else {
      hide Sorted, Insert, Less, InsertAll;
      StillBefore(s, more);
      AppendFirst(s, more, overwrite);
      InsertAllAppends(s + [more[0]], more[1..], overwrite);
      assert s + [more[0]] + more[1..] == s + more;
    }
  }

  /** With `emplace` the first of several entries for a key wins; with assignment the last one. */
  lemma {:induction false} InsertAllFind<V>(s: Entries<V>, more: Entries<V>, overwrite: bool, k: Key)
    requires Sorted(s)
    ensures Find(InsertAll(s, more, overwrite), k) ==
      if overwrite then (if Find(Backwards(more), k).Some? then Find(Backwards(more), k) else Find(s, k))
      else (if Find(s, k).Some? then Find(s, k) else Find(more, k))
    decreases |more|
  {
    if more != [] {
      var e := more[0];
      InsertSorted(s, e.key, e.value, overwrite);
      InsertFind(s, e.key, e.value, overwrite, k);
      InsertAllFind(Insert(s, e.key, e.value, overwrite), more[1..], overwrite, k);
      FindConcat(Backwards(more[1..]), [e], k);
    }
  }

  function Backwards<V>(s: Entries<V>): Entries<V> {
    if s == [] then [] else Backwards(s[1..]) + [s[0]]
  }

  lemma {:induction false} FindConcat<V>(a: Entries<V>, b: Entries<V>, k: Key)
    ensures Find(a + b, k) == if Find(a, k).Some? then Find(a, k) else Find(b, k)
  {
    if a == [] {
      assert a + b == b;
    } else {
      FindConcat(a[1..], b, k);
      assert (a + b)[0] == a[0] && (a + b)[1..] == a[1..] + b;
    }
  }
}
