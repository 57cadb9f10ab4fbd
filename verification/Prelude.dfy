/** Option, the byte-wise string order, and the ordered association lists that stand for
    Rust's `BTreeMap<String, V>`. */
module Prelude {

  datatype Option<+T> = None | Some(value: T)

  /** One key with its value in an ordered map. */
  datatype Entry<+V> = Entry(key: string, value: V)

  /** Strict lexicographic order by code point; for UTF-8 text this is also the byte order. */
  predicate Less(a: string, b: string) {
    b != [] && (a == [] || a[0] < b[0] || (a[0] == b[0] && Less(a[1..], b[1..])))
  }

  /** The first place where two texts differ decides; a text stands before its own continuations. */
  lemma {:induction false} LessIff(a: string, b: string)
    ensures Less(a, b) <==>
              exists k :: 0 <= k <= |a| && k < |b| && a[..k] == b[..k] && (k == |a| || a[k] < b[k])
  {
    if a != [] && b != [] && a[0] == b[0] {
      LessIff(a[1..], b[1..]);
      if Less(a, b) {
        var k :| 0 <= k <= |a[1..]| && k < |b[1..]| && a[1..][..k] == b[1..][..k]
                 && (k == |a[1..]| || a[1..][k] < b[1..][k]);
        assert a[..k + 1] == [a[0]] + a[1..][..k] && b[..k + 1] == [b[0]] + b[1..][..k];
      }
      if k :| 0 <= k <= |a| && k < |b| && a[..k] == b[..k] && (k == |a| || a[k] < b[k]) {
        assert a[1..][..k - 1] == a[..k][1..] && b[1..][..k - 1] == b[..k][1..];
      }
    } else if b != [] && (a == [] || a[0] < b[0]) {
      assert a[..0] == b[..0];
    } else {
      assert forall k :: 0 < k <= |a| && k < |b| && a[..k] == b[..k] ==> a[..k][0] == b[..k][0];
    }
  }

  lemma {:induction false} LessTransitive(a: string, b: string, c: string)
    requires Less(a, b) && Less(b, c)
    ensures Less(a, c)
  {
    if a != [] && a[0] == b[0] && b[0] == c[0] {
      LessTransitive(a[1..], b[1..], c[1..]);
    }
  }

  lemma {:induction false} LessTrichotomy(a: string, b: string)
    ensures a == b || Less(a, b) || Less(b, a)
    ensures !(Less(a, b) && Less(b, a))
    ensures !Less(a, a)
  {
    if a != [] {
      LessTrichotomy(a[1..], a[1..]);
      if b != [] {
        LessTrichotomy(a[1..], b[1..]);
        if a[0] == b[0] && a[1..] == b[1..] {
          assert a == [a[0]] + a[1..] && b == [b[0]] + b[1..];
        }
      }
    }
  }

  /** Entries in strictly increasing key order: the iteration order of a BTreeMap. */
  ghost predicate Sorted<V>(m: seq<Entry<V>>) {
    forall i, j :: 0 <= i < j < |m| ==> Less(m[i].key, m[j].key)
  }

  /** `BTreeMap::insert`: replaces the entry of an equal key, else adds one in order. */
  function Insert<V>(m: seq<Entry<V>>, key: string, value: V): (r: seq<Entry<V>>)
    ensures |m| <= |r| <= |m| + 1
  {
    if m == [] then [Entry(key, value)]
    else if Less(key, m[0].key) then [Entry(key, value)] + m
    else if key == m[0].key then [Entry(key, value)] + m[1..]
    else [m[0]] + Insert(m[1..], key, value)
  }

  /** `BTreeMap::get`. */
  function Get<V>(m: seq<Entry<V>>, key: string): Option<V> {
    if m == [] then None
    else if m[0].key == key then Some(m[0].value)
    else Get(m[1..], key)
  }

  /** Insertion keeps the order, changes exactly one key, and loses no other entry. */
  lemma {:induction false} InsertIsMapUpdate<V>(m: seq<Entry<V>>, key: string, value: V, probe: string)
    requires Sorted(m)
    ensures Sorted(Insert(m, key, value))
    ensures Get(Insert(m, key, value), probe) == if probe == key then Some(value) else Get(m, probe)
    ensures forall e :: e in Insert(m, key, value) ==> e == Entry(key, value) || e in m
  {
    if m == [] {
    } else if Less(key, m[0].key) {
      forall j | 0 <= j < |m| ensures Less(key, m[j].key) {
        if j > 0 { LessTransitive(key, m[0].key, m[j].key); }
      }
      if probe == key { assert Insert(m, key, value)[0].key == key; }
      assert Insert(m, key, value)[1..] == m;
    } else if key == m[0].key {
      assert Insert(m, key, value)[1..] == m[1..];
    } else {
      LessTrichotomy(key, m[0].key);
      var tail := Insert(m[1..], key, value);
      InsertIsMapUpdate(m[1..], key, value, probe);
      assert Insert(m, key, value)[1..] == tail;
      forall j | 0 <= j < |tail| ensures Less(m[0].key, tail[j].key) {
        assert tail[j] in tail;
      }
    }
  }

  /** Feeding a BTreeMap its own entries in order rebuilds it by appending. */
  lemma {:induction false} InsertLast<V>(m: seq<Entry<V>>, key: string, value: V)
    requires Sorted(m + [Entry(key, value)])
    ensures Insert(m, key, value) == m + [Entry(key, value)]
  {
    if m != [] {
      var whole := m + [Entry(key, value)];
      assert Less(whole[0].key, whole[|m|].key);
      LessTrichotomy(m[0].key, key);
      assert m[1..] + [Entry(key, value)] == whole[1..];
      InsertLast(m[1..], key, value);
      assert [m[0]] + (m[1..] + [Entry(key, value)]) == whole;
    }
  }
}
