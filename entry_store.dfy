/**
 * The keyring's in-memory data model: entry name -> (attribute name -> value).
 * Names, attributes and values are arbitrary byte strings. The functions here
 * specify the keyring operations `store`, `fetch`, `remove` and
 * `remove_attribute`; the keyring classes implement them on a mutable field.
 */
module EntryStore {
  import opened Wrappers
  import opened Bytes

  type Attributes = map<Bytes, Bytes>
  type Entries = map<Bytes, Attributes>

  /** The keyring's failures. `OutOfRange` is the lookup miss of `fetch`. */
  datatype KeyringError =
    | OutOfRange
    | KeyTooLong
    | RecordTooLong
    | IntegrityError
    | FileNotFound
    | PermissionError

  /** Value of attribute `attr` of entry `entry`, or `OutOfRange` when either is missing. */
  function Fetch(m: Entries, entry: Bytes, attr: Bytes): Result<Bytes, KeyringError>
  {
    if entry in m && attr in m[entry] then Ok(m[entry][attr]) else Err(OutOfRange)
  }

  /** Insert-or-overwrite one attribute value, creating the entry when needed. */
  function Store(m: Entries, entry: Bytes, attr: Bytes, value: Bytes): Entries
  {
    var attrs := if entry in m then m[entry] else map[];
    m[entry := attrs[attr := value]]
  }

  /** Erase an entry with all its attributes; a missing entry is left alone. */
  function Remove(m: Entries, entry: Bytes): Entries
  {
    m - {entry}
  }

  /** Erase one attribute; the entry stays even if it has no attribute left. */
  function RemoveAttribute(m: Entries, entry: Bytes, attr: Bytes): Entries
  {
    if entry in m then m[entry := m[entry] - {attr}] else m
  }

  /** `fetch` fails exactly when the entry is absent or the entry lacks the attribute. */
  lemma FetchFailsIffMissing(m: Entries, entry: Bytes, attr: Bytes)
    ensures Fetch(m, entry, attr) == Err(OutOfRange) <==> entry !in m || attr !in m[entry]
    ensures Fetch(m, entry, attr).Ok? ==> Fetch(m, entry, attr).value == m[entry][attr]
  {
  }

  /** After a store, the stored pair reads back its value and every other pair is unaffected. */
  lemma FetchAfterStore(m: Entries, entry: Bytes, attr: Bytes, value: Bytes, e: Bytes, a: Bytes)
    ensures Fetch(Store(m, entry, attr, value), e, a)
         == if e == entry && a == attr then Ok(value) else Fetch(m, e, a)
  {
  }

  /** Storing twice into the same pair keeps the second value. */
  lemma StoreOverwrites(m: Entries, entry: Bytes, attr: Bytes, v1: Bytes, v2: Bytes)
    ensures Store(Store(m, entry, attr, v1), entry, attr, v2) == Store(m, entry, attr, v2)
    ensures Fetch(Store(Store(m, entry, attr, v1), entry, attr, v2), entry, attr) == Ok(v2)
  {
    var m1 := Store(m, entry, attr, v1);
    assert m1[entry][attr := v2] == (if entry in m then m[entry] else map[])[attr := v2];
  }

  /** After `remove(entry)` no attribute of that entry can be fetched; other entries are unaffected. */
  lemma FetchAfterRemove(m: Entries, entry: Bytes, e: Bytes, a: Bytes)
    ensures Fetch(Remove(m, entry), e, a) == if e == entry then Err(OutOfRange) else Fetch(m, e, a)
  {
  }

  /** After `remove_attribute(entry, attr)` that pair cannot be fetched; every other pair is unaffected. */
  lemma FetchAfterRemoveAttribute(m: Entries, entry: Bytes, attr: Bytes, e: Bytes, a: Bytes)
    ensures Fetch(RemoveAttribute(m, entry, attr), e, a)
         == if e == entry && a == attr then Err(OutOfRange) else Fetch(m, e, a)
    ensures entry in m ==> entry in RemoveAttribute(m, entry, attr)
  {
  }

  // ---------------------------------------------------------------------
  // Key order. The keyring's maps are ordered containers; their iteration
  // order is the byte-wise lexicographic order of the keys.
  // ---------------------------------------------------------------------

  /** Strict byte-wise lexicographic order (a proper prefix comes first). */
  predicate LexLess(a: Bytes, b: Bytes)
    decreases |a|
  {
    if a == [] then b != []
    else if b == [] then false
    else if a[0] != b[0] then a[0] < b[0]
    else LexLess(a[1..], b[1..])
  }

  lemma {:induction false} LexAsymmetric(a: Bytes, b: Bytes)
    ensures !(LexLess(a, b) && LexLess(b, a))
    decreases |a|
  {
    if a != [] && b != [] && a[0] == b[0] {
      LexAsymmetric(a[1..], b[1..]);
    }
  }

  lemma {:induction false} LexTransitive(a: Bytes, b: Bytes, c: Bytes)
    requires LexLess(a, b) && LexLess(b, c)
    ensures LexLess(a, c)
    decreases |a|
  {
    if a != [] && a[0] == b[0] && b[0] == c[0] {
      LexTransitive(a[1..], b[1..], c[1..]);
    }
  }

  lemma {:induction false} LexTotal(a: Bytes, b: Bytes)
    requires a != b
    ensures LexLess(a, b) || LexLess(b, a)
    decreases |a|
  {
    if a != [] && b != [] && a[0] == b[0] {
      assert a == [a[0]] + a[1..] && b == [b[0]] + b[1..];
      LexTotal(a[1..], b[1..]);
    }
  }

  predicate IsLeast(m: Bytes, s: set<Bytes>)
  {
    m in s && forall x :: x in s && x != m ==> LexLess(m, x)
  }

  lemma {:induction false} LeastExists(s: set<Bytes>)
    requires s != {}
    ensures exists m :: IsLeast(m, s)
    decreases |s|
  {
    var x :| x in s;
    if s == {x} {
      assert IsLeast(x, s);
    } else {
      LeastExists(s - {x});
      var m :| IsLeast(m, s - {x});
      if LexLess(m, x) {
        assert IsLeast(m, s);
      } else {
        LexTotal(m, x);
        forall y | y in s && y != x
          ensures LexLess(x, y)
        {
          if y != m { LexTransitive(x, m, y); }
        }
        assert IsLeast(x, s);
      }
    }
  }

  lemma LeastUnique(s: set<Bytes>)
    ensures forall m1, m2 :: IsLeast(m1, s) && IsLeast(m2, s) ==> m1 == m2
  {
    forall m1, m2 | IsLeast(m1, s) && IsLeast(m2, s)
      ensures m1 == m2
    {
      LexAsymmetric(m1, m2);
    }
  }

  /** The smallest key of a non-empty key set. */
  function Least(s: set<Bytes>): (m: Bytes)
    requires s != {}
    ensures IsLeast(m, s)
  {
    LeastExists(s);
    LeastUnique(s);
    var m :| IsLeast(m, s); m
  }

  /** The keys of `s` in iteration order: each key once, strictly increasing. */
  function SortedKeys(s: set<Bytes>): (r: seq<Bytes>)
    ensures forall x :: x in r <==> x in s
    ensures forall i, j :: 0 <= i < j < |r| ==> LexLess(r[i], r[j])
    decreases |s|
  {
    if s == {} then []
    else
      var m := Least(s);
      [m] + SortedKeys(s - {m})
  }
}
