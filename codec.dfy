/**
 * The keyring's serialized form.
 *
 * Plaintext: one record per (entry, attribute, value) triple, in key order,
 * each field written as a 32-bit little-endian length followed by its bytes.
 * Sealed buffer: one format-version byte, then the output of an authenticated
 * cipher keyed by the master key. The cipher (key derivation, IV, block
 * cipher, integrity digest) is an abstract parameter; what the keyring relies
 * on is stated as three explicit assumptions about it.
 */
module Codec {
  import opened Wrappers
  import opened Bytes
  import opened EntryStore

  /** Largest master key the keyring accepts, in bytes. */
  const MaxKeyLength: nat := 255

  /** Version byte that heads every sealed buffer. */
  const FormatVersion: byte := 1

  datatype Record = Record(entry: Bytes, attribute: Bytes, value: Bytes)

  // ---------------------------------------------------------------------
  // Flattening the store into records and rebuilding it
  // ---------------------------------------------------------------------

  /** The records of one entry, attributes taken in the order `keys`. */
  function EntryRecords(entry: Bytes, attrs: Attributes, keys: seq<Bytes>): (rs: seq<Record>)
    requires forall k :: k in keys ==> k in attrs
    ensures forall r :: r in rs <==> r.entry == entry && r.attribute in keys && r.value == attrs[r.attribute]
  {
    if keys == [] then []
    else [Record(entry, keys[0], attrs[keys[0]])] + EntryRecords(entry, attrs, keys[1..])
  }

  /** The records of the entries named in `keys`, in that order. */
  function EntriesRecords(m: Entries, keys: seq<Bytes>): (rs: seq<Record>)
    requires forall k :: k in keys ==> k in m
    ensures forall r :: r in rs <==>
      r.entry in keys && r.attribute in m[r.entry] && r.value == m[r.entry][r.attribute]
  {
    if keys == [] then []
    else EntryRecords(keys[0], m[keys[0]], SortedKeys(m[keys[0]].Keys)) + EntriesRecords(m, keys[1..])
  }

  /** Every stored (entry, attribute, value) triple, in iteration order. */
  function Records(m: Entries): (rs: seq<Record>)
    ensures forall r :: r in rs <==>
      r.entry in m && r.attribute in m[r.entry] && r.value == m[r.entry][r.attribute]
  {
    EntriesRecords(m, SortedKeys(m.Keys))
  }

  /** Apply `store` for each record in turn, as parsing does. */
  function StoreAll(m: Entries, rs: seq<Record>): Entries
    decreases rs
  {
    if rs == [] then m
    else StoreAll(Store(m, rs[0].entry, rs[0].attribute, rs[0].value), rs[1..])
  }

  predicate Mentions(rs: seq<Record>, entry: Bytes, attr: Bytes)
  {
    exists r :: r in rs && r.entry == entry && r.attribute == attr
  }

  /**
   * Storing records that all agree with `src` makes every mentioned pair read
   * as in `src` and leaves every other pair as it was.
   */
  lemma {:induction false} FetchAfterStoreAll(acc: Entries, rs: seq<Record>, src: Entries, e: Bytes, a: Bytes)
    requires forall r :: r in rs ==>
      r.entry in src && r.attribute in src[r.entry] && r.value == src[r.entry][r.attribute]
    ensures Fetch(StoreAll(acc, rs), e, a) == if Mentions(rs, e, a) then Fetch(src, e, a) else Fetch(acc, e, a)
    decreases rs
  {
    if rs != [] {
      var r := rs[0];
      var acc' := Store(acc, r.entry, r.attribute, r.value);
      FetchAfterStoreAll(acc', rs[1..], src, e, a);
      FetchAfterStore(acc, r.entry, r.attribute, r.value, e, a);
      if Mentions(rs[1..], e, a) {
        var w :| w in rs[1..] && w.entry == e && w.attribute == a;
        assert w in rs;
      } else if r.entry == e && r.attribute == a {
        assert r in rs;
      }
    }
  }

  /** Rebuilding a store from its own records gives back every `fetch` result. */
  lemma RebuildFetches(m: Entries, e: Bytes, a: Bytes)
    ensures Fetch(StoreAll(map[], Records(m)), e, a) == Fetch(m, e, a)
  {
    var rs := Records(m);
    FetchAfterStoreAll(map[], rs, m, e, a);
    if e in m && a in m[e] {
      assert Record(e, a, m[e][a]) in rs;
    }
  }

  // ---------------------------------------------------------------------
  // Byte encoding of records
  // ---------------------------------------------------------------------

  /** Every field fits the 32-bit length prefix. */
  predicate Encodable(rs: seq<Record>)
  {
    forall r :: r in rs ==> EncodableRecord(r)
  }

  function EncodeField(s: Bytes): (b: Bytes)
    requires |s| < U32Limit
  {
    EncodeU32(|s|) + s
  }

  predicate EncodableRecord(r: Record)
  {
    |r.entry| < U32Limit && |r.attribute| < U32Limit && |r.value| < U32Limit
  }

  function EncodeRecord(r: Record): (b: Bytes)
    requires EncodableRecord(r)
  {
    EncodeField(r.entry) + EncodeField(r.attribute) + EncodeField(r.value)
  }

  function EncodeRecords(rs: seq<Record>): (b: Bytes)
    requires Encodable(rs)
  {
    if rs == [] then []
    else EncodeRecord(rs[0]) + EncodeRecords(rs[1..])
  }

  /** One length-prefixed field and the bytes after it; `None` when the buffer is too short. */
  function DecodeField(b: Bytes): (r: Option<(Bytes, Bytes)>)
    ensures r.Some? ==> |r.value.1| < |b|
  {
    if |b| < 4 then None
    else
      var n := DecodeU32(b[..4]);
      if |b| - 4 < n then None else Some((b[4..4 + n], b[4 + n..]))
  }

  /** One record and the bytes after it. */
  function DecodeRecord(b: Bytes): (r: Option<(Record, Bytes)>)
    ensures r.Some? ==> |r.value.1| < |b|
  {
    match DecodeField(b)
    case None => None
    case Some((entry, b1)) =>
      match DecodeField(b1)
      case None => None
      case Some((attr, b2)) =>
        match DecodeField(b2)
        case None => None
        case Some((value, b3)) => Some((Record(entry, attr, value), b3))
  }

  /** The records of a plaintext; `None` when a length prefix runs past the end. */
  function DecodeRecords(b: Bytes): Option<seq<Record>>
    decreases |b|
  {
    if b == [] then Some([])
    else match DecodeRecord(b)
      case None => None
      case Some((r, rest)) =>
        match DecodeRecords(rest)
        case None => None
        case Some(rs) => Some([r] + rs)
  }

  lemma DecodeFieldOfEncoded(s: Bytes, rest: Bytes)
    requires |s| < U32Limit
    ensures DecodeField(EncodeField(s) + rest) == Some((s, rest))
  {
    var b := EncodeField(s) + rest;
    assert b[..4] == EncodeU32(|s|);
    DecodeEncodeU32(|s|);
    assert b[4..4 + |s|] == s;
    assert b[4 + |s|..] == rest;
  }

  lemma DecodedFieldIsEncoded(b: Bytes)
    requires DecodeField(b).Some?
    ensures |DecodeField(b).value.0| < U32Limit
    ensures b == EncodeField(DecodeField(b).value.0) + DecodeField(b).value.1
  {
    var n := DecodeU32(b[..4]);
    EncodeDecodeU32(b[..4]);
    assert b == b[..4] + b[4..4 + n] + b[4 + n..];
  }

  lemma DecodeRecordOfEncoded(r: Record, rest: Bytes)
    requires EncodableRecord(r)
    ensures DecodeRecord(EncodeRecord(r) + rest) == Some((r, rest))
  {
    var f2 := EncodeField(r.value) + rest;
    var f1 := EncodeField(r.attribute) + f2;
    assert EncodeRecord(r) + rest == EncodeField(r.entry) + f1;
    DecodeFieldOfEncoded(r.entry, f1);
    DecodeFieldOfEncoded(r.attribute, f2);
    DecodeFieldOfEncoded(r.value, rest);
  }

  lemma DecodedRecordIsEncoded(b: Bytes)
    requires DecodeRecord(b).Some?
    ensures EncodableRecord(DecodeRecord(b).value.0)
    ensures b == EncodeRecord(DecodeRecord(b).value.0) + DecodeRecord(b).value.1
  {
    var (entry, b1) := DecodeField(b).value;
    var (attr, b2) := DecodeField(b1).value;
    var (value, b3) := DecodeField(b2).value;
    assert DecodeRecord(b) == Some((Record(entry, attr, value), b3));
    DecodedFieldIsEncoded(b);
    DecodedFieldIsEncoded(b1);
    DecodedFieldIsEncoded(b2);
    ThreeFields(b, b1, b2, b3, EncodeField(entry), EncodeField(attr), EncodeField(value));
  }

  lemma ThreeFields(b: Bytes, b1: Bytes, b2: Bytes, b3: Bytes, x: Bytes, y: Bytes, z: Bytes)
    requires b == x + b1 && b1 == y + b2 && b2 == z + b3
    ensures b == x + y + z + b3
  {
  }

  /** Decoding recovers exactly the encoded records. */
  lemma {:induction false} DecodeEncodeRecords(rs: seq<Record>)
    requires Encodable(rs)
    ensures DecodeRecords(EncodeRecords(rs)) == Some(rs)
  {
    if rs != [] {
      assert rs[0] in rs;
      assert Encodable(rs[1..]) by {
        forall x | x in rs[1..] ensures EncodableRecord(x) { assert x in rs; }
      }
      DecodeEncodeRecords(rs[1..]);
      DecodeRecordOfEncoded(rs[0], EncodeRecords(rs[1..]));
      assert [rs[0]] + rs[1..] == rs;
    }
  }

  /** Only canonical encodings decode: a plaintext that decodes is the encoding of its records. */
  lemma {:induction false} EncodeDecodeRecords(b: Bytes)
    requires DecodeRecords(b).Some?
    ensures Encodable(DecodeRecords(b).value)
    ensures EncodeRecords(DecodeRecords(b).value) == b
    decreases |b|
  {
    if b != [] {
      var (r, rest) := DecodeRecord(b).value;
      DecodedRecordIsEncoded(b);
      EncodeDecodeRecords(rest);
      var rs := DecodeRecords(b).value;
      assert rs == [r] + DecodeRecords(rest).value;
      assert rs[1..] == DecodeRecords(rest).value;
      assert Encodable(rs) by {
        forall x | x in rs ensures EncodableRecord(x) {
          if x != r { assert x in rs[1..]; }
        }
      }
    }
  }

  // ---------------------------------------------------------------------
  // The abstract authenticated cipher and its assumptions
  // ---------------------------------------------------------------------

  /**
   * `seal(key, iv, plaintext)` is the encrypted, integrity-protected buffer
   * (IV included); `open(key, buffer)` is the plaintext, or `None` when
   * decryption or the integrity check fails.
   */
  datatype Cipher = Cipher(seal: (Bytes, Bytes, Bytes) -> Bytes, open: (Bytes, Bytes) -> Option<Bytes>)

  /** Assumption: opening with the sealing key returns the plaintext. */
  ghost predicate Correct(c: Cipher)
  {
    forall key, iv, p :: c.open(key, c.seal(key, iv, p)) == Some(p)
  }

  /** Assumption: a buffer sealed under one key never opens under another. */
  ghost predicate KeyBound(c: Cipher)
  {
    forall k1, k2, iv, p :: k1 != k2 ==> c.open(k2, c.seal(k1, iv, p)) == None
  }

  /** Assumption: no slice of a sealed buffer that stops before its last byte opens. */
  ghost predicate TamperEvident(c: Cipher)
  {
    forall key, iv, p, lo, hi :: 0 <= lo <= hi < |c.seal(key, iv, p)| ==>
      c.open(key, c.seal(key, iv, p)[lo..hi]) == None
  }

  // ---------------------------------------------------------------------
  // serialize / parse
  // ---------------------------------------------------------------------

  /** The sealed buffer of a store (`serialize`). */
  function Seal(c: Cipher, key: Bytes, iv: Bytes, m: Entries): Result<Bytes, KeyringError>
  {
    if |key| > MaxKeyLength then Err(KeyTooLong)
    else if !Encodable(Records(m)) then Err(RecordTooLong)
    else Ok([FormatVersion] + c.seal(key, iv, EncodeRecords(Records(m))))
  }

  /** The store held in a sealed buffer (`parse`). */
  function Unseal(c: Cipher, key: Bytes, buf: Bytes): Result<Entries, KeyringError>
  {
    if |key| > MaxKeyLength then Err(KeyTooLong)
    else if buf == [] || buf[0] != FormatVersion then Err(IntegrityError)
    else match c.open(key, buf[1..])
      case None => Err(IntegrityError)
      case Some(p) =>
        match DecodeRecords(p)
        case None => Err(IntegrityError)
        case Some(rs) => Ok(StoreAll(map[], rs))
  }

  /** `serialize` and `parse` fail with `KeyTooLong` exactly for keys longer than 255 bytes. */
  lemma SealKeyLength(c: Cipher, key: Bytes, iv: Bytes, buf: Bytes, m: Entries)
    ensures Seal(c, key, iv, m) == Err(KeyTooLong) <==> |key| > MaxKeyLength
    ensures Unseal(c, key, buf) == Err(KeyTooLong) <==> |key| > MaxKeyLength
  {
  }

  /** Every stored entry name, attribute name and value is shorter than 2^32 bytes. */
  predicate FieldsFit(m: Entries)
  {
    forall e, a :: e in m && a in m[e] ==> |e| < U32Limit && |a| < U32Limit && |m[e][a]| < U32Limit
  }

  /** `serialize` succeeds exactly when the key is short enough and every field fits its length prefix. */
  lemma SealSucceeds(c: Cipher, key: Bytes, iv: Bytes, m: Entries)
    ensures Seal(c, key, iv, m).Ok? <==> |key| <= MaxKeyLength && FieldsFit(m)
  {
    if FieldsFit(m) {
      FitRecordsEncodable(m);
    }
    if Encodable(Records(m)) {
      EncodableRecordsFit(m);
    }
  }

  lemma FitRecordsEncodable(m: Entries)
    requires FieldsFit(m)
    ensures Encodable(Records(m))
  {
    forall r | r in Records(m) ensures EncodableRecord(r) {
      assert r.entry in m && r.attribute in m[r.entry];
    }
  }

  lemma EncodableRecordsFit(m: Entries)
    requires Encodable(Records(m))
    ensures FieldsFit(m)
  {
    forall e, a | e in m && a in m[e] ensures |e| < U32Limit && |a| < U32Limit && |m[e][a]| < U32Limit {
      assert Record(e, a, m[e][a]) in Records(m);
    }
  }

  /** Round trip: parsing a serialized store with the same key gives back every `fetch` result. */
  lemma SealUnsealRoundTrip(c: Cipher, key: Bytes, iv: Bytes, m: Entries)
    requires Correct(c)
    requires Seal(c, key, iv, m).Ok?
    ensures Unseal(c, key, Seal(c, key, iv, m).value) == Ok(StoreAll(map[], Records(m)))
    ensures forall e, a :: Fetch(Unseal(c, key, Seal(c, key, iv, m).value).value, e, a) == Fetch(m, e, a)
  {
    var plain := EncodeRecords(Records(m));
    var buf := Seal(c, key, iv, m).value;
    assert buf[1..] == c.seal(key, iv, plain);
    DecodeEncodeRecords(Records(m));
    forall e, a ensures Fetch(StoreAll(map[], Records(m)), e, a) == Fetch(m, e, a) {
      RebuildFetches(m, e, a);
    }
  }

  /** The empty store serializes to a buffer that parses back to the empty store. */
  lemma EmptyRoundTrip(c: Cipher, key: Bytes, iv: Bytes)
    requires Correct(c)
    requires |key| <= MaxKeyLength
    ensures Seal(c, key, iv, map[]).Ok?
    ensures Unseal(c, key, Seal(c, key, iv, map[]).value) == Ok(map[])
  {
    assert Records(map[]) == [];
    SealUnsealRoundTrip(c, key, iv, map[]);
  }

  /**
   * Every slice `buf[lo..hi]` of a serialized buffer that stops before the
   * buffer's end is rejected.
   */
  lemma SliceRejected(c: Cipher, key: Bytes, iv: Bytes, m: Entries, lo: nat, hi: nat)
    requires TamperEvident(c)
    requires Seal(c, key, iv, m).Ok?
    requires lo <= hi < |Seal(c, key, iv, m).value|
    ensures Unseal(c, key, Seal(c, key, iv, m).value[lo..hi]).Err?
  {
    var sealed := c.seal(key, iv, EncodeRecords(Records(m)));
    var buf := Seal(c, key, iv, m).value;
    var x := buf[lo..hi];
    if x != [] && x[0] == FormatVersion {
      if lo == 0 {
        assert x[1..] == sealed[0..hi - 1];
      } else {
        assert x[1..] == sealed[lo..hi - 1];
      }
    }
  }

  /** A buffer serialized under one key is rejected under any other key. */
  lemma WrongKeyRejected(c: Cipher, key: Bytes, other: Bytes, iv: Bytes, m: Entries)
    requires KeyBound(c)
    requires key != other
    requires Seal(c, key, iv, m).Ok?
    ensures Unseal(c, other, Seal(c, key, iv, m).value).Err?
  {
    var buf := Seal(c, key, iv, m).value;
    assert buf[1..] == c.seal(key, iv, EncodeRecords(Records(m)));
  }
}
