/**
 * The keyring test cases as client code: each method performs the calls a
 * test performs and its postcondition states what the test asserts. The
 * typed tests are modelled on the memory keyring; a file keyring holds one
 * as its `memory`.
 */
module KeyringTests {
  import opened Wrappers
  import opened Bytes
  import opened EntryStore
  import opened Codec
  import opened Keyring

  /** The bytes of a string literal whose characters are all below 256. */
  function Ascii(s: string): (b: Bytes)
    requires forall i :: 0 <= i < |s| ==> s[i] as int < 256
    ensures |b| == |s|
  {
    seq(|s|, i requires 0 <= i < |s| => s[i] as int as byte)
  }

  const AesKey: Bytes := Ascii("AesKey")
  const InvalidKey: Bytes := Ascii("invalid_key")
  const KeyringFileName: string := "keyring_config"

  const E1: Bytes := Ascii("E1")
  const E2: Bytes := Ascii("E2")
  const E1A1: Bytes := Ascii("E1A1")
  const E1A2: Bytes := Ascii("E1A2")
  const E2A1: Bytes := Ascii("E2A1")
  const E2A2: Bytes := Ascii("E2A2")
  const E1V1: Bytes := Ascii("E1V1")
  const E1V2: Bytes := Ascii("E1V2")
  const E2V1: Bytes := Ascii("E2V1")
  const E2V2: Bytes := Ascii("E2V2")

  /** The contents after `fill_keyring`. */
  function Filled(m: Entries): Entries
  {
    Store(Store(Store(Store(m, E1, E1A1, E1V1), E1, E1A2, E1V2), E2, E2A1, E2V1), E2, E2A2, E2V2)
  }

  /** What `verify_keyring` checks. */
  predicate HoldsTestData(m: Entries)
  {
    && Fetch(m, E1, E1A1) == Ok(E1V1)
    && Fetch(m, E1, E1A2) == Ok(E1V2)
    && Fetch(m, E2, E2A1) == Ok(E2V1)
    && Fetch(m, E2, E2A2) == Ok(E2V2)
  }

  /** The four stores of `fill_keyring` do not interfere: each pair reads back its own value. */
  lemma FilledHoldsTestData(m: Entries)
    ensures HoldsTestData(Filled(m))
  {
    TestNamesDistinct();
  }

  lemma TestNamesDistinct()
    ensures E1 != E2 && E1A1 != E1A2 && E2A1 != E2A2
  {
    assert E1[1] != E2[1];
    assert E1A1[3] != E1A2[3];
    assert E2A1[3] != E2A2[3];
  }

  /** Storing short fields keeps every field within its length prefix. */
  lemma StoreFits(m: Entries, entry: Bytes, attr: Bytes, value: Bytes)
    requires FieldsFit(m)
    requires |entry| < U32Limit && |attr| < U32Limit && |value| < U32Limit
    ensures FieldsFit(Store(m, entry, attr, value))
  {
  }

  /** The filled test keyring serializes under the test key. */
  lemma FilledSeals(c: Cipher, iv: Bytes)
    ensures Seal(c, AesKey, iv, Filled(map[])).Ok?
  {
    var m0: Entries := map[];
    var m1 := Store(m0, E1, E1A1, E1V1);
    var m2 := Store(m1, E1, E1A2, E1V2);
    var m3 := Store(m2, E2, E2A1, E2V1);
    StoreFits(m0, E1, E1A1, E1V1);
    StoreFits(m1, E1, E1A2, E1V2);
    StoreFits(m2, E2, E2A1, E2V1);
    StoreFits(m3, E2, E2A2, E2V2);
    SealSucceeds(c, AesKey, iv, Filled(map[]));
  }

  /** The filled test keyring survives a save and a load under the test key. */
  lemma FilledRoundTrip(c: Cipher, iv: Bytes)
    requires Correct(c)
    ensures Seal(c, AesKey, iv, Filled(map[])).Ok?
    ensures Unseal(c, AesKey, Seal(c, AesKey, iv, Filled(map[])).value).Ok?
    ensures HoldsTestData(Unseal(c, AesKey, Seal(c, AesKey, iv, Filled(map[])).value).value)
  {
    var m := Filled(map[]);
    FilledSeals(c, iv);
    SealUnsealRoundTrip(c, AesKey, iv, m);
    FilledHoldsTestData(map[]);
    SameFetches(Unseal(c, AesKey, Seal(c, AesKey, iv, m).value).value, m);
  }

  /** Two stores that answer every `fetch` alike both hold the test data or neither does. */
  lemma SameFetches(m: Entries, m': Entries)
    requires forall e, a :: Fetch(m, e, a) == Fetch(m', e, a)
    ensures HoldsTestData(m) <==> HoldsTestData(m')
  {
  }

  /** The names the lookup tests ask for are not in the filled keyring. */
  lemma UndefinedNames()
    ensures Ascii("InvalidEntry") !in Filled(map[]) && Ascii("Entry") !in Filled(map[])
  {
    assert Filled(map[]).Keys == {E1, E2};
    assert |Ascii("InvalidEntry")| != |E1| && |Ascii("InvalidEntry")| != |E2|;
    assert |Ascii("Entry")| != |E1| && |Ascii("Entry")| != |E2|;
  }

  /**
   * The lookup the undefined-attribute test means to make: an attribute
   * missing from an entry that `fill_keyring` does store.
   */
  lemma UndefinedAttributeOfStoredEntry()
    ensures E1 in Filled(map[])
    ensures Fetch(Filled(map[]), E1, Ascii("AttrInvalid")) == Err(OutOfRange)
  {
    TestNamesDistinct();
    assert Filled(map[])[E1].Keys == {E1A1, E1A2};
    assert |Ascii("AttrInvalid")| != |E1A1| && |Ascii("AttrInvalid")| != |E1A2|;
    FetchFailsIffMissing(Filled(map[]), E1, Ascii("AttrInvalid"));
  }

  /** `fill_keyring`. */
  method FillKeyring(k: KeyringMemory)
    modifies k
    ensures k.entries == Filled(old(k.entries))
  {
    k.Store(E1, E1A1, E1V1);
    k.Store(E1, E1A2, E1V2);
    k.Store(E2, E2A1, E2V1);
    k.Store(E2, E2A2, E2V2);
  }

  /** StoreFetch. */
  method StoreFetch() returns (k: KeyringMemory)
    ensures HoldsTestData(k.entries)
  {
    k := new KeyringMemory();
    FillKeyring(k);
    FilledHoldsTestData(map[]);
  }

  /** AttributeOverwrite. */
  method AttributeOverwrite() returns (v: Result<Bytes, KeyringError>)
    ensures v == Ok(Ascii("OtherValue"))
  {
    var k := new KeyringMemory();
    k.Store(Ascii("Entry"), Ascii("Attribute"), Ascii("Value"));
    k.Store(Ascii("Entry"), Ascii("Attribute"), Ascii("OtherValue"));
    v := k.Fetch(Ascii("Entry"), Ascii("Attribute"));
  }

  /** FetchUndefinedEntry and FetchUndefinedAttribute. */
  method FetchUndefined() returns (entryMiss: Result<Bytes, KeyringError>, attrMiss: Result<Bytes, KeyringError>)
    ensures entryMiss == Err(OutOfRange) && attrMiss == Err(OutOfRange)
  {
    var k := new KeyringMemory();
    FillKeyring(k);
    UndefinedNames();
    entryMiss := k.Fetch(Ascii("InvalidEntry"), Ascii("Attr"));
    attrMiss := k.Fetch(Ascii("Entry"), Ascii("AttrInvalid"));
  }

  /** RemoveEntry and RemoveAttribute. */
  method RemoveThenFetch() returns (afterRemove: Result<Bytes, KeyringError>, afterRemoveAttribute: Result<Bytes, KeyringError>)
    ensures afterRemove == Err(OutOfRange) && afterRemoveAttribute == Err(OutOfRange)
  {
    var k := new KeyringMemory();
    k.Store(Ascii("Entry"), Ascii("Attr"), Ascii("Value"));
    k.Remove(Ascii("Entry"));
    afterRemove := k.Fetch(Ascii("Entry"), Ascii("Attr"));

    var k2 := new KeyringMemory();
    k2.Store(Ascii("Entry"), Ascii("Attr"), Ascii("Value"));
    k2.RemoveAttribute(Ascii("Entry"), Ascii("Attr"));
    afterRemoveAttribute := k2.Fetch(Ascii("Entry"), Ascii("Attr"));
  }

  /** SaveAndLoadEmpty. */
  method SaveAndLoadEmpty(c: Cipher, iv: Bytes) returns (r: Result<(), KeyringError>, k: KeyringMemory)
    requires Correct(c)
    ensures r == Ok(()) && k.entries == map[]
  {
    var writer := new KeyringMemory();
    var data := writer.Serialize(c, AesKey, iv);
    EmptyRoundTrip(c, AesKey, iv);
    k := new KeyringMemory();
    r := k.Parse(c, AesKey, data.value);
  }

  /** SaveAndLoadFilled. */
  method SaveAndLoadFilled(c: Cipher, iv: Bytes) returns (r: Result<(), KeyringError>, k: KeyringMemory)
    requires Correct(c)
    ensures r == Ok(()) && HoldsTestData(k.entries)
  {
    var writer := new KeyringMemory();
    FillKeyring(writer);
    FilledRoundTrip(c, iv);
    var data := writer.Serialize(c, AesKey, iv);
    k := new KeyringMemory();
    r := k.Parse(c, AesKey, data.value);
  }

  /**
   * SaveAndLoadBroken, for every draw of the random numbers: the slice
   * starts at `rawOffset` modulo the buffer length and is `rawSize` modulo
   * the room left plus one long; a slice that reaches the end is skipped.
   */
  method SaveAndLoadBroken(c: Cipher, iv: Bytes, rawOffset: nat, rawSize: nat)
    returns (data: Bytes, skipped: bool, r: Result<(), KeyringError>, k: KeyringMemory)
    requires TamperEvident(c)
    ensures |data| > 0
    ensures skipped <==> rawOffset % |data| + rawSize % (|data| - rawOffset % |data| + 1) == |data|
    ensures !skipped ==> r.Err? && k.entries == map[]
  {
    var writer := new KeyringMemory();
    FillKeyring(writer);
    FilledSeals(c, iv);
    var sealed := writer.Serialize(c, AesKey, iv);
    data := sealed.value;
    var offset := rawOffset % |data|;
    var size := rawSize % (|data| - offset + 1);
    k := new KeyringMemory();
    skipped := offset + size == |data|;
    if skipped {
      r := Ok(());
    } else {
      SliceRejected(c, AesKey, iv, writer.entries, offset, offset + size);
      r := k.Parse(c, AesKey, data[offset..offset + size]);
    }
  }

  /** SaveAndLoadWithInvalidKey. */
  method SaveAndLoadWithInvalidKey(c: Cipher, iv: Bytes) returns (r: Result<(), KeyringError>)
    requires KeyBound(c)
    ensures r.Err?
  {
    var writer := new KeyringMemory();
    FillKeyring(writer);
    FilledSeals(c, iv);
    var data := writer.Serialize(c, AesKey, iv);
    assert AesKey != InvalidKey by { assert |AesKey| != |InvalidKey|; }
    WrongKeyRejected(c, AesKey, InvalidKey, iv, writer.entries);
    var k := new KeyringMemory();
    r := k.Parse(c, InvalidKey, data.value);
  }

  /** LoadFromFileWithCorrectPermissions. */
  method LoadFromFileWithCorrectPermissions(fs: FileSystem, c: Cipher, iv: Bytes) returns (r: Result<(), KeyringError>, k: KeyringFile)
    requires Correct(c)
    modifies fs
    ensures r == Ok(()) && HoldsTestData(k.memory.entries)
  {
    fs.DeleteFile(KeyringFileName);
    var writer := new KeyringFile();
    FillKeyring(writer.memory);
    FilledRoundTrip(c, iv);
    var saved := writer.Save(fs, c, KeyringFileName, AesKey, iv);
    fs.MakeFilePrivate(KeyringFileName);
    k := new KeyringFile();
    r := k.Load(fs, c, KeyringFileName, AesKey);
  }

  /** LoadFromFileWithWrongPermissions. */
  method LoadFromFileWithWrongPermissions(fs: FileSystem, c: Cipher, iv: Bytes) returns (r: Result<(), KeyringError>)
    modifies fs
    ensures r == Err(PermissionError)
  {
    fs.DeleteFile(KeyringFileName);
    var writer := new KeyringFile();
    FillKeyring(writer.memory);
    FilledSeals(c, iv);
    var saved := writer.Save(fs, c, KeyringFileName, AesKey, iv);
    fs.MakeFilePublic(KeyringFileName);
    var k := new KeyringFile();
    r := k.Load(fs, c, KeyringFileName, AesKey);
  }

  /** LoadFromNonexistentFile. */
  method LoadFromNonexistentFile(fs: FileSystem, c: Cipher) returns (r: Result<(), KeyringError>)
    modifies fs
    ensures r == Err(FileNotFound)
  {
    fs.DeleteFile(KeyringFileName);
    var k := new KeyringFile();
    r := k.Load(fs, c, KeyringFileName, AesKey);
  }
}
