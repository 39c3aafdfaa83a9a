/**
 * The two keyring implementations exercised by the same typed tests:
 * `KeyringMemory` (entry store + serialize/parse) and `KeyringFile`
 * (a memory keyring plus save/load against a file), and the file system
 * they write to, reduced to a map from path to contents and an owner-only flag.
 */
module Keyring {
  import opened Wrappers
  import opened Bytes
  import opened EntryStore
  import opened Codec

  class KeyringMemory {
    var entries: Entries

    /** A new keyring is empty. */
    constructor()
      ensures entries == map[]
    {
      entries := map[];
    }

    /** `fetch`: the stored value, or `OutOfRange` for an unknown entry or attribute. */
    function Fetch(entry: Bytes, attr: Bytes): Result<Bytes, KeyringError>
      reads this
    {
      EntryStore.Fetch(entries, entry, attr)
    }

    /** `store`: insert or overwrite one attribute of one entry. */
    method Store(entry: Bytes, attr: Bytes, value: Bytes)
      modifies this
      ensures entries == EntryStore.Store(old(entries), entry, attr, value)
    {
      var attrs := if entry in entries then entries[entry] else map[];
      entries := entries[entry := attrs[attr := value]];
    }

    /** `remove`: erase an entry and all its attributes. */
    method Remove(entry: Bytes)
      modifies this
      ensures entries == EntryStore.Remove(old(entries), entry)
    {
      entries := entries - {entry};
    }

    /** `remove_attribute`: erase one attribute of an entry. */
    method RemoveAttribute(entry: Bytes, attr: Bytes)
      modifies this
      ensures entries == EntryStore.RemoveAttribute(old(entries), entry, attr)
    {
      if entry in entries {
        entries := entries[entry := entries[entry] - {attr}];
      }
    }

    /** `serialize`: the sealed buffer of the current contents. */
    function Serialize(c: Cipher, key: Bytes, iv: Bytes): Result<Bytes, KeyringError>
      reads this
    {
      Seal(c, key, iv, entries)
    }

    /**
     * `parse`: replace the contents with those sealed in `buf`. All or
     * nothing: on any failure the contents are left as they were.
     */
    method Parse(c: Cipher, key: Bytes, buf: Bytes) returns (r: Result<(), KeyringError>)
      modifies this
      ensures Unseal(c, key, buf).Ok? ==> r == Ok(()) && entries == Unseal(c, key, buf).value
      ensures Unseal(c, key, buf).Err? ==> r == Err(Unseal(c, key, buf).error) && entries == old(entries)
    {
      if |key| > MaxKeyLength {
        return Err(KeyTooLong);
      }
      if buf == [] || buf[0] != FormatVersion {
        return Err(IntegrityError);
      }
      var plain := c.open(key, buf[1..]);
      if plain.None? {
        return Err(IntegrityError);
      }
      var records := DecodeRecords(plain.value);
      if records.None? {
        return Err(IntegrityError);
      }
      var rs := records.value;
      var acc: Entries := map[];
      for i := 0 to |rs|
        invariant StoreAll(acc, rs[i..]) == StoreAll(map[], rs)
      {
        assert rs[i..][1..] == rs[i + 1..];
        acc := EntryStore.Store(acc, rs[i].entry, rs[i].attribute, rs[i].value);
      }
      entries := acc;
      r := Ok(());
    }
  }

  /** A file as the keyring sees it: its bytes and whether only its owner may access it. */
  datatype StoredFile = StoredFile(contents: Bytes, ownerOnly: bool)

  class FileSystem {
    var files: map<string, StoredFile>

    constructor(initial: map<string, StoredFile>)
      ensures files == initial
    {
      files := initial;
    }

    /** `make_file_private`: restrict an existing file to its owner. */
    method MakeFilePrivate(path: string)
      modifies this
      ensures files == if path in old(files) then old(files)[path := old(files)[path].(ownerOnly := true)] else old(files)
    {
      if path in files {
        files := files[path := files[path].(ownerOnly := true)];
      }
    }

    /** `make_file_public`: open an existing file to other users. */
    method MakeFilePublic(path: string)
      modifies this
      ensures files == if path in old(files) then old(files)[path := old(files)[path].(ownerOnly := false)] else old(files)
    {
      if path in files {
        files := files[path := files[path].(ownerOnly := false)];
      }
    }

    /** `delete_file`: a missing file is not an error. */
    method DeleteFile(path: string)
      modifies this
      ensures files == old(files) - {path}
    {
      files := files - {path};
    }
  }

  class KeyringFile {
    /** The in-memory keyring that `save` writes out and `load` fills. */
    const memory: KeyringMemory

    constructor()
      ensures fresh(memory) && memory.entries == map[]
    {
      memory := new KeyringMemory();
    }

    /** `save`: write the serialized contents to `path`, accessible to the owner only. */
    method Save(fs: FileSystem, c: Cipher, path: string, key: Bytes, iv: Bytes) returns (r: Result<(), KeyringError>)
      modifies fs
      ensures Seal(c, key, iv, memory.entries).Ok? ==>
        r == Ok(()) && fs.files == old(fs.files)[path := StoredFile(Seal(c, key, iv, memory.entries).value, true)]
      ensures Seal(c, key, iv, memory.entries).Err? ==>
        r == Err(Seal(c, key, iv, memory.entries).error) && fs.files == old(fs.files)
    {
      var buf := memory.Serialize(c, key, iv);
      if buf.Err? {
        return Err(buf.error);
      }
      fs.files := fs.files[path := StoredFile(buf.value, true)];
      r := Ok(());
    }

    /**
     * `load`: fail if the file is missing, fail without reading it if anyone
     * but its owner may access it, otherwise parse its contents.
     */
    method Load(fs: FileSystem, c: Cipher, path: string, key: Bytes) returns (r: Result<(), KeyringError>)
      modifies memory
      ensures path !in fs.files ==> r == Err(FileNotFound) && memory.entries == old(memory.entries)
      ensures path in fs.files && !fs.files[path].ownerOnly ==>
        r == Err(PermissionError) && memory.entries == old(memory.entries)
      ensures path in fs.files && fs.files[path].ownerOnly ==>
        var u := Unseal(c, key, fs.files[path].contents);
        if u.Ok? then r == Ok(()) && memory.entries == u.value
        else r == Err(u.error) && memory.entries == old(memory.entries)
    {
      if path !in fs.files {
        return Err(FileNotFound);
      }
      if !fs.files[path].ownerOnly {
        return Err(PermissionError);
      }
      r := memory.Parse(c, key, fs.files[path].contents);
    }
  }
}
