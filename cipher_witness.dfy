/**
 * A toy cipher that meets all three assumptions the keyring proofs make of
 * the real one (`Correct`, `KeyBound`, `TamperEvident`), so that those
 * assumptions can hold together. It is not AES and hides nothing: the key
 * and the plaintext are written out as nibbles, which leaves the bytes 254
 * and 255 free to mark the end of the key and the end of the buffer.
 */
module CipherWitness {
  import opened Wrappers
  import opened Bytes
  import opened Codec

  /** Each byte as its high and its low nibble. */
  function Nibbles(b: Bytes): (r: Bytes)
    ensures |r| == 2 * |b|
    ensures forall i :: 0 <= i < |r| ==> r[i] < 16
  {
    if b == [] then [] else [b[0] / 16, b[0] % 16] + Nibbles(b[1..])
  }

  /** Pairs of nibbles glued back into bytes. */
  function Unnibbles(r: Bytes): Bytes
    requires |r| % 2 == 0
  {
    if r == [] then [] else [((r[0] as int * 16 + r[1] as int) % 256) as byte] + Unnibbles(r[2..])
  }

  lemma {:induction false} UnnibblesNibbles(b: Bytes)
    ensures Unnibbles(Nibbles(b)) == b
    decreases |b|
  {
    if b != [] {
      var n := Nibbles(b);
      assert n[2..] == Nibbles(b[1..]);
      UnnibblesNibbles(b[1..]);
      assert (b[0] / 16) as int * 16 + (b[0] % 16) as int == b[0] as int;
    }
  }

  /** Key, a 254, the plaintext, a 255. */
  function ToySeal(key: Bytes, iv: Bytes, p: Bytes): Bytes
  {
    Nibbles(key) + [254] + Nibbles(p) + [255]
  }

  /** Opens only a buffer that starts with this key's nibbles and a 254 and ends with a 255. */
  function ToyOpen(key: Bytes, buf: Bytes): Option<Bytes>
  {
    var n := Nibbles(key);
    if |buf| >= |n| + 2 && buf[..|n|] == n && buf[|n|] == 254 && buf[|buf| - 1] == 255
       && (|buf| - |n| - 2) % 2 == 0
    then Some(Unnibbles(buf[|n| + 1..|buf| - 1]))
    else None
  }

  function ToyCipher(): Cipher
  {
    Cipher((key, iv, p) => ToySeal(key, iv, p), (key, buf) => ToyOpen(key, buf))
  }

  lemma ToyCorrect(key: Bytes, iv: Bytes, p: Bytes)
    ensures ToyOpen(key, ToySeal(key, iv, p)) == Some(p)
  {
    var n := Nibbles(key);
    var s := ToySeal(key, iv, p);
    assert s[..|n|] == n;
    assert s[|n| + 1..|s| - 1] == Nibbles(p);
    UnnibblesNibbles(p);
  }

  lemma ToyKeyBound(k1: Bytes, k2: Bytes, iv: Bytes, p: Bytes)
    requires k1 != k2
    ensures ToyOpen(k2, ToySeal(k1, iv, p)) == None
  {
    var n1 := Nibbles(k1);
    var n2 := Nibbles(k2);
    var s := ToySeal(k1, iv, p);
    if |s| >= |n2| + 2 && s[..|n2|] == n2 && s[|n2|] == 254 && |n2| == |n1| {
      assert n1 == s[..|n2|];
      UnnibblesNibbles(k1);
      UnnibblesNibbles(k2);
    }
  }

  lemma ToyTamperEvident(key: Bytes, iv: Bytes, p: Bytes, lo: int, hi: int)
    requires 0 <= lo <= hi < |ToySeal(key, iv, p)|
    ensures ToyOpen(key, ToySeal(key, iv, p)[lo..hi]) == None
  {
    var s := ToySeal(key, iv, p);
    var x := s[lo..hi];
    if x != [] {
      var nk := Nibbles(key);
      var np := Nibbles(p);
      var j := hi - 1;
      assert x[|x| - 1] == s[j];
      if j < |nk| {
        assert s[j] == nk[j];
      } else if j > |nk| {
        assert s[j] == np[j - |nk| - 1];
      }
    }
  }

  /** The three assumptions made of the keyring's cipher can all hold at once. */
  lemma AssumptionsSatisfiable()
    ensures Correct(ToyCipher()) && KeyBound(ToyCipher()) && TamperEvident(ToyCipher())
  {
    var c := ToyCipher();
    forall key, iv, p ensures c.open(key, c.seal(key, iv, p)) == Some(p) {
      ToyCorrect(key, iv, p);
    }
    forall k1, k2, iv, p | k1 != k2 ensures c.open(k2, c.seal(k1, iv, p)) == None {
      ToyKeyBound(k1, k2, iv, p);
    }
    forall key, iv, p, lo, hi | 0 <= lo <= hi < |c.seal(key, iv, p)|
      ensures c.open(key, c.seal(key, iv, p)[lo..hi]) == None
    {
      ToyTamperEvident(key, iv, p, lo, hi);
    }
  }
}
