/** The FNV-1a start slot of src/valmap.c, with its 64-bit arithmetic written out. */
module Hash {
  const FNV_OFFSET_BASIS: nat := 0xcbf29ce484222325
  const FNV_PRIME: nat := 0x100000001b3
  const TWO_64: nat := 0x1_0000_0000_0000_0000

  function Xor(a: nat, b: nat): nat
    decreases a
  {
    if a == 0 then b
    else if b == 0 then a
    else (a % 2 + b % 2) % 2 + 2 * Xor(a / 2, b / 2)
  }

  function And(a: nat, b: nat): (r: nat)
    ensures r <= b
    decreases a
  {
    if a == 0 || b == 0 then 0
    else (if a % 2 == 1 && b % 2 == 1 then 1 else 0) + 2 * And(a / 2, b / 2)
  }

  // A C char is a signed byte here, so it is sign-extended by the exclusive or.
  function SignExtend(c: char): nat {
    var b := c as int % 256;
    if b < 128 then b else TWO_64 - 256 + b
  }

  function Fnv(hash: nat, key: string): nat
    decreases |key|
  {
    if key == [] then hash
    else Fnv(Xor(hash, SignExtend(key[0])) * FNV_PRIME % TWO_64, key[1..])
  }

  // The slot at which probing for a key starts.
  function Home(capacity: nat, key: string): (slot: nat)
    requires capacity >= 1
    ensures slot < capacity
  {
    And(Fnv(FNV_OFFSET_BASIS, key), capacity - 1)
  }

  method HashKey(capacity: nat, key: string) returns (slot: nat)
    requires capacity >= 1
    ensures slot == Home(capacity, key) && slot < capacity
  {
    var hash: nat := FNV_OFFSET_BASIS;
    for i := 0 to |key|
      invariant Fnv(hash, key[i..]) == Fnv(FNV_OFFSET_BASIS, key)
    {
      hash := Xor(hash, SignExtend(key[i])) * FNV_PRIME % TWO_64;
    }
    slot := And(hash, capacity - 1);
  }

  function Shifted(a: nat, bits: nat): nat { if bits == 0 then a else 2 * Shifted(a, bits - 1) }

  // The exclusive or with a number of so many bits leaves the bits above them alone.
  lemma {:induction false} XorLow(high: nat, a: nat, b: nat, bits: nat)
    requires a < Shifted(1, bits) && b < Shifted(1, bits)
    ensures Xor(Shifted(high, bits) + a, b) == Shifted(high, bits) + Xor(a, b)
    decreases bits
  {
    if bits > 0 {
      var p := Shifted(high, bits - 1);
      assert (2 * p + a) / 2 == p + a / 2 && (2 * p + a) % 2 == a % 2;
      XorLow(high, a / 2, b / 2, bits - 1);
      XorUnfolds(2 * p + a, b);
      XorUnfolds(a, b);
    }
  }

  lemma XorUnfolds(a: nat, b: nat)
    ensures Xor(a, b) == (a % 2 + b % 2) % 2 + 2 * Xor(a / 2, b / 2)
  {
  }

  lemma Shifts()
    ensures Shifted(1, 8) == 256 && Shifted(0xcbf29ce4842223, 8) == 0xcbf29ce484222300
  {
    assert Shifted(1, 4) == 16 && Shifted(0xcbf29ce4842223, 4) == 0xcbf29ce48422230;
  }

  lemma LowXor()
    ensures Xor(0x25, 0x61) == 0x44
  {
    XorUnfolds(0x25, 0x61);
    XorUnfolds(0x12, 0x30);
    XorUnfolds(0x9, 0x18);
    XorUnfolds(0x4, 0xc);
    hide Xor;
    assert Xor(0x2, 0x6) == 0x4 by {
      XorUnfolds(0x2, 0x6);
      XorUnfolds(0x1, 0x3);
      ZeroXor(0x1);
    }
  }

  lemma ZeroXor(b: nat)
    ensures Xor(0, b) == b
  {
  }

  // The hashes of the empty key and of "a" are those published with the FNV-1a algorithm.
  lemma PublishedHashes()
    ensures Fnv(FNV_OFFSET_BASIS, "") == 0xcbf29ce484222325 && Fnv(FNV_OFFSET_BASIS, "a") == 0xaf63dc4c8601ec8c
  {
    hide Xor, Shifted;
    Shifts();
    LowXor();
    XorLow(0xcbf29ce4842223, 0x25, 0x61, 8);
    assert "a"[1..] == "" && SignExtend('a') == 0x61;
    assert Xor(FNV_OFFSET_BASIS, 0x61) == 0xcbf29ce484222344;
    assert Fnv(0xaf63dc4c8601ec8c, "") == 0xaf63dc4c8601ec8c;
  }

  // The default capacity is 20 and 20 - 1 has only three bits set: probing starts in one of
  // eight slots whatever the key.
  lemma DefaultStartSlots(key: string)
    ensures Home(20, key) in {0, 1, 2, 3, 16, 17, 18, 19}
  {
    var h := Fnv(FNV_OFFSET_BASIS, key);
    assert And(h, 19) == (if h == 0 then 0 else (if h % 2 == 1 then 1 else 0) + 2 * And(h / 2, 9));
    AndNine(h / 2);
  }

  lemma AndNine(h: nat)
    ensures And(h, 9) in {0, 1, 8, 9}
  {
    if h != 0 {
      AndFour(h / 2);
    }
  }

  lemma AndFour(h: nat)
    ensures And(h, 4) in {0, 4}
  {
    if h != 0 {
      if h / 2 != 0 {
        assert And(h / 2 / 2, 1) in {0, 1} ;
      }
    }
  }
}
