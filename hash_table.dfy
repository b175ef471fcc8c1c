/** The older hash table: its size is rounded up to a power of two so
    that the slot of a key is `key & (size - 1)` (src/hashtable/mod.rs).
    Keys and sizes are `u64`/`usize` numbers; the bitwise AND the table
    relies on is spelled out bit by bit (`And`), and its two uses are
    proved to mean what the code intends: `v & (v - 1) == 0` tests for a
    power of two, and masking with `size - 1` takes the key modulo the
    size. As in the engine-crate table, an entry type's `HashEntry`
    methods become the functions `keyOf` and `canReplace(stored, new)`. */
module HashTables {
  import opened Wrappers
  import GenericTables

  /** Bitwise AND of two naturals: bit 0 of each, then the rest. */
  function And(a: nat, b: nat): nat
    decreases a
  {
    if a == 0 || b == 0 then 0 else 2 * And(a / 2, b / 2) + (a % 2) * (b % 2)
  }

  /** The recursion of `And` holds for every pair, zero included. */
  lemma AndStep(a: nat, b: nat)
    ensures And(a, b) == 2 * And(a / 2, b / 2) + (a % 2) * (b % 2)
  {
    if a == 0 || b == 0 {
      assert And(a / 2, b / 2) == 0;
    }
  }

  lemma {:induction false} AndSelf(a: nat)
    ensures And(a, a) == a
    decreases a
  {
    if a > 0 {
      AndSelf(a / 2);
    }
  }

  /** `is_power_2`: not zero, and clearing the lowest set bit leaves
      nothing. */
  predicate IsPower2(value: nat)
  {
    value != 0 && And(value, value - 1) == 0
  }

  /** The bit trick of `is_power_2` recognises exactly the powers of two;
      in particular `is_power_2(0)` is false. */
  lemma {:induction false} IsPower2Meaning(v: nat)
    ensures IsPower2(v) <==> GenericTables.IsPowerOfTwo(v)
    decreases v
  {
    if v > 1 {
      AndStep(v, v - 1);
      if v % 2 == 0 {
        assert (v - 1) / 2 == v / 2 - 1;
        IsPower2Meaning(v / 2);
      } else {
        assert (v - 1) / 2 == v / 2;
        AndSelf(v / 2);
      }
    }
  }

  /** Masking with `size - 1` for a power-of-two size keeps the key's
      low bits, which is the key modulo the size. */
  lemma {:induction false} MaskIsModulo(key: nat, size: nat)
    requires GenericTables.IsPowerOfTwo(size)
    ensures And(key, size - 1) == key % size
    decreases size
  {
    if size > 1 {
      var half := size / 2;
      AndStep(key, size - 1);
      assert (size - 1) / 2 == half - 1 && (size - 1) % 2 == 1;
      MaskIsModulo(key / 2, half);
      ModuloOfDouble(key, half);
    }
  }

  /** `k % 2t` from `(k / 2) % t` and the lowest bit. */
  lemma ModuloOfDouble(k: nat, t: nat)
    requires t > 0
    ensures k % (2 * t) == 2 * ((k / 2) % t) + k % 2
  {
    var q, r := (k / 2) / t, (k / 2) % t;
    var rest := 2 * r + k % 2;
    assert k == q * (2 * t) + rest;
    ModuloUnique(k, 2 * t, q, rest);
  }

  /** A remainder below the divisor is the remainder. */
  lemma ModuloUnique(k: int, d: int, q: int, r: int)
    requires d > 0 && k == q * d + r && 0 <= r < d
    ensures k % d == r
  {
    var diff := k / d - q;
    assert diff * d == r - k % d;
    if diff >= 1 {
      assert false;
    } else if diff <= -1 {
      assert false;
    }
  }

  /** Doubling a power of two gives a power of two. */
  lemma DoublePower(p: nat)
    requires GenericTables.IsPowerOfTwo(p)
    ensures GenericTables.IsPowerOfTwo(2 * p)
  {
    assert (2 * p) / 2 == p;
  }

  /** `to_power_2`: a power of two is kept; anything else is rounded up
      by doubling 1 until it reaches the value. The result is the
      smallest power of two at least `value` (its half lies below
      `value`). A `usize` shift past 2^63 would wrap to 0 and loop for
      ever, so the value must not exceed 2^63. */
  method ToPower2(value: nat) returns (r: nat)
    requires value <= 0x8000_0000_0000_0000
    ensures GenericTables.IsPowerOfTwo(r) && r >= value
    ensures r == 1 || r / 2 < value
    ensures GenericTables.IsPowerOfTwo(value) ==> r == value
  {
    IsPower2Meaning(value);
    r := value;
    if !IsPower2(value) {
      var power := 1;
      while power < value
        invariant GenericTables.IsPowerOfTwo(power)
        invariant power == 1 || power / 2 < value
        decreases value - power
      {
        DoublePower(power);
        power := power * 2;
      }
      r := power;
    }
  }

  /** The slot of a key: `key & (size - 1)`. */
  function IndexOf(key: nat, size: nat): (i: nat)
    requires GenericTables.IsPowerOfTwo(size)
    ensures i == key % size && i < size
  {
    MaskIsModulo(key, size);
    And(key, size - 1)
  }

  /** `store` on the slot contents. */
  function StoreInto<T>(s: seq<Option<T>>, keyOf: T -> nat, canReplace: (T, T) -> bool, entry: T): seq<Option<T>>
    requires GenericTables.IsPowerOfTwo(|s|)
  {
    var index := IndexOf(keyOf(entry), |s|);
    if s[index].Some? && !canReplace(s[index].value, entry) then s else s[index := Some(entry)]
  }

  /** `probe` on the slot contents. */
  function ProbeIn<T>(s: seq<Option<T>>, keyOf: T -> nat, key: nat): Option<T>
    requires GenericTables.IsPowerOfTwo(|s|)
  {
    var index := IndexOf(key, |s|);
    if s[index].Some? && keyOf(s[index].value) == key then s[index] else None
  }

  /** A probe answers only with an entry carrying the probed key, and an
      entry stored into a free or replaceable slot is found again under
      its own key. */
  lemma ProbeAfterStore<T>(s: seq<Option<T>>, keyOf: T -> nat, canReplace: (T, T) -> bool, entry: T, key: nat)
    requires GenericTables.IsPowerOfTwo(|s|)
    ensures var p := ProbeIn(s, keyOf, key); p.Some? ==> keyOf(p.value) == key
    ensures var i := IndexOf(keyOf(entry), |s|);
      s[i].None? || canReplace(s[i].value, entry) ==>
        ProbeIn(StoreInto(s, keyOf, canReplace, entry), keyOf, keyOf(entry)) == Some(entry)
  {
  }

  /** A store keeps the stored entry when it is not replaceable, and
      never touches another slot. */
  lemma StoreKeeps<T>(s: seq<Option<T>>, keyOf: T -> nat, canReplace: (T, T) -> bool, entry: T)
    requires GenericTables.IsPowerOfTwo(|s|)
    ensures var i := IndexOf(keyOf(entry), |s|); var r := StoreInto(s, keyOf, canReplace, entry);
      && |r| == |s|
      && (s[i].Some? && !canReplace(s[i].value, entry) ==> r == s)
      && (forall j :: 0 <= j < |s| && j != i ==> r[j] == s[j])
  {
  }

  class HashTable<T> {
    const keyOf: T -> nat
    const canReplace: (T, T) -> bool
    var size: nat
    var entries: array<Option<T>>

    ghost predicate Valid()
      reads this
    {
      GenericTables.IsPowerOfTwo(size) && entries.Length == size
    }

    /** `HashTable::entries`: `to_power_2(n)` empty slots. */
    constructor Entries(n: nat, keyOf: T -> nat, canReplace: (T, T) -> bool)
      requires n <= 0x8000_0000_0000_0000
      ensures Valid() && fresh(entries)
      ensures size >= n && (size == 1 || size / 2 < n)
      ensures forall i :: 0 <= i < entries.Length ==> entries[i] == None
      ensures this.keyOf == keyOf && this.canReplace == canReplace
    {
      this.keyOf := keyOf;
      this.canReplace := canReplace;
      var s := ToPower2(n);
      size := s;
      new;
      entries := new Option<T>[s](_ => None);
    }

    /** `probe`: the entry in slot `key & (size - 1)` if it carries `key`. */
    method Probe(key: nat) returns (r: Option<T>)
      requires Valid()
      ensures r == ProbeIn(entries[..], keyOf, key)
    {
      var index := IndexOf(key, size);
      var entry := entries[index];
      if entry.Some? && keyOf(entry.value) == key {
        return entry;
      }
      return None;
    }

    /** `store`: the slot of the entry's own key takes it unless the
        stored entry is not replaceable by it. */
    method Store(entry: T)
      requires Valid()
      modifies entries
      ensures Valid()
      ensures entries[..] == StoreInto(old(entries[..]), keyOf, canReplace, entry)
    {
      var index := IndexOf(keyOf(entry), size);
      var stored := entries[index];
      if stored.Some? && !canReplace(stored.value, entry) {
        return;
      }
      entries[index] := Some(entry);
    }
  }
}
