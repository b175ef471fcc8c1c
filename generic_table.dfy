/** The fixed-size hash table of the engine crate: a power-of-two number
    of slots, each holding at most one entry, indexed by the key modulo
    the size (crates/engine/src/hashtable/generic/generic.rs). The
    `HashEntry` trait of an entry type becomes two functions the table is
    built with: `keyOf` for `key`, and `canReplace(stored, new)` for
    `stored.replaceable(&new)`, which says whether `new` may overwrite
    `stored`. */
module GenericTables {
  import opened Wrappers

  /** `n` is a power of two. */
  predicate IsPowerOfTwo(n: nat)
    decreases n
  {
    n == 1 || (n > 1 && n % 2 == 0 && IsPowerOfTwo(n / 2))
  }

  /** The search of `next_power_of_two`: doubling `p` until it reaches `n`. */
  function Doubling(n: nat, p: nat): (r: nat)
    requires IsPowerOfTwo(p) && (p == 1 || p / 2 < n)
    ensures IsPowerOfTwo(r) && r >= n && r >= p
    ensures r == 1 || r / 2 < n
    decreases n - p
  {
    if p >= n then p else Doubling(n, 2 * p)
  }

  /** `usize::next_power_of_two`: the smallest power of two that is at
      least `n`; for 0 it is 1. */
  function NextPowerOfTwo(n: nat): (r: nat)
    ensures IsPowerOfTwo(r) && r >= n && r > 0
    ensures r == 1 || r / 2 < n
  {
    Doubling(n, 1)
  }

  /** A power of two whose half lies below `n` is the smallest power of
      two at least `n`. */
  lemma {:induction false} NextPowerOfTwoSmallest(n: nat, q: nat)
    requires IsPowerOfTwo(q) && q >= n
    ensures NextPowerOfTwo(n) <= q
  {
    var r := NextPowerOfTwo(n);
    if r > q {
      PowersOfTwoDouble(q, r);
    }
  }

  /** Of two powers of two, the larger is at least twice the smaller. */
  lemma {:induction false} PowersOfTwoDouble(q: nat, r: nat)
    requires IsPowerOfTwo(q) && IsPowerOfTwo(r) && q < r
    ensures 2 * q <= r
    decreases r
  {
    if q > 1 {
      PowersOfTwoDouble(q / 2, r / 2);
    }
  }

  /** The slot of a key: `key % size`. */
  function SlotOf(key: bv64, size: nat): (i: nat)
    requires size > 0
    ensures i < size
  {
    (key as int) % size
  }

  /** `store` on the slot contents: the slot of `key` takes the entry if
      it is empty or its entry is replaceable by the new one. */
  function StoreInto<T>(s: seq<Option<T>>, canReplace: (T, T) -> bool, key: bv64, entry: T): seq<Option<T>>
    requires |s| > 0
  {
    var index := SlotOf(key, |s|);
    if s[index].Some? && !canReplace(s[index].value, entry) then s else s[index := Some(entry)]
  }

  /** `probe` on the slot contents: the entry in the slot of `key`, when
      its own key is `key`. */
  function ProbeIn<T>(s: seq<Option<T>>, keyOf: T -> bv64, key: bv64): Option<T>
    requires |s| > 0
  {
    var index := SlotOf(key, |s|);
    if s[index].Some? && keyOf(s[index].value) == key then s[index] else None
  }

  /** Only the slot of the key can change, and it changes to the new
      entry exactly when it was empty or replaceable. */
  lemma StoreTouchesOneSlot<T>(s: seq<Option<T>>, canReplace: (T, T) -> bool, key: bv64, entry: T)
    requires |s| > 0
    ensures var r := StoreInto(s, canReplace, key, entry);
      && |r| == |s|
      && (forall i :: 0 <= i < |s| && i != SlotOf(key, |s|) ==> r[i] == s[i])
      && (r[SlotOf(key, |s|)] == Some(entry) <==>
            s[SlotOf(key, |s|)].None? || canReplace(s[SlotOf(key, |s|)].value, entry) || s[SlotOf(key, |s|)] == Some(entry))
  {
  }

  /** A probe answers only with an entry that carries the probed key. */
  lemma ProbeKeyMatches<T>(s: seq<Option<T>>, keyOf: T -> bv64, key: bv64)
    requires |s| > 0
    ensures var r := ProbeIn(s, keyOf, key); r.Some? ==> keyOf(r.value) == key && r.value in Values(s)
  {
  }

  function Values<T>(s: seq<Option<T>>): set<T>
  {
    set i | 0 <= i < |s| && s[i].Some? :: s[i].value
  }

  /** Storing an entry under its own key into a free or replaceable slot,
      then probing that key, finds the entry. */
  lemma StoreThenProbe<T>(s: seq<Option<T>>, keyOf: T -> bv64, canReplace: (T, T) -> bool, key: bv64, entry: T)
    requires |s| > 0 && keyOf(entry) == key
    requires var i := SlotOf(key, |s|); s[i].None? || canReplace(s[i].value, entry)
    ensures ProbeIn(StoreInto(s, canReplace, key, entry), keyOf, key) == Some(entry)
  {
  }

  class GenericTable<T> {
    /** `HashEntry::key`. */
    const keyOf: T -> bv64
    /** `HashEntry::replaceable`, called on the stored entry. */
    const canReplace: (T, T) -> bool
    var size: nat
    var entries: array<Option<T>>

    ghost predicate Valid()
      reads this
    {
      size > 0 && IsPowerOfTwo(size) && entries.Length == size
    }

    /** `GenericTable::entries`: `next_power_of_two(n)` empty slots. The
        assertion that the size is positive always holds. */
    constructor Entries(n: nat, keyOf: T -> bv64, canReplace: (T, T) -> bool)
      ensures Valid() && fresh(entries)
      ensures size == NextPowerOfTwo(n) && size >= n
      ensures forall i :: 0 <= i < size ==> entries[i] == None
      ensures this.keyOf == keyOf && this.canReplace == canReplace
    {
      this.keyOf := keyOf;
      this.canReplace := canReplace;
      size := NextPowerOfTwo(n);
      new;
      entries := new Option<T>[size](_ => None);
    }

    /** `store`: writes slot `key % size` when it is empty or its entry is
        replaceable by the new one; nothing else changes. */
    method Store(key: bv64, entry: T)
      requires Valid()
      modifies entries
      ensures Valid()
      ensures entries[..] == StoreInto(old(entries[..]), canReplace, key, entry)
    {
      var index := SlotOf(key, size);
      var stored := entries[index];
      if stored.Some? && !canReplace(stored.value, entry) {
        return;
      }
      entries[index] := Some(entry);
    }

    /** `probe`: the entry in slot `key % size` if it carries `key`. */
    method Probe(key: bv64) returns (r: Option<T>)
      requires Valid()
      ensures r == ProbeIn(entries[..], keyOf, key)
    {
      var index := SlotOf(key, size);
      var entry := entries[index];
      if entry.Some? && keyOf(entry.value) == key {
        return entry;
      }
      return None;
    }
  }
}
