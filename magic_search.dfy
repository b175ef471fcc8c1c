/** The magic-number search and the attack tables it makes possible
    (crates/lookup/src/generators/magic.rs, `find_magic` and the
    `generate_*_magics` / `generate_*_attacks` loops), and the lookup the
    engine does with them (`get_rook_attacks` / `get_bishop_attacks`). */
module MagicSearch {
  import opened Wrappers
  import opened Squares
  import opened Bitboards
  import opened LookupUtils
  import opened MagicMasks

  /** The seed `find_magic` starts its xor-shift sequence from. */
  const MagicSeed: bv32 := 4213371337

  /** How many random numbers `find_magic` draws before giving up. */
  const Attempts: nat := 100_000_000

  /** The number of slots of the rook and the bishop attack tables. */
  function TableSize(slider: Slider): nat
  {
    match slider
    case Rook => 4096
    case Bishop => 512
  }

  /** The squares of the top byte (`& 0xFF00000000000000`) of a 64-bit
      number. */
  function TopByte(v: nat): Bitboard
  {
    set q: Square | q >= 56 && Bit(v, q)
  }

  /** `is_magic_canidate`: at least six of the top eight bits of
      `mask * magic` (wrapping) are set. */
  predicate IsMagicCandidate(mask: Bitboard, magic: U64)
  {
    |TopByte(WrappingMul(Value(mask), magic))| >= 6
  }

  lemma {:induction false} BitOfZero(k: nat)
    ensures !Bit(0, k)
  {
    if k > 0 {
      BitOfZero(k - 1);
    }
  }

  lemma TopByteZero()
    ensures TopByte(0) == {}
  {
    forall q: Square
      ensures q !in TopByte(0)
    {
      BitOfZero(q);
    }
  }

  /** Zero is never a candidate, and nothing is a candidate for an empty
      mask: both products are 0. */
  lemma ZeroIsNoCandidate(mask: Bitboard, magic: U64)
    requires magic == 0 || mask == {}
    ensures !IsMagicCandidate(mask, magic)
  {
    ValueBelowZero(mask, 64);
    assert Value(mask) * magic == 0;
    TopByteZero();
  }

  /** The subsets `permutate` produces for `0 .. 2^ones`, in that order. */
  ghost function Enumeration(mask: Bitboard, ones: nat): (blockers: seq<Bitboard>)
    requires ones <= |mask|
    ensures |blockers| == Pow2(ones)
  {
    seq(Pow2(ones), i requires 0 <= i => Permutation(i, ones, mask))
  }

  /** The slot `get_magic_index` gives each board. */
  function SlotsOf(blockers: seq<Bitboard>, magic: U64, ones: nat): (slots: seq<nat>)
    requires 1 <= ones <= 64
    ensures |slots| == |blockers|
    ensures forall i :: 0 <= i < |blockers| ==> slots[i] < Pow2(ones)
  {
    seq(|blockers|, i requires 0 <= i < |blockers| => MagicIndex(blockers[i], magic, ones))
  }

  /** The attacks of each board. */
  function TargetsOf(slider: Slider, from: Square, blockers: seq<Bitboard>): (targets: seq<Bitboard>)
    ensures |targets| == |blockers|
  {
    seq(|blockers|, i requires 0 <= i < |blockers| => Attacks(slider, from, blockers[i]))
  }

  /** The slots of the enumeration under a magic. */
  ghost function Slots(mask: Bitboard, ones: nat, magic: U64): seq<nat>
    requires 1 <= ones <= |mask| && ones <= 12
  {
    SlotsOf(Enumeration(mask, ones), magic, ones)
  }

  /** The attacks the table has to hold for the enumeration. */
  ghost function Targets(slider: Slider, from: Square, mask: Bitboard, ones: nat): seq<Bitboard>
    requires ones <= |mask|
  {
    TargetsOf(slider, from, Enumeration(mask, ones))
  }

  /** Among the first `count` entries, two that share a slot have the
      same attacks: one table entry can serve both. */
  predicate NoConflict(slots: seq<nat>, targets: seq<Bitboard>, count: nat)
    requires count <= |slots| && count <= |targets|
  {
    forall i, j :: 0 <= i < j < count && slots[i] == slots[j] ==> targets[i] == targets[j]
  }

  /** The whole enumeration fits a table under `magic`. */
  ghost predicate Collisionless(slider: Slider, from: Square, mask: Bitboard, ones: nat, magic: U64)
    requires 1 <= ones <= |mask| && ones <= 12
  {
    NoConflict(Slots(mask, ones, magic), Targets(slider, from, mask, ones), Pow2(ones))
  }

  /** A number `find_magic` accepts. */
  ghost predicate IsMagic(slider: Slider, from: Square, mask: Bitboard, ones: nat, magic: U64)
    requires 1 <= ones <= |mask| && ones <= 12
  {
    IsMagicCandidate(mask, magic) && Collisionless(slider, from, mask, ones, magic)
  }

  /** The number drawn in attempt `n` from `seed`: every attempt moves the
      seed on twelve steps. */
  function CandidateAt(seed: bv32, n: nat): U64
  {
    Random64FewBits(XorShiftN(seed, 12 * n)).0 as int
  }

  /** The numbers `find_magic` draws, attempt by attempt. */
  function Draws(): nat -> U64
  {
    (n: nat) => CandidateAt(MagicSeed, n)
  }

  /** The first of the numbers `draws(n)`, `draws(n + 1)`, ... below
      attempt `Attempts` that is a magic, or `None`. */
  ghost function FirstMagic(slider: Slider, from: Square, mask: Bitboard, ones: nat, draws: nat -> U64, n: nat): Option<U64>
    requires 1 <= ones <= |mask| && ones <= 12
    decreases Attempts - n
  {
    if n >= Attempts then None
    else if IsMagic(slider, from, mask, ones, draws(n)) then Some(draws(n))
    else FirstMagic(slider, from, mask, ones, draws, n + 1)
  }

  /** Whatever `FirstMagic` returns is a magic, and it is the number of the
      first attempt that draws one. */
  lemma {:induction false} FirstMagicSound(slider: Slider, from: Square, mask: Bitboard, ones: nat, draws: nat -> U64, n: nat)
    requires 1 <= ones <= |mask| && ones <= 12
    requires FirstMagic(slider, from, mask, ones, draws, n).Some?
    ensures IsMagic(slider, from, mask, ones, FirstMagic(slider, from, mask, ones, draws, n).value)
    ensures exists k ::
      && n <= k < Attempts
      && draws(k) == FirstMagic(slider, from, mask, ones, draws, n).value
      && (forall j :: n <= j < k ==> !IsMagic(slider, from, mask, ones, draws(j)))
    decreases Attempts - n
  {
    if !IsMagic(slider, from, mask, ones, draws(n)) {
      FirstMagicSound(slider, from, mask, ones, draws, n + 1);
    }
  }

  /** `None` means none of the numbers drawn is a magic. */
  lemma {:induction false} FirstMagicNone(slider: Slider, from: Square, mask: Bitboard, ones: nat, draws: nat -> U64, n: nat, k: nat)
    requires 1 <= ones <= |mask| && ones <= 12
    requires FirstMagic(slider, from, mask, ones, draws, n).None? && n <= k < Attempts
    ensures !IsMagic(slider, from, mask, ones, draws(k))
    decreases Attempts - n
  {
    if n < k {
      FirstMagicNone(slider, from, mask, ones, draws, n + 1, k);
    }
  }

  /** One attempt of the search: a magic ends it, anything else passes it
      on to the next attempt. */
  lemma FirstMagicStep(slider: Slider, from: Square, mask: Bitboard, ones: nat, draws: nat -> U64, n: nat)
    requires 1 <= ones <= |mask| && ones <= 12 && n < Attempts
    ensures FirstMagic(slider, from, mask, ones, draws, n) ==
      if IsMagic(slider, from, mask, ones, draws(n)) then Some(draws(n))
      else FirstMagic(slider, from, mask, ones, draws, n + 1)
  {
  }

  /** A new entry keeps the buffers free of conflicts when every earlier
      entry in its slot holds the same attacks. */
  lemma NoConflictStep(slots: seq<nat>, targets: seq<Bitboard>, count: nat)
    requires count < |slots| && count < |targets|
    requires NoConflict(slots, targets, count)
    requires forall i :: 0 <= i < count ==> slots[i] == slots[count] ==> targets[i] == targets[count]
    ensures NoConflict(slots, targets, count + 1)
  {
  }

  lemma Pow2Twelve()
    ensures Pow2(12) == 4096 && Pow2(9) == 512
  {
  }

  /** The slot of any board for `ones <= 12` fits a 4096-entry buffer. */
  lemma SlotFits(b: Bitboard, magic: U64, ones: nat)
    requires 1 <= ones <= 12
    ensures MagicIndex(b, magic, ones) < 4096
  {
    Pow2Monotone(ones, 12);
    Pow2Twelve();
  }

  /** The inner loop of `find_magic`: each subset claims the empty slot
      it hashes to, and the magic fails at the first slot that already
      holds different attacks. Attack sets are never empty, so an empty
      slot is a free one. */
  method TryMagic(permutations: array<Bitboard>, attacks: array<Bitboard>, count: nat, magic: U64, ones: nat)
    returns (failed: bool)
    requires count <= permutations.Length && count <= attacks.Length
    requires 1 <= ones <= 12
    requires forall i :: 0 <= i < count ==> attacks[i] != {}
    ensures failed <==> !NoConflict(SlotsOf(permutations[..count], magic, ones), attacks[..count], count)
  {
    ghost var slots, targets := SlotsOf(permutations[..count], magic, ones), attacks[..count];
    var used := new Bitboard[4096](_ => {});
    failed := false;
    var index := 0;
    while index < count
      invariant 0 <= index <= count
      invariant NoConflict(slots, targets, index)
      invariant forall i :: 0 <= i < index ==> slots[i] < 4096 && used[slots[i]] == targets[i]
      invariant forall k :: 0 <= k < 4096 && used[k] != {} ==> exists i :: 0 <= i < index && slots[i] == k
    {
      var permutation := permutations[index];
      var magicIndex := MagicIndex(permutation, magic, ones);
      SlotFits(permutation, magic, ones);
      var conflict := ClaimSlot(used, slots, targets, index, magicIndex, attacks[index]);
      if conflict {
        failed := true;
        return;
      }
      index := index + 1;
    }
  }

  /** One step of the inner loop of `find_magic`: subset `index` claims
      its slot when the slot is empty, and conflicts when the slot holds
      different attacks. */
  method ClaimSlot(used: array<Bitboard>, ghost slots: seq<nat>, ghost targets: seq<Bitboard>,
                   index: nat, slot: nat, attack: Bitboard)
    returns (conflict: bool)
    requires used.Length == 4096 && index < |slots| && index < |targets|
    requires slot == slots[index] < 4096 && attack == targets[index]
    requires forall i :: 0 <= i <= index ==> targets[i] != {}
    requires NoConflict(slots, targets, index)
    requires forall i :: 0 <= i < index ==> slots[i] < 4096 && used[slots[i]] == targets[i]
    requires forall k :: 0 <= k < 4096 && used[k] != {} ==> exists i :: 0 <= i < index && slots[i] == k
    modifies used
    ensures conflict <==> !NoConflict(slots, targets, index + 1)
    ensures !conflict ==> forall i :: 0 <= i <= index ==> slots[i] < 4096 && used[slots[i]] == targets[i]
    ensures !conflict ==> forall k :: 0 <= k < 4096 && used[k] != {} ==> exists i :: 0 <= i <= index && slots[i] == k
  {
    conflict := false;
    if used[slot] == {} {
      forall i | 0 <= i < index
        ensures slots[i] != slot
      {
        assert targets[i] != {};
      }
      NoConflictStep(slots, targets, index);
      used[slot] := attack;
    } else if used[slot] != attack {
      ghost var i :| 0 <= i < index && slots[i] == slot;
      assert targets[i] != targets[index];
      conflict := true;
    } else {
      NoConflictStep(slots, targets, index);
    }
  }

  /** `find_magic`: fills the two buffers with the enumeration, then draws
      numbers until one is a candidate that `TryMagic` accepts. */
  method FindMagic(slider: Slider, from: Square, mask: Bitboard, ones: nat) returns (r: Option<U64>)
    requires 1 <= ones <= |mask| && ones <= 12
    ensures r == FirstMagic(slider, from, mask, ones, Draws(), 0)
  {
    var permutations := new Bitboard[4096](_ => {});
    var attacks := new Bitboard[4096](_ => {});
    FillEnumeration(permutations, attacks, slider, from, mask, ones);
    r := SearchMagic(permutations, attacks, slider, from, mask, ones);
  }

  /** The first loop of `find_magic`: subset `index` and its attacks go to
      slot `index` of the two buffers. */
  method FillEnumeration(permutations: array<Bitboard>, attacks: array<Bitboard>,
                         slider: Slider, from: Square, mask: Bitboard, ones: nat)
    requires 1 <= ones <= |mask| && ones <= 12
    requires permutations.Length == 4096 && attacks.Length == 4096 && permutations != attacks
    modifies permutations, attacks
    ensures Pow2(ones) <= 4096
    ensures permutations[..Pow2(ones)] == Enumeration(mask, ones)
    ensures attacks[..Pow2(ones)] == Targets(slider, from, mask, ones)
    ensures forall i :: 0 <= i < Pow2(ones) ==> attacks[i] != {}
  {
    var permutationCount := Pow2(ones);
    Pow2Monotone(ones, 12);
    Pow2Twelve();
    ghost var blockers := Enumeration(mask, ones);
    ghost var targets := Targets(slider, from, mask, ones);
    for index := 0 to permutationCount
      invariant forall i :: 0 <= i < index ==> permutations[i] == blockers[i] && attacks[i] == targets[i]
    {
      StoreSubset(permutations, attacks, slider, from, mask, ones, index);
    }
    assert permutations[..permutationCount] == blockers;
    assert attacks[..permutationCount] == targets;
    forall i | 0 <= i < permutationCount
      ensures attacks[i] != {}
    {
      AttacksNonEmpty(slider, from, blockers[i]);
    }
  }

  /** One round of the first loop of `find_magic`: subset `index` and its
      attacks are stored at `index`; nothing else changes. */
  method StoreSubset(permutations: array<Bitboard>, attacks: array<Bitboard>,
                     slider: Slider, from: Square, mask: Bitboard, ones: nat, index: nat)
    requires ones <= |mask| && index < Pow2(ones)
    requires index < permutations.Length && index < attacks.Length && permutations != attacks
    modifies permutations, attacks
    ensures permutations[index] == Enumeration(mask, ones)[index]
    ensures attacks[index] == Targets(slider, from, mask, ones)[index]
    ensures forall i :: 0 <= i < permutations.Length && i != index ==> permutations[i] == old(permutations[i])
    ensures forall i :: 0 <= i < attacks.Length && i != index ==> attacks[i] == old(attacks[i])
  {
    var permutation := Permutate(index, ones, mask);
    permutations[index] := permutation;
    attacks[index] := Attacks(slider, from, permutation);
  }

  /** The second loop of `find_magic`: up to `Attempts` draws from the
      seed, each moving it on twelve xor-shift steps. */
  method SearchMagic(permutations: array<Bitboard>, attacks: array<Bitboard>,
                     slider: Slider, from: Square, mask: Bitboard, ones: nat) returns (r: Option<U64>)
    requires 1 <= ones <= |mask| && ones <= 12
    requires Pow2(ones) <= permutations.Length && Pow2(ones) <= attacks.Length
    requires permutations[..Pow2(ones)] == Enumeration(mask, ones)
    requires attacks[..Pow2(ones)] == Targets(slider, from, mask, ones)
    requires forall i :: 0 <= i < Pow2(ones) ==> attacks[i] != {}
    ensures r == FirstMagic(slider, from, mask, ones, Draws(), 0)
  {
    ghost var draws := Draws();
    ghost var first := FirstMagic(slider, from, mask, ones, draws, 0);
    var seed := MagicSeed;
    for attempt := 0 to Attempts
      invariant seed == XorShiftN(MagicSeed, 12 * attempt)
      invariant first == FirstMagic(slider, from, mask, ones, draws, attempt)
    {
      var magic;
      magic, seed := NextDraw(seed, attempt);
      FirstMagicStep(slider, from, mask, ones, draws, attempt);
      var accepted := TestMagic(permutations, attacks, slider, from, mask, ones, magic);
      if accepted {
        return Some(magic);
      }
    }
    return None;
  }

  /** `random_64_few_bits` in attempt `attempt`: the number drawn, and the
      seed moved on twelve steps. */
  method NextDraw(seed: bv32, attempt: nat) returns (magic: U64, next: bv32)
    requires seed == XorShiftN(MagicSeed, 12 * attempt)
    ensures magic == Draws()(attempt)
    ensures next == XorShiftN(MagicSeed, 12 * (attempt + 1))
  {
    var result := Random64FewBits(seed);
    SeedsCompose(MagicSeed, 12 * attempt, 12);
    assert 12 * attempt + 12 == 12 * (attempt + 1);
    magic, next := result.0 as int, result.1;
  }

  /** One attempt of `find_magic`: a number that is no candidate is
      skipped, a candidate is tried on the buffers. */
  method TestMagic(permutations: array<Bitboard>, attacks: array<Bitboard>,
                   slider: Slider, from: Square, mask: Bitboard, ones: nat, magic: U64) returns (accepted: bool)
    requires 1 <= ones <= |mask| && ones <= 12
    requires Pow2(ones) <= permutations.Length && Pow2(ones) <= attacks.Length
    requires permutations[..Pow2(ones)] == Enumeration(mask, ones)
    requires attacks[..Pow2(ones)] == Targets(slider, from, mask, ones)
    requires forall i :: 0 <= i < Pow2(ones) ==> attacks[i] != {}
    ensures accepted <==> IsMagic(slider, from, mask, ones, magic)
  {
    if !IsMagicCandidate(mask, magic) {
      return false;
    }
    var failed := TryMagic(permutations, attacks, Pow2(ones), magic, ones);
    accepted := !failed;
  }

  /** The masks of every square with their sizes, as `generate_*_magics`
      and `generate_*_attacks` receive them. */
  predicate MasksFit(masks: seq<Bitboard>, maskOnes: seq<nat>)
  {
    && |masks| == 64 && |maskOnes| == 64
    && forall s: Square :: maskOnes[s] == |masks[s]| && 1 <= maskOnes[s] <= 12
  }

  /** The outcome of the search for every square. */
  ghost function MagicSearches(slider: Slider, masks: seq<Bitboard>, maskOnes: seq<nat>): (r: seq<Option<U64>>)
    requires MasksFit(masks, maskOnes)
    ensures |r| == 64
  {
    seq(64, s requires 0 <= s < 64 => FirstMagic(slider, s, masks[s], maskOnes[s], Draws(), 0))
  }

  /** `generate_rook_magics` / `generate_bishop_magics`: a magic per
      square. Where the source stops with a panic, `found` is false. */
  method GenerateMagics(slider: Slider, masks: seq<Bitboard>, maskOnes: seq<nat>)
    returns (magics: array<U64>, found: bool)
    requires MasksFit(masks, maskOnes)
    ensures fresh(magics) && magics.Length == 64
    ensures found <==> forall s: Square :: MagicSearches(slider, masks, maskOnes)[s].Some?
    ensures found ==> forall s: Square :: MagicSearches(slider, masks, maskOnes)[s] == Some(magics[s])
  {
    ghost var searches := MagicSearches(slider, masks, maskOnes);
    magics := new U64[64](_ => 0);
    for from := 0 to 64
      invariant forall s: Square :: s < from ==> searches[s] == Some(magics[s])
    {
      var ok := AddMagic(magics, slider, masks, maskOnes, from);
      if !ok {
        found := false;
        return;
      }
    }
    found := true;
  }

  /** The loop body of `generate_rook_magics`: the magic of one square,
      or false where the source panics; no other entry changes. */
  method AddMagic(magics: array<U64>, slider: Slider, masks: seq<Bitboard>, maskOnes: seq<nat>, from: Square)
    returns (ok: bool)
    requires MasksFit(masks, maskOnes) && magics.Length == 64
    modifies magics
    ensures ok <==> MagicSearches(slider, masks, maskOnes)[from].Some?
    ensures ok ==> MagicSearches(slider, masks, maskOnes)[from] == Some(magics[from])
    ensures forall s :: 0 <= s < 64 && s != from ==> magics[s] == old(magics[s])
  {
    var ones := maskOnes[from];
    var mask := masks[from];
    var result := FindMagic(slider, from, mask, ones);
    ok := result.Some?;
    if ok {
      magics[from] := result.value;
    }
  }

  /** Row `from` of an attack table answers entry `i` of `slots` and
      `targets`: slot `slots[i]` holds `targets[i]`. */
  ghost predicate RowCorrect(table: array2<Bitboard>, from: Square, slots: seq<nat>, targets: seq<Bitboard>)
    requires from < table.Length0 && |slots| <= |targets|
    reads table
  {
    forall i :: 0 <= i < |slots| ==> slots[i] < table.Length1 && table[from, slots[i]] == targets[i]
  }

  /** A row, as a sequence, that answers the first `count` entries. */
  ghost predicate RowHolds(row: seq<Bitboard>, slots: seq<nat>, targets: seq<Bitboard>, count: nat)
    requires count <= |slots| && count <= |targets|
  {
    forall i :: 0 <= i < count ==> slots[i] < |row| && row[slots[i]] == targets[i]
  }

  /** Storing entry `index` keeps the earlier ones answered: any of them
      in the same slot has the same attacks. */
  lemma RowStep(row: seq<Bitboard>, slots: seq<nat>, targets: seq<Bitboard>, index: nat)
    requires index < |slots| == |targets| && slots[index] < |row|
    requires NoConflict(slots, targets, |slots|)
    requires RowHolds(row, slots, targets, index)
    ensures RowHolds(row[slots[index] := targets[index]], slots, targets, index + 1)
  {
  }

  /** The inner loop of `generate_rook_attacks` for one square. Later
      subsets may overwrite the slot of earlier ones, with the same
      attacks when the magic is collisionless. */
  method FillRow(table: array2<Bitboard>, slider: Slider, from: Square, mask: Bitboard, ones: nat, magic: U64)
    requires 1 <= ones <= |mask| && ones <= 12
    requires from < table.Length0 && Pow2(ones) <= table.Length1
    requires Collisionless(slider, from, mask, ones, magic)
    modifies table
    ensures RowCorrect(table, from, Slots(mask, ones, magic), Targets(slider, from, mask, ones))
    ensures forall s, k :: 0 <= s < table.Length0 && 0 <= k < table.Length1 && s != from ==>
      table[s, k] == old(table[s, k])
  {
    ghost var slots, targets := Slots(mask, ones, magic), Targets(slider, from, mask, ones);
    ghost var row := seq(table.Length1, k requires 0 <= k < table.Length1 reads table => table[from, k]);
    var permutations := Pow2(ones);
    for index := 0 to permutations
      invariant |row| == table.Length1
      invariant forall k :: 0 <= k < table.Length1 ==> table[from, k] == row[k]
      invariant RowHolds(row, slots, targets, index)
      invariant forall s, k :: 0 <= s < table.Length0 && 0 <= k < table.Length1 && s != from ==>
        table[s, k] == old(table[s, k])
    {
      var blockers := Permutate(index, ones, mask);
      var magicIndex := MagicIndex(blockers, magic, ones);
      var attacks := Attacks(slider, from, blockers);
      assert magicIndex == slots[index] && attacks == targets[index];
      RowStep(row, slots, targets, index);
      row := row[magicIndex := attacks];
      table[from, magicIndex] := attacks;
    }
  }

  /** The rows a table needs for every square. */
  ghost predicate TableCorrect(table: array2<Bitboard>, slider: Slider,
                               masks: seq<Bitboard>, maskOnes: seq<nat>, magics: seq<U64>)
    requires table.Length0 == 64 && MasksFit(masks, maskOnes) && |magics| == 64
    reads table
  {
    forall s: Square :: RowCorrect(table, s, Slots(masks[s], maskOnes[s], magics[s]),
                                   Targets(slider, s, masks[s], maskOnes[s]))
  }

  /** `generate_rook_attacks` / `generate_bishop_attacks`: 4096 slots per
      square for the rook, 512 for the bishop. */
  method GenerateAttacks(slider: Slider, masks: seq<Bitboard>, maskOnes: seq<nat>, magics: seq<U64>)
    returns (table: array2<Bitboard>)
    requires MasksFit(masks, maskOnes) && |magics| == 64
    requires forall s: Square :: Pow2(maskOnes[s]) <= TableSize(slider)
    requires forall s: Square :: Collisionless(slider, s, masks[s], maskOnes[s], magics[s])
    ensures fresh(table) && table.Length0 == 64 && table.Length1 == TableSize(slider)
    ensures TableCorrect(table, slider, masks, maskOnes, magics)
  {
    table := new Bitboard[64, TableSize(slider)]((_, _) => {});
    for from := 0 to 64
      invariant forall s: Square :: s < from ==>
        RowCorrect(table, s, Slots(masks[s], maskOnes[s], magics[s]), Targets(slider, s, masks[s], maskOnes[s]))
    {
      FillRow(table, slider, from, masks[from], maskOnes[from], magics[from]);
    }
  }

  /** `get_rook_attacks` / `get_bishop_attacks`: the slot of the
      occupancy's part inside the mask holds the attacks for the whole
      occupancy. */
  lemma LookupCorrect(table: array2<Bitboard>, slider: Slider, from: Square, magic: U64, occupancy: Bitboard)
    requires 1 <= |Mask(slider, from)| <= 12 && from < table.Length0
    requires RowCorrect(table, from, Slots(Mask(slider, from), |Mask(slider, from)|, magic),
                        Targets(slider, from, Mask(slider, from), |Mask(slider, from)|))
    ensures MagicIndex(occupancy * Mask(slider, from), magic, |Mask(slider, from)|) < table.Length1
    ensures table[from, MagicIndex(occupancy * Mask(slider, from), magic, |Mask(slider, from)|)]
      == Attacks(slider, from, occupancy)
  {
    var mask := Mask(slider, from);
    var ones := |mask|;
    var blockers := occupancy * mask;
    PermutationOnto(blockers, mask);
    var index := IndexOf(Selection(blockers, ones, mask));
    assert Enumeration(mask, ones)[index] == blockers;
    assert Slots(mask, ones, magic)[index] == MagicIndex(blockers, magic, ones);
    assert Targets(slider, from, mask, ones)[index] == Attacks(slider, from, blockers);
    MaskRelevant(slider, from, occupancy);
  }
}
