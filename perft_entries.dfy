/** The perft cache entries (src/hashtable/perft.rs): a key, the depth the
    count was taken at, and the count itself. An entry may only be
    overwritten by one searched to a strictly greater depth. */
module PerftEntries {
  import opened Wrappers
  import opened Search
  import opened PerftCounters
  import GenericTables

  datatype PerftEntry = PerftEntry(key: bv64, depth: U8, nodes: nat)

  datatype PerftStatsEntry = PerftStatsEntry(key: bv64, depth: U8, stats: PerftStats)

  /** `HashEntry::key` of both entry kinds. */
  function EntryKey(e: PerftEntry): bv64 { e.key }

  function StatsEntryKey(e: PerftStatsEntry): bv64 { e.key }

  /** `PerftEntry::replaceable`, called on the stored entry. */
  predicate EntryReplaceable(stored: PerftEntry, other: PerftEntry)
  {
    stored.depth < other.depth
  }

  /** `PerftStatsEntry::replaceable`, called on the stored entry. */
  predicate StatsEntryReplaceable(stored: PerftStatsEntry, other: PerftStatsEntry)
  {
    stored.depth < other.depth
  }

  /** Under depth-preferred replacement a store never lowers the depth
      held by any slot, and it changes a filled slot only for an entry
      searched deeper. */
  lemma StoreKeepsDeepest(s: seq<Option<PerftEntry>>, key: bv64, entry: PerftEntry)
    requires |s| > 0
    ensures var r := GenericTables.StoreInto(s, EntryReplaceable, key, entry);
      && |r| == |s|
      && forall i :: 0 <= i < |s| && s[i].Some? ==>
           r[i].Some? && r[i].value.depth >= s[i].value.depth
           && (r[i] != s[i] ==> r[i] == Some(entry) && entry.depth > s[i].value.depth)
  {
    GenericTables.StoreTouchesOneSlot(s, EntryReplaceable, key, entry);
  }

  /** The same for the statistics entries. */
  lemma StatsStoreKeepsDeepest(s: seq<Option<PerftStatsEntry>>, key: bv64, entry: PerftStatsEntry)
    requires |s| > 0
    ensures var r := GenericTables.StoreInto(s, StatsEntryReplaceable, key, entry);
      && |r| == |s|
      && forall i :: 0 <= i < |s| && s[i].Some? ==>
           r[i].Some? && r[i].value.depth >= s[i].value.depth
           && (r[i] != s[i] ==> r[i] == Some(entry) && entry.depth > s[i].value.depth)
  {
    GenericTables.StoreTouchesOneSlot(s, StatsEntryReplaceable, key, entry);
  }

  /** An entry stored under its own key into an empty slot or over a
      shallower entry is found again by a probe of that key, and gives
      back the count it was built with. */
  lemma StoreThenProbeNodes(s: seq<Option<PerftEntry>>, key: bv64, depth: U8, nodes: nat)
    requires |s| > 0
    requires var i := GenericTables.SlotOf(key, |s|); s[i].None? || s[i].value.depth < depth
    ensures var r := GenericTables.ProbeIn(GenericTables.StoreInto(s, EntryReplaceable, key, PerftEntry(key, depth, nodes)), EntryKey, key);
      r.Some? && r.value.nodes == nodes && r.value.depth == depth
  {
    GenericTables.StoreThenProbe(s, EntryKey, EntryReplaceable, key, PerftEntry(key, depth, nodes));
  }
}
