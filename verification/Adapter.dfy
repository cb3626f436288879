/** Writes to the key-value store behind the components. Any of them may fail, and one that fails
    may have reached only some of its keys. */
module Adapters {

  datatype Outcome = Done | KeyNotFound | AdapterError

  // A write that failed half way leaves every key as it was or as it should have become.
  ghost predicate PartlyWritten<K, V>(before: map<K, V>, nodes: map<K, V>, after: map<K, V>) {
    && after.Keys <= before.Keys + nodes.Keys
    && before.Keys <= after.Keys
    && (forall k :: k in after ==> (k in nodes && after[k] == nodes[k]) || (k in before && after[k] == before[k]))
  }

  ghost predicate PartlyDeleted<K, V>(before: map<K, V>, keys: set<K>, after: map<K, V>) {
    && before.Keys - keys <= after.Keys <= before.Keys
    && (forall k :: k in after ==> after[k] == before[k])
  }

  // Whether a request fails is decided outside, so it is a parameter here and in all that rests on it.
  method SetNodes<K, V>(before: map<K, V>, nodes: map<K, V>, fails: bool) returns (after: map<K, V>, outcome: Outcome)
    ensures outcome == if fails then AdapterError else Done
    ensures !fails ==> after == before + nodes
    ensures fails ==> PartlyWritten(before, nodes, after)
  {
    if fails {
      var written: set<K> :| written <= nodes.Keys;
      after, outcome := before + (map k | k in written :: nodes[k]), AdapterError;
    } else {
      after, outcome := before + nodes, Done;
    }
  }

  method DeleteNodes<K, V>(before: map<K, V>, keys: set<K>, fails: bool) returns (after: map<K, V>, outcome: Outcome)
    ensures outcome == if fails then AdapterError else if keys <= before.Keys then Done else KeyNotFound
    ensures !fails ==> after == before - keys
    ensures fails ==> PartlyDeleted(before, keys, after)
  {
    if fails {
      var deleted: set<K> :| deleted <= keys;
      after, outcome := before - deleted, AdapterError;
    } else {
      after := before - keys;
      outcome := if keys <= before.Keys then Done else KeyNotFound;
    }
  }

  // A queue after messages were saved to it and then others deleted from it, either of which may have
  // failed: every message is as it was, as it was saved, or gone because it was to be deleted.
  ghost predicate QueueWritten<K, V>(before: map<K, V>, saves: map<K, V>, deletes: set<K>,
                                     saveFails: bool, deleteFails: bool, after: map<K, V>) {
    && (forall k :: k in after ==>
          || (k in saves && after[k] == saves[k])
          || (k in before && after[k] == before[k] && (saveFails || k !in saves)))
    && (forall k :: k in before ==> k in after || k in deletes)
    && (!saveFails ==> forall k :: k in saves ==> k in after || k in deletes)
    && (!deleteFails ==> forall k :: k in deletes ==> k !in after)
  }

  lemma SavedThenDeleted<K, V>(before: map<K, V>, saves: map<K, V>, deletes: set<K>, saveFails: bool, deleteFails: bool,
                               mid: map<K, V>, after: map<K, V>)
    requires if saveFails then PartlyWritten(before, saves, mid) else mid == before + saves
    requires if deleteFails then PartlyDeleted(mid, deletes, after) else after == mid - deletes
    ensures QueueWritten(before, saves, deletes, saveFails, deleteFails, after)
  {
  }

  lemma WrittenWithoutFault<K, V>(before: map<K, V>, saves: map<K, V>, deletes: set<K>, after: map<K, V>)
    ensures QueueWritten(before, saves, deletes, false, false, after) <==> after == (before + saves) - deletes
  {
  }
}
