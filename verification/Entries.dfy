/** Records of numbers by key, in insertion order, as the eval and schema code builds them. */
module Entries {
  datatype Entry = Entry(key: string, value: real)

  predicate HasKey(entries: seq<Entry>, key: string) { exists i :: 0 <= i < |entries| && entries[i].key == key }

  predicate Distinct(entries: seq<Entry>) {
    forall i, j :: 0 <= i < j < |entries| ==> entries[i].key != entries[j].key
  }

  /** The number under a key, 0 without one. */
  function ValueOf(entries: seq<Entry>, key: string): real {
    if entries == [] then 0.0 else if entries[0].key == key then entries[0].value else ValueOf(entries[1..], key)
  }

  lemma TailMisses(entries: seq<Entry>, key: string)
    requires entries != [] && entries[0].key != key
    ensures HasKey(entries[1..], key) <==> HasKey(entries, key)
  {
    if i :| 0 <= i < |entries| && entries[i].key == key { assert entries[1..][i - 1].key == key; }
    if j :| 0 <= j < |entries[1..]| && entries[1..][j].key == key { assert entries[j + 1].key == key; }
  }

  lemma {:induction false} MissingKey(entries: seq<Entry>, key: string)
    requires !HasKey(entries, key)
    ensures ValueOf(entries, key) == 0.0
  {
    if entries != [] {
      assert entries[0].key != key;
      TailMisses(entries, key);
      MissingKey(entries[1..], key);
    }
  }
}
