/** Dictionaries built from a sequence of entries, as a comprehension builds them. */
module Tables {

  /** Later entries of the same key win. */
  function Table<K, V>(entries: seq<(K, V)>): map<K, V> {
    if entries == [] then map[]
    else Table(entries[..|entries| - 1])[entries[|entries| - 1].0 := entries[|entries| - 1].1]
  }

  ghost predicate DistinctKeys<K, V>(entries: seq<(K, V)>) {
    forall i, j :: 0 <= i < j < |entries| ==> entries[i].0 != entries[j].0
  }

  ghost predicate HasKey<K, V>(entries: seq<(K, V)>, key: K) {
    exists i :: 0 <= i < |entries| && entries[i].0 == key
  }

  lemma {:induction false} TableEntries<K, V>(entries: seq<(K, V)>)
    ensures forall key :: key in Table(entries) ==> (key, Table(entries)[key]) in entries
    ensures forall i :: 0 <= i < |entries| ==> entries[i].0 in Table(entries)
  {
    if entries != [] {
      var n := |entries| - 1;
      var before := entries[..n];
      TableEntries(before);
      assert entries == before + [entries[n]];
      forall i | 0 <= i < |entries|
        ensures entries[i].0 in Table(entries)
      {
        assert i < n ==> before[i].0 in Table(before);
      }
    }
  }

  lemma {:induction false} TableKeys<K, V>(entries: seq<(K, V)>)
    ensures forall key :: key in Table(entries) <==> HasKey(entries, key)
  {
    TableEntries(entries);
    forall key | key in Table(entries)
      ensures HasKey(entries, key)
    {
      var i :| 0 <= i < |entries| && entries[i] == (key, Table(entries)[key]);
    }
  }

  /** The dictionary is as long as the sequence exactly when no key repeats. */
  lemma {:induction false} TableSize<K, V>(entries: seq<(K, V)>)
    ensures |Table(entries)| <= |entries|
    ensures |Table(entries)| == |entries| <==> DistinctKeys(entries)
  {
    if entries != [] {
      var n := |entries| - 1;
      var before, last := entries[..n], entries[n];
      TableSize(before);
      TableKeys(before);
      var table := Table(before);
      assert Table(entries).Keys == table.Keys + {last.0};
      if last.0 in table {
        var k :| 0 <= k < |before| && before[k].0 == last.0;
        assert entries[k].0 == entries[n].0;
        assert Table(entries).Keys == table.Keys;
      } else {
        forall k | 0 <= k < n
          ensures entries[k].0 != last.0
        {
          assert before[k] == entries[k];
        }
        assert DistinctKeys(before) ==> DistinctKeys(entries);
      }
      assert DistinctKeys(entries) ==> DistinctKeys(before);
    }
  }

  /** With distinct keys the dictionary holds exactly the entries. */
  lemma {:induction false} TableLookup<K, V>(entries: seq<(K, V)>, key: K, value: V)
    requires DistinctKeys(entries)
    ensures (key, value) in entries <==> key in Table(entries) && Table(entries)[key] == value
  {
    TableEntries(entries);
    if (key, value) in entries {
      var i :| 0 <= i < |entries| && entries[i] == (key, value);
      var j :| 0 <= j < |entries| && entries[j] == (key, Table(entries)[key]);
      assert i == j;
    }
  }
}
