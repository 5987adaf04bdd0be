/**
  The assembler's symbol table (src/symbolTable.c): an append-only association
  list from strings to words.  The source keeps a chain of `Node_t` records
  behind a sentinel head that holds no entry; here the chain after the head is
  the sequence `entries`, oldest first.
*/
module SymbolTable {
  import opened Utils

  type Entry = (string, Word)

  /** Some entry has key `key`. */
  predicate Has(entries: seq<Entry>, key: string)
  {
    exists i :: 0 <= i < |entries| && entries[i].0 == key
  }

  /** The value of the first entry with key `key`; 0 when there is none. */
  function Lookup(entries: seq<Entry>, key: string): Word
  {
    if entries == [] then 0
    else if entries[0].0 == key then entries[0].1
    else Lookup(entries[1..], key)
  }

  /** `entries[i]` is the first entry with key `key`. */
  predicate FirstMatch(entries: seq<Entry>, key: string, i: int)
  {
    0 <= i < |entries| && entries[i].0 == key && forall j :: 0 <= j < i ==> entries[j].0 != key
  }

  /** `Lookup` finds the first matching entry, and gives 0 exactly when it finds none. */
  lemma {:induction false} LookupFirstMatch(entries: seq<Entry>, key: string)
    ensures Has(entries, key) ==> exists i :: FirstMatch(entries, key, i) && Lookup(entries, key) == entries[i].1
    ensures !Has(entries, key) ==> Lookup(entries, key) == 0
  {
    if entries != [] && entries[0].0 != key {
      LookupFirstMatch(entries[1..], key);
      if Has(entries, key) {
        var i :| 0 <= i < |entries| && entries[i].0 == key;
        assert entries[1..][i - 1].0 == key;
        var k :| FirstMatch(entries[1..], key, k) && Lookup(entries[1..], key) == entries[1..][k].1;
        assert FirstMatch(entries, key, k + 1);
      }
    } else if entries != [] {
      assert FirstMatch(entries, key, 0);
    }
  }

  /** Appending leaves the lookup of a key already present unchanged: the first definition wins. */
  lemma {:induction false} LookupAfterAppend(entries: seq<Entry>, key: string, k: string, v: Word)
    requires Has(entries, key)
    ensures Lookup(entries + [(k, v)], key) == Lookup(entries, key)
  {
    if entries[0].0 != key {
      assert (entries + [(k, v)])[1..] == entries[1..] + [(k, v)];
      var i :| 0 <= i < |entries| && entries[i].0 == key;
      assert entries[1..][i - 1].0 == key;
      LookupAfterAppend(entries[1..], key, k, v);
    }
  }

  /** Appending a key not yet present makes it look up to the appended value. */
  lemma {:induction false} LookupOfNewKey(entries: seq<Entry>, k: string, v: Word)
    requires !Has(entries, k)
    ensures Lookup(entries + [(k, v)], k) == v
  {
    if entries != [] {
      assert entries[0].0 != k;
      assert (entries + [(k, v)])[1..] == entries[1..] + [(k, v)];
      LookupOfNewKey(entries[1..], k, v);
    }
  }

  /** `Has` is monotone under appending, and the appended key is present. */
  lemma HasAfterAppend(entries: seq<Entry>, key: string, k: string, v: Word)
    ensures Has(entries + [(k, v)], key) <==> Has(entries, key) || key == k
  {
    var e := entries + [(k, v)];
    if Has(entries, key) {
      var i :| 0 <= i < |entries| && entries[i].0 == key;
      assert e[i].0 == key;
    }
    if key == k {
      assert e[|entries|].0 == key;
    }
  }

  /** Entries in front without the key change neither whether it is found nor what it finds. */
  lemma {:induction false} LookupPastPrefix(front: seq<Entry>, back: seq<Entry>, key: string)
    requires !Has(front, key)
    ensures Has(front + back, key) <==> Has(back, key)
    ensures Lookup(front + back, key) == Lookup(back, key)
  {
    if front == [] {
      assert front + back == back;
    } else {
      assert front[0].0 != key;
      assert (front + back)[1..] == front[1..] + back;
      LookupPastPrefix(front[1..], back, key);
      if Has(front + back, key) {
        var i :| 0 <= i < |front + back| && (front + back)[i].0 == key;
        assert (front[1..] + back)[i - 1].0 == key;
      }
      if Has(front[1..] + back, key) {
        var i :| 0 <= i < |front[1..] + back| && (front[1..] + back)[i].0 == key;
        assert (front + back)[i + 1].0 == key;
      }
    }
  }

  class Table {
    var entries: seq<Entry>

    /** The sentinel head alone: no entry. */
    constructor ()
      ensures entries == []
    {
      entries := [];
    }

    /** `push(head, key, value)`: links a new last node. */
    method Push(key: string, value: Word)
      modifies this
      ensures entries == old(entries) + [(key, value)]
    {
      entries := entries + [(key, value)];
    }

    /** `exists(head, key)`: walks the chain until a node's key equals `key`. */
    method Exists(key: string) returns (found: bool)
      ensures found <==> Has(entries, key)
    {
      var i := 0;
      while i < |entries|
        invariant 0 <= i <= |entries|
        invariant forall j :: 0 <= j < i ==> entries[j].0 != key
      {
        if entries[i].0 == key {
          return true;
        }
        i := i + 1;
      }
      return false;
    }

    /** `getValue(head, key)`: the value of the first node whose key equals `key`, else 0. */
    method GetValue(key: string) returns (value: Word)
      ensures value == Lookup(entries, key)
    {
      var i := 0;
      while i < |entries|
        invariant 0 <= i <= |entries|
        invariant Lookup(entries, key) == Lookup(entries[i..], key)
      {
        if entries[i].0 == key {
          return entries[i].1;
        }
        assert entries[i..][1..] == entries[i + 1..];
        i := i + 1;
      }
      return 0;
    }
  }
}
