/** The in-memory primary store: expenses keyed by an id taken from a counter. */
module Storage {
  import opened Schema

  /** A stored expense: the validated insert record with the id and creation time the store gave it. */
  datatype Expense = Expense(id: int, fields: InsertExpense, createdAt: Date)

  /**
   * A JavaScript `Map` from id to expense: its entries, and its keys in
   * insertion order, the order in which `values()` yields them.
   */
  datatype IdMap = IdMap(keys: seq<int>, entries: map<int, Expense>) {

    /** The key list and the entries hold the same keys, each once. */
    ghost predicate Wf() {
      && (forall i :: 0 <= i < |keys| ==> keys[i] in entries)
      && (forall k :: k in entries ==> k in keys)
      && Distinct(keys)
    }

    /** `Map.prototype.set`: an existing key keeps its place, a new one goes last. */
    function Set(k: int, v: Expense): IdMap {
      if k in entries then IdMap(keys, entries[k := v]) else IdMap(keys + [k], entries[k := v])
    }

    /** `Map.prototype.values`, in insertion order. */
    function Values(): (r: seq<Expense>)
      requires forall i :: 0 <= i < |keys| ==> keys[i] in entries
      ensures |r| == |keys|
      ensures forall i :: 0 <= i < |keys| ==> r[i] == entries[keys[i]]
    {
      seq(|keys|, i requires 0 <= i < |keys| => entries[keys[i]])
    }
  }

  /** A list without repeats holds as many elements as the set of its elements. */
  lemma {:induction false} DistinctCount(s: seq<int>)
    requires Distinct(s)
    ensures |set x | x in s| == |s|
  {
    if s != [] {
      var last := s[|s| - 1];
      var init := s[..|s| - 1];
      assert Distinct(init);
      DistinctCount(init);
      assert (set x | x in s) == (set x | x in init) + {last} by {
        forall x | x in s ensures x in init || x == last {
          var i :| 0 <= i < |s| && s[i] == x;
          if i < |s| - 1 {
            assert init[i] == x;
          }
        }
      }
      assert last !in init by {
        forall i | 0 <= i < |init| ensures init[i] != last {
          assert init[i] == s[i];
        }
      }
    }
  }

  /** A well-formed map has one entry per key in its key list. */
  lemma CountMatches(m: IdMap)
    requires m.Wf()
    ensures |m.entries| == |m.keys|
  {
    var ks := set x | x in m.keys;
    forall x | x in ks ensures x in m.entries {
      var i :| 0 <= i < |m.keys| && m.keys[i] == x;
    }
    forall x | x in m.entries ensures x in ks {
      assert x in m.keys;
    }
    assert m.entries.Keys == ks;
    DistinctCount(m.keys);
  }

  /** Setting a key the map does not hold appends it, and its value comes last. */
  lemma SetFreshKey(m: IdMap, k: int, v: Expense)
    requires m.Wf()
    requires k !in m.entries
    ensures m.Set(k, v).keys == m.keys + [k]
    ensures m.Set(k, v).entries == m.entries[k := v]
    ensures m.Set(k, v).Wf()
    ensures m.Set(k, v).Values() == m.Values() + [v]
  {
    var n := m.Set(k, v);
    assert k !in m.keys;
    assert Distinct(n.keys) by {
      forall i, j | 0 <= i < j < |n.keys| ensures n.keys[i] != n.keys[j] {
        if j == |m.keys| {
          assert n.keys[i] == m.keys[i];
        }
      }
    }
    assert forall i :: 0 <= i < |m.keys| ==> n.keys[i] == m.keys[i] && m.keys[i] != k;
    assert n.Values() == m.Values() + [v];
  }

  class MemStorage {
    /** The stored expenses by id. */
    var expenses: IdMap
    /** The id the next expense will get. */
    var currentId: int

    /**
     * Every entry sits under its own id; ids are at least 1, below the
     * counter, and increase in insertion order.
     */
    ghost predicate Valid()
      reads this
    {
      && expenses.Wf()
      && currentId >= 1
      && (forall i, j :: 0 <= i < j < |expenses.keys| ==> expenses.keys[i] < expenses.keys[j])
      && (forall i :: 0 <= i < |expenses.keys| ==> 1 <= expenses.keys[i] < currentId)
      && (forall k :: k in expenses.entries ==> expenses.entries[k].id == k)
    }

    /** The stored expenses, in the order `getExpenses` lists them. */
    function Contents(): seq<Expense>
      reads this
      requires Valid()
    {
      expenses.Values()
    }

    /** A fresh store is empty and will give out id 1 first. */
    constructor ()
      ensures Valid()
      ensures currentId == 1 && expenses == IdMap([], map[]) && Contents() == []
    {
      expenses := IdMap([], map[]);
      currentId := 1;
    }

    /**
     * `createExpense`: the record gets the counter's value as id and `now` as
     * creation time, and goes in under that id, which no entry had; the
     * counter moves up by one and every earlier entry stays as it was.
     */
    method CreateExpense(insert: InsertExpense, now: Date) returns (e: Expense)
      requires Valid()
      modifies this
      ensures Valid()
      ensures e == Expense(old(currentId), insert, now)
      ensures currentId == old(currentId) + 1
      ensures e.id !in old(expenses.entries)
      ensures expenses.keys == old(expenses.keys) + [e.id]
      ensures expenses.entries == old(expenses.entries)[e.id := e]
      ensures Contents() == old(Contents()) + [e]
    {
      var id := currentId;
      currentId := currentId + 1;
      e := Expense(id, insert, now);
      assert id !in expenses.keys;
      SetFreshKey(expenses, id, e);
      expenses := expenses.Set(id, e);
    }

    /**
     * `getExpenses`: every stored expense once, in insertion order, which is
     * increasing id order. The store is not changed.
     */
    method GetExpenses() returns (r: seq<Expense>)
      requires Valid()
      ensures r == Contents()
      ensures |r| == |expenses.entries|
      ensures forall i, j :: 0 <= i < j < |r| ==> r[i].id < r[j].id
      ensures forall k :: k in expenses.entries <==> exists i :: 0 <= i < |r| && r[i].id == k
      ensures forall i :: 0 <= i < |r| ==> r[i] == expenses.entries[r[i].id]
    {
      r := expenses.Values();
      CountMatches(expenses);
      forall k | k in expenses.entries ensures exists i :: 0 <= i < |r| && r[i].id == k {
        var i :| 0 <= i < |expenses.keys| && expenses.keys[i] == k;
        assert r[i].id == k;
      }
    }
  }
}
