/** Failure-carrying values shared by every module, and the bookkeeping of the
    "convert each rule; on a problem log a diagnostic and skip it" loops that
    all dialect adapters run. */
module Outcomes {

  datatype Option<+T> = None | Some(value: T)

  datatype Result<+T, +E> = Ok(value: T) | Err(error: E)

  /** Map.get on a table of key/value entries: the value of the first entry
      with the key, None for a missing (null) key or one the table lacks. */
  function Lookup<K(==), V>(table: seq<(K, V)>, key: Option<K>): Option<V>
  {
    if key.None? || table == [] then None
    else if table[0].0 == key.value then Some(table[0].1)
    else Lookup(table[1..], key)
  }

  /** BiMap.inverse().get: the key of the first entry with the value. */
  function KeyOf<K, V(==)>(table: seq<(K, V)>, value: Option<V>): Option<K>
  {
    if value.None? || table == [] then None
    else if table[0].1 == value.value then Some(table[0].0)
    else KeyOf(table[1..], value)
  }

  /** A table that is a bijection: no key and no value occurs twice. */
  predicate OneToOne<K(==), V(==)>(table: seq<(K, V)>)
  {
    forall i, j :: 0 <= i < j < |table| ==> table[i].0 != table[j].0 && table[i].1 != table[j].1
  }

  /** In a one-to-one table each entry is found by its key and by its value. */
  lemma {:induction false} LookupAt<K, V>(table: seq<(K, V)>, i: nat)
    requires OneToOne(table) && i < |table|
    ensures Lookup(table, Some(table[i].0)) == Some(table[i].1)
    ensures KeyOf(table, Some(table[i].1)) == Some(table[i].0)
  {
    if i > 0 {
      assert OneToOne(table[1..]) by {
        forall a, b | 0 <= a < b < |table[1..]|
          ensures table[1..][a].0 != table[1..][b].0 && table[1..][a].1 != table[1..][b].1
        {
          assert table[1..][a] == table[a + 1] && table[1..][b] == table[b + 1];
        }
      }
      LookupAt(table[1..], i - 1);
      assert table[1..][i - 1] == table[i];
    }
  }

  /** What a lookup finds is an entry of the table. */
  lemma {:induction false} LookupFound<K, V>(table: seq<(K, V)>, key: Option<K>)
    ensures Lookup(table, key).Some? ==>
      exists i :: 0 <= i < |table| && table[i] == (key.value, Lookup(table, key).value)
  {
    if key.Some? && table != [] && table[0].0 != key.value {
      LookupFound(table[1..], key);
      if Lookup(table, key).Some? {
        var i :| 0 <= i < |table[1..]| && table[1..][i] == (key.value, Lookup(table, key).value);
        assert table[i + 1] == table[1..][i];
      }
    }
  }

  /** A key is found exactly when some entry has it. */
  lemma {:induction false} LookupHas<K, V>(table: seq<(K, V)>, key: K)
    ensures Lookup(table, Some(key)).Some? <==> exists i :: 0 <= i < |table| && table[i].0 == key
  {
    if table != [] && table[0].0 != key {
      LookupHas(table[1..], key);
      if exists i :: 0 <= i < |table| && table[i].0 == key {
        var i :| 0 <= i < |table| && table[i].0 == key;
        assert table[1..][i - 1] == table[i];
      }
      if Lookup(table, Some(key)).Some? {
        var i :| 0 <= i < |table[1..]| && table[1..][i].0 == key;
        assert table[i + 1] == table[1..][i];
      }
    }
  }

  lemma {:induction false} KeyOfFound<K, V>(table: seq<(K, V)>, value: Option<V>)
    ensures KeyOf(table, value).Some? <==> value.Some? && exists i :: 0 <= i < |table| && table[i].1 == value.value
    ensures KeyOf(table, value).Some? ==>
      exists i :: 0 <= i < |table| && table[i] == (KeyOf(table, value).value, value.value)
  {
    if value.Some? && table != [] && table[0].1 != value.value {
      KeyOfFound(table[1..], value);
      if KeyOf(table, value).Some? {
        var i :| 0 <= i < |table[1..]| && table[1..][i] == (KeyOf(table, value).value, value.value);
        assert table[i + 1] == table[1..][i];
      }
      if exists i :: 0 <= i < |table| && table[i].1 == value.value {
        var i :| 0 <= i < |table| && table[i].1 == value.value;
        assert table[1..][i - 1] == table[i];
      }
    }
  }

  /** A one-to-one table read either way is the inverse of itself read the
      other way. */
  lemma TableRoundTrip<K, V>(table: seq<(K, V)>, key: Option<K>, value: Option<V>)
    requires OneToOne(table)
    ensures Lookup(table, key).Some? ==> KeyOf(table, Lookup(table, key)) == key
    ensures KeyOf(table, value).Some? ==> Lookup(table, KeyOf(table, value)) == value
  {
    LookupFound(table, key);
    if Lookup(table, key).Some? {
      var i :| 0 <= i < |table| && table[i] == (key.value, Lookup(table, key).value);
      LookupAt(table, i);
    }
    KeyOfFound(table, value);
    if KeyOf(table, value).Some? {
      var i :| 0 <= i < |table| && table[i] == (KeyOf(table, value).value, value.value);
      LookupAt(table, i);
    }
  }

  /** Two tables that share no key and no value. */
  predicate Disjoint<K(==), V(==)>(a: seq<(K, V)>, b: seq<(K, V)>)
  {
    forall i, j :: 0 <= i < |a| && 0 <= j < |b| ==> a[i].0 != b[j].0 && a[i].1 != b[j].1
  }

  /** A key or value found in one of two disjoint tables is missing from the
      other. */
  lemma DisjointLookups<K, V>(a: seq<(K, V)>, b: seq<(K, V)>, key: Option<K>, value: Option<V>)
    requires Disjoint(a, b)
    ensures Lookup(a, key).Some? ==> Lookup(b, key).None?
    ensures KeyOf(a, value).Some? ==> KeyOf(b, value).None?
  {
    LookupFound(a, key);
    LookupFound(b, key);
    if Lookup(a, key).Some? {
      var i :| 0 <= i < |a| && a[i] == (key.value, Lookup(a, key).value);
      forall j | 0 <= j < |b| ensures b[j].0 != key.value {
        assert a[i].0 != b[j].0;
      }
    }
    KeyOfFound(a, value);
    KeyOfFound(b, value);
    if KeyOf(a, value).Some? {
      var i :| 0 <= i < |a| && a[i] == (KeyOf(a, value).value, value.value);
      forall j | 0 <= j < |b| ensures b[j].1 != value.value {
        assert a[i].1 != b[j].1;
      }
    }
  }

  lemma DisjointSymmetric<K, V>(a: seq<(K, V)>, b: seq<(K, V)>)
    requires Disjoint(a, b)
    ensures Disjoint(b, a)
  {
    forall j, i | 0 <= j < |b| && 0 <= i < |a| ensures b[j].0 != a[i].0 && b[j].1 != a[i].1 {
      assert a[i].0 != b[j].0 && a[i].1 != b[j].1;
    }
  }

  /** What one pass of a per-rule conversion loop yields: the converted rule,
      if it is appended to the result, and the messages appended to the error
      log on the way (possibly some even when the rule is kept). */
  datatype Step<+T, +M> = Step(kept: Option<T>, notes: seq<M>)

  /** The rules a loop appends, in input order. */
  function Kept<T, M>(steps: seq<Step<T, M>>): (r: seq<T>)
    ensures |r| <= |steps|
  {
    if steps == [] then []
    else
      var last := steps[|steps| - 1];
      Kept(steps[..|steps| - 1]) + (if last.kept.Some? then [last.kept.value] else [])
  }

  /** The messages a loop appends, in input order. */
  function Notes<T, M>(steps: seq<Step<T, M>>): seq<M>
  {
    if steps == [] then []
    else Notes(steps[..|steps| - 1]) + steps[|steps| - 1].notes
  }

  /** One more pass of a loop appends what it keeps, and what it logs to a
      log that held log before the loop. */
  lemma StepAppended<T, M>(log: seq<M>, steps: seq<Step<T, M>>, s: Step<T, M>)
    ensures Kept(steps + [s]) == Kept(steps) + Kept([s])
    ensures log + Notes(steps + [s]) == (log + Notes(steps)) + s.notes
  {
    assert (steps + [s])[..|steps|] == steps;
    assert [s][..0] == [];
    assert Notes(steps + [s]) == Notes(steps) + s.notes;
  }

  /** The number of inputs a loop drops. */
  function Dropped<T, M>(steps: seq<Step<T, M>>): nat
  {
    if steps == [] then 0
    else Dropped(steps[..|steps| - 1]) + (if steps[|steps| - 1].kept.None? then 1 else 0)
  }

  /** Every dropped input logs exactly one message and every kept one none. */
  predicate OneNotePerDrop<T, M>(steps: seq<Step<T, M>>)
  {
    forall i :: 0 <= i < |steps| ==> |steps[i].notes| == (if steps[i].kept.None? then 1 else 0)
  }

  /** The outputs of a loop over a + b are those over a followed by those over b. */
  lemma {:induction false} KeptAppend<T, M>(a: seq<Step<T, M>>, b: seq<Step<T, M>>)
    ensures Kept(a + b) == Kept(a) + Kept(b)
    decreases |b|
  {
    if b == [] {
      assert a + b == a;
    } else {
      var b' := b[..|b| - 1];
      assert (a + b)[..|a + b| - 1] == a + b';
      assert (a + b)[|a + b| - 1] == b[|b| - 1];
      KeptAppend(a, b');
    }
  }

  lemma {:induction false} NotesAppend<T, M>(a: seq<Step<T, M>>, b: seq<Step<T, M>>)
    ensures Notes(a + b) == Notes(a) + Notes(b)
    decreases |b|
  {
    if b == [] {
      assert a + b == a;
    } else {
      var b' := b[..|b| - 1];
      assert (a + b)[..|a + b| - 1] == a + b';
      assert (a + b)[|a + b| - 1] == b[|b| - 1];
      NotesAppend(a, b');
    }
  }

  lemma {:induction false} DroppedAppend<T, M>(a: seq<Step<T, M>>, b: seq<Step<T, M>>)
    ensures Dropped(a + b) == Dropped(a) + Dropped(b)
    decreases |b|
  {
    if b == [] {
      assert a + b == a;
    } else {
      var b' := b[..|b| - 1];
      assert (a + b)[..|a + b| - 1] == a + b';
      assert (a + b)[|a + b| - 1] == b[|b| - 1];
      DroppedAppend(a, b');
    }
  }

  /** Every input is either kept or dropped. */
  lemma {:induction false} KeptPlusDropped<T, M>(steps: seq<Step<T, M>>)
    ensures |Kept(steps)| + Dropped(steps) == |steps|
  {
    if steps != [] {
      KeptPlusDropped(steps[..|steps| - 1]);
    }
  }

  /** When every drop logs one message and every kept input none, the log
      grows by exactly the number of dropped inputs. */
  lemma {:induction false} OneNotePerDropCounts<T, M>(steps: seq<Step<T, M>>)
    requires OneNotePerDrop(steps)
    ensures |Notes(steps)| == Dropped(steps) == |steps| - |Kept(steps)|
  {
    KeptPlusDropped(steps);
    if steps != [] {
      var init := steps[..|steps| - 1];
      assert OneNotePerDrop(init) by {
        forall i | 0 <= i < |init| ensures |init[i].notes| == (if init[i].kept.None? then 1 else 0) {
          assert init[i] == steps[i];
        }
      }
      OneNotePerDropCounts(init);
      KeptPlusDropped(init);
    }
  }

  /** When every dropped input logs at least one message, the log grows by
      at least the number of dropped inputs. */
  lemma {:induction false} NotesCoverDrops<T, M>(steps: seq<Step<T, M>>)
    requires forall i :: 0 <= i < |steps| ==> steps[i].kept.None? ==> |steps[i].notes| >= 1
    ensures |Notes(steps)| >= Dropped(steps)
  {
    if steps != [] {
      var init := steps[..|steps| - 1];
      forall i | 0 <= i < |init| ensures init[i].kept.None? ==> |init[i].notes| >= 1 {
        assert init[i] == steps[i];
      }
      NotesCoverDrops(init);
    }
  }

  /** An input that is kept shows up in the output, after everything kept
      before it. */
  lemma {:induction false} KeptContains<T, M>(steps: seq<Step<T, M>>, i: nat)
    requires i < |steps| && steps[i].kept.Some?
    ensures Kept(steps) == Kept(steps[..i]) + [steps[i].kept.value] + Kept(steps[i + 1..])
  {
    assert steps == steps[..i] + [steps[i]] + steps[i + 1..];
    KeptAppend(steps[..i] + [steps[i]], steps[i + 1..]);
    KeptAppend(steps[..i], [steps[i]]);
    assert [steps[i]][..0] == [];
  }

  /** When no input is dropped, the output is the inputs' conversions in order. */
  lemma {:induction false} NothingDropped<T, M>(steps: seq<Step<T, M>>)
    requires forall i :: 0 <= i < |steps| ==> steps[i].kept.Some?
    ensures |Kept(steps)| == |steps|
    ensures forall i :: 0 <= i < |steps| ==> Kept(steps)[i] == steps[i].kept.value
  {
    if steps != [] {
      NothingDropped(steps[..|steps| - 1]);
    }
  }

  /** Everything a loop appends was produced by one of its passes. */
  lemma {:induction false} KeptElements<T, M>(steps: seq<Step<T, M>>)
    ensures forall x :: x in Kept(steps) ==> exists i :: 0 <= i < |steps| && steps[i].kept == Some(x)
  {
    if steps != [] {
      var init := steps[..|steps| - 1];
      KeptElements(init);
      forall x | x in Kept(steps) ensures exists i :: 0 <= i < |steps| && steps[i].kept == Some(x) {
        if x in Kept(init) {
          var i :| 0 <= i < |init| && init[i].kept == Some(x);
          assert steps[i] == init[i];
        } else {
          assert steps[|steps| - 1].kept == Some(x);
        }
      }
    }
  }
}
