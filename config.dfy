/**
 * Dotted-path access to the nested configuration objects of
 * src/utils/config.ts: setNestedKey writes a value at a path, creating the
 * objects it needs on the way, and getNestedKey reads the value at a path.
 *
 * A configuration object is a heap object whose entries map keys to strings,
 * numbers, booleans or further objects, so objects can be shared and the
 * writes of setNestedKey are seen through every reference. The properties
 * are stated over a Store, the entries of a set of objects closed under
 * references, taken from the heap with Snapshot.
 */
module Config {
  import opened Text

  /** A configuration value: a scalar or a reference to a nested object. */
  datatype Value = Str(s: string) | Num(n: real) | Bool(b: bool) | Obj(obj: ConfigObject)

  class ConfigObject {
    var entries: map<string, Value>

    /** The object literal {}. */
    constructor ()
      ensures entries == map[]
    {
      entries := map[];
    }
  }

  /** The entries of a set of objects. */
  type Store = map<ConfigObject?, map<string, Value>>

  /** The entries of every object of repr, as they are now. */
  function Snapshot(repr: set<ConfigObject>): (st: Store)
    reads repr
    ensures st.Keys == repr
  {
    map o | o in repr :: o.entries
  }

  /** Every object referred to from the store is in the store. */
  predicate Closed(st: Store) {
    forall o, k :: o in st && k in st[o] && st[o][k].Obj? ==> st[o][k].obj in st
  }

  /** The object stored under k, if what is stored there is an object. */
  function Child(entries: map<string, Value>, k: string): Option<ConfigObject> {
    if k in entries && entries[k].Obj? then Some(entries[k].obj) else None
  }

  // ---------------------------------------------------------------------------
  // getNestedKey

  /** The walk of getNestedKey from v over the keys: None (null) as soon as
      the current value is not an object or lacks the next key. */
  function Lookup(st: Store, v: Value, keys: seq<string>): (r: Option<Value>)
    requires Closed(st) && (v.Obj? ==> v.obj in st)
    ensures r.Some? && r.value.Obj? ==> r.value.obj in st
    decreases |keys|
  {
    if keys == [] then Some(v)
    else if v.Obj? && keys[0] in st[v.obj] then Lookup(st, st[v.obj][keys[0]], keys[1..])
    else None
  }

  /** getNestedKey(obj, key) over the objects of repr: None stands for the
      null it returns when the walk fails. */
  method GetNestedKey(obj: ConfigObject, key: string, ghost repr: set<ConfigObject>) returns (r: Option<Value>)
    requires Closed(Snapshot(repr)) && obj in repr
    ensures r == Lookup(Snapshot(repr), Obj(obj), Split(key, '.'))
  {
    ghost var st := Snapshot(repr);
    var keys := Split(key, '.');
    var value := Obj(obj);
    var i := 0;
    while i < |keys|
      invariant i <= |keys| && (value.Obj? ==> value.obj in st)
      invariant Lookup(st, Obj(obj), keys) == Lookup(st, value, keys[i..])
    {
      assert keys[i..][0] == keys[i] && keys[i..][1..] == keys[i + 1..];
      if value.Obj? && keys[i] in value.obj.entries {
        value := value.obj.entries[keys[i]];
        i := i + 1;
      } else {
        return None;
      }
    }
    assert keys[i..] == [];
    return Some(value);
  }

  /** Reading a longer path continues from where the shorter one ended, and
      fails if the shorter one failed. */
  lemma {:induction false} LookupAppend(st: Store, v: Value, a: seq<string>, b: seq<string>)
    requires Closed(st) && (v.Obj? ==> v.obj in st)
    ensures Lookup(st, v, a).None? ==> Lookup(st, v, a + b).None?
    ensures Lookup(st, v, a).Some? ==> Lookup(st, v, a + b) == Lookup(st, Lookup(st, v, a).value, b)
    decreases |a|
  {
    if a != [] {
      assert (a + b)[0] == a[0] && (a + b)[1..] == a[1..] + b;
      if v.Obj? && a[0] in st[v.obj] {
        LookupAppend(st, st[v.obj][a[0]], a[1..], b);
      }
    } else {
      assert a + b == b;
    }
  }

  /** A path that runs into a string, number or boolean before its end
      reads null. */
  lemma LookupThroughScalar(st: Store, v: Value, a: seq<string>, b: seq<string>)
    requires Closed(st) && (v.Obj? ==> v.obj in st)
    requires Lookup(st, v, a).Some? && !Lookup(st, v, a).value.Obj? && b != []
    ensures Lookup(st, v, a + b) == None
  {
    LookupAppend(st, v, a, b);
  }

  /** Objects linked along the keys, the last holding the value under the
      last key. */
  predicate Linked(st: Store, chain: seq<ConfigObject>, keys: seq<string>, value: Value) {
    |chain| == |keys| >= 1
    && (forall j :: 0 <= j < |chain| ==> chain[j] in st)
    && (forall j :: 0 <= j < |keys| - 1 ==> keys[j] in st[chain[j]] && st[chain[j]][keys[j]] == Obj(chain[j + 1]))
    && keys[|keys| - 1] in st[chain[|keys| - 1]] && st[chain[|keys| - 1]][keys[|keys| - 1]] == value
  }

  /** Following linked objects reads the value at their end. */
  lemma {:induction false} LookupLinked(st: Store, chain: seq<ConfigObject>, keys: seq<string>, value: Value)
    requires Closed(st) && Linked(st, chain, keys, value)
    ensures Lookup(st, Obj(chain[0]), keys) == Some(value)
    decreases |keys|
  {
    if |keys| > 1 {
      LookupLinked(st, chain[1..], keys[1..], value);
    } else {
      assert keys[1..] == [];
    }
  }

  // ---------------------------------------------------------------------------
  // setNestedKey: specification

  /** The objects setNestedKey passes through without creating any: o, then
      the objects already stored along the keys, as long as there are. */
  function Existing(st: Store, o: ConfigObject, keys: seq<string>): (w: seq<ConfigObject>)
    requires Closed(st) && o in st
    ensures 1 <= |w| <= |keys| + 1 && w[0] == o
    ensures forall j :: 0 <= j < |w| ==> w[j] in st
    ensures forall j :: 0 <= j < |w| - 1 ==> Child(st[w[j]], keys[j]) == Some(w[j + 1])
    ensures |w| <= |keys| ==> Child(st[w[|w| - 1]], keys[|w| - 1]).None?
    decreases |keys|
  {
    if keys != [] && Child(st[o], keys[0]).Some? then [o] + Existing(st, Child(st[o], keys[0]).value, keys[1..])
    else [o]
  }

  /** The existing walk of setNestedKey for the keys: over all keys but the
      last, whose entry is the one written. */
  function Walk(st: Store, o: ConfigObject, keys: seq<string>): (w: seq<ConfigObject>)
    requires Closed(st) && o in st && keys != []
    ensures 1 <= |w| <= |keys| && w[0] == o
    ensures forall j :: 0 <= j < |w| ==> w[j] in st
    ensures forall j :: 0 <= j < |w| - 1 ==> Child(st[w[j]], keys[j]) == Some(w[j + 1])
    ensures |w| < |keys| ==> Child(st[w[|w| - 1]], keys[|w| - 1]).None?
  {
    var w := Existing(st, o, keys[..|keys| - 1]);
    assert forall j :: 0 <= j < |keys| - 1 ==> keys[..|keys| - 1][j] == keys[j];
    w
  }

  /** What setNestedKey stores in the j-th object of its chain: the next
      object, or the value in the last one. */
  function Next(chain: seq<ConfigObject>, keys: seq<string>, value: Value, j: nat): Value
    requires j < |keys| == |chain|
  {
    if j == |keys| - 1 then value else Obj(chain[j + 1])
  }

  /** w is the existing walk over the keys in the store before: linked
      object to object, and ending where the next entry is not an object
      or only the last key is left. */
  ghost predicate Plan(before: Store, w: seq<ConfigObject>, keys: seq<string>) {
    1 <= |w| <= |keys|
    && (forall j :: 0 <= j < |w| ==> w[j] in before)
    && (forall j :: 0 <= j < |w| - 1 ==> Child(before[w[j]], keys[j]) == Some(w[j + 1]))
    && (|w| < |keys| ==> Child(before[w[|w| - 1]], keys[|w| - 1]).None?)
  }

  /** The state after i passes of the loop of setNestedKey, started in the
      store before with the walk w: the loop has reached chain[i]. While
      still on existing objects nothing has changed; once past them, the
      last existing object points to a chain of new objects, each holding
      only the next, the newest empty. */
  ghost predicate Walked(before: Store, now: Store, w: seq<ConfigObject>, keys: seq<string>, chain: seq<ConfigObject>, i: nat) {
    Closed(before) && Plan(before, w, keys) && Closed(now) && before.Keys <= now.Keys
    && i < |keys| && |chain| == i + 1
    && (i < |w| ==> chain == w[..i + 1] && now == before)
    && (i >= |w| ==>
          chain[..|w|] == w
          && (forall j :: |w| <= j <= i ==> chain[j] in now && chain[j] !in before)
          && (forall j :: |w| <= j < i ==> now[chain[j]] == map[keys[j] := Obj(chain[j + 1])])
          && now[chain[i]] == map[]
          && (forall o :: o in before && o != w[|w| - 1] ==> now[o] == before[o])
          && now[w[|w| - 1]] == before[w[|w| - 1]][keys[|w| - 1] := Obj(chain[|w|])])
  }

  /** The store setNestedKey leaves, started in the store before with the
      walk w: only the last existing object has changed, under one key; each
      new object holds just the next one, and the last object of the chain
      holds the value. */
  ghost predicate Done(before: Store, after: Store, w: seq<ConfigObject>, keys: seq<string>, value: Value, chain: seq<ConfigObject>) {
    Closed(before) && Plan(before, w, keys) && Closed(after) && before.Keys <= after.Keys
    && |chain| == |keys| && chain[..|w|] == w
    && (forall j :: |w| <= j < |keys| ==> chain[j] in after && chain[j] !in before)
    && (forall j :: |w| <= j < |keys| ==> after[chain[j]] == map[keys[j] := Next(chain, keys, value, j)])
    && (forall o :: o in before && o != w[|w| - 1] ==> after[o] == before[o])
    && after[w[|w| - 1]] == before[w[|w| - 1]][keys[|w| - 1] := Next(chain, keys, value, |w| - 1)]
  }

  /** No object occurs twice in the walk. */
  predicate NoRepeats(w: seq<ConfigObject>) {
    forall j, k :: 0 <= j < k < |w| ==> w[j] != w[k]
  }

  /** Get after set: when the existing walk meets no object twice, the
      value written is read back at the path. */
  lemma DoneReadsBack(before: Store, after: Store, w: seq<ConfigObject>, keys: seq<string>, value: Value, chain: seq<ConfigObject>)
    requires Done(before, after, w, keys, value, chain) && NoRepeats(w)
    ensures Lookup(after, Obj(w[0]), keys) == Some(value)
  {
    var m := |w|;
    forall j | 0 <= j < |keys| - 1
      ensures keys[j] in after[chain[j]] && after[chain[j]][keys[j]] == Obj(chain[j + 1])
    {
      if j < m - 1 {
        assert chain[j] == w[j] != w[m - 1];
        assert Child(before[w[j]], keys[j]) == Some(w[j + 1]);
      }
    }
    LookupLinked(after, chain, keys, value);
  }

  /** Keys off the path keep their values: an entry under a key other than
      the one the path writes is unchanged in every object. */
  lemma DoneFrame(before: Store, after: Store, w: seq<ConfigObject>, keys: seq<string>, value: Value, chain: seq<ConfigObject>,
                  o: ConfigObject, k: string)
    requires Done(before, after, w, keys, value, chain)
    requires o in before && k in before[o] && k != keys[|w| - 1]
    ensures k in after[o] && after[o][k] == before[o][k]
  {
  }

  /** A path without a dot writes the top-level key of the object itself. */
  lemma DoneSingleKey(before: Store, after: Store, w: seq<ConfigObject>, key: string, value: Value, chain: seq<ConfigObject>)
    requires Done(before, after, w, [key], value, chain)
    ensures after[w[0]] == before[w[0]][key := value]
    ensures forall o :: o in before && o != w[0] ==> after[o] == before[o]
  {
    assert chain == [w[0]];
  }

  /** The first pass of the loop starts on the object itself. */
  lemma WalkStart(st: Store, obj: ConfigObject, keys: seq<string>)
    requires Closed(st) && obj in st && keys != []
    ensures Walked(st, st, Walk(st, obj, keys), keys, [obj], 0)
  {
    var w := Walk(st, obj, keys);
    assert w[..1] == [obj];
  }

  /** Linking a new empty object into a closed store keeps it closed. */
  lemma ClosedLink(now: Store, o: ConfigObject, k: string, child: ConfigObject)
    requires Closed(now) && o in now && child !in now
    ensures Closed(now[o := now[o][k := Obj(child)]][child := map[]])
  {
  }

  /** One pass of the loop while the entries hold objects: nothing
      changes. */
  lemma WalkStepExisting(before: Store, now: Store, w: seq<ConfigObject>, keys: seq<string>, chain: seq<ConfigObject>, i: nat)
    requires Walked(before, now, w, keys, chain, i) && i + 1 < |w|
    ensures Child(now[chain[i]], keys[i]) == Some(w[i + 1])
    ensures Walked(before, now, w, keys, chain + [w[i + 1]], i + 1)
  {
    assert Child(before[w[i]], keys[i]) == Some(w[i + 1]);
    assert chain + [w[i + 1]] == w[..i + 2];
  }

  /** The pass that leaves the existing objects: the last of them gets a
      new empty object under its key. */
  lemma WalkStepLeave(before: Store, now: Store, w: seq<ConfigObject>, keys: seq<string>, chain: seq<ConfigObject>, i: nat,
                      child: ConfigObject)
    requires Walked(before, now, w, keys, chain, i) && i + 1 == |w| < |keys| && child !in now
    ensures Child(now[chain[i]], keys[i]).None?
    ensures Walked(before, now[chain[i] := now[chain[i]][keys[i] := Obj(child)]][child := map[]], w, keys, chain + [child], i + 1)
  {
    assert Child(before[w[i]], keys[i]).None?;
    assert (chain + [child])[..|w|] == w;
    ClosedLink(now, chain[i], keys[i], child);
  }

  /** A pass among the new objects: the newest gets a new empty object
      under its key. */
  lemma WalkStepNew(before: Store, now: Store, w: seq<ConfigObject>, keys: seq<string>, chain: seq<ConfigObject>, i: nat,
                    child: ConfigObject)
    requires Walked(before, now, w, keys, chain, i) && |w| <= i && i + 1 < |keys| && child !in now
    ensures Child(now[chain[i]], keys[i]).None?
    ensures Walked(before, now[chain[i] := now[chain[i]][keys[i] := Obj(child)]][child := map[]], w, keys, chain + [child], i + 1)
  {
    var m, c := |w|, chain + [child];
    var now' := now[chain[i] := now[chain[i]][keys[i] := Obj(child)]][child := map[]];
    assert now[chain[i]] == map[];
    assert c[..m] == chain[..m];
    ClosedLink(now, chain[i], keys[i], child);
    forall j | m <= j < i
      ensures now'[c[j]] == map[keys[j] := Obj(c[j + 1])]
    {
      assert now[chain[j]] == map[keys[j] := Obj(chain[j + 1])];
      assert keys[j] in now[chain[j]] && keys[j] !in now[chain[i]];
      assert c[j] == chain[j] != chain[i] && chain[j] != child;
    }
  }

  /** Writing a value that is not an object keeps a store closed. */
  lemma ClosedWriteScalar(now: Store, o: ConfigObject, k: string, value: Value)
    requires Closed(now) && o in now && !value.Obj?
    ensures Closed(now[o := now[o][k := value]])
  {
  }

  /** The write after the loop when every key but the last named an
      existing object: the last of the walk gets the value. */
  lemma WalkEndExisting(before: Store, now: Store, w: seq<ConfigObject>, keys: seq<string>, chain: seq<ConfigObject>, value: Value)
    requires |keys| >= 1 && Walked(before, now, w, keys, chain, |keys| - 1) && !value.Obj? && |w| == |keys|
    ensures Done(before, now[chain[|keys| - 1] := now[chain[|keys| - 1]][keys[|keys| - 1] := value]], w, keys, value, chain)
  {
    var n := |keys|;
    assert chain == w && now == before;
    ClosedWriteScalar(now, chain[n - 1], keys[n - 1], value);
  }

  /** The write after the loop when the loop created objects: the newest,
      empty one gets the value. */
  lemma WalkEndNew(before: Store, now: Store, w: seq<ConfigObject>, keys: seq<string>, chain: seq<ConfigObject>, value: Value)
    requires |keys| >= 1 && Walked(before, now, w, keys, chain, |keys| - 1) && !value.Obj? && |w| < |keys|
    ensures Done(before, now[chain[|keys| - 1] := now[chain[|keys| - 1]][keys[|keys| - 1] := value]], w, keys, value, chain)
  {
    var n, m := |keys|, |w|;
    var last := chain[n - 1];
    var after := now[last := now[last][keys[n - 1] := value]];
    ClosedWriteScalar(now, last, keys[n - 1], value);
    assert last !in before;
    assert after[last] == map[keys[n - 1] := value];
    forall j | m <= j < n
      ensures after[chain[j]] == map[keys[j] := Next(chain, keys, value, j)]
    {
      if j < n - 1 {
        assert now[chain[j]] == map[keys[j] := Obj(chain[j + 1])];
        assert keys[j] in now[chain[j]] && keys[j] !in now[last];
      }
    }
    assert w[m - 1] in before;
    assert after[w[m - 1]] == now[w[m - 1]];
  }

  /** The write after the loop. */
  lemma WalkEnd(before: Store, now: Store, w: seq<ConfigObject>, keys: seq<string>, chain: seq<ConfigObject>, value: Value)
    requires |keys| >= 1 && Walked(before, now, w, keys, chain, |keys| - 1) && !value.Obj?
    ensures Done(before, now[chain[|keys| - 1] := now[chain[|keys| - 1]][keys[|keys| - 1] := value]], w, keys, value, chain)
  {
    if |w| < |keys| {
      WalkEndNew(before, now, w, keys, chain, value);
    } else {
      WalkEndExisting(before, now, w, keys, chain, value);
    }
  }

  // ---------------------------------------------------------------------------
  // setNestedKey: the loop

  /** The objects of the store hold the entries the store records. */
  predicate Mirrors(now: Store)
    reads now.Keys
  {
    null !in now && forall o: ConfigObject :: o in now ==> o.entries == now[o]
  }

  /** A store the objects mirror is their snapshot. */
  lemma MirrorsSnapshot(now: Store)
    requires Mirrors(now)
    ensures Snapshot(set o: ConfigObject | o in now) == now
  {
  }

  /** One pass of setNestedKey's loop: a missing or non-object entry under
      the key is replaced by a new empty object, and the walk moves into the
      entry. The store now is updated alongside. */
  method Descend(current: ConfigObject, key: string,
                 ghost before: Store, ghost w: seq<ConfigObject>, ghost keys: seq<string>, ghost chain: seq<ConfigObject>,
                 ghost i: nat, ghost now: Store)
    returns (child: ConfigObject, ghost now': Store)
    requires Walked(before, now, w, keys, chain, i) && i + 1 < |keys| && current == chain[i] && key == keys[i]
    requires Mirrors(now)
    modifies current
    ensures Walked(before, now', w, keys, chain + [child], i + 1) && Mirrors(now')
    ensures forall o :: o in now' && o !in now ==> fresh(o)
  {
    if i + 1 < |w| {
      WalkStepExisting(before, now, w, keys, chain, i);
    }
    if !(key in current.entries && current.entries[key].Obj?) {
      var created := new ConfigObject();
      current.entries := current.entries[key := Obj(created)];
      now' := now[current := current.entries][created := map[]];
      if i + 1 == |w| {
        WalkStepLeave(before, now, w, keys, chain, i, created);
      } else {
        WalkStepNew(before, now, w, keys, chain, i, created);
      }
    } else {
      now' := now;
    }
    child := current.entries[key].obj;
  }

  /** The write after setNestedKey's loop. */
  method WriteLast(current: ConfigObject, key: string, value: Value,
                   ghost before: Store, ghost w: seq<ConfigObject>, ghost keys: seq<string>, ghost chain: seq<ConfigObject>,
                   ghost now: Store)
    returns (ghost after: Store)
    requires |keys| >= 1 && Walked(before, now, w, keys, chain, |keys| - 1) && !value.Obj?
    requires current == chain[|keys| - 1] && key == keys[|keys| - 1] && Mirrors(now)
    modifies current
    ensures Done(before, after, w, keys, value, chain) && Mirrors(after) && after.Keys == now.Keys
  {
    current.entries := current.entries[key := value];
    WalkEnd(before, now, w, keys, chain, value);
    after := now[current := current.entries];
  }

  /** setNestedKey(obj, path, value): returns obj, after the writes Done
      describes for the walk of the path's keys; chain holds the objects the
      loop passed through and repr' the objects of the result. */
  method SetNestedKey(obj: ConfigObject, path: string, value: Value, ghost repr: set<ConfigObject>)
    returns (result: ConfigObject, ghost repr': set<ConfigObject>, ghost chain: seq<ConfigObject>)
    requires Closed(Snapshot(repr)) && obj in repr && !value.Obj?
    modifies repr
    ensures result == obj
    ensures Done(old(Snapshot(repr)), Snapshot(repr'), old(Walk(Snapshot(repr), obj, Split(path, '.'))),
                 Split(path, '.'), value, chain)
    ensures forall o :: o in repr' && o !in repr ==> fresh(o)
  {
    var keys := Split(path, '.');
    ghost var before := Snapshot(repr);
    ghost var w := Walk(before, obj, keys);
    ghost var now := before;
    var current := obj;
    chain := [obj];
    WalkStart(before, obj, keys);
    for i := 0 to |keys| - 1
      invariant Walked(before, now, w, keys, chain, i) && current == chain[i] && Mirrors(now)
      invariant forall o :: o in now && o !in repr ==> fresh(o)
    {
      var child;
      child, now := Descend(current, keys[i], before, w, keys, chain, i, now);
      current := child;
      chain := chain + [child];
    }
    ghost var after := WriteLast(current, keys[|keys| - 1], value, before, w, keys, chain, now);
    repr' := set o: ConfigObject | o in after;
    MirrorsSnapshot(after);
    assert old(Snapshot(repr)) == before;
    result := obj;
  }
}
