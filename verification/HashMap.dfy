/** The hash map as the code is written (include/lockless/hash_map.hpp), for calls that do not overlap:
    probe loops over arrays of flags, keys and values. */
module HashMaps {
  import opened Options
  import opened HashTable
  import opened HashTheorems

  /** No claim is waiting for its stores, and no key is stored twice. */
  ghost predicate Quiet<V>(cells: seq<Cell<V>>) {
    && |cells| > 0 && Inv(State(cells, []))
    && (forall j :: 0 <= j < |cells| && cells[j].occupied ==> cells[j].ready)
    && (forall i, j :: 0 <= i < j < |cells| && cells[i].ready && cells[j].ready ==> cells[i].key != cells[j].key)
  }

  /** `m` is the map the cells represent. */
  ghost predicate Represents<V>(cells: seq<Cell<V>>, m: map<Key, V>) {
    && (forall j :: 0 <= j < |cells| && cells[j].ready ==> cells[j].key in m && m[cells[j].key] == cells[j].value)
    && (forall k :: k in m ==> Stored(cells, k))
  }

  ghost predicate Stored<V>(cells: seq<Cell<V>>, k: Key) {
    exists j :: 0 <= j < |cells| && Holds(cells[j], k)
  }

  /** A probe that reaches an empty slot without meeting `k` proves `k` absent. */
  lemma {:induction false} ProbedAbsent<V>(cells: seq<Cell<V>>, k: Key, i: nat)
    requires Quiet(cells) && Missed(State(cells, []), k, i) && i < |cells| && !cells[At(k, i, |cells|)].occupied
    ensures !Stored(cells, k)
  {
    var s := State(cells, []);
    forall j | 0 <= j < |cells|
      ensures !Holds(cells[j], k)
    {
      assert CellOk(s, j);
    }
  }

  /** A probe of every slot without meeting `k` proves `k` absent. */
  lemma {:induction false} AllProbed<V>(cells: seq<Cell<V>>, k: Key)
    requires Quiet(cells) && Missed(State(cells, []), k, |cells|)
    ensures !Stored(cells, k) && forall j :: 0 <= j < |cells| ==> cells[j].occupied
  {
    forall j | 0 <= j < |cells|
      ensures cells[j].occupied && !Holds(cells[j], k)
    {
      var d := DepthOf(k, j, |cells|);
      assert CellOk(State(cells, []), j);
    }
  }

  /** Filling the empty slot that the probe of a new key reached. */
  lemma {:induction false} Filled<V>(cells: seq<Cell<V>>, m: map<Key, V>, k: Key, v: V, i: nat)
    requires Quiet(cells) && Represents(cells, m) && Missed(State(cells, []), k, i) && i < |cells|
    requires !cells[At(k, i, |cells|)].occupied
    ensures var c := Cell(true, true, k, v, Some(Claim(k, v, i, 0)));
            var cells' := cells[At(k, i, |cells|) := c];
            k !in m && Quiet(cells') && Represents(cells', m[k := v])
  {
    var n, p := |cells|, At(k, i, |cells|);
    var cells' := cells[p := Cell(true, true, k, v, Some(Claim(k, v, i, 0)))];
    ProbedAbsent(cells, k, i);
    FilledInv(cells, k, v, i);
    forall x | x in m[k := v]
      ensures Stored(cells', x)
    {
      if x == k {
        assert Holds(cells'[p], k);
      } else {
        assert Stored(cells, x);
        var j :| 0 <= j < n && Holds(cells[j], x);
        assert CellOk(State(cells, []), j);
        assert Holds(cells'[j], x);
      }
    }
    forall j | 0 <= j < n && cells[j].ready
      ensures cells[j].key != k
    {
      assert !Holds(cells[j], k);
    }
    assert CellOk(State(cells, []), p);
  }

  lemma {:induction false} FilledInv<V>(cells: seq<Cell<V>>, k: Key, v: V, i: nat)
    requires Quiet(cells) && Missed(State(cells, []), k, i) && i < |cells| && !cells[At(k, i, |cells|)].occupied
    ensures Inv(State(cells[At(k, i, |cells|) := Cell(true, true, k, v, Some(Claim(k, v, i, 0)))], []))
  {
    var p := At(k, i, |cells|);
    var s, s' := State(cells, []), State(cells[p := Cell(true, true, k, v, Some(Claim(k, v, i, 0)))], []);
    assert CellOk(s, p);
    assert CellsForward(s, s');
    assert Chain(s, k, i) by {
      forall e: nat | e < i ensures s.cells[At(k, e, |cells|)].occupied { assert CellOk(s, At(k, e, |cells|)); }
    }
    ForwardKeeps(s, s', k, i);
    forall j | 0 <= j < |cells| && j != p
      ensures CellOk(s', j)
    {
      assert CellOk(s, j);
      if cells[j].occupied { ForwardKeeps(s, s', cells[j].claim.value.k, cells[j].claim.value.depth); }
    }
  }

  class HashMap<V(0)> {
    const occupied: array<bool>
    const ready: array<bool>
    const keys: array<Key>
    const values: array<V>
    ghost var cells: seq<Cell<V>>
    ghost var m: map<Key, V>

    ghost predicate Valid()
      reads this, occupied, ready, keys, values
    {
      && occupied.Length == ready.Length == keys.Length == values.Length == |cells|
      && occupied != ready && keys as object != values && occupied as object != values && ready as object != values
      && (forall j :: 0 <= j < |cells| ==>
            cells[j] == Cell(occupied[j], ready[j], keys[j], values[j], cells[j].claim))
      && Quiet(cells) && Represents(cells, m)
    }

    constructor (size: nat)
      requires size > 0
      ensures Valid() && m == map[] && |cells| == size
      ensures fresh(occupied) && fresh(ready) && fresh(keys) && fresh(values)
    {
      occupied := new bool[size](i => false);
      ready := new bool[size](i => false);
      keys := new Key[size](i => Key(0, 0));
      var vs := new V[size];
      values := vs;
      cells := seq(size, j requires 0 <= j < size reads vs => Cell(false, false, Key(0, 0), vs[j], None));
      m := map[];
      new;
      InitInv(State(cells, []));
    }

    /** Stores a new key; refuses one that is present, or any key when no slot is empty. */
    method Insert(k: Key, v: V) returns (ok: bool)
      requires Valid()
      modifies this, occupied, ready, keys, values
      ensures Valid() && |cells| == old(|cells|)
      ensures ok <==> k !in old(m) && exists j :: 0 <= j < |old(cells)| && !old(cells)[j].occupied
      ensures m == if ok then old(m)[k := v] else old(m)
    {
      var n := occupied.Length;
      for i := 0 to n
        invariant Valid() && cells == old(cells) && m == old(m) && n == |cells|
        invariant Missed(State(cells, []), k, i)
      {
        var j := At(k, i, n);
        assert CellOk(State(cells, []), j);
        if occupied[j] {
          if ready[j] && keys[j] == k {
            return false;
          }
          MissedGrows(State(cells, []), k, i);
          continue;
        }
        Filled(cells, m, k, v, i);
        assert !cells[j].occupied;
        occupied[j] := true;
        keys[j] := k;
        values[j] := v;
        ready[j] := true;
        cells := cells[j := Cell(true, true, k, v, Some(Claim(k, v, i, 0)))];
        m := m[k := v];
        return true;
      }
      AllProbed(cells, k);
      return false;
    }

    method Find(k: Key) returns (r: Option<V>)
      requires Valid()
      ensures r == if k in m then Some(m[k]) else None
    {
      var n := occupied.Length;
      for i := 0 to n
        invariant Missed(State(cells, []), k, i)
      {
        var j := At(k, i, n);
        assert CellOk(State(cells, []), j);
        if !occupied[j] {
          ProbedAbsent(cells, k, i);
          return None;
        }
        if keys[j] == k {
          return Some(values[j]);
        }
        MissedGrows(State(cells, []), k, i);
      }
      AllProbed(cells, k);
      return None;
    }
  }
}
