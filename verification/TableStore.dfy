/**
A table of the memory adapter: a list of rows, searched from the front and edited in
place. For rows found by a unique key the list behaves as a finite map.
*/
module TableStore {
  import opened Options

  ghost predicate UniqueKeys<K, R>(rows: seq<(K, R)>) {
    forall i, j :: 0 <= i < j < |rows| ==> rows[i].0 != rows[j].0
  }

  /** The map a list of rows stands for. */
  function AsMap<K, R>(rows: seq<(K, R)>): map<K, R> {
    if rows == [] then map[]
    else AsMap(rows[..|rows| - 1])[rows[|rows| - 1].0 := rows[|rows| - 1].1]
  }

  function Lookup<K, R>(m: map<K, R>, key: K): Option<R> {
    if key in m then Some(m[key]) else None
  }

  lemma {:induction false} RowIsMapped<K, R>(rows: seq<(K, R)>, i: nat)
    requires UniqueKeys(rows) && i < |rows|
    ensures Lookup(AsMap(rows), rows[i].0) == Some(rows[i].1)
  {
    if i < |rows| - 1 {
      RowIsMapped(rows[..|rows| - 1], i);
    }
  }

  lemma {:induction false} KeyIsMapped<K, R>(rows: seq<(K, R)>, key: K)
    ensures key in AsMap(rows) <==> exists i :: 0 <= i < |rows| && rows[i].0 == key
  {
    if rows != [] {
      KeyIsMapped(rows[..|rows| - 1], key);
    }
  }

  /** Two lists of rows with unique keys are the same map when they hold the same rows. */
  lemma {:induction false} MapByRows<K, R>(rows: seq<(K, R)>, m: map<K, R>)
    requires UniqueKeys(rows)
    requires forall i :: 0 <= i < |rows| ==> Lookup(m, rows[i].0) == Some(rows[i].1)
    requires forall k :: k in m ==> exists i :: 0 <= i < |rows| && rows[i].0 == k
    ensures AsMap(rows) == m
  {
    forall k ensures Lookup(AsMap(rows), k) == Lookup(m, k) {
      KeyIsMapped(rows, k);
      if k in AsMap(rows) {
        var i :| 0 <= i < |rows| && rows[i].0 == k;
        RowIsMapped(rows, i);
      }
    }
    forall k | k in m ensures k in AsMap(rows) && AsMap(rows)[k] == m[k] {
      assert Lookup(AsMap(rows), k) == Lookup(m, k);
    }
    forall k | k in AsMap(rows) ensures k in m {
      assert Lookup(AsMap(rows), k) == Lookup(m, k);
    }
  }

  lemma {:induction false} AsManyRows<K, R>(rows: seq<(K, R)>)
    requires UniqueKeys(rows)
    ensures |AsMap(rows)| == |rows|
  {
    if rows != [] {
      AsManyRows(rows[..|rows| - 1]);
      KeyIsMapped(rows[..|rows| - 1], rows[|rows| - 1].0);
    }
  }

  /** The map without the rows that match. */
  function Without<K, R>(m: map<K, R>, matches: (K, R) -> bool): map<K, R> {
    map k | k in m && !matches(k, m[k]) :: m[k]
  }

  lemma {:induction false} KeptRows<K, R>(before: seq<(K, R)>, keep: seq<(K, R)>, matches: (K, R) -> bool)
    requires UniqueKeys(before) && UniqueKeys(keep)
    requires forall j :: 0 <= j < |keep| ==> keep[j] in before && !matches(keep[j].0, keep[j].1)
    requires forall j :: 0 <= j < |before| && !matches(before[j].0, before[j].1) ==> before[j] in keep
    ensures AsMap(keep) == Without(AsMap(before), matches)
  {
    var kept := Without(AsMap(before), matches);
    forall k | k in kept ensures exists j :: 0 <= j < |keep| && keep[j].0 == k {
      KeyIsMapped(before, k);
      var j :| 0 <= j < |before| && before[j].0 == k;
      RowIsMapped(before, j);
      assert before[j] in keep;
    }
    forall j | 0 <= j < |keep| ensures Lookup(kept, keep[j].0) == Some(keep[j].1) {
      assert keep[j] in before;
      var n :| 0 <= n < |before| && before[n] == keep[j];
      RowIsMapped(before, n);
    }
    MapByRows(keep, kept);
  }

  class Table<K(==), R> {
    var rows: seq<(K, R)>

    constructor ()
      ensures rows == []
    {
      rows := [];
    }

    ghost predicate Valid()
      reads this
    {
      UniqueKeys(rows)
    }

    ghost function View(): map<K, R>
      reads this
    {
      AsMap(rows)
    }

    /** The position of the first row with `key`, or the number of rows. */
    method Position(key: K) returns (i: nat)
      ensures i <= |rows|
      ensures i < |rows| ==> rows[i].0 == key
      ensures forall j :: 0 <= j < i ==> rows[j].0 != key
      ensures i < |rows| <==> key in View()
    {
      KeyIsMapped(rows, key);
      i := 0;
      while i < |rows|
        invariant i <= |rows|
        invariant forall j :: 0 <= j < i ==> rows[j].0 != key
      {
        if rows[i].0 == key { return; }
        i := i + 1;
      }
    }

    method FindOne(key: K) returns (r: Option<R>)
      requires Valid()
      ensures r == Lookup(View(), key)
    {
      var i := Position(key);
      if i == |rows| {
        return None;
      }
      RowIsMapped(rows, i);
      r := Some(rows[i].1);
    }

    method Create(key: K, row: R)
      requires Valid() && key !in View()
      modifies this
      ensures Valid() && View() == old(View())[key := row]
    {
      KeyIsMapped(rows, key);
      rows := rows + [(key, row)];
      assert rows[..|rows| - 1] == old(rows);
    }

    /** Edits the first matching row, when there is one, and returns it as it is then. */
    method Update(key: K, edit: R -> R) returns (r: Option<R>)
      requires Valid()
      modifies this
      ensures Valid() && r == Lookup(View(), key)
      ensures View() == if key in old(View()) then old(View())[key := edit(old(View())[key])] else old(View())
    {
      var i := Position(key);
      r := None;
      if i < |rows| {
        ghost var before := rows;
        forall j | 0 <= j < |before| { RowIsMapped(before, j); }
        forall k { KeyIsMapped(before, k); }
        var row := edit(rows[i].1);
        rows := rows[i := (key, row)];
        r := Some(row);
        forall k | k in AsMap(before) ensures exists j :: 0 <= j < |rows| && rows[j].0 == k {
          var j :| 0 <= j < |before| && before[j].0 == k;
          assert rows[j].0 == k;
        }
        MapByRows(rows, AsMap(before)[key := row]);
      }
    }

    /** Deletes the first matching row and returns it: a single-use token is consumed. */
    method ConsumeOne(key: K) returns (r: Option<R>)
      requires Valid()
      modifies this
      ensures Valid() && r == Lookup(old(View()), key) && View() == old(View()) - {key}
    {
      r := FindOne(key);
      var i := Position(key);
      if i < |rows| {
        ghost var before := rows;
        forall j | 0 <= j < |before| { RowIsMapped(before, j); }
        forall k { KeyIsMapped(before, k); }
        rows := rows[..i] + rows[i + 1..];
        forall k | k in AsMap(before) - {key} ensures exists j :: 0 <= j < |rows| && rows[j].0 == k {
          var j :| 0 <= j < |before| && before[j].0 == k;
          assert rows[if j < i then j else j - 1].0 == k;
        }
        MapByRows(rows, AsMap(before) - {key});
      }
    }

    /** Deletes every row that matches, and says how many there were. */
    method DeleteMany(matches: (K, R) -> bool) returns (removed: nat)
      requires Valid()
      modifies this
      ensures Valid() && View() == Without(old(View()), matches)
      ensures removed == |old(View())| - |View()|
    {
      ghost var before := rows;
      var keep: seq<(K, R)> := [];
      for i := 0 to |rows|
        invariant rows == before
        invariant forall j :: 0 <= j < |keep| ==> keep[j] in rows[..i] && !matches(keep[j].0, keep[j].1)
        invariant forall j :: 0 <= j < i && !matches(rows[j].0, rows[j].1) ==> rows[j] in keep
        invariant UniqueKeys(keep) && |keep| <= i
      {
        if !matches(rows[i].0, rows[i].1) {
          keep := keep + [rows[i]];
        }
        assert rows[..i + 1] == rows[..i] + [rows[i]];
      }
      removed := |rows| - |keep|;
      rows := keep;
      KeptRows(before, keep, matches);
      AsManyRows(before);
      AsManyRows(rows);
    }
  }
}
