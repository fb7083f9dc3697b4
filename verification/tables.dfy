/** A database table as the handlers use it: rows keyed by their integer
    id, and the id sequence that numbers new rows. */
module Tables {

  import opened Wrappers
  import opened Values

  /** `next` is the value the id sequence hands out next. */
  datatype Table<R> = Table(rows: map<nat, R>, next: nat)

  /** A row together with its id, as `SELECT *` returns it. */
  datatype Keyed<R> = Keyed(id: nat, row: R)

  /** Every id handed out so far lies below the sequence's next value. */
  predicate Numbered<R>(t: Table<R>)
  {
    forall k :: k in t.rows ==> k < t.next
  }

  /** The first id at or above `from` that no row holds. */
  function FreshId<R>(rows: map<nat, R>, from: nat): (id: nat)
    ensures id !in rows && from <= id
    ensures from !in rows ==> id == from
    decreases |IdsFrom(rows, from)|
  {
    if from !in rows then from
    else
      assert IdsFrom(rows, from + 1) == IdsFrom(rows, from) - {from};
      FreshId(rows, from + 1)
  }

  function IdsFrom<R>(rows: map<nat, R>, from: nat): set<nat>
  {
    set k | k in rows.Keys && from <= k
  }

  /** `INSERT ... RETURNING id`: the new id and the table after. */
  function Insert<R>(t: Table<R>, row: R): (r: (nat, Table<R>))
    ensures r.0 !in t.rows && t.next <= r.0
    ensures r.1.rows == t.rows[r.0 := row]
    ensures Numbered(t) ==> r.0 == t.next && Numbered(r.1)
  {
    var id := FreshId(t.rows, t.next);
    (id, Table(t.rows[id := row], id + 1))
  }

  /** `DELETE ... WHERE id = %s`: the row count and the table after. */
  function DeleteWhere<R>(t: Table<R>, id: nat): (r: (nat, Table<R>))
    ensures r.0 <= 1
    ensures r.0 == 1 <==> id in t.rows
    ensures r.1.rows == t.rows - {id} && r.1.next == t.next
    ensures Numbered(t) ==> Numbered(r.1)
  {
    if id in t.rows then (1, t.(rows := t.rows - {id})) else (0, t)
  }

  /** `UPDATE ... WHERE id = key`, rewriting the matched row with `rewrite`:
      the row count and the table after. */
  function UpdateWhere<R>(t: Table<R>, key: Value, rewrite: R -> R): (r: (nat, Table<R>))
    ensures r.0 <= 1
    ensures r.0 == 1 <==> AsId(key).Some? && AsId(key).value in t.rows
    ensures r.0 == 1 ==> r.1 == t.(rows := t.rows[AsId(key).value := rewrite(t.rows[AsId(key).value])])
    ensures r.0 == 0 ==> r.1 == t
    ensures Numbered(t) ==> Numbered(r.1)
  {
    match AsId(key)
    case Some(k) => if k in t.rows then (1, t.(rows := t.rows[k := rewrite(t.rows[k])])) else (0, t)
    case None => (0, t)
  }

  /** `SELECT ... WHERE id = key`. */
  function Lookup<R>(t: Table<R>, key: Value): (r: Option<R>)
    ensures r.Some? <==> AsId(key).Some? && AsId(key).value in t.rows
    ensures r.Some? ==> r.value == t.rows[AsId(key).value]
  {
    match AsId(key)
    case Some(k) => if k in t.rows then Some(t.rows[k]) else None
    case None => None
  }

  /** Ids in a deleted row's place are never handed out again. */
  lemma DeletedIdNotReused<R>(t: Table<R>, id: nat, row: R)
    requires Numbered(t) && id in t.rows
    ensures Insert(DeleteWhere(t, id).1, row).0 != id
  {
  }

  /** Every non-empty finite set of ids has a least element. */
  lemma {:induction false} Least(s: set<nat>) returns (m: nat)
    requires s != {}
    ensures m in s && forall x :: x in s ==> m <= x
    decreases |s|
  {
    var x :| x in s;
    if s == {x} {
      m := x;
    } else {
      var rest := s - {x};
      var r := Least(rest);
      m := if x < r then x else r;
      forall y | y in s
        ensures m <= y
      {
        if y != x {
          assert y in rest;
        }
      }
    }
  }

  /** The ids of a set in ascending order (`ORDER BY id`). */
  method AscendingIds(keys: set<nat>) returns (ids: seq<nat>)
    ensures forall i, j :: 0 <= i < j < |ids| ==> ids[i] < ids[j]
    ensures forall k :: k in ids <==> k in keys
    ensures |ids| == |keys|
  {
    ids := [];
    var rest := keys;
    while rest != {}
      invariant rest <= keys
      invariant forall k :: k in ids ==> k in keys && k !in rest
      invariant forall k :: k in keys && k !in rest ==> k in ids
      invariant forall i, k :: 0 <= i < |ids| && k in rest ==> ids[i] < k
      invariant forall i, j :: 0 <= i < j < |ids| ==> ids[i] < ids[j]
      invariant |ids| + |rest| == |keys|
      decreases rest
    {
      ghost var least := Least(rest);
      var m :| m in rest && forall x :: x in rest ==> m <= x;
      ids := ids + [m];
      rest := rest - {m};
    }
  }
}
