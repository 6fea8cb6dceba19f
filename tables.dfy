/**
 * In-memory stand-ins for the SQLite tables behind the backend handlers.
 * A table is the sequence of its rows in rowid order; ids are strictly
 * increasing, and a new row gets the largest id plus one (1 in an empty
 * table), which is how SQLite assigns an INTEGER PRIMARY KEY.
 */
module Tables {

  import opened Common

  datatype Row<R> = Row(id: int, rec: R)

  /** Ids strictly increase along the table, so each id names at most one row. */
  predicate IdsIncrease<R>(t: seq<Row<R>>) {
    forall i, j :: 0 <= i < j < |t| ==> t[i].id < t[j].id
  }

  predicate HasId<R>(t: seq<Row<R>>, id: int) {
    exists i :: 0 <= i < |t| && t[i].id == id
  }

  /** `query(...).filter(id == ...).first()` */
  function Lookup<R>(t: seq<Row<R>>, id: int): (r: Option<Row<R>>)
    ensures r.Some? <==> HasId(t, id)
    ensures r.Some? ==> r.value in t && r.value.id == id
    ensures IdsIncrease(t) ==> forall row :: row in t && row.id == id ==> r == Some(row)
  {
    if t == [] then None
    else if t[0].id == id then Some(t[0])
    else
      var r := Lookup(t[1..], id);
      assert forall i :: 0 < i < |t| ==> t[i] == t[1..][i - 1];
      r
  }

  /** The rowid SQLite gives the next inserted row. */
  function NextId<R>(t: seq<Row<R>>): (id: int)
    ensures IdsIncrease(t) ==> forall i :: 0 <= i < |t| ==> t[i].id < id
  {
    if t == [] then 1 else t[|t| - 1].id + 1
  }

  /** `db.add(...)` of a new record: appended with a fresh id. */
  function Insert<R>(t: seq<Row<R>>, rec: R): (t': seq<Row<R>>)
    ensures t' == t + [Row(NextId(t), rec)]
    ensures IdsIncrease(t) ==> IdsIncrease(t') && !HasId(t, NextId(t))
  {
    t + [Row(NextId(t), rec)]
  }

  /** The rows that satisfy `keep`, in table order. */
  function Where<R(!new)>(t: seq<Row<R>>, keep: Row<R> -> bool): (r: seq<Row<R>>)
    ensures forall row :: row in r <==> row in t && keep(row)
    ensures |r| <= |t|
    ensures IdsIncrease(t) ==> IdsIncrease(r)
    ensures (forall i :: 0 <= i < |t| ==> keep(t[i])) ==> r == t
  {
    if t == [] then []
    else
      var rest := Where(t[1..], keep);
      WhereCons(t, keep, rest);
      if keep(t[0]) then [t[0]] + rest else rest
  }

  /** One step of `Where`: the head is kept or dropped in front of the filtered tail. */
  lemma WhereCons<R(!new)>(t: seq<Row<R>>, keep: Row<R> -> bool, rest: seq<Row<R>>)
    requires t != []
    requires forall row :: row in rest <==> row in t[1..] && keep(row)
    requires |rest| <= |t| - 1
    requires IdsIncrease(t[1..]) ==> IdsIncrease(rest)
    requires (forall i :: 0 <= i < |t[1..]| ==> keep(t[1..][i])) ==> rest == t[1..]
    ensures var r := if keep(t[0]) then [t[0]] + rest else rest;
            && (forall row :: row in r <==> row in t && keep(row))
            && |r| <= |t|
            && (IdsIncrease(t) ==> IdsIncrease(r))
            && ((forall i :: 0 <= i < |t| ==> keep(t[i])) ==> r == t)
  {
    assert t == [t[0]] + t[1..];
    if IdsIncrease(t) {
      assert IdsIncrease(t[1..]) by {
        forall i, j | 0 <= i < j < |t[1..]| ensures t[1..][i].id < t[1..][j].id {
          assert t[1..][i] == t[i + 1] && t[1..][j] == t[j + 1];
        }
      }
      if keep(t[0]) {
        WhereHead(t, rest);
      }
    }
    if forall i :: 0 <= i < |t| ==> keep(t[i]) {
      forall i | 0 <= i < |t[1..]| ensures keep(t[1..][i]) {
        assert t[1..][i] == t[i + 1];
      }
    }
  }

  lemma WhereHead<R>(t: seq<Row<R>>, rest: seq<Row<R>>)
    requires t != []
    requires forall row :: row in rest ==> row in t[1..]
    requires IdsIncrease(t) ==> IdsIncrease(rest)
    ensures IdsIncrease(t) ==> IdsIncrease([t[0]] + rest)
  {
    if IdsIncrease(t) {
      forall row | row in rest ensures t[0].id < row.id {
        var k :| 0 <= k < |t[1..]| && t[1..][k] == row;
        assert t[k + 1] == row;
      }
    }
  }

  /** `db.delete(row)`: every other row stays, in order. */
  function Delete<R(!new)>(t: seq<Row<R>>, id: int): (t': seq<Row<R>>)
    ensures forall row :: row in t' <==> row in t && row.id != id
    ensures !HasId(t', id)
    ensures IdsIncrease(t) ==> IdsIncrease(t')
    ensures !HasId(t, id) ==> t' == t
  {
    Where(t, (row: Row<R>) => row.id != id)
  }

  /** Writing back a changed row: the row with the same id is replaced, all others stay. */
  function Replace<R>(t: seq<Row<R>>, row: Row<R>): (t': seq<Row<R>>)
    ensures |t'| == |t|
    ensures forall i :: 0 <= i < |t| ==> t'[i] == if t[i].id == row.id then row else t[i]
    ensures IdsIncrease(t) ==> IdsIncrease(t')
  {
    seq(|t|, i requires 0 <= i < |t| => if t[i].id == row.id then row else t[i])
  }

  /** Applying `setattr` once per item, first item first. */
  function Fold<R, F>(rec: R, items: seq<F>, setattr: (R, F) -> R): R
  {
    if items == [] then rec
    else setattr(Fold(rec, items[..|items| - 1], setattr), items[|items| - 1])
  }

  lemma {:induction false} FoldAppend<R, F>(rec: R, a: seq<F>, b: seq<F>, setattr: (R, F) -> R)
    ensures Fold(rec, a + b, setattr) == Fold(Fold(rec, a, setattr), b, setattr)
  {
    if b == [] {
      assert a + b == a;
    } else {
      assert (a + b)[..|a + b| - 1] == a + b[..|b| - 1];
      FoldAppend(rec, a, b[..|b| - 1], setattr);
    }
  }

  /** Appending at most one item applies `setattr` once more, or not at all. */
  lemma FoldMaybe<R, F>(rec: R, a: seq<F>, b: seq<F>, setattr: (R, F) -> R)
    requires |b| <= 1
    ensures Fold(rec, a + b, setattr) == if b == [] then Fold(rec, a, setattr) else setattr(Fold(rec, a, setattr), b[0])
  {
    if b == [] {
      assert a + b == a;
    } else {
      assert (a + b)[..|a + b| - 1] == a;
    }
  }

  /** The effect of at most one optional item. */
  function ApplyMaybe<R, F>(rec: R, b: seq<F>, setattr: (R, F) -> R): R {
    if b == [] then rec else setattr(rec, b[0])
  }

  /** Folding five optional items applies each in turn. */
  lemma FoldFive<R, F>(rec: R, a: seq<F>, b: seq<F>, c: seq<F>, d: seq<F>, f: seq<F>, setattr: (R, F) -> R)
    requires |a| <= 1 && |b| <= 1 && |c| <= 1 && |d| <= 1 && |f| <= 1
    ensures Fold(rec, a + b + c + d + f, setattr) ==
            ApplyMaybe(ApplyMaybe(ApplyMaybe(ApplyMaybe(ApplyMaybe(rec, a, setattr), b, setattr), c, setattr), d, setattr), f, setattr)
  {
    FoldMaybe(rec, [], a, setattr);
    assert [] + a == a;
    FoldMaybe(rec, a, b, setattr);
    FoldMaybe(rec, a + b, c, setattr);
    FoldMaybe(rec, a + b + c, d, setattr);
    FoldMaybe(rec, a + b + c + d, f, setattr);
  }

  /** `for field, value in update_data.items(): setattr(record, field, value)` */
  method SetAttrs<R, F>(rec: R, items: seq<F>, setattr: (R, F) -> R) returns (r: R)
    ensures r == Fold(rec, items, setattr)
  {
    r := rec;
    for i := 0 to |items|
      invariant r == Fold(rec, items[..i], setattr)
    {
      assert items[..i + 1][..i] == items[..i];
      r := setattr(r, items[i]);
    }
    assert items[..|items|] == items;
  }
}
