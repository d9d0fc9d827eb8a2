/** Filtering a table by a foreign key, and how appends and updates show through the filter. */
module Filtering {

  function Of<T>(rows: seq<T>, key: T -> nat, id: nat): (r: seq<T>) {
    if rows == [] then []
    else
      var last := rows[|rows| - 1];
      Of(rows[..|rows| - 1], key, id) + if key(last) == id then [last] else []
  }

  lemma {:induction false} OfMembers<T>(rows: seq<T>, key: T -> nat, id: nat)
    ensures |Of(rows, key, id)| <= |rows|
    ensures forall x :: x in Of(rows, key, id) <==> x in rows && key(x) == id
  {
    if rows == [] {
    } else {
      OfMembers(rows[..|rows| - 1], key, id);
      assert rows == rows[..|rows| - 1] + [rows[|rows| - 1]];
    }
  }

  lemma {:induction false} OfConcat<T>(xs: seq<T>, ys: seq<T>, key: T -> nat, id: nat)
    ensures Of(xs + ys, key, id) == Of(xs, key, id) + Of(ys, key, id)
  {
    if ys == [] {
      assert xs + ys == xs;
    } else {
      assert (xs + ys)[..|xs + ys| - 1] == xs + ys[..|ys| - 1];
      OfConcat(xs, ys[..|ys| - 1], key, id);
    }
  }

  lemma {:induction false} OfAll<T>(rows: seq<T>, key: T -> nat, id: nat)
    requires forall x :: x in rows ==> key(x) == id
    ensures Of(rows, key, id) == rows
  {
    if rows == [] {
    } else {
      var init := rows[..|rows| - 1];
      assert rows == init + [rows[|rows| - 1]];
      OfAll(init, key, id);
    }
  }

  lemma {:induction false} OfNone<T>(rows: seq<T>, key: T -> nat, id: nat)
    requires forall x :: x in rows ==> key(x) != id
    ensures Of(rows, key, id) == []
  {
    if rows == [] {
    } else {
      OfNone(rows[..|rows| - 1], key, id);
    }
  }

  /** Rows appended for one owner appear, in order, at the end of that owner's rows and nowhere else. */
  lemma {:induction false} OfAppend<T>(xs: seq<T>, ys: seq<T>, key: T -> nat, owner: nat, id: nat)
    requires forall y :: y in ys ==> key(y) == owner
    ensures Of(xs + ys, key, id) == if id == owner then Of(xs, key, id) + ys else Of(xs, key, id)
  {
    OfConcat(xs, ys, key, id);
    if id == owner {
      OfAll(ys, key, id);
    } else {
      OfNone(ys, key, id);
    }
  }

  /** Where row `i` shows up among the rows of its owner. */
  function Slot<T>(rows: seq<T>, key: T -> nat, i: nat): nat
    requires i < |rows|
  {
    |Of(rows[..i], key, key(rows[i]))|
  }

  /** A row between two stretches of a table, as seen by its owner and by everyone else. */
  lemma {:induction false} OfAround<T>(xs: seq<T>, row: T, ys: seq<T>, key: T -> nat, id: nat)
    ensures Of(xs + [row] + ys, key, id) ==
            if key(row) == id then Of(xs, key, id) + [row] + Of(ys, key, id)
            else Of(xs, key, id) + Of(ys, key, id)
  {
    OfConcat(xs + [row], ys, key, id);
    OfAppend(xs, [row], key, key(row), id);
  }

  lemma OfUpdate<T>(rows: seq<T>, key: T -> nat, i: nat, row: T, id: nat)
    requires i < |rows| && key(row) == key(rows[i])
    ensures key(row) != id ==> Of(rows[i := row], key, id) == Of(rows, key, id)
    ensures key(row) == id ==>
      && Slot(rows, key, i) < |Of(rows, key, id)|
      && Of(rows, key, id)[Slot(rows, key, i)] == rows[i]
      && Of(rows[i := row], key, id) == Of(rows, key, id)[Slot(rows, key, i) := row]
  {
    var head, tail := rows[..i], rows[i + 1..];
    assert rows == head + [rows[i]] + tail;
    assert rows[i := row] == head + [row] + tail;
    OfAround(head, rows[i], tail, key, id);
    OfAround(head, row, tail, key, id);
  }
}
