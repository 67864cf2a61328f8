/**
 * What the BMI and food tables have in common: rows owned by a user, with a
 * primary key and a `created_at` stamp the store assigns at insert time, and
 * the history query `filter(user_id == uid).order_by(created_at.desc())`.
 * The store's clock is a counter that advances on every insert, so stamps
 * increase along the table in insertion order.
 */
module Tables {

  /** A stored row: the columns the store adds around the payload `data`. */
  datatype Row<T> = Row(id: nat, userId: int, createdAt: nat, data: T)

  /** Rows appear in the order they were stamped. */
  ghost predicate Chronological<T>(rows: seq<Row<T>>) {
    forall i, j :: 0 <= i < j < |rows| ==> rows[i].createdAt < rows[j].createdAt
  }

  /** Stamps strictly decrease along the sequence: `ORDER BY created_at DESC`. */
  ghost predicate NewestFirst<T>(rows: seq<Row<T>>) {
    forall i, j :: 0 <= i < j < |rows| ==> rows[i].createdAt > rows[j].createdAt
  }

  /** The table invariant: chronological, ids unique and below the next id, stamps below the clock. */
  ghost predicate Consistent<T>(rows: seq<Row<T>>, nextId: nat, clock: nat) {
    && Chronological(rows)
    && (forall i :: 0 <= i < |rows| ==> rows[i].id < nextId && rows[i].createdAt < clock)
    && (forall i, j :: 0 <= i < j < |rows| ==> rows[i].id != rows[j].id)
  }

  /** The rows owned by `uid`, newest first. */
  function OwnedNewestFirst<T>(rows: seq<Row<T>>, uid: int): (r: seq<Row<T>>)
    ensures forall i :: 0 <= i < |r| ==> r[i] in rows && r[i].userId == uid
    ensures forall i :: 0 <= i < |rows| && rows[i].userId == uid ==> rows[i] in r
    ensures |r| <= |rows|
    decreases |rows|
  {
    if rows == [] then []
    else
      var last := rows[|rows| - 1];
      var earlier := OwnedNewestFirst(rows[..|rows| - 1], uid);
      assert rows == rows[..|rows| - 1] + [last];
      if last.userId == uid then [last] + earlier else earlier
  }

  /** On a chronological table the history really is newest first. */
  lemma {:induction false} OwnedNewestFirstIsOrdered<T>(rows: seq<Row<T>>, uid: int)
    requires Chronological(rows)
    ensures NewestFirst(OwnedNewestFirst(rows, uid))
    decreases |rows|
  {
    if rows != [] {
      var n := |rows| - 1;
      var earlier := OwnedNewestFirst(rows[..n], uid);
      OwnedNewestFirstIsOrdered(rows[..n], uid);
      forall x | x in earlier
        ensures x.createdAt < rows[n].createdAt
      {
        var k :| 0 <= k < n && rows[..n][k] == x;
      }
    }
  }

  /** A non-empty sequence holds its first element. */
  lemma HeadIsMember<T>(s: seq<T>)
    ensures s != [] ==> s[0] in s
  {
  }

  /** Two newest-first sequences with the same members are the same sequence. */
  lemma {:induction false} NewestFirstIsUnique<T>(a: seq<Row<T>>, b: seq<Row<T>>)
    requires NewestFirst(a) && NewestFirst(b)
    requires forall x :: x in a <==> x in b
    ensures a == b
    decreases |a|
  {
    if a == [] {
      if b != [] {
        HeadIsMember(b);
        assert false;
      }
    } else {
      assert a[0] in b;
      assert b != [];
      assert b[0] in a;
      var m :| 0 <= m < |a| && a[m] == b[0];
      var k :| 0 <= k < |b| && b[k] == a[0];
      assert a[m].createdAt <= a[0].createdAt;
      assert b[k].createdAt <= b[0].createdAt;
      assert m == 0;
      assert a[0] == b[0];
      forall x
        ensures x in a[1..] <==> x in b[1..]
      {
        if x in a[1..] {
          var p :| 1 <= p < |a| && a[p] == x;
          assert x.createdAt < a[0].createdAt;
          assert x in a && x in b;
          var q :| 0 <= q < |b| && b[q] == x;
          assert q != 0;
          assert b[1..][q - 1] == x;
        }
        if x in b[1..] {
          var q :| 1 <= q < |b| && b[q] == x;
          assert x.createdAt < b[0].createdAt;
          assert x in b && x in a;
          var p :| 0 <= p < |a| && a[p] == x;
          assert p != 0;
          assert a[1..][p - 1] == x;
        }
      }
      NewestFirstIsUnique(a[1..], b[1..]);
      assert a == [a[0]] + a[1..];
      assert b == [b[0]] + b[1..];
    }
  }

  /**
   * `OwnedNewestFirst` is the only answer the query can give: any
   * newest-first sequence of exactly the owner's rows equals it.
   */
  lemma HistoryIsDetermined<T>(rows: seq<Row<T>>, uid: int, s: seq<Row<T>>)
    requires Chronological(rows)
    requires NewestFirst(s)
    requires forall x :: x in s <==> x in rows && x.userId == uid
    ensures s == OwnedNewestFirst(rows, uid)
  {
    OwnedNewestFirstIsOrdered(rows, uid);
    NewestFirstIsUnique(s, OwnedNewestFirst(rows, uid));
  }

  /** The row the store builds on insert: next id, owner, current clock tick. */
  function Stamped<T>(nextId: nat, uid: int, clock: nat, data: T): (row: Row<T>)
    ensures row.id == nextId && row.userId == uid && row.createdAt == clock && row.data == data
  {
    Row(nextId, uid, clock, data)
  }

  /** Inserting a stamped row keeps the table consistent once the counters advance. */
  lemma InsertKeepsConsistent<T>(rows: seq<Row<T>>, nextId: nat, clock: nat, uid: int, data: T)
    requires Consistent(rows, nextId, clock)
    ensures Consistent(rows + [Stamped(nextId, uid, clock, data)], nextId + 1, clock + 1)
  {
  }

  /** After an insert the new row heads its owner's history; other owners' histories are unchanged. */
  lemma {:induction false} InsertHeadsHistory<T>(rows: seq<Row<T>>, row: Row<T>, uid: int)
    ensures OwnedNewestFirst(rows + [row], uid) ==
            if row.userId == uid then [row] + OwnedNewestFirst(rows, uid) else OwnedNewestFirst(rows, uid)
  {
    assert (rows + [row])[..|rows|] == rows;
  }
}
