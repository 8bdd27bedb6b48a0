/** `SELECT ... WHERE p ORDER BY key, id LIMIT n` over the live rows. */
module Selection {
  import opened ServerConfig

  ghost predicate Contains(items: seq<Row>, id: RowId) {
    exists i :: 0 <= i < |items| && items[i].id == id
  }

  predicate Before(key: Row -> int, a: Row, b: Row) {
    key(a) < key(b) || (key(a) == key(b) && a.id < b.id)
  }

  predicate KeysAreIds(rows: map<RowId, Row>) {
    forall id | id in rows :: rows[id].id == id
  }

  /** The first `limit` matching rows in order, and all of them when there are no more. */
  ghost predicate IsSelection(rows: map<RowId, Row>, p: Row -> bool, key: Row -> int, limit: nat, items: seq<Row>) {
    && |items| <= limit
    && (forall i :: 0 <= i < |items| ==> items[i].id in rows && rows[items[i].id] == items[i] && p(items[i]))
    && (forall i, j :: 0 <= i < j < |items| ==> Before(key, items[i], items[j]))
    && (forall id | id in rows && p(rows[id]) && !Contains(items, id) ::
          |items| == limit && forall i :: 0 <= i < |items| ==> Before(key, items[i], rows[id]))
  }

  function Ids(items: seq<Row>): set<RowId> {
    set i | 0 <= i < |items| :: items[i].id
  }

  method Select(rows: map<RowId, Row>, p: Row -> bool, key: Row -> int, limit: nat) returns (items: seq<Row>)
    requires KeysAreIds(rows)
    ensures IsSelection(rows, p, key, limit, items)
  {
    items := [];
    var rest := set id | id in rows && p(rows[id]);
    while rest != {} && |items| < limit
      invariant |items| <= limit
      invariant forall i :: 0 <= i < |items| ==> items[i].id in rows && rows[items[i].id] == items[i] && p(items[i])
      invariant forall i, j :: 0 <= i < j < |items| ==> Before(key, items[i], items[j])
      invariant forall id | id in rest :: id in rows && p(rows[id])
      invariant forall id | id in rows && p(rows[id]) :: id in rest || Contains(items, id)
      invariant forall i, id | 0 <= i < |items| && id in rest :: Before(key, items[i], rows[id])
      decreases rest
    {
      var first := First(rows, rest, key);
      ghost var was := items;
      items := items + [rows[first]];
      rest := rest - {first};
      assert items[|items| - 1].id == first;
      forall id | Contains(was, id) ensures Contains(items, id) {
        var i :| 0 <= i < |was| && was[i].id == id;
        assert items[i].id == id;
      }
    }
  }

  method First(rows: map<RowId, Row>, ids: set<RowId>, key: Row -> int) returns (first: RowId)
    requires KeysAreIds(rows) && ids != {} && ids <= rows.Keys
    ensures first in ids && forall id | id in ids && id != first :: Before(key, rows[first], rows[id])
  {
    first :| first in ids;
    var rest := ids - {first};
    while rest != {}
      invariant rest <= ids && first in ids - rest
      invariant forall id | id in ids - rest && id != first :: Before(key, rows[first], rows[id])
      decreases rest
    {
      var id :| id in rest;
      if Before(key, rows[id], rows[first]) {
        first := id;
      }
      rest := rest - {id};
    }
  }

  /** A selection holds as many rows as match, up to the limit. */
  lemma SelectionSize(
      rows: map<RowId, Row>, p: Row -> bool, key: Row -> int, limit: nat, items: seq<Row>, matching: set<RowId>)
    requires KeysAreIds(rows) && IsSelection(rows, p, key, limit, items)
    requires forall id :: id in matching <==> id in rows && p(rows[id])
    ensures Ids(items) <= matching && |Ids(items)| == |items|
    ensures |items| == if |matching| <= limit then |matching| else limit
  {
    IdsCount(items);
    Subset(Ids(items), matching);
    if |items| < limit {
      forall id | id in matching ensures id in Ids(items) {
        assert Contains(items, id);
      }
      assert Ids(items) == matching;
    }
  }

  lemma {:induction false} IdsCount(items: seq<Row>)
    requires forall i, j :: 0 <= i < j < |items| ==> items[i].id != items[j].id
    ensures |Ids(items)| == |items|
  {
    if items != [] {
      var init := items[..|items| - 1];
      IdsCount(init);
      assert Ids(items) == Ids(init) + {items[|items| - 1].id};
    }
  }

  lemma {:induction false} Subset<T>(a: set<T>, b: set<T>)
    requires a <= b
    ensures |a| <= |b|
    ensures |a| == |b| ==> a == b
  {
    if a != {} {
      var x :| x in a;
      Subset(a - {x}, b - {x});
    }
  }

  lemma DifferenceSize<T>(a: set<T>, b: set<T>)
    requires b <= a
    ensures |a - b| == |a| - |b|
  {
    assert a == (a - b) + b;
  }

  /** Rows by identifier; a later row of the sequence wins. */
  function ItemsById(items: seq<Row>): map<RowId, Row> {
    if items == [] then map[] else ItemsById(items[..|items| - 1])[items[|items| - 1].id := items[|items| - 1]]
  }

  lemma {:induction false} ItemsByIdContains(items: seq<Row>)
    requires forall i, j :: 0 <= i < j < |items| ==> items[i].id != items[j].id
    ensures forall id :: id in ItemsById(items) <==> Contains(items, id)
    ensures forall i :: 0 <= i < |items| ==>
      items[i].id in ItemsById(items) && ItemsById(items)[items[i].id] == items[i]
  {
    if items != [] {
      var init := items[..|items| - 1];
      ItemsByIdContains(init);
      forall id ensures id in ItemsById(items) <==> Contains(items, id) {
        if Contains(items, id) {
          var i :| 0 <= i < |items| && items[i].id == id;
          assert i < |init| ==> init[i].id == id && Contains(init, id);
        }
        if Contains(init, id) {
          var i :| 0 <= i < |init| && init[i].id == id;
          assert items[i].id == id;
        }
      }
    }
  }
}
