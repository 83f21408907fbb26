/** A JavaScript `Map<string, R>` as the in-memory store uses it: its entries,
    and the order in which their keys were first inserted, which is the order
    in which `map.values()` enumerates them. */
module Tables {
  import opened Wrappers
  import opened Sequences


  datatype Table<R> = Table(rows: map<string, R>, order: seq<string>) {

    /** `order` lists every key exactly once. */
    ghost predicate Valid() {
      NoDuplicates(order) && forall k :: k in order <==> k in rows
    }

    /** `map.get(id)`: `None` stands for `undefined`. */
    function Get(id: string): (r: Option<R>)
      ensures r.Some? <==> id in rows
      ensures r.Some? ==> r.value == rows[id]
    {
      if id in rows then Some(rows[id]) else None
    }

    /** `map.set(id, v)`: a new key is enumerated last, an existing key keeps
        its place and only its value changes. */
    function Set(id: string, v: R): (t: Table<R>)
      requires Valid()
      ensures t.Valid()
      ensures t.rows == rows[id := v]
      ensures t.Get(id) == Some(v)
      ensures forall k :: k != id ==> t.Get(k) == Get(k)
      ensures t.order == if id in rows then order else order + [id]
    {
      var t := Table(rows[id := v], if id in rows then order else order + [id]);
      assert t.Valid() by {
        if id !in rows {
          assert id !in order;
          forall i, j | 0 <= i < j < |t.order| ensures t.order[i] != t.order[j] {
            if j == |order| { assert t.order[i] in order; }
          }
        }
      }
      t
    }

    /** `map.delete(id)`: the table without `id`, and whether `id` was there. */
    function Delete(id: string): (res: (Table<R>, bool))
      requires Valid()
      ensures res.0.Valid()
      ensures res.1 <==> id in rows
      ensures res.0.rows == rows - {id}
      ensures forall k :: k != id ==> res.0.Get(k) == Get(k)
      ensures res.0.order == Without(order, id)
    {
      WithoutKeepsDistinct(order, id);
      (Table(rows - {id}, Without(order, id)), id in rows)
    }

    /** `Array.from(map.values())`: one value per key, in key order. */
    function Values(): (vs: seq<R>)
      requires Valid()
      ensures |vs| == |order|
      ensures forall i :: 0 <= i < |order| ==> vs[i] == rows[order[i]]
    {
      seq(|order|, i requires 0 <= i < |order| => rows[order[i]])
    }
  }

  function Empty<R>(): (t: Table<R>)
    ensures t.Valid() && t.rows == map[] && t.order == []
  {
    Table(map[], [])
  }

  /** The list holds as many values as the map has keys. */
  lemma ValuesCount<R>(t: Table<R>)
    requires t.Valid()
    ensures |t.Values()| == |t.rows|
  {
    DistinctCardinality(t.order);
    assert (set x | x in t.order) == t.rows.Keys;
  }

  /** The list holds exactly the map's values. */
  lemma ValuesAreRows<R>(t: Table<R>, v: R)
    requires t.Valid()
    ensures v in t.Values() <==> v in t.rows.Values
  {
    var vs := t.Values();
    if v in vs {
      var i :| 0 <= i < |vs| && vs[i] == v;
      assert t.order[i] in t.rows;
    }
    if v in t.rows.Values {
      var k :| k in t.rows && t.rows[k] == v;
      var i :| 0 <= i < |t.order| && t.order[i] == k;
      assert vs[i] == v;
    }
  }

  /** Setting a new key appends its value to the list. */
  lemma SetNewAppends<R>(t: Table<R>, id: string, v: R)
    requires t.Valid() && id !in t.rows
    ensures t.Set(id, v).Values() == t.Values() + [v]
  {
  }

  /** Setting an existing key replaces its value where it stands. */
  lemma SetExistingInPlace<R>(t: Table<R>, id: string, v: R, i: nat)
    requires t.Valid() && id in t.rows && i < |t.order|
    ensures |t.Set(id, v).Values()| == |t.Values()|
    ensures t.Set(id, v).Values()[i] == if t.order[i] == id then v else t.Values()[i]
  {
  }
}
