/** `EmployeeRepository`, the Spring Data JPA repository the service works
    through. Its code lies outside the two modelled files; this class states
    the assumptions the service model rests on:
    - the table maps each stored id to the entity stored under it;
    - `save` of an entity without an id stores it under a fresh key it
      chooses, and `save` of an entity with an id stores it under that id;
    - `findById` is a lookup and `deleteById` removes that one key;
    - `findAll` lists the stored entities in the order their keys were
      first stored. */
module Repository {
  import opened Wrappers
  import opened EmployeeEntities

  ghost predicate Distinct(s: seq<int>) {
    forall i, j :: 0 <= i < j < |s| ==> s[i] != s[j]
  }

  /** `s` without `x`, the other keys keeping their order. */
  function Remove(s: seq<int>, x: int): (r: seq<int>)
    ensures forall y :: y in r <==> y in s && y != x
    ensures Distinct(s) ==> Distinct(r)
    ensures |r| <= |s|
  {
    if s == [] then []
    else if s[0] == x then Remove(s[1..], x)
    else
      var rest := Remove(s[1..], x);
      assert Distinct(s) ==> s[0] !in s[1..];
      [s[0]] + rest
  }

  /** A duplicate-free sequence has as many elements as the set of them. */
  lemma {:induction false} DistinctCardinality(s: seq<int>)
    requires Distinct(s)
    ensures |set k | k in s| == |s|
  {
    if s != [] {
      var rest := s[1..];
      assert Distinct(rest) by {
        forall i, j | 0 <= i < j < |rest| ensures rest[i] != rest[j] {
          assert rest[i] == s[i + 1] && rest[j] == s[j + 1];
        }
      }
      DistinctCardinality(rest);
      assert (set k | k in s) == {s[0]} + (set k | k in rest);
      assert s[0] !in rest;
    }
  }

  class EmployeeRepository {
    /** The table: stored id to stored entity. */
    var rows: map<int, Employee>
    /** The stored ids in the order `findAll` lists them. */
    var order: seq<int>
    /** The key generator: every stored id lies below it. */
    var nextId: int

    ghost predicate Valid()
      reads this
    {
      && (forall k :: k in rows ==> rows[k].id == Some(k) && k < nextId)
      && (forall k :: k in order ==> k in rows)
      && (forall k :: k in rows ==> k in order)
      && Distinct(order)
    }

    constructor ()
      ensures Valid() && rows == map[] && order == []
    {
      rows, order, nextId := map[], [], 0;
    }

    /** `findAll` lists every stored entity exactly once. */
    lemma FindAllCoversTable()
      requires Valid()
      ensures |order| == |rows|
    {
      DistinctCardinality(order);
      assert (set k | k in order) == rows.Keys;
    }

    /** `findById`. */
    function FindById(id: int): Option<Employee>
      reads this
    {
      if id in rows then Some(rows[id]) else None
    }

    /** `findAll`. */
    function FindAll(): seq<Employee>
      reads this
      requires Valid()
    {
      assert forall i :: 0 <= i < |order| ==> order[i] in order;
      seq(|order|, i reads this requires 0 <= i < |order| && order[i] in rows => rows[order[i]])
    }

    /** `save`: stores the entity under its id, or under a fresh key when it
        has none, and returns the entity as stored. */
    method Save(e: Employee) returns (saved: Employee)
      requires Valid()
      modifies this
      ensures Valid()
      ensures saved.id.Some? && saved == e.(id := saved.id)
      ensures e.id.Some? ==> saved == e
      ensures e.id.None? ==> saved.id.value !in old(rows)
      ensures rows == old(rows)[saved.id.value := saved]
      ensures order == if saved.id.value in old(rows) then old(order) else old(order) + [saved.id.value]
    {
      var key := if e.id.Some? then e.id.value else nextId;
      saved := e.(id := Some(key));
      if key !in rows {
        order := order + [key];
      }
      rows := rows[key := saved];
      if nextId <= key {
        nextId := key + 1;
      }
    }

    /** `deleteById`: removes that one key. */
    method DeleteById(id: int)
      requires Valid()
      modifies this
      ensures Valid()
      ensures rows == old(rows) - {id}
      ensures order == Remove(old(order), id)
    {
      rows := rows - {id};
      order := Remove(order, id);
    }
  }
}
