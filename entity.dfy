/** The base `Entity` every persistable record extends: an id that is 0
    until the store assigns one, and two timestamps. Entities compare by id
    alone.

    `ctime` renders the wall clock; here the rendered text is passed in as
    `now` or `stamp`. */
module Entities {
  import opened Numbers

  /** One row of a query result: the cells as strings, left to right. */
  type Row = seq<string>

  /** All rows of a query result. */
  type DataSet = seq<Row>

  class Entity {
    var id: Int64
    var createdAt: string
    var updatedAt: string

    /** A new entity is unpersisted (id 0) and created and updated "now". */
    constructor (now: string)
      ensures id == 0 && createdAt == now && updatedAt == now
    {
      id := 0;
      createdAt := now;
      updatedAt := now;
    }

    method SetId(newId: Int64)
      modifies this`id
      ensures id == newId
    {
      id := newId;
    }

    method SetCreatedAt(stamp: string)
      modifies this`createdAt
      ensures createdAt == stamp
    {
      createdAt := stamp;
    }

    method SetUpdatedAt(stamp: string)
      modifies this`updatedAt
      ensures updatedAt == stamp
    {
      updatedAt := stamp;
    }

    /** `updateTimestamp`: the update time becomes the current time. */
    method UpdateTimestamp(now: string)
      modifies this`updatedAt
      ensures updatedAt == now
    {
      SetUpdatedAt(now);
    }

    /** `operator==`: the same id, whatever the other fields hold. */
    predicate Equals(other: Entity)
      reads this, other
    {
      id == other.id
    }

    /** `operator!=`: the negation of `==`. */
    predicate NotEquals(other: Entity)
      reads this, other
    {
      !Equals(other)
    }
  }

  /** Equality is by id only: entities that differ in their timestamps are
      equal when their ids agree, and `!=` holds exactly when the ids
      differ. */
  lemma EqualityIsById(a: Entity, b: Entity)
    ensures a.Equals(b) <==> a.id == b.id
    ensures a.NotEquals(b) <==> a.id != b.id
  {
  }

  /** Comparing by id is an equivalence: reflexive, symmetric, transitive. */
  lemma EqualityIsEquivalence(a: Entity, b: Entity, c: Entity)
    ensures a.Equals(a)
    ensures a.Equals(b) ==> b.Equals(a)
    ensures a.Equals(b) && b.Equals(c) ==> a.Equals(c)
  {
  }

  /** Two freshly constructed entities are both unpersisted, so they are
      equal to each other. */
  method TwoNewEntitiesAreEqual(now1: string, now2: string) returns (a: Entity, b: Entity)
    ensures fresh(a) && fresh(b) && a != b
    ensures a.Equals(b) && !a.NotEquals(b)
  {
    a := new Entity(now1);
    b := new Entity(now2);
  }
}
