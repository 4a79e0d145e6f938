/** The two concrete entities, `Product` and `User`: their table and column
    metadata, the SQL literals of their fields, their setters and the
    positional hydration `fillFromRow`.

    A derived class holds its `Entity` part as the object `entity`. The
    price is a `double`; `std::stod` and `std::to_string(double)` are
    supplied by the caller as `parsePrice` and `formatPrice`. An exception
    thrown by `fillFromRow` is its result `false`. */
module Samples {
  import opened Wrappers
  import opened Numbers
  import opened Entities

  /** A value written as an SQL string literal. */
  function Quote(s: string): string
  {
    "'" + s + "'"
  }

  /** The number of cells `fillFromRow` needs: id, two fields, created_at
      and updated_at. */
  const RowCells: nat := 5

  class Product {
    const entity: Entity
    var name: string
    var price: real

    /** The default constructor that the repository relies on. */
    constructor (now: string)
      ensures fresh(entity) && entity.id == 0 && entity.createdAt == now && entity.updatedAt == now
      ensures name == "" && price == 0.0
    {
      entity := new Entity(now);
      name := "";
      price := 0.0;
    }

    constructor WithFields(now: string, name: string, price: real)
      ensures fresh(entity) && entity.id == 0 && entity.createdAt == now && entity.updatedAt == now
      ensures this.name == name && this.price == price
    {
      entity := new Entity(now);
      this.name := name;
      this.price := price;
    }

    /** Assigns the name and nothing else; the update time stays. */
    method SetName(newName: string)
      modifies this`name
      ensures name == newName && unchanged(entity)
    {
      name := newName;
    }

    /** Assigns the price and nothing else; the update time stays. */
    method SetPrice(newPrice: real)
      modifies this`price
      ensures price == newPrice && unchanged(entity)
    {
      price := newPrice;
    }

    static function TableName(): string
    {
      "products"
    }

    static function ColumnsForInsert(): seq<string>
    {
      ["name", "price"]
    }

    function ValuesForInsert(formatPrice: real -> string): seq<string>
      reads this
    {
      [Quote(name), formatPrice(price)]
    }

    function UpdatePairs(formatPrice: real -> string): seq<string>
      reads this
    {
      ["name = '" + name + "'", "price = " + formatPrice(price)]
    }

    static function ColumnsForSelect(): seq<string>
    {
      ["id", "name", "price", "created_at", "updated_at"]
    }

    /** `fillFromRow`: a row of fewer than five cells, or an id cell that
        `std::stoll` rejects, fails before anything is assigned. Otherwise
        the id and the name are assigned, and then the price when
        `parsePrice` accepts cell 2; when it does not, the call fails with
        id and name already overwritten. Cells 3 and 4 are not read and the
        timestamps stay. */
    method FillFromRow(row: Row, parsePrice: string -> Option<real>) returns (ok: bool)
      modifies this`name, this`price, entity`id
      ensures ok <==> ProductRowFits(row, parsePrice)
      ensures |row| < RowCells || ParseLongLong(row[0]).None? ==>
                entity.id == old(entity.id) && name == old(name) && price == old(price)
      ensures |row| >= RowCells && ParseLongLong(row[0]).Some? ==>
                && entity.id == ParseLongLong(row[0]).value
                && name == row[1]
                && price == parsePrice(row[2]).GetOr(old(price))
      ensures entity.createdAt == old(entity.createdAt) && entity.updatedAt == old(entity.updatedAt)
    {
      if |row| < RowCells {
        return false;
      }
      var id := ParseLongLong(row[0]);
      if id.None? {
        return false;
      }
      entity.SetId(id.value);
      SetName(row[1]);
      var newPrice := parsePrice(row[2]);
      if newPrice.None? {
        return false;
      }
      SetPrice(newPrice.value);
      return true;
    }
  }

  class User {
    const entity: Entity
    var username: string
    var email: string

    /** The default constructor that the repository relies on. */
    constructor (now: string)
      ensures fresh(entity) && entity.id == 0 && entity.createdAt == now && entity.updatedAt == now
      ensures username == "" && email == ""
    {
      entity := new Entity(now);
      username := "";
      email := "";
    }

    constructor WithFields(now: string, username: string, email: string)
      ensures fresh(entity) && entity.id == 0 && entity.createdAt == now && entity.updatedAt == now
      ensures this.username == username && this.email == email
    {
      entity := new Entity(now);
      this.username := username;
      this.email := email;
    }

    /** Assigns the username and nothing else; the update time stays. */
    method SetUsername(newUsername: string)
      modifies this`username
      ensures username == newUsername && unchanged(entity)
    {
      username := newUsername;
    }

    /** Assigns the email and nothing else; the update time stays. */
    method SetEmail(newEmail: string)
      modifies this`email
      ensures email == newEmail && unchanged(entity)
    {
      email := newEmail;
    }

    static function TableName(): string
    {
      "users"
    }

    static function ColumnsForInsert(): seq<string>
    {
      ["username", "email"]
    }

    function ValuesForInsert(): seq<string>
      reads this
    {
      [Quote(username), Quote(email)]
    }

    function UpdatePairs(): seq<string>
      reads this
    {
      ["username = '" + username + "'", "email = '" + email + "'"]
    }

    static function ColumnsForSelect(): seq<string>
    {
      ["id", "username", "email", "created_at", "updated_at"]
    }

    /** `fillFromRow`: a row of fewer than five cells, or an id cell that
        `std::stoll` rejects, fails before anything is assigned. Otherwise
        id, username and email come from cells 0, 1 and 2; cells 3 and 4
        are not read and the timestamps stay. */
    method FillFromRow(row: Row) returns (ok: bool)
      modifies this`username, this`email, entity`id
      ensures ok <==> HydrateUser(row).Some?
      ensures !ok ==> entity.id == old(entity.id) && username == old(username) && email == old(email)
      ensures ok ==> HydrateUser(row).value == UserFields(entity.id, username, email)
      ensures entity.createdAt == old(entity.createdAt) && entity.updatedAt == old(entity.updatedAt)
    {
      if |row| < RowCells {
        return false;
      }
      var id := ParseLongLong(row[0]);
      if id.None? {
        return false;
      }
      entity.SetId(id.value);
      SetUsername(row[1]);
      SetEmail(row[2]);
      return true;
    }
  }

  /** What `User.fillFromRow` takes from a row it accepts. */
  datatype UserFields = UserFields(id: Int64, username: string, email: string)

  /** `User.fillFromRow` as a value: None when it throws, otherwise the id
      read by `std::stoll` from cell 0, and cells 1 and 2. */
  function HydrateUser(row: Row): Option<UserFields>
  {
    if |row| < RowCells then None
    else
      match ParseLongLong(row[0])
      case None => None
      case Some(id) => Some(UserFields(id, row[1], row[2]))
  }

  /** Whether `Product.fillFromRow` runs to its end without throwing. */
  predicate ProductRowFits(row: Row, parsePrice: string -> Option<real>)
  {
    |row| >= RowCells && ParseLongLong(row[0]).Some? && parsePrice(row[2]).Some?
  }

  /** The product metadata: table "products"; insert columns and values
      both of length two and matched by position; each update pair is the
      insert column, " = ", and the insert value; the select columns are
      "id", the insert columns in the cells `fillFromRow` reads them from,
      then the two timestamps, as many as `fillFromRow` needs. */
  lemma ProductMetadata(p: Product, formatPrice: real -> string)
    ensures Product.TableName() == "products"
    ensures |Product.ColumnsForInsert()| == |p.ValuesForInsert(formatPrice)| == |p.UpdatePairs(formatPrice)| == 2
    ensures p.ValuesForInsert(formatPrice)[0] == Quote(p.name)
    ensures forall i :: 0 <= i < 2 ==>
      p.UpdatePairs(formatPrice)[i] == Product.ColumnsForInsert()[i] + " = " + p.ValuesForInsert(formatPrice)[i]
    ensures |Product.ColumnsForSelect()| == RowCells && Product.ColumnsForSelect()[0] == "id"
    ensures Product.ColumnsForSelect()[1..3] == Product.ColumnsForInsert()
  {
  }

  /** The user metadata: table "users"; both insert values are the fields
      as quoted literals; each update pair is the insert column, " = ", and
      the insert value; the select columns are "id", the insert columns in
      the cells `fillFromRow` reads them from, then the two timestamps. */
  lemma UserMetadata(u: User)
    ensures User.TableName() == "users"
    ensures u.ValuesForInsert() == [Quote(u.username), Quote(u.email)]
    ensures |User.ColumnsForInsert()| == |u.UpdatePairs()| == 2
    ensures forall i :: 0 <= i < 2 ==>
      u.UpdatePairs()[i] == User.ColumnsForInsert()[i] + " = " + u.ValuesForInsert()[i]
    ensures |User.ColumnsForSelect()| == RowCells && User.ColumnsForSelect()[0] == "id"
    ensures User.ColumnsForSelect()[1..3] == User.ColumnsForInsert()
  {
  }

  /** The row a user's table entry comes back as: the id as `std::to_string`
      renders it, the two fields, and the two timestamp cells. */
  function UserRow(id: Int64, username: string, email: string, createdAt: string, updatedAt: string): Row
  {
    [IntToDecimal(id), username, email, createdAt, updatedAt]
  }

  /** Hydration reads back what the row holds: the id, the username and the
      email come back as they were written. */
  lemma UserRowReadsBack(id: Int64, username: string, email: string, createdAt: string, updatedAt: string)
    ensures HydrateUser(UserRow(id, username, email, createdAt, updatedAt)) == Some(UserFields(id, username, email))
  {
    ParseDecimal(id);
  }

  /** The row a product's table entry comes back as. */
  function ProductRow(id: Int64, name: string, price: string, createdAt: string, updatedAt: string): Row
  {
    [IntToDecimal(id), name, price, createdAt, updatedAt]
  }

  /** A product row hydrates completely exactly when its price cell parses,
      and when its id cell is the rendering of an id it reads back as that
      id. */
  lemma ProductRowReadsBack(id: Int64, name: string, price: string, createdAt: string, updatedAt: string,
                            parsePrice: string -> Option<real>)
    ensures var row := ProductRow(id, name, price, createdAt, updatedAt);
      && (ProductRowFits(row, parsePrice) <==> parsePrice(price).Some?)
      && ParseLongLong(row[0]) == Some(id) && row[1] == name
  {
    ParseDecimal(id);
  }

  /** A row with fewer than five cells is rejected by both entities. */
  lemma ShortRowRejected(row: Row, parsePrice: string -> Option<real>)
    requires |row| < RowCells
    ensures HydrateUser(row).None? && !ProductRowFits(row, parsePrice)
  {
  }

  /** A row whose id cell `std::stoll` rejects is rejected by both
      entities, whatever the other cells hold. */
  lemma BadIdRejected(row: Row, parsePrice: string -> Option<real>)
    requires |row| >= RowCells && ParseLongLong(row[0]).None?
    ensures HydrateUser(row).None? && !ProductRowFits(row, parsePrice)
  {
  }
}
