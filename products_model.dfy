/**
 * The products table behind the server's product handlers, reached only through
 * five parameterised queries. The table is a map from id to row; ids come from
 * an auto-increment counter, and `SELECT *` lists rows in id order.
 */
module ProductsModel {
  import opened Wrappers
  import opened JsValues

  /** The seven client-supplied columns, stored as the JSON values the request carried. */
  datatype Fields = Fields(
    title: Value,
    price: Value,
    description: Value,
    category: Value,
    image: Value,
    rate: Value,
    rateCount: Value)

  /** A stored product: its id, its columns, and the id of the user who owns it. */
  datatype Row = Row(id: int, fields: Fields, userId: int)

  class ProductTable {
    var rows: map<int, Row>
    var nextId: int

    /** Each row is stored under its own id, and every id lies below the next one to be assigned. */
    ghost predicate Valid()
      reads this
    {
      && nextId >= 1
      && forall id :: id in rows ==> rows[id].id == id && 1 <= id < nextId
    }

    /** An empty table whose first insert gets id 1. */
    constructor ()
      ensures Valid() && rows == map[] && nextId == 1
    {
      rows := map[];
      nextId := 1;
    }

    /** `SELECT * FROM products WHERE id = ?`, first row: the row with that id, if any. */
    function FindProductById(id: int): (r: Option<Row>)
      requires Valid()
      reads this
      ensures r.Some? <==> id in rows
      ensures r.Some? ==> r.value.id == id && r.value == rows[id]
    {
      if id in rows then Some(rows[id]) else None
    }

    /** The stored rows with ids from `k` up, in increasing id order. */
    function RowsFrom(k: int): (r: seq<Row>)
      requires Valid()
      reads this
      ensures forall i :: 0 <= i < |r| ==> k <= r[i].id && r[i].id in rows && rows[r[i].id] == r[i]
      ensures forall i, j :: 0 <= i < j < |r| ==> r[i].id < r[j].id
      ensures forall id :: id in rows && k <= id ==> rows[id] in r
      decreases nextId - k
    {
      if k >= nextId then []
      else if k in rows then [rows[k]] + RowsFrom(k + 1)
      else RowsFrom(k + 1)
    }

    /** `SELECT * FROM products`: every row exactly once, in increasing id order; nothing changes. */
    function GetAllProducts(): (r: seq<Row>)
      requires Valid()
      reads this
      ensures forall i :: 0 <= i < |r| ==> r[i].id in rows && rows[r[i].id] == r[i]
      ensures forall i, j :: 0 <= i < j < |r| ==> r[i].id < r[j].id
      ensures forall id :: id in rows ==> rows[id] in r
    {
      RowsFrom(1)
    }

    /** `INSERT INTO products ...`: adds exactly one row, under a fresh id, owned by `userId`. */
    method CreateProduct(fields: Fields, userId: int) returns (insertId: int)
      requires Valid()
      modifies this
      ensures Valid()
      ensures insertId !in old(rows) && insertId == old(nextId)
      ensures rows == old(rows)[insertId := Row(insertId, fields, userId)]
    {
      insertId := nextId;
      rows := rows[insertId := Row(insertId, fields, userId)];
      nextId := nextId + 1;
    }

    /**
     * `UPDATE products SET ... WHERE id = ? AND user_id = ?`: overwrites the seven
     * columns of the row with that id and owner, if there is one; id and owner never change.
     */
    method UpdateProduct(fields: Fields, id: int, userId: int) returns (affected: nat)
      requires Valid()
      modifies this
      ensures Valid() && nextId == old(nextId)
      ensures affected == (if id in old(rows) && old(rows)[id].userId == userId then 1 else 0)
      ensures affected == 1 ==> rows == old(rows)[id := Row(id, fields, userId)]
      ensures affected == 0 ==> rows == old(rows)
    {
      if id in rows && rows[id].userId == userId {
        rows := rows[id := Row(id, fields, userId)];
        affected := 1;
      } else {
        affected := 0;
      }
    }

    /** `DELETE FROM products WHERE id = ? AND user_id = ?`: removes only a row with that id and owner. */
    method DeleteProductById(id: int, userId: int) returns (affected: nat)
      requires Valid()
      modifies this
      ensures Valid() && nextId == old(nextId)
      ensures affected == (if id in old(rows) && old(rows)[id].userId == userId then 1 else 0)
      ensures affected == 1 ==> rows == old(rows) - {id}
      ensures affected == 0 ==> rows == old(rows)
    {
      if id in rows && rows[id].userId == userId {
        rows := rows - {id};
        affected := 1;
      } else {
        affected := 0;
      }
    }
  }
}
