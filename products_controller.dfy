/**
 * The server's product handlers. Each is a decision chain — truthiness
 * validation, then existence, then ownership, then the write — ending in an
 * HTTP status. `dbUp` stands for the database answering; when it does not, the
 * first query throws and the handler's catch answers 500.
 */
module ProductsController {
  import opened Wrappers
  import opened JsValues
  import opened ProductsModel

  /** The nested `rating` object of a product response. */
  datatype Rating = Rating(rate: Value, count: Value)

  /** A product as the handlers send it: the flat `rate` and `rate_count` columns nested as `rating`. */
  datatype ProductJson = ProductJson(
    id: int,
    title: Value,
    price: Value,
    description: Value,
    category: Value,
    image: Value,
    rating: Rating)

  /** A response body. */
  datatype Body = Products(items: seq<ProductJson>) | Created(productId: int) | Message(text: string)

  const ServerError := Message("Server error")
  const MissingFields := Message("Missing required fields")
  const NotFound := Message("Product not found")
  const Unauthorized := Message("Unauthorized action")

  /** The object literal each handler builds from a row. */
  function Shape(row: Row): ProductJson
  {
    ProductJson(row.id, row.fields.title, row.fields.price, row.fields.description,
                row.fields.category, row.fields.image, Rating(row.fields.rate, row.fields.rateCount))
  }

  /** The inverse of `Shape` given the owner, which the response leaves out. */
  function Unshape(p: ProductJson, userId: int): Row
  {
    Row(p.id, Fields(p.title, p.price, p.description, p.category, p.image, p.rating.rate, p.rating.count),
        userId)
  }

  /** Shaping loses nothing but the owner: every column reappears under its own name or inside `rating`. */
  lemma ShapeRoundTrip(row: Row)
    ensures Unshape(Shape(row), row.userId) == row
  {
  }

  /** The required-field check `!title || !price || ... || !rate_count` fails for none of the seven. */
  predicate AllTruthy(f: Fields)
  {
    && Truthy(f.title) && Truthy(f.price) && Truthy(f.description) && Truthy(f.category)
    && Truthy(f.image) && Truthy(f.rate) && Truthy(f.rateCount)
  }

  /** Truthiness rejects legitimate zeroes: a zero price, rate or rating count reads as missing. */
  lemma ZeroReadsAsMissing(f: Fields)
    requires f.price == Num(0.0) || f.rate == Num(0.0) || f.rateCount == Num(0.0)
    ensures !AllTruthy(f)
  {
  }

  // ---------------------------------------------------------------- reads

  /** `getProducts`: one shaped product per row, in row order (built with a `forEach` / `push` loop). */
  method GetProducts(table: ProductTable, dbUp: bool) returns (status: int, body: Body)
    requires table.Valid()
    ensures !dbUp ==> status == 500 && body == ServerError
    ensures dbUp ==> status == 200 && body.Products?
    ensures dbUp ==> |body.items| == |table.GetAllProducts()|
    ensures dbUp ==> forall i :: 0 <= i < |body.items| ==>
              Unshape(body.items[i], table.GetAllProducts()[i].userId) == table.GetAllProducts()[i]
  {
    if !dbUp {
      return 500, ServerError;
    }
    var rows := table.GetAllProducts();
    var products: seq<ProductJson> := [];
    var i := 0;
    while i < |rows|
      invariant 0 <= i <= |rows|
      invariant |products| == i
      invariant forall k :: 0 <= k < i ==> products[k] == Shape(rows[k])
    {
      products := products + [Shape(rows[i])];
      i := i + 1;
    }
    status, body := 200, Products(products);
  }

  /**
   * `getProductsById`: a one-element array holding the shaped row. An absent id
   * leaves `rows` undefined, reading `rows.id` throws, and the answer is 500, not 404.
   */
  method GetProductsById(table: ProductTable, id: int, dbUp: bool) returns (status: int, body: Body)
    requires table.Valid()
    ensures status == 200 <==> dbUp && id in table.rows
    ensures status == 200 ==> body == Products([Shape(table.rows[id])])
    ensures status != 200 ==> status == 500 && body == ServerError
  {
    if !dbUp {
      return 500, ServerError;
    }
    var row := table.FindProductById(id);
    if row.None? {
      return 500, ServerError;
    }
    status, body := 200, Products([Shape(row.value)]);
  }

  // ---------------------------------------------------------------- decision chains

  /** The status `addProduct` answers with: 400 before any query, else 500 if the insert throws, else 201. */
  function AddStatus(body: Fields, dbUp: bool): (s: int)
    ensures s == 400 <==> !AllTruthy(body)
    ensures s == 201 <==> AllTruthy(body) && dbUp
    ensures s in {201, 400, 500}
  {
    if !AllTruthy(body) then 400 else if !dbUp then 500 else 201
  }

  /**
   * The status `editProduct` answers with: fields are validated before anything is
   * looked up, then the product must exist (404) and belong to the route's user (403).
   */
  function EditStatus(rows: map<int, Row>, userId: int, id: int, body: Fields, dbUp: bool): (s: int)
    ensures s == 400 <==> !AllTruthy(body)
    ensures s == 404 <==> AllTruthy(body) && dbUp && id !in rows
    ensures s == 403 <==> AllTruthy(body) && dbUp && id in rows && rows[id].userId != userId
    ensures s == 200 <==> AllTruthy(body) && dbUp && id in rows && rows[id].userId == userId
    ensures s in {200, 400, 403, 404, 500}
  {
    if !AllTruthy(body) then 400
    else if !dbUp then 500
    else if id !in rows then 404
    else if rows[id].userId != userId then 403
    else 200
  }

  /** The status `deleteProduct` answers with: no field validation, then existence (404) and ownership (403). */
  function DeleteStatus(rows: map<int, Row>, userId: int, id: int, dbUp: bool): (s: int)
    ensures s == 404 <==> dbUp && id !in rows
    ensures s == 403 <==> dbUp && id in rows && rows[id].userId != userId
    ensures s == 200 <==> dbUp && id in rows && rows[id].userId == userId
    ensures s in {200, 403, 404, 500}
  {
    if !dbUp then 500
    else if id !in rows then 404
    else if rows[id].userId != userId then 403
    else 200
  }

  // ---------------------------------------------------------------- writes

  /** `addProduct`: on 201 exactly one new row owned by the route's user; otherwise nothing is created. */
  method AddProduct(table: ProductTable, userId: int, body: Fields, dbUp: bool)
    returns (status: int, response: Body)
    requires table.Valid()
    modifies table
    ensures table.Valid()
    ensures status == AddStatus(body, dbUp)
    ensures status == 201 ==> response.Created? && response.productId !in old(table.rows)
                              && table.rows == old(table.rows)[response.productId := Row(response.productId, body, userId)]
    ensures status != 201 ==> table.rows == old(table.rows)
    ensures status == 400 ==> response == MissingFields
    ensures status == 500 ==> response == ServerError
  {
    if !AllTruthy(body) {
      return 400, MissingFields;
    }
    if !dbUp {
      return 500, ServerError;
    }
    var insertId := table.CreateProduct(body, userId);
    status, response := 201, Created(insertId);
  }

  /** `editProduct`: only an owner's request that passes validation overwrites the row; every other path leaves the table as it was. */
  method EditProduct(table: ProductTable, userId: int, id: int, body: Fields, dbUp: bool)
    returns (status: int, response: Body)
    requires table.Valid()
    modifies table
    ensures table.Valid()
    ensures status == EditStatus(old(table.rows), userId, id, body, dbUp)
    ensures status == 200 ==> table.rows == old(table.rows)[id := Row(id, body, userId)]
    ensures status != 200 ==> table.rows == old(table.rows)
    ensures response == match status
                        case 200 => Message("Product updated")
                        case 400 => MissingFields
                        case 403 => Unauthorized
                        case 404 => NotFound
                        case _ => ServerError
  {
    if !AllTruthy(body) {
      return 400, MissingFields;
    }
    if !dbUp {
      return 500, ServerError;
    }
    var product := table.FindProductById(id);
    if product.None? {
      return 404, NotFound;
    }
    if product.value.userId != userId {
      return 403, Unauthorized;
    }
    var _ := table.UpdateProduct(body, id, userId);
    status, response := 200, Message("Product updated");
  }

  /** `deleteProduct`: checks existence, then ownership, and only then deletes; a 403 or 404 leaves the row. */
  method DeleteProduct(table: ProductTable, userId: int, id: int, dbUp: bool)
    returns (status: int, response: Body)
    requires table.Valid()
    modifies table
    ensures table.Valid()
    ensures status == DeleteStatus(old(table.rows), userId, id, dbUp)
    ensures status == 200 ==> table.rows == old(table.rows) - {id}
    ensures status != 200 ==> table.rows == old(table.rows)
    ensures response == match status
                        case 200 => Message("Product deleted")
                        case 403 => Unauthorized
                        case 404 => NotFound
                        case _ => ServerError
  {
    if !dbUp {
      return 500, ServerError;
    }
    var existing := table.FindProductById(id);
    if existing.None? {
      return 404, NotFound;
    }
    if existing.value.userId != userId {
      return 403, Unauthorized;
    }
    var _ := table.DeleteProductById(id, userId);
    status, response := 200, Message("Product deleted");
  }

  /** Ownership: a product's owner never changes, and only its owner's requests can change or remove it. */
  lemma OnlyOwnerMutates(rows: map<int, Row>, userId: int, id: int, body: Fields, dbUp: bool)
    requires id in rows && rows[id].userId != userId
    ensures EditStatus(rows, userId, id, body, dbUp) != 200
    ensures DeleteStatus(rows, userId, id, dbUp) != 200
  {
  }
}
