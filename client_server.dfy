/**
 * Where the management page meets the product handlers: the JSON body a submit
 * sends, read back as the server's request fields, and what the server's
 * required-field check makes of the forms the client lets through.
 */
module ClientServer {
  import opened Wrappers
  import opened JsValues
  import opened ManageHome
  import opened ProductsModel
  import opened ProductsController

  /** The payload as the server destructures it from `req.body`: strings stay strings, numbers stay numbers. */
  function Received(p: Payload): (f: Fields)
    ensures f.title == Str(p.title) && f.description == Str(p.description)
    ensures f.category == Str(p.category) && f.image == Str(p.image)
    ensures f.price == Num(p.price) && f.rate == Num(p.rate) && f.rateCount == Num(p.rateCount)
  {
    Fields(Str(p.title), Num(p.price), Str(p.description), Str(p.category), Str(p.image),
           Num(p.rate), Num(p.rateCount))
  }

  /**
   * Of the requests the client sends, the server's truthiness check passes exactly
   * those with a non-zero rating and a non-zero rating count, although the client
   * accepts zero for both.
   */
  lemma {:induction false} SentPassesServerIff(userId: Option<int>, mode: DialogMode, activeId: Option<int>,
                                               form: ProductForm)
    requires PlanSubmit(userId, mode, activeId, form).Send?
    ensures AllTruthy(Received(PlanSubmit(userId, mode, activeId, form).request.payload)) <==>
              form.rate.value != 0.0 && form.rateCount.value != 0.0
  {
    var f := Received(PlanSubmit(userId, mode, activeId, form).request.payload);
    assert Truthy(f.title) && Truthy(f.description) && Truthy(f.category) && Truthy(f.image);
    assert Truthy(f.price);
  }

  /**
   * The as-written check turned against a new product: a signed-in user creating a
   * product nobody has rated yet gets it past the client and a 400 from the server.
   */
  lemma UnratedProductRejected(userId: int)
    requires userId != 0
    ensures var form := ProductForm("Lamp", Some(25.0), "Desk lamp", "home", "lamp.png", Some(0.0), Some(0.0));
            && PlanSubmit(Some(userId), CreateMode, None, form).Send?
            && AddStatus(Received(PlanSubmit(Some(userId), CreateMode, None, form).request.payload), true) == 400
  {
    var form := ProductForm("Lamp", Some(25.0), "Desk lamp", "home", "lamp.png", Some(0.0), Some(0.0));
    TrimUntouched("Lamp");
    TrimUntouched("Desk lamp");
    TrimUntouched("home");
    TrimUntouched("lamp.png");
    assert TextsFilled(form);
    ZeroRatingAccepted(Some(userId), form);
    SentPassesServerIff(Some(userId), CreateMode, None, form);
  }

  /** A field the request actually carries: a non-empty string, or any number, zero included. */
  predicate Provided(v: Value)
  {
    match v
    case Str(s) => s != ""
    case Num(_) => true
    case _ => false
  }

  /** The evidently intended required-field check: every field provided. */
  predicate AllProvided(f: Fields)
  {
    && Provided(f.title) && Provided(f.price) && Provided(f.description) && Provided(f.category)
    && Provided(f.image) && Provided(f.rate) && Provided(f.rateCount)
  }

  /** `addProduct` with the intended check in place of the truthiness one. */
  function AddStatusIntended(body: Fields, dbUp: bool): (s: int)
    ensures s == 400 <==> !AllProvided(body)
    ensures s == 201 <==> AllProvided(body) && dbUp
    ensures s in {201, 400, 500}
  {
    if !AllProvided(body) then 400 else if !dbUp then 500 else 201
  }

  /** Under the intended check, every product create the client sends is stored when the database answers. */
  lemma {:induction false} SentCreatesAreStored(userId: Option<int>, activeId: Option<int>, form: ProductForm)
    requires PlanSubmit(userId, CreateMode, activeId, form).Send?
    ensures AddStatusIntended(Received(PlanSubmit(userId, CreateMode, activeId, form).request.payload), true) == 201
  {
    var f := Received(PlanSubmit(userId, CreateMode, activeId, form).request.payload);
    assert Provided(f.title) && Provided(f.description) && Provided(f.category) && Provided(f.image);
  }
}
