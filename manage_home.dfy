/**
 * The product management page: the dashboard of `DashboardHome` plus a dialog
 * through which a signed-in user creates or edits a product, and a delete action.
 * Submitting runs a chain of client-side checks whose first failure becomes the
 * dialog's error; only a form that passes them all is sent to the server.
 */
module ManageHome {
  import opened Wrappers
  import opened JsValues
  import opened Catalog
  import ProductStore

  datatype DialogMode = CreateMode | EditMode

  /**
   * The dialog's form. The text fields are the typed strings; each numeric field
   * is what `Number` makes of its text: `Some(x)` for a finite number, `None`
   * for NaN or an infinity.
   */
  datatype ProductForm = ProductForm(
    title: string,
    price: Option<real>,
    description: string,
    category: string,
    image: string,
    rate: Option<real>,
    rateCount: Option<real>)

  /** The blank form; `Number("")` is 0, so its numeric fields read as zero. */
  const EmptyForm := ProductForm("", Some(0.0), "", "", "", Some(0.0), Some(0.0))

  /** The JSON body a submit sends. */
  datatype Payload = Payload(
    title: string,
    price: real,
    description: string,
    category: string,
    image: string,
    rate: real,
    rateCount: real)

  /** The two requests a submit can make: `POST /products/add-product/:userId` or `PUT /products/edit-product/:userId/:id`. */
  datatype Request =
    | Create(userId: int, payload: Payload)
    | Update(userId: int, productId: int, payload: Payload)

  /** What a submit decides before any request: send, or refuse with the dialog's error. */
  datatype Plan = Send(request: Request) | Refuse(message: string)

  /** How the save request ended: success, or a failure with the server's `message`, if it sent one. */
  datatype SaveOutcome = Saved | SaveFailed(serverMessage: Option<string>)

  const NotSignedIn := "You must be logged in to manage products."
  const FillAll := "Please fill all fields."
  const BadPrice := "Price must be a positive number."
  const BadRating := "Rating must be between 0 and 5."
  const BadCount := "Rating count must be 0 or greater."
  const NoSelection := "No product selected for editing."
  const SaveFallback := "Failed to save product."

  /** A nullable numeric id in a JavaScript condition: absent and 0 are both falsy. */
  predicate IdTruthy(id: Option<int>)
  {
    id.Some? && id.value != 0
  }

  /** No text field trims to the empty string. */
  predicate TextsFilled(f: ProductForm)
  {
    Trim(f.title) != [] && Trim(f.description) != [] && Trim(f.category) != [] && Trim(f.image) != []
  }

  predicate PriceOk(f: ProductForm)
  {
    f.price.Some? && f.price.value > 0.0
  }

  predicate RateOk(f: ProductForm)
  {
    f.rate.Some? && 0.0 <= f.rate.value <= 5.0
  }

  predicate CountOk(f: ProductForm)
  {
    f.rateCount.Some? && f.rateCount.value >= 0.0
  }

  /** The payload built from a checked form: trimmed texts, parsed numbers. */
  function Clean(f: ProductForm): (r: Payload)
    requires PriceOk(f) && RateOk(f) && CountOk(f)
    ensures r.price > 0.0 && 0.0 <= r.rate <= 5.0 && r.rateCount >= 0.0
  {
    Payload(Trim(f.title), f.price.value, Trim(f.description), Trim(f.category), Trim(f.image),
            f.rate.value, f.rateCount.value)
  }

  /**
   * `submitDialog` up to its request: sign-in, filled texts, price, rating, rating
   * count and, when editing, a selected product, checked in that order.
   */
  function PlanSubmit(userId: Option<int>, mode: DialogMode, activeId: Option<int>, form: ProductForm): (r: Plan)
    ensures r.Send? <==>
              && IdTruthy(userId) && TextsFilled(form) && PriceOk(form) && RateOk(form) && CountOk(form)
              && (mode.EditMode? ==> IdTruthy(activeId))
    ensures r.Send? ==> r.request.userId == userId.value && r.request.payload == Clean(form)
    ensures r.Send? ==> (r.request.Update? <==> mode.EditMode?)
    ensures r.Send? && r.request.Update? ==> r.request.productId == activeId.value
  {
    if !IdTruthy(userId) then Refuse(NotSignedIn)
    else if !TextsFilled(form) then Refuse(FillAll)
    else if !PriceOk(form) then Refuse(BadPrice)
    else if !RateOk(form) then Refuse(BadRating)
    else if !CountOk(form) then Refuse(BadCount)
    else if mode.CreateMode? then Send(Create(userId.value, Clean(form)))
    else if !IdTruthy(activeId) then Refuse(NoSelection)
    else Send(Update(userId.value, activeId.value, Clean(form)))
  }

  /**
   * A refusal names the first check that failed: every check before the named one
   * passed and the named one did not.
   */
  lemma RefusalNamesFirstFailure(userId: Option<int>, mode: DialogMode, activeId: Option<int>, form: ProductForm)
    ensures PlanSubmit(userId, mode, activeId, form) == Refuse(NotSignedIn) <==> !IdTruthy(userId)
    ensures PlanSubmit(userId, mode, activeId, form) == Refuse(FillAll) <==>
              IdTruthy(userId) && !TextsFilled(form)
    ensures PlanSubmit(userId, mode, activeId, form) == Refuse(BadPrice) <==>
              IdTruthy(userId) && TextsFilled(form) && !PriceOk(form)
    ensures PlanSubmit(userId, mode, activeId, form) == Refuse(BadRating) <==>
              IdTruthy(userId) && TextsFilled(form) && PriceOk(form) && !RateOk(form)
    ensures PlanSubmit(userId, mode, activeId, form) == Refuse(BadCount) <==>
              IdTruthy(userId) && TextsFilled(form) && PriceOk(form) && RateOk(form) && !CountOk(form)
    ensures PlanSubmit(userId, mode, activeId, form) == Refuse(NoSelection) <==>
              && IdTruthy(userId) && TextsFilled(form) && PriceOk(form) && RateOk(form) && CountOk(form)
              && mode.EditMode? && !IdTruthy(activeId)
  {
  }

  /** The blank create form is never sent: a signed-in user is told to fill all fields. */
  lemma BlankFormRefused(userId: Option<int>, activeId: Option<int>)
    requires IdTruthy(userId)
    ensures PlanSubmit(userId, CreateMode, activeId, EmptyForm) == Refuse(FillAll)
  {
  }

  /** A zero rating and a zero rating count pass the client's checks. */
  lemma ZeroRatingAccepted(userId: Option<int>, form: ProductForm)
    requires IdTruthy(userId) && TextsFilled(form) && PriceOk(form)
    requires form.rate == Some(0.0) && form.rateCount == Some(0.0)
    ensures PlanSubmit(userId, CreateMode, None, form).Send?
  {
  }

  /** The edit form `openEditDialog` fills from a product (`String` then `Number` gives back a finite number). */
  function EditForm(p: Product): (r: ProductForm)
    ensures r.price == Some(p.price) && r.rate == Some(p.rate) && r.rateCount == Some(p.count as real)
    ensures r.title == p.title && r.description == p.description
    ensures r.category == p.category && r.image == p.image
  {
    ProductForm(p.title, Some(p.price), p.description, p.category, p.image, Some(p.rate), Some(p.count as real))
  }

  /**
   * Opening a valid product for editing and saving it unchanged sends an update of
   * that very product carrying its own values, texts trimmed.
   */
  lemma UnchangedEditResends(userId: Option<int>, p: Product)
    requires IdTruthy(userId) && p.id != 0
    requires Trim(p.title) != [] && Trim(p.description) != [] && Trim(p.category) != [] && Trim(p.image) != []
    requires p.price > 0.0 && 0.0 <= p.rate <= 5.0 && p.count >= 0
    ensures PlanSubmit(userId, EditMode, Some(p.id), EditForm(p))
         == Send(Update(userId.value, p.id,
                        Payload(Trim(p.title), p.price, Trim(p.description), Trim(p.category), Trim(p.image),
                                p.rate, p.count as real)))
  {
  }

  class ManageDashboard {
    var loading: bool
    var dialogOpen: bool
    var dialogMode: DialogMode
    var activeProductId: Option<int>
    var form: ProductForm
    var formError: Option<string>
    var saving: bool
    const store: ProductStore.Store

    /** The page mounts loading, with the dialog closed, in create mode, on the blank form. */
    constructor (store: ProductStore.Store)
      ensures this.store == store && loading && !saving
      ensures !dialogOpen && dialogMode == CreateMode && activeProductId == None
      ensures form == EmptyForm && formError == None
    {
      this.store := store;
      loading := true;
      dialogOpen := false;
      dialogMode := CreateMode;
      activeProductId := None;
      form := EmptyForm;
      formError := None;
      saving := false;
    }

    /** `fetchProducts`: as on the dashboard page, a failure leaves the store as it was. */
    method FetchProducts(response: Option<seq<Product>>)
      requires store.Valid()
      modifies this, store
      ensures store.Valid() && !loading
      ensures response.Some? ==>
                store.Snapshot() == old(store.Snapshot()).(products := response.value,
                                                           filteredProducts := response.value,
                                                           categories := Categories(response.value))
      ensures response.None? ==> store.Snapshot() == old(store.Snapshot())
      ensures dialogOpen == old(dialogOpen) && dialogMode == old(dialogMode)
      ensures activeProductId == old(activeProductId) && form == old(form)
      ensures formError == old(formError) && saving == old(saving)
    {
      loading := true;
      if response.Some? {
        store.SetProducts(response.value);
      }
      loading := false;
    }

    /** `openCreateDialog`: clears the error and opens the blank form in create mode. */
    method OpenCreateDialog()
      modifies this
      ensures dialogOpen && dialogMode == CreateMode && activeProductId == None
      ensures form == EmptyForm && formError == None
      ensures loading == old(loading) && saving == old(saving)
    {
      formError := None;
      dialogMode := CreateMode;
      activeProductId := None;
      form := EmptyForm;
      dialogOpen := true;
    }

    /** `openEditDialog`: clears the error and opens the product's values in edit mode. */
    method OpenEditDialog(p: Product)
      modifies this
      ensures dialogOpen && dialogMode == EditMode && activeProductId == Some(p.id)
      ensures form == EditForm(p) && formError == None
      ensures loading == old(loading) && saving == old(saving)
    {
      formError := None;
      dialogMode := EditMode;
      activeProductId := Some(p.id);
      form := EditForm(p);
      dialogOpen := true;
    }

    /** `closeDialog`: closes the dialog unless a save is in flight. */
    method CloseDialog()
      modifies this
      ensures dialogOpen == (old(dialogOpen) && saving)
      ensures saving == old(saving) && loading == old(loading) && formError == old(formError)
      ensures dialogMode == old(dialogMode) && activeProductId == old(activeProductId) && form == old(form)
    {
      if saving {
        return;
      }
      dialogOpen := false;
    }

    /**
     * `submitDialog`. A refused plan only sets the error. A sent request that
     * succeeds closes the dialog and refetches; one that fails keeps the dialog
     * open with the server's message or the fallback. `saving` ends false, and the
     * store changes only through the refetch.
     */
    method SubmitDialog(userId: Option<int>, outcome: SaveOutcome, refetch: Option<seq<Product>>)
      returns (sent: Option<Request>)
      requires store.Valid()
      modifies this, store
      ensures store.Valid() && !saving
      ensures var plan := PlanSubmit(userId, old(dialogMode), old(activeProductId), old(form));
              && (sent.Some? <==> plan.Send?)
              && (sent.Some? ==> sent.value == plan.request)
              && (plan.Refuse? ==> formError == Some(plan.message))
      ensures sent.Some? && outcome.Saved? ==> !dialogOpen && formError == None && !loading
      ensures sent.Some? && outcome.Saved? && refetch.Some? ==>
                store.Snapshot() == old(store.Snapshot()).(products := refetch.value,
                                                           filteredProducts := refetch.value,
                                                           categories := Categories(refetch.value))
      ensures sent.Some? && outcome.SaveFailed? ==>
                formError == Some(outcome.serverMessage.GetOr(SaveFallback))
      ensures sent.None? || outcome.SaveFailed? || refetch.None? ==> store.Snapshot() == old(store.Snapshot())
      ensures sent.None? || outcome.SaveFailed? ==> dialogOpen == old(dialogOpen) && loading == old(loading)
      ensures dialogMode == old(dialogMode) && activeProductId == old(activeProductId) && form == old(form)
    {
      formError := None;
      var plan := PlanSubmit(userId, dialogMode, activeProductId, form);
      if plan.Refuse? {
        formError := Some(plan.message);
        sent := None;
        saving := false;
        return;
      }
      saving := true;
      sent := Some(plan.request);
      if outcome.Saved? {
        dialogOpen := false;
        FetchProducts(refetch);
      } else {
        formError := Some(outcome.serverMessage.GetOr(SaveFallback));
      }
      saving := false;
    }

    /**
     * `deleteProduct`: nothing without a signed-in user or the user's confirmation;
     * otherwise the delete request goes out and, when it succeeds, the page
     * refetches. A failed delete is only logged. Returns the request's
     * `(userId, productId)` when one is sent.
     */
    method DeleteProduct(userId: Option<int>, p: Product, confirmed: bool, deleted: bool,
                         refetch: Option<seq<Product>>)
      returns (sent: Option<(int, int)>)
      requires store.Valid()
      modifies this, store
      ensures store.Valid()
      ensures sent.Some? <==> IdTruthy(userId) && confirmed
      ensures sent.Some? ==> sent.value == (userId.value, p.id)
      ensures sent.Some? && deleted && refetch.Some? ==>
                store.Snapshot() == old(store.Snapshot()).(products := refetch.value,
                                                           filteredProducts := refetch.value,
                                                           categories := Categories(refetch.value))
      ensures sent.None? || !deleted || refetch.None? ==> store.Snapshot() == old(store.Snapshot())
      ensures dialogOpen == old(dialogOpen) && dialogMode == old(dialogMode) && form == old(form)
      ensures activeProductId == old(activeProductId) && formError == old(formError) && saving == old(saving)
      ensures sent.Some? && deleted ==> !loading
      ensures sent.None? || !deleted ==> loading == old(loading)
    {
      if !IdTruthy(userId) || !confirmed {
        return None;
      }
      sent := Some((userId.value, p.id));
      if deleted {
        FetchProducts(refetch);
      }
    }
  }
}
