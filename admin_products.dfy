/** frontend/src/components/AdminProductManagement.jsx: the admin product page's
    gate and its add/edit form. The backend's answers to the save, delete and
    list requests are parameters; the calls made are returned. */
module AdminProducts {
  import opened Wrappers
  import opened IdentityCache

  /** The price field holds the product's number after an edit and the typed
      text after a change in the input. */
  datatype Price = Number(amount: real) | Typed(text: string)

  /** The form state `newProduct`. */
  datatype ProductForm = ProductForm(name: string, description: string, price: Price, images: seq<string>, category: string)

  /** A product as the list request returns it, restricted to the fields the page reads. */
  datatype ListedProduct = ListedProduct(id: string, name: string, description: string, price: real, images: seq<string>, category: string)

  /** The text inputs that share `handleInputChange`. */
  datatype Field = Name | Description | PriceInput | Category

  /** The request a handler sends, with the acting user's id. */
  datatype ProductCall =
    | NoCall
    | AddProduct(form: ProductForm, userId: Option<Value>)
    | UpdateProduct(productId: string, form: ProductForm, userId: Option<Value>)
    | DeleteProduct(productId: string, userId: Option<Value>)

  /** The empty form the page starts with and returns to after a save. */
  const EmptyForm := ProductForm("", "", Number(0.0), [""], "")

  /** `JSON.parse(localStorage.getItem('minimalUser') || '{}')`: nothing stored
      reads as the empty object; text that does not parse throws while rendering. */
  datatype ParseError = ParseError

  function ParseUser(entry: Entry): (r: Result<Object, ParseError>)
    ensures entry.Missing? ==> r == Ok(map[])
    ensures entry.Corrupt? <==> r.Err?
    ensures entry.Stored? ==> r == Ok(entry.user)
  {
    match entry
    case Missing => Ok(map[])
    case Corrupt => Err(ParseError)
    case Stored(user) => Ok(user)
  }

  /** `user && user.role === 'ADMIN'`: an exact, case-sensitive comparison. */
  predicate IsAdmin(user: Object) {
    Get(user, "role") == Some(Str("ADMIN"))
  }

  /** Nothing cached is never admin. For any string role, this page accepts
      exactly "ADMIN" while the admin route accepts every spelling that differs
      from it only in case, so "admin" passes the route and is refused here. */
  lemma AdminGateIsCaseSensitive(role: string)
    ensures !IsAdmin(ParseUser(Missing).value)
    ensures IsAdmin(map["role" := Str(role)]) <==> role == "ADMIN"
    ensures RoleUpperIsAdmin(map["role" := Str(role)]) == Ok(true) <==> Text.EqualIgnoringCase(role, "ADMIN")
    ensures !IsAdmin(map["role" := Str("admin")])
    ensures RoleUpperIsAdmin(map["role" := Str("admin")]) == Ok(true)
  {
    assert Text.ToUpper("ADMIN") == "ADMIN";
    Text.ToUpperIsCaseInsensitiveKey(role, "ADMIN");
    Text.ToUpperIsCaseInsensitiveKey("admin", "ADMIN");
  }

  /** `currentProductId` is truthy. */
  predicate HasId(id: Option<string>) {
    id.Some? && id.value != ""
  }

  class ProductManagement {
    const user: Object
    var products: seq<ListedProduct>
    var newProduct: ProductForm
    var isEditing: bool
    var currentProductId: Option<string>

    /** The hooks' initial state, for the identity read at render time. */
    constructor(user: Object)
      ensures this.user == user
      ensures products == [] && newProduct == EmptyForm && !isEditing && currentProductId.None?
    {
      this.user := user;
      products, newProduct, isEditing, currentProductId := [], EmptyForm, false, None;
    }

    /** `fetchProducts()`: a successful list replaces `products`; a failure keeps them. */
    method FetchProducts(response: Result<seq<ListedProduct>, RequestError>)
      modifies this
      ensures products == (if response.Ok? then response.value else old(products))
      ensures newProduct == old(newProduct) && isEditing == old(isEditing) && currentProductId == old(currentProductId)
    {
      if response.Ok? {
        products := response.value;
      }
    }

    /** `handleInputChange`: sets the one named field to the typed text. */
    method HandleInputChange(field: Field, value: string)
      modifies this
      ensures newProduct == match field
        case Name => old(newProduct).(name := value)
        case Description => old(newProduct).(description := value)
        case PriceInput => old(newProduct).(price := Typed(value))
        case Category => old(newProduct).(category := value)
      ensures products == old(products) && isEditing == old(isEditing) && currentProductId == old(currentProductId)
    {
      match field {
        case Name => newProduct := newProduct.(name := value);
        case Description => newProduct := newProduct.(description := value);
        case PriceInput => newProduct := newProduct.(price := Typed(value));
        case Category => newProduct := newProduct.(category := value);
      }
    }

    /** `handleImageUrlChange`: the image list becomes the one typed URL; the
        other fields are kept. */
    method HandleImageUrlChange(value: string)
      modifies this
      ensures newProduct == old(newProduct).(images := [value])
      ensures products == old(products) && isEditing == old(isEditing) && currentProductId == old(currentProductId)
    {
      newProduct := newProduct.(images := [value]);
    }

    /** `handleSubmit`: a non-admin sends nothing and changes nothing. An admin
        sends an update for `currentProductId` when editing with a truthy id, and an
        add otherwise. A successful save resets the form, leaves edit mode and
        asks for the list again; a failed save keeps the form and the edit state. */
    method HandleSubmit(saved: Result<(), RequestError>) returns (call: ProductCall, refetch: bool)
      modifies this
      ensures !IsAdmin(user) ==>
        call == NoCall && !refetch &&
        newProduct == old(newProduct) && isEditing == old(isEditing) && currentProductId == old(currentProductId)
      ensures IsAdmin(user) ==>
        call == (if old(isEditing) && HasId(old(currentProductId))
                 then UpdateProduct(old(currentProductId).value, old(newProduct), Get(user, "id"))
                 else AddProduct(old(newProduct), Get(user, "id")))
      ensures IsAdmin(user) && saved.Ok? ==>
        newProduct == EmptyForm && !isEditing && currentProductId.None? && refetch
      ensures saved.Err? ==>
        newProduct == old(newProduct) && isEditing == old(isEditing) && currentProductId == old(currentProductId) && !refetch
      ensures products == old(products)
    {
      if !IsAdmin(user) {
        return NoCall, false;
      }
      if isEditing && currentProductId.Some? && currentProductId.value != "" {
        call := UpdateProduct(currentProductId.value, newProduct, Get(user, "id"));
      } else {
        call := AddProduct(newProduct, Get(user, "id"));
      }
      refetch := false;
      if saved.Ok? {
        newProduct := EmptyForm;
        isEditing := false;
        currentProductId := None;
        refetch := true;
      }
    }

    /** `handleDelete(id)`: the backend is asked only by an admin who confirms the
        dialog, and the list is asked for again only after a successful delete. */
    method HandleDelete(id: string, confirmed: bool, deleted: Result<(), RequestError>) returns (call: ProductCall, refetch: bool)
      ensures call != NoCall <==> IsAdmin(user) && confirmed
      ensures call != NoCall ==> call == DeleteProduct(id, Get(user, "id"))
      ensures refetch <==> call != NoCall && deleted.Ok?
    {
      if !IsAdmin(user) {
        return NoCall, false;
      }
      call, refetch := NoCall, false;
      if confirmed {
        call := DeleteProduct(id, Get(user, "id"));
        refetch := deleted.Ok?;
      }
    }

    /** `handleEdit(product)`: copies the five editable fields into the form and
        enters edit mode on the product's id. */
    method HandleEdit(product: ListedProduct)
      modifies this
      ensures newProduct == ProductForm(product.name, product.description, Number(product.price), product.images, product.category)
      ensures isEditing && currentProductId == Some(product.id)
      ensures products == old(products)
    {
      newProduct := ProductForm(product.name, product.description, Number(product.price), product.images, product.category);
      isEditing := true;
      currentProductId := Some(product.id);
    }
  }

  /** An edit followed by a successful submit by an admin updates exactly the
      edited product (when its id is not empty) with the edited form, and leaves
      the page ready for a new product. */
  method EditThenSave(page: ProductManagement, product: ListedProduct, saved: Result<(), RequestError>)
    returns (call: ProductCall)
    requires IsAdmin(page.user) && product.id != ""
    modifies page
    ensures call == UpdateProduct(product.id,
      ProductForm(product.name, product.description, Number(product.price), product.images, product.category),
      Get(page.user, "id"))
    ensures saved.Ok? ==> page.newProduct == EmptyForm && !page.isEditing
  {
    page.HandleEdit(product);
    var refetch;
    call, refetch := page.HandleSubmit(saved);
  }
}
