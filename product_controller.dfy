/**
 * `addProduct` and `updateProduct`: a product is created only after six
 * checks pass, its `categoryID`/`supplierID` fields are renamed, and its id
 * is appended to its category's and supplier's `products` lists; an update
 * copies the submitted fields onto the stored product.
 */
module ProductController {
  import opened Common
  import opened Store

  /** JavaScript truthiness of a body field: `undefined`, `0` and `""` are falsy. */
  predicate Truthy(v: Option<Value>)
  {
    match v
    case None => false
    case Some(Num(n)) => n != 0.0
    case Some(Str(s)) => s != ""
    case Some(Ref(_)) => true
  }

  /**
   * The guard `v && v < 0`: it fires only for a present negative number, so
   * an absent field or a zero passes.
   */
  function IsNegative(v: Option<Value>): (r: bool)
    ensures r <==> v.Some? && v.value.Num? && v.value.n < 0.0
  {
    Truthy(v) && v.Some? && v.value.Num? && v.value.n < 0.0
  }

  /** The body field `key` holds the id of one of `ids`. */
  predicate RefersTo(body: Doc, key: string, ids: set<Id>)
  {
    key in body && body[key].Ref? && body[key].id in ids
  }

  /**
   * `Product.findOne({ name })` finds a product: some stored product has the
   * same name (an absent name matches an absent name, as a query on `null` does).
   */
  predicate NameTaken(body: Doc, products: map<Id, Doc>)
  {
    exists id :: id in products && Field(products[id], "name") == Field(body, "name")
  }

  /** The guards of `addProduct`, in the order it runs them. */
  function AddProductChecks(schemaOk: bool, body: Doc, products: map<Id, Doc>,
                            categories: map<Id, Category>, suppliers: map<Id, Supplier>): seq<Check>
  {
    [ Check(schemaOk, ValidationFailed),
      Check(RefersTo(body, "categoryID", categories.Keys), CategoryNotFound),
      Check(RefersTo(body, "supplierID", suppliers.Keys), SupplierNotFound),
      Check(!NameTaken(body, products), DuplicatedProduct),
      Check(!IsNegative(Field(body, "availableQuantity")), InvalidProductAvailableQuantity),
      Check(!IsNegative(Field(body, "price")), InvalidProductPrice) ]
  }

  /**
   * The stored form of a new product: the `categoryID` and `supplierID`
   * values move to `category` and `supplier`, every other field is kept.
   */
  function Renamed(body: Doc): (d: Doc)
    requires "categoryID" in body && "supplierID" in body
    ensures d.Keys == body.Keys - {"categoryID", "supplierID"} + {"category", "supplier"}
    ensures d["category"] == body["categoryID"] && d["supplier"] == body["supplierID"]
    ensures forall k :: k in body && k !in {"categoryID", "supplierID", "category", "supplier"} ==> d[k] == body[k]
  {
    body["category" := body["categoryID"]]["supplier" := body["supplierID"]] - {"categoryID", "supplierID"}
  }

  /** No two stored products share a name. */
  ghost predicate NamesUnique(products: map<Id, Doc>)
  {
    forall a, b :: a in products && b in products && a != b ==> Field(products[a], "name") != Field(products[b], "name")
  }

  /** A product whose name is not taken keeps the names unique. */
  lemma AddKeepsNamesUnique(products: map<Id, Doc>, id: Id, doc: Doc, body: Doc)
    requires NamesUnique(products) && !NameTaken(body, products) && id !in products
    requires Field(doc, "name") == Field(body, "name")
    ensures NamesUnique(products[id := doc])
  {
  }

  /** Appending a new product id to one category's and one supplier's lists keeps every listed id stored. */
  lemma AddKeepsListsLinked(products: map<Id, Doc>, categories: map<Id, Category>, suppliers: map<Id, Supplier>,
                            id: Id, doc: Doc, c: Id, s: Id)
    requires ProductListsLinked(products, categories, suppliers) && c in categories && s in suppliers
    ensures ProductListsLinked(products[id := doc],
                               categories[c := categories[c].(products := categories[c].products + [id])],
                               suppliers[s := suppliers[s].(products := suppliers[s].products + [id])])
  {
  }

  /**
   * The writes of `addProduct` once every check has passed: rename the id
   * fields of the body, save it as a new product, then append the new id to
   * the category's and to the supplier's `products` lists.
   */
  method SaveProduct(db: Db, body: Doc, categoryId: Id, supplierId: Id) returns (id: Id)
    requires db.Valid()
    requires "categoryID" in body && body["categoryID"] == Ref(categoryId) && categoryId in db.categories
    requires "supplierID" in body && body["supplierID"] == Ref(supplierId) && supplierId in db.suppliers
    requires !NameTaken(body, db.products)
    modifies db
    ensures db.Valid()
    ensures id == old(db.nextId) && id !in old(db.products)
    ensures db.products == old(db.products)[id := Renamed(body)]
    ensures db.categories == old(db.categories)[categoryId := old(db.categories)[categoryId].(products := old(db.categories)[categoryId].products + [id])]
    ensures db.suppliers == old(db.suppliers)[supplierId := old(db.suppliers)[supplierId].(products := old(db.suppliers)[supplierId].products + [id])]
    ensures db.schedules == old(db.schedules) && db.shifts == old(db.shifts) && db.assignments == old(db.assignments)
    ensures db.nextId == old(db.nextId) + 1
    ensures old(NamesUnique(db.products)) ==> NamesUnique(db.products)
    ensures old(ProductListsLinked(db.products, db.categories, db.suppliers)) ==>
              ProductListsLinked(db.products, db.categories, db.suppliers)
  {
    // the body object is edited in place before it is saved
    var info := body;
    info := info["category" := info["categoryID"]];
    info := info["supplier" := info["supplierID"]];
    info := info - {"categoryID"};
    info := info - {"supplierID"};
    assert info == Renamed(body);

    id := db.nextId;
    db.products := db.products[id := info];
    db.nextId := db.nextId + 1;

    var category := db.categories[categoryId];
    db.categories := db.categories[categoryId := category.(products := category.products + [id])];
    var supplier := db.suppliers[supplierId];
    db.suppliers := db.suppliers[supplierId := supplier.(products := supplier.products + [id])];

    if NamesUnique(old(db.products)) {
      AddKeepsNamesUnique(old(db.products), id, info, body);
    }
    if ProductListsLinked(old(db.products), old(db.categories), old(db.suppliers)) {
      AddKeepsListsLinked(old(db.products), old(db.categories), old(db.suppliers), id, info, categoryId, supplierId);
    }
  }

  method AddProduct(db: Db, validates: Doc -> bool, body: Doc) returns (r: Response<Id>)
    requires db.Valid()
    modifies db
    ensures db.Valid()
    ensures var failure := FirstFailure(AddProductChecks(validates(body), body, old(db.products),
                                                         old(db.categories), old(db.suppliers)));
            && (failure.Some? ==> r == Err(failure.value) && unchanged(db))
            && (failure.None? ==> r.Ok?)
    ensures r.Ok? ==>
      && RefersTo(body, "categoryID", old(db.categories).Keys)
      && RefersTo(body, "supplierID", old(db.suppliers).Keys)
      && r.data == old(db.nextId) && r.data !in old(db.products)
      && db.products == old(db.products)[r.data := Renamed(body)]
      && (var c := body["categoryID"].id;
          db.categories == old(db.categories)[c := old(db.categories)[c].(products := old(db.categories)[c].products + [r.data])])
      && (var s := body["supplierID"].id;
          db.suppliers == old(db.suppliers)[s := old(db.suppliers)[s].(products := old(db.suppliers)[s].products + [r.data])])
      && db.schedules == old(db.schedules) && db.shifts == old(db.shifts) && db.assignments == old(db.assignments)
      && db.nextId == old(db.nextId) + 1
    ensures r.Status() == NOT_FOUND <==>
              validates(body) && (!RefersTo(body, "categoryID", old(db.categories).Keys) ||
                                  !RefersTo(body, "supplierID", old(db.suppliers).Keys))
    ensures old(NamesUnique(db.products)) ==> NamesUnique(db.products)
    ensures old(ProductListsLinked(db.products, db.categories, db.suppliers)) ==>
              ProductListsLinked(db.products, db.categories, db.suppliers)
  {
    var checks := AddProductChecks(validates(body), body, db.products, db.categories, db.suppliers);
    AddProductStatus(validates(body), body, db.products, db.categories, db.suppliers);
    if !validates(body) {
      FirstFailureAt(checks, 0);
      return Err(ValidationFailed);
    }
    if !RefersTo(body, "categoryID", db.categories.Keys) {
      FirstFailureAt(checks, 1);
      return Err(CategoryNotFound);
    }
    var categoryId := body["categoryID"].id;
    if !RefersTo(body, "supplierID", db.suppliers.Keys) {
      FirstFailureAt(checks, 2);
      return Err(SupplierNotFound);
    }
    var supplierId := body["supplierID"].id;
    if NameTaken(body, db.products) {
      FirstFailureAt(checks, 3);
      return Err(DuplicatedProduct);
    }
    if IsNegative(Field(body, "availableQuantity")) {
      FirstFailureAt(checks, 4);
      return Err(InvalidProductAvailableQuantity);
    }
    if IsNegative(Field(body, "price")) {
      FirstFailureAt(checks, 5);
      return Err(InvalidProductPrice);
    }
    assert forall i :: 0 <= i < |checks| ==> checks[i].passes;
    var id := SaveProduct(db, body, categoryId, supplierId);
    r := Ok(id);
  }

  /**
   * The `for…in` loop of `updateProduct`: every field of `body` is copied
   * onto `doc`; the other fields of `doc` stay as they were.
   */
  method MergeFields(doc: Doc, body: Doc) returns (merged: Doc)
    ensures merged.Keys == doc.Keys + body.Keys
    ensures forall k :: k in body ==> merged[k] == body[k]
    ensures forall k :: k in doc && k !in body ==> merged[k] == doc[k]
  {
    merged := doc;
    var pending := body.Keys;
    while pending != {}
      invariant pending <= body.Keys
      invariant merged.Keys == doc.Keys + (body.Keys - pending)
      invariant forall k :: k in body && k !in pending ==> merged[k] == body[k]
      invariant forall k :: k in doc && (k !in body || k in pending) ==> merged[k] == doc[k]
      decreases pending
    {
      var k :| k in pending;
      merged := merged[k := body[k]];
      pending := pending - {k};
    }
  }

  /** The guards of `updateProduct`, in the order it runs them. */
  function UpdateProductChecks(schemaOk: bool, isImporter: bool, productId: Id, body: Doc,
                               products: map<Id, Doc>): seq<Check>
  {
    [ Check(schemaOk, ValidationFailed),
      Check(isImporter, PermissionDenied),
      Check(!IsNegative(Field(body, "availableQuantity")), InvalidProductAvailableQuantity),
      Check(!IsNegative(Field(body, "price")), InvalidProductPrice),
      Check(productId in products, ProductNotFound) ]
  }

  /**
   * `isImporter` is the answer of the permission lookup for the caller and
   * the importer role.
   */
  method UpdateProduct(db: Db, validates: Doc -> bool, isImporter: bool, productId: Id, body: Doc)
    returns (r: Response<Doc>)
    requires db.Valid()
    modifies db
    ensures db.Valid()
    ensures var failure := FirstFailure(UpdateProductChecks(validates(body), isImporter, productId, body,
                                                            old(db.products)));
            && (failure.Some? ==> r == Err(failure.value) && unchanged(db))
            && (failure.None? ==> r.Ok?)
    ensures r.Ok? ==>
      && productId in old(db.products)
      && r.data == old(db.products)[productId] + body
      && db.products == old(db.products)[productId := r.data]
      && db.categories == old(db.categories) && db.suppliers == old(db.suppliers)
      && db.schedules == old(db.schedules) && db.shifts == old(db.shifts) && db.assignments == old(db.assignments)
      && db.nextId == old(db.nextId)
    ensures r.Ok? && body == map[] ==> db.products == old(db.products)
    ensures r.Status() == UNAUTHORIZED <==> validates(body) && !isImporter
    ensures r.Status() == NOT_FOUND <==>
              && validates(body) && isImporter && !IsNegative(Field(body, "availableQuantity"))
              && !IsNegative(Field(body, "price")) && productId !in old(db.products)
    ensures old(ProductListsLinked(db.products, db.categories, db.suppliers)) ==>
              ProductListsLinked(db.products, db.categories, db.suppliers)
  {
    var checks := UpdateProductChecks(validates(body), isImporter, productId, body, db.products);
    UpdateProductStatus(validates(body), isImporter, productId, body, db.products);
    if !validates(body) {
      FirstFailureAt(checks, 0);
      return Err(ValidationFailed);
    }
    if !isImporter {
      FirstFailureAt(checks, 1);
      return Err(PermissionDenied);
    }
    if IsNegative(Field(body, "availableQuantity")) {
      FirstFailureAt(checks, 2);
      return Err(InvalidProductAvailableQuantity);
    }
    if IsNegative(Field(body, "price")) {
      FirstFailureAt(checks, 3);
      return Err(InvalidProductPrice);
    }
    if productId !in db.products {
      FirstFailureAt(checks, 4);
      return Err(ProductNotFound);
    }
    assert forall i :: 0 <= i < |checks| ==> checks[i].passes;

    var product := MergeFields(db.products[productId], body);
    assert product == db.products[productId] + body;
    assert body == map[] ==> product == db.products[productId];
    db.products := db.products[productId := product];
    r := Ok(product);
  }

  /**
   * Only `addProduct` looks for a duplicate name: an update that renames one
   * product to another's name is accepted and leaves two products with that name.
   */
  lemma UpdateCanDuplicateName()
    ensures var products := map[1 := map["name" := Str("milk")], 2 := map["name" := Str("tea")]];
            && NamesUnique(products)
            && FirstFailure(UpdateProductChecks(true, true, 2, map["name" := Str("milk")], products)).None?
            && !NamesUnique(products[2 := products[2] + map["name" := Str("milk")]])
  {
    var products := map[1 := map["name" := Str("milk")], 2 := map["name" := Str("tea")]];
    var body := map["name" := Str("milk")];
    var checks := UpdateProductChecks(true, true, 2, body, products);
    assert forall i :: 0 <= i < |checks| ==> checks[i].passes;
    var after := products[2 := products[2] + body];
    assert Field(after[1], "name") == Field(after[2], "name");
  }

  /**
   * The bounds come before the lookup: with a negative price (and a
   * non-negative or absent quantity) an importer gets INVALID_PRODUCT_PRICE
   * whether or not the product exists.
   */
  lemma {:induction false} UpdatePriceCheckedBeforeLookup(schemaOk: bool, productId: Id, body: Doc, products: map<Id, Doc>)
    requires schemaOk && !IsNegative(Field(body, "availableQuantity"))
    requires Field(body, "price").Some? && Field(body, "price").value.Num? && Field(body, "price").value.n < 0.0
    ensures FirstFailure(UpdateProductChecks(schemaOk, true, productId, body, products)) == Some(InvalidProductPrice)
  {
    FirstFailureAt(UpdateProductChecks(schemaOk, true, productId, body, products), 3);
  }

  /** A caller without the importer role is refused before any bounds check or product lookup. */
  lemma {:induction false} UpdatePermissionFirst(isImporter: bool, productId: Id, body: Doc, products: map<Id, Doc>)
    requires !isImporter
    ensures FirstFailure(UpdateProductChecks(true, isImporter, productId, body, products)) == Some(PermissionDenied)
  {
    FirstFailureAt(UpdateProductChecks(true, isImporter, productId, body, products), 1);
  }

  /**
   * `addProduct` succeeds exactly when the body is valid, both references
   * resolve, the name is free and neither quantity nor price is a negative number.
   */
  lemma {:induction false} AddProductSucceedsIff(schemaOk: bool, body: Doc, products: map<Id, Doc>,
                                                 categories: map<Id, Category>, suppliers: map<Id, Supplier>)
    ensures FirstFailure(AddProductChecks(schemaOk, body, products, categories, suppliers)).None?
        <==> && schemaOk
             && RefersTo(body, "categoryID", categories.Keys)
             && RefersTo(body, "supplierID", suppliers.Keys)
             && !NameTaken(body, products)
             && !IsNegative(Field(body, "availableQuantity"))
             && !IsNegative(Field(body, "price"))
  {
    var checks := AddProductChecks(schemaOk, body, products, categories, suppliers);
    if FirstFailure(checks).None? {
      assert checks[0].passes && checks[1].passes && checks[2].passes;
      assert checks[3].passes && checks[4].passes && checks[5].passes;
    }
  }

  /**
   * A duplicated name is reported only when the schema, category and
   * supplier checks pass, and then it wins over bad quantities and prices.
   */
  lemma {:induction false} AddProductDuplicateWins(schemaOk: bool, body: Doc, products: map<Id, Doc>,
                                                   categories: map<Id, Category>, suppliers: map<Id, Supplier>)
    requires schemaOk && RefersTo(body, "categoryID", categories.Keys) && RefersTo(body, "supplierID", suppliers.Keys)
    requires NameTaken(body, products)
    ensures FirstFailure(AddProductChecks(schemaOk, body, products, categories, suppliers)) == Some(DuplicatedProduct)
  {
    FirstFailureAt(AddProductChecks(schemaOk, body, products, categories, suppliers), 3);
  }

  /**
   * `addProduct` answers 404 exactly when the body is valid but its category
   * or its supplier is not found; every other refusal is a 400.
   */
  lemma {:induction false} AddProductStatus(schemaOk: bool, body: Doc, products: map<Id, Doc>,
                                            categories: map<Id, Category>, suppliers: map<Id, Supplier>)
    ensures var failure := FirstFailure(AddProductChecks(schemaOk, body, products, categories, suppliers));
      failure.Some? ==>
        && (StatusOf(failure.value) == NOT_FOUND <==>
              schemaOk && (!RefersTo(body, "categoryID", categories.Keys) || !RefersTo(body, "supplierID", suppliers.Keys)))
        && (StatusOf(failure.value) != NOT_FOUND ==> StatusOf(failure.value) == BAD_REQUEST)
  {
    var checks := AddProductChecks(schemaOk, body, products, categories, suppliers);
    if !schemaOk {
      FirstFailureAt(checks, 0);
    } else if !RefersTo(body, "categoryID", categories.Keys) {
      FirstFailureAt(checks, 1);
    } else if !RefersTo(body, "supplierID", suppliers.Keys) {
      FirstFailureAt(checks, 2);
    } else if NameTaken(body, products) {
      FirstFailureAt(checks, 3);
    } else if IsNegative(Field(body, "availableQuantity")) {
      FirstFailureAt(checks, 4);
    } else if IsNegative(Field(body, "price")) {
      FirstFailureAt(checks, 5);
    } else {
      assert forall i :: 0 <= i < |checks| ==> checks[i].passes;
    }
  }

  /**
   * `updateProduct` answers 401 exactly when the body is valid and the caller
   * is not an importer, 404 exactly when every earlier check passes and the
   * product is missing, and 400 for every other refusal.
   */
  lemma {:induction false} UpdateProductStatus(schemaOk: bool, isImporter: bool, productId: Id, body: Doc,
                                               products: map<Id, Doc>)
    ensures var failure := FirstFailure(UpdateProductChecks(schemaOk, isImporter, productId, body, products));
      failure.Some? ==>
        && (StatusOf(failure.value) == UNAUTHORIZED <==> schemaOk && !isImporter)
        && (StatusOf(failure.value) == NOT_FOUND <==>
              && schemaOk && isImporter && !IsNegative(Field(body, "availableQuantity"))
              && !IsNegative(Field(body, "price")) && productId !in products)
        && (StatusOf(failure.value) != UNAUTHORIZED && StatusOf(failure.value) != NOT_FOUND ==>
              StatusOf(failure.value) == BAD_REQUEST)
  {
    var checks := UpdateProductChecks(schemaOk, isImporter, productId, body, products);
    if !schemaOk {
      FirstFailureAt(checks, 0);
    } else if !isImporter {
      FirstFailureAt(checks, 1);
    } else if IsNegative(Field(body, "availableQuantity")) {
      FirstFailureAt(checks, 2);
    } else if IsNegative(Field(body, "price")) {
      FirstFailureAt(checks, 3);
    } else if productId !in products {
      FirstFailureAt(checks, 4);
    } else {
      assert forall i :: 0 <= i < |checks| ==> checks[i].passes;
    }
  }
}
