/**
 * The `/products` handlers: the two catalogue reads, open to everybody,
 * and the three changes (create, delete, partial update), open to
 * administrators only.
 */
module ProductController {
  import opened Js
  import opened Http

  /** A product row, field by field (`name`, `description`, `price`,
      `image`, `deleted`, ...). */
  type ProductRow = map<string, JsValue>

  datatype ProductCall =
    | FetchAllProducts
    | FetchProduct(id: string)
    | StoreProduct(body: Body)
    | RemoveProduct(id: string)
    | EditProduct(id: string, field: string, value: JsValue)

  const NoProductsFound := "No products found"
  const ProductCreated := "Product created"
  const ProductDeleted := "Product deleted"
  const ProductEdited := "Product edited"

  /** `GET /products`: an empty catalogue is a 404. A failing query is not
      caught. */
  function GetAll(products: Attempt<seq<ProductRow>>): (h: Handled<seq<ProductRow>, ProductCall>)
    ensures h.calls == [FetchAllProducts]
    ensures products.Threw? ==> h.response == Unhandled(products.error)
    ensures products.Done? ==>
              h.response == (if |products.value| == 0
                             then Respond(404, false, None, NoProductsFound)
                             else Ok(Some(products.value), ""))
  {
    match products
    case Threw(e) => Handled(Unhandled(e), [FetchAllProducts])
    case Done(list) =>
      if |list| < 1 then Handled(Respond(404, false, None, NoProductsFound), [FetchAllProducts])
      else Handled(Ok(Some(list), ""), [FetchAllProducts])
  }

  /** `GET /products/:id`: a failed lookup is a 404 carrying its error. */
  function GetProduct(id: string, lookup: Attempt<ProductRow>): (h: Handled<ProductRow, ProductCall>)
    ensures h.calls == [FetchProduct(id)]
    ensures h.response == (if lookup.Done? then Ok(Some(lookup.value), "")
                           else Failure(404, lookup.error))
  {
    match lookup
    case Threw(e) => Handled(Failure(404, e), [FetchProduct(id)])
    case Done(p) => Handled(Ok(Some(p), ""), [FetchProduct(id)])
  }

  /** `POST /products`: administrators only; 201 on success. */
  function CreateProduct(caller: User, body: Body, creation: Attempt<()>): (h: Handled<(), ProductCall>)
    ensures !caller.admin <==> h.calls == []
    ensures !caller.admin ==> h.response == Refused(403)
    ensures caller.admin ==>
              && h.calls == [StoreProduct(body)]
              && h.response == (if creation.Done? then Respond(201, true, None, ProductCreated)
                                else Failure(400, creation.error))
  {
    if !caller.admin then Handled(Refused(403), [])
    else
      match creation
      case Threw(e) => Handled(Failure(400, e), [StoreProduct(body)])
      case Done(_) => Handled(Respond(201, true, None, ProductCreated), [StoreProduct(body)])
  }

  /** `DELETE /products/:id`: administrators only; 200 on success. */
  function DeleteProduct(caller: User, id: string, removal: Attempt<()>): (h: Handled<(), ProductCall>)
    ensures !caller.admin <==> h.calls == []
    ensures !caller.admin ==> h.response == Refused(403)
    ensures caller.admin ==>
              && h.calls == [RemoveProduct(id)]
              && h.response == (if removal.Done? then Respond(200, true, None, ProductDeleted)
                                else Failure(400, removal.error))
  {
    if !caller.admin then Handled(Refused(403), [])
    else
      match removal
      case Threw(e) => Handled(Failure(400, e), [RemoveProduct(id)])
      case Done(_) => Handled(Respond(200, true, None, ProductDeleted), [RemoveProduct(id)])
  }

  /** The fields `PATCH /products/:id` may change, in the order it tries
      them. */
  const EditableFields: seq<string> := ["name", "description", "price", "image"]

  /** The edits a body asks for among `fields`: one per field whose value
      in the body is truthy, in the order of `fields`. */
  function PlannedEdits(id: string, body: Body, fields: seq<string>): (edits: seq<ProductCall>)
    ensures |edits| <= |fields|
    ensures forall c | c in edits ::
              c.EditProduct? && c.id == id && c.field in fields &&
              Truthy(c.value) && c.value == Field(body, c.field)
    decreases |fields|
  {
    if fields == [] then []
    else
      var last := fields[|fields| - 1];
      PlannedEdits(id, body, fields[..|fields| - 1]) +
      (if Truthy(Field(body, last)) then [EditProduct(id, last, Field(body, last))] else [])
  }

  /** Every truthy editable field is planned, and only those. */
  lemma {:induction false} PlannedEditsComplete(id: string, body: Body, fields: seq<string>, f: string)
    ensures (exists c | c in PlannedEdits(id, body, fields) :: c.field == f) <==>
              f in fields && Truthy(Field(body, f))
    decreases |fields|
  {
    if fields != [] {
      var init := fields[..|fields| - 1];
      var last := fields[|fields| - 1];
      PlannedEditsComplete(id, body, init, f);
      assert fields == init + [last];
      var tail := if Truthy(Field(body, last)) then [EditProduct(id, last, Field(body, last))] else [];
      assert PlannedEdits(id, body, fields) == PlannedEdits(id, body, init) + tail;
      if f in fields && Truthy(Field(body, f)) && f !in init {
        assert f == last;
        assert tail[0].field == f;
        assert tail[0] in PlannedEdits(id, body, fields);
      }
    }
  }

  /** What the edits do to a product row: `product[prop] = val`, in order. */
  function ApplyEdits(row: ProductRow, edits: seq<ProductCall>): ProductRow
    decreases |edits|
  {
    if edits == [] then row
    else
      var before := ApplyEdits(row, edits[..|edits| - 1]);
      var last := edits[|edits| - 1];
      if last.EditProduct? then before[last.field := last.value] else before
  }

  /** The planned edits replace exactly the truthy editable fields by the
      body's values and leave every other field of the row as it was. */
  lemma {:induction false} PlannedEditsTouchOnlyGivenFields(row: ProductRow, id: string, body: Body,
                                                            fields: seq<string>)
    ensures var edited := ApplyEdits(row, PlannedEdits(id, body, fields));
            forall k :: Field(edited, k) ==
                          if k in fields && Truthy(Field(body, k)) then Field(body, k) else Field(row, k)
    decreases |fields|
  {
    if fields != [] {
      var init := fields[..|fields| - 1];
      var last := fields[|fields| - 1];
      assert fields == init + [last];
      PlannedEditsTouchOnlyGivenFields(row, id, body, init);
      var planned := PlannedEdits(id, body, init);
      if Truthy(Field(body, last)) {
        var edits := planned + [EditProduct(id, last, Field(body, last))];
        assert edits[..|edits| - 1] == planned;
      } else {
        assert PlannedEdits(id, body, fields) == planned;
      }
    }
  }

  /** `PATCH /products/:id`: for an administrator, edits `name`,
      `description`, `price` and `image`, in that order, each only when the
      body's value is truthy (so a price of 0 or an empty string is never
      applied); the first edit that fails stops the update with a 400, and
      otherwise the answer is 200 even when nothing was edited. `edit` gives
      the outcome of editing each field. */
  method UpdateProduct(caller: User, id: string, body: Body, edit: string -> Attempt<()>)
    returns (h: Handled<(), ProductCall>)
    ensures !caller.admin ==> h == Handled(Refused(403), [])
    ensures caller.admin ==>
              && h.calls <= PlannedEdits(id, body, EditableFields)
              && (|h.calls| > 0 ==> forall c | c in h.calls[..|h.calls| - 1] :: edit(c.field).Done?)
    ensures caller.admin ==>
              (h.response == Ok(None, ProductEdited) <==>
                 && h.calls == PlannedEdits(id, body, EditableFields)
                 && forall c | c in h.calls :: edit(c.field).Done?)
    ensures caller.admin && h.response != Ok(None, ProductEdited) ==>
              && |h.calls| > 0
              && edit(h.calls[|h.calls| - 1].field).Threw?
              && h.response == Failure(400, edit(h.calls[|h.calls| - 1].field).error)
  {
    if !caller.admin {
      return Handled(Refused(403), []);
    }
    var calls: seq<ProductCall> := [];
    var i := 0;
    while i < |EditableFields|
      invariant 0 <= i <= |EditableFields|
      invariant calls == PlannedEdits(id, body, EditableFields[..i])
      invariant forall c | c in calls :: edit(c.field).Done?
    {
      var field := EditableFields[i];
      var value := Field(body, field);
      PlannedStep(id, body, i);
      if Truthy(value) {
        var done := calls;
        calls := done + [EditProduct(id, field, value)];
        var outcome := edit(field);
        if outcome.Threw? {
          assert calls[..|calls| - 1] == done;
          PlannedPrefix(id, body, i + 1);
          return Handled(Failure(400, outcome.error), calls);
        }
      }
      i := i + 1;
    }
    assert EditableFields[..i] == EditableFields;
    return Handled(Ok(None, ProductEdited), calls);
  }

  /** Planning one more editable field appends its edit when its value is
      truthy, and nothing otherwise. */
  lemma PlannedStep(id: string, body: Body, i: nat)
    requires i < |EditableFields|
    ensures var field := EditableFields[i];
            PlannedEdits(id, body, EditableFields[..i + 1]) ==
              PlannedEdits(id, body, EditableFields[..i]) +
              (if Truthy(Field(body, field)) then [EditProduct(id, field, Field(body, field))] else [])
  {
    assert EditableFields[..i + 1][..i] == EditableFields[..i];
  }

  /** The edits planned for the first `n` editable fields are a prefix of
      all planned edits. */
  lemma {:induction false} PlannedPrefix(id: string, body: Body, n: nat)
    requires n <= |EditableFields|
    ensures PlannedEdits(id, body, EditableFields[..n]) <= PlannedEdits(id, body, EditableFields)
    decreases |EditableFields| - n
  {
    if n < |EditableFields| {
      PlannedPrefix(id, body, n + 1);
      assert EditableFields[..n + 1][..n] == EditableFields[..n];
    } else {
      assert EditableFields[..n] == EditableFields;
    }
  }
}
