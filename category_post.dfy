/** `POST /api/category` (server/api/category/index.post.ts). */
module CategoryPost {
  import opened Wrappers
  import opened Http

  datatype CategoryBody = CategoryBody(name: string, img: Option<string>)

  /** `categorySchena.parse`. */
  function ParseBody(b: CategoryBody): (r: Option<CategoryBody>)
    ensures r.Some? <==> 1 <= |b.name| <= 20
    ensures r.Some? ==> r.value == b
  {
    if 1 <= |b.name| <= 20 then Some(b) else None
  }

  /** The columns `createCategory` returns. */
  datatype NewCategory = NewCategory(id: string, name: string)

  /** The handler; it has no `try`. */
  function Handle(b: CategoryBody, createCategory: CategoryBody -> Call<NewCategory>): (r: Reply<Option<NewCategory>>)
    ensures ParseBody(b).None? <==> r == Fail(ValidationError, None)
    ensures ParseBody(b).Some? && createCategory(b).Threw? <==> r == Fail(InternalError, None)
    ensures r.Ok? <==> ParseBody(b).Some? && createCategory(b).Returned?
    ensures r.Ok? ==>
      var c := createCategory(b).value;
      r.statusCode == 201 && r.body == Some(c)
      && r.message == "Category " + c.name + " created successfully"
  {
    match ParseBody(b)
    case None => Fail(ValidationError, None)
    case Some(body) =>
      match createCategory(body)
      case Threw => Fail(InternalError, None)
      case Returned(newCategory) =>
        Ok(201, "Category " + newCategory.name + " created successfully", Some(newCategory))
  }
}
