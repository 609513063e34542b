/**
 * CategoryRepository: two listings, each one GET of a fixed path whose mapped
 * answer's list field is returned, or an empty array when that field is falsy.
 * Nothing is caught: a transport failure and the TypeError of reading a field
 * of a null answer both reject.
 */
module CategoryRepository {
  import opened Wrappers
  import opened Js
  import opened HttpErrors
  import opened Exceptions
  import opened HttpRepository

  const CategoriesPath := "/api/categories"
  const CategoryStatsPath := "/api/categories/stats"

  /** `(await get({ path }, clazz)).field || []`, the body both listings share. */
  function ListField(client: Client, mapper: Mapper, path: string, clazz: Shape, field: string): (r: Result<Value, Exception>)
    // the returned list is never falsy
    ensures r.Success? ==> Truthy(r.value)
    ensures var answer := client(RequestConfig(Some(GET), path, Undefined, Undefined, None));
      // a transport failure rejects with that same HttpError
      && (answer.Failure? ==> r == Failure(HttpFailure(answer.error)))
      && (answer.Success? ==>
            var response := mapper(clazz, answer.value);
            // reading the field of a null or undefined answer throws
            && (response.Null? || response.Undefined? ==> r.Failure? && r.error.ErrorObject?)
            // otherwise the field itself when truthy, else []
            && (!(response.Null? || response.Undefined?) ==>
                  r == Success(if Truthy(Prop(response, field)) then Prop(response, field) else Arr([]))))
  {
    match Get(client, mapper, PathOnly(path), clazz)
    case Failure(e) => Failure(HttpFailure(e))
    case Success(response) =>
      match ReadProperty(response, field)
      case Failure(thrown) => Failure(thrown)
      case Success(list) => Success(Or(list, Arr([])))
  }

  /** getCategories(): GET /api/categories, its `categoryResponses` or []. */
  function GetCategories(client: Client, mapper: Mapper): (r: Result<Value, Exception>)
    ensures r.Success? ==> Truthy(r.value)
    ensures r == ListField(client, mapper, CategoriesPath, CategoryListResponse, "categoryResponses")
  {
    ListField(client, mapper, CategoriesPath, CategoryListResponse, "categoryResponses")
  }

  /** getCategoriesAndPostCount(): GET /api/categories/stats, its `CategoryWithCountResponses` or []. */
  function GetCategoriesAndPostCount(client: Client, mapper: Mapper): (r: Result<Value, Exception>)
    ensures r.Success? ==> Truthy(r.value)
    ensures r == ListField(client, mapper, CategoryStatsPath, CategoryCountListResponse, "CategoryWithCountResponses")
  {
    ListField(client, mapper, CategoryStatsPath, CategoryCountListResponse, "CategoryWithCountResponses")
  }
}
