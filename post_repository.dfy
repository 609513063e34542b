/**
 * PostRepository: builds the request for each post query (fixed path, query
 * parameters from the arguments and their defaults) and maps the answer onto
 * PostPageResponse or PostItem. Failures pass through; nothing is caught.
 */
module PostRepository {
  import opened Wrappers
  import opened Js
  import opened HttpErrors
  import opened HttpRepository

  const PostsPath := "/api/posts"
  const CategoryPostsPath := "/api/posts/category"
  const SinglePostPath := "/api/posts/single"

  /** `{ path, params }`. */
  function Query(path: string, params: seq<(string, Value)>): RequestConfig {
    RequestConfig(None, path, Obj(params), Undefined, None)
  }

  /** getPagePosts(page = 0, size = 10): GET /api/posts with params exactly { page, size }. */
  function GetPagePosts(client: Client, mapper: Mapper, page: int := 0, size: int := 10): (r: Result<Value, HttpError>)
    ensures var answer := client(RequestConfig(Some(GET), PostsPath,
                                               Obj([("page", Num(page)), ("size", Num(size))]), Undefined, None));
      && (answer.Failure? ==> r == Failure(answer.error))
      && (answer.Success? ==> r == Success(mapper(PostPageResponse, answer.value)))
  {
    Get(client, mapper, Query(PostsPath, [("page", Num(page)), ("size", Num(size))]), PostPageResponse)
  }

  /** getCategoryPagePosts(categoryName, page = 0, size = 10): GET /api/posts/category with { categoryName, page, size }. */
  function GetCategoryPagePosts(client: Client, mapper: Mapper, categoryName: string, page: int := 0, size: int := 10)
    : (r: Result<Value, HttpError>)
    ensures var answer := client(RequestConfig(Some(GET), CategoryPostsPath,
                                               Obj([("categoryName", Str(categoryName)), ("page", Num(page)), ("size", Num(size))]),
                                               Undefined, None));
      && (answer.Failure? ==> r == Failure(answer.error))
      && (answer.Success? ==> r == Success(mapper(PostPageResponse, answer.value)))
  {
    Get(client, mapper,
        Query(CategoryPostsPath, [("categoryName", Str(categoryName)), ("page", Num(page)), ("size", Num(size))]),
        PostPageResponse)
  }

  /** getSinglePost(postId): GET /api/posts/single with { postId }, mapped onto PostItem. */
  function GetSinglePost(client: Client, mapper: Mapper, postId: int): (r: Result<Value, HttpError>)
    ensures var answer := client(RequestConfig(Some(GET), SinglePostPath, Obj([("postId", Num(postId))]), Undefined, None));
      && (answer.Failure? ==> r == Failure(answer.error))
      && (answer.Success? ==> r == Success(mapper(PostItem, answer.value)))
  {
    Get(client, mapper, Query(SinglePostPath, [("postId", Num(postId))]), PostItem)
  }

  /**
   * The two listings differ only in their path and in the categoryName
   * parameter placed before the paging parameters: the page and size a category
   * listing sends are read exactly as a plain listing's are.
   */
  lemma PagingParamsAgree(categoryName: string, page: int, size: int)
    ensures var plain := Query(PostsPath, [("page", Num(page)), ("size", Num(size))]).params;
            var filtered := Query(CategoryPostsPath, [("categoryName", Str(categoryName)), ("page", Num(page)), ("size", Num(size))]).params;
      && Prop(filtered, "categoryName") == Str(categoryName)
      && Prop(plain, "categoryName") == Undefined
      && Prop(filtered, "page") == Prop(plain, "page") == Num(page)
      && Prop(filtered, "size") == Prop(plain, "size") == Num(size)
  {
    var rest := [("page", Num(page)), ("size", Num(size))];
    assert [("categoryName", Str(categoryName)), ("page", Num(page)), ("size", Num(size))] == [("categoryName", Str(categoryName))] + rest;
    LookupSkip([("categoryName", Str(categoryName))], rest, "page");
    LookupSkip([("categoryName", Str(categoryName))], rest, "size");
    assert rest == [rest[0]] + [rest[1]];
    LookupSkip([rest[0]], [rest[1]], "size");
    assert rest == rest + [];
    LookupSkip(rest, [], "categoryName");
  }
}
