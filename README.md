# vue-ts-Blog front-end core, modelled in Dafny

This project models the non-UI core of the Vue/TypeScript blog front end:

- **Error normalisation.** `HttpError` turns a failed axios request into an immutable record. A body in the Spring `ErrorResponse` shape is copied. Any other body falls back to the HTTP status and a fixed status→message table.
- **Error notices.** `useErrorHandler().customHandleError` picks one notice text for any thrown value and shows it with `ElMessage.error`. A user cancel shows nothing.
- **Typed request layer.** `HttpRepository.get/post/delete` overwrite the method of a request config. They map the answer onto a response class when one is given.
- **Repositories.** The auth, post and category repositories build fixed requests with their defaults. `checkAuthentication` maps every failure to `false`. The category listings default to `[]`.
- **Auth service and admin gate.** `AuthService` delegates to the repository. `useAdminAuth().checkAuth` updates the two flags `isCheckingAuth` and `isAuthenticated`, warns, and redirects to `/admin/login`.
- **Markdown preview.** `getMarkdownPreview` renders with `marked`, strips tags, decodes six entities, collapses whitespace, trims, and truncates with `"..."`.

Three external pieces are parameters of the model:

- `Client`: the transport. It answers a request config with a body or an `HttpError`.
- `Mapper`: `plainToInstance`.
- `marked`: the renderer. `None` stands for a render that throws.

Untyped JavaScript values are modelled by `Js.Value`. Objects keep their keys in insertion order. Rejected promises and `throw`s are modelled by `Exceptions.Exception`, and promises by `Result`. `ElMessage` and `router.replace` are recorded, in call order, in the `events` of a `Ui.Screen`.

`src/service/AuthService.ts:2` imports the AuthRepository class of `src/repository/AuthRepository.ts`, and the dependency container injects that class. That older class (lines 7-17) has only `login`, so the service's call to `checkAuthentication` throws a TypeError. The model states both versions. `AuthService.IsAuthenticatedWith` takes the injected class as a parameter. The as-written behaviour is given under "## Findings". The rest of the model uses the AuthRepository of `src/repository/auth/AuthRepository.ts:39-51`, which the service evidently means to call.

## Model

| member | source | states |
|---|---|---|
| HttpErrors.NewHttpError | src/http/HttpError.ts:10-33 | A server-shaped body has its statusCode, message and code copied verbatim, whatever the HTTP status. Its validation is the body's when truthy, else `{}`. Any other body gives the HTTP status (500 when there is no response or the status is 0), the table message, no code and `{}`. validation is never falsy. |
| HttpErrors.ServerErrorRoundTrip | src/http/HttpError.ts:15-19 | Every error the server sends in its own shape comes back out of the constructor unchanged, under any HTTP status, so the table never overrides it. |
| HttpErrors.IsSpringErrorResponse | src/http/HttpError.ts:28-33 | The typeof tests accept exactly an object whose `message` is a string and whose `statusCode` is a number. |
| HttpErrors.DefaultMessage | src/http/HttpError.ts:35-45 | Gives the network text exactly for statuses other than 400/401/403/404/500/502/503. |
| HttpErrors.DefaultMessageIdentifiesStatus | src/http/HttpError.ts:35-45 | Each of 400/401/403/404/500/502/503 gets its own text. Every other status gets the default text. |
| Exceptions.ReadProperty | src/repository/category/CategoryRepository.ts:23 | Reading a property throws exactly when the target is null or undefined. Otherwise it yields the property's value. |
| ErrorHandler.NoticeText | src/composables/useErrorHandler.ts:7-34 | No notice exactly for `'cancel'`. An HttpError gives its status-and-message notice. Any other value gives its own non-empty message, else the default message `작업에 실패했습니다.` |
| ErrorHandler.HttpErrorNotice | src/composables/useErrorHandler.ts:22-29 | The notice starts with `"<statusCode> - <message>"`. It is exactly that line iff the validation map is empty. |
| ErrorHandler.ValidationMessagesInOrder | src/composables/useErrorHandler.ts:26-28 | Validation messages follow the map's order. One more entry appends `", "` and its message. |
| ErrorHandler.OneValidationMessage | src/composables/useErrorHandler.ts:26-28 | One entry gives the status line, `"\n검증 오류: "` and that message. |
| Exceptions.Classify | src/composables/useErrorHandler.ts:32-33 | A thrown non-HttpError object is seen through its string `message` property. Any other value is kept as it is. |
| ErrorHandler.ThrownValueNotice | src/composables/useErrorHandler.ts:8-34 | For any thrown value other than an HttpError, a non-empty string `message` is shown. A falsy or absent message gives the default text. The string `'cancel'` shows nothing. |
| ErrorHandler.CustomHandleError | src/composables/useErrorHandler.ts:7-38 | A cancel shows nothing. Every other value appends exactly one error notice, with the text NoticeText gives. |
| Js.IntToStringRoundTrip | src/composables/useErrorHandler.ts:22 | The decimal rendering of the status code is a sign and digits that read back as the same integer. |
| Js.JoinSnoc | src/composables/useErrorHandler.ts:27 | `join` with one more part appends the separator and that part. |
| Js.ArrayJoinSnoc | src/composables/useErrorHandler.ts:27 | `Array.prototype.join` with one more element appends the separator and that element's rendering. |
| Js.LookupSkip | src/http/HttpError.ts:16-19 | A property lookup is unaffected by earlier entries with other keys. |
| HttpRepository.Get | src/repository/HttpRepository.ts:10-14 | Sends the config with the method forced to GET and every other field unchanged. A failure passes through unchanged. A success is mapped by the class. |
| HttpRepository.Delete | src/repository/HttpRepository.ts:18-26 | Sends with DELETE forced. With no class (the default) it returns the raw body, with a class the mapped body. Failures pass through. |
| HttpRepository.Post | src/repository/HttpRepository.ts:28-37 | Sends with POST forced. With no class (the default) it returns the raw body, with a class the mapped body. Failures pass through. |
| HttpRepository.CallerMethodIgnored | src/repository/HttpRepository.ts:12-31 | Two configs that differ only in the method the caller set send the same request once the method is forced. So get, post and delete give the same result for both. |
| AuthRepository.Login | src/repository/auth/AuthRepository.ts:16-24 | POSTs the request as the body to `/api/auth/login`. Maps the answer onto LoginResponse. Failures pass through. |
| AuthRepository.Logout | src/repository/auth/AuthRepository.ts:27-36 | POSTs to `/api/logout` with no body. Maps the answer onto LogoutResponse. Failures pass through. |
| AuthRepository.CheckAuthentication | src/repository/auth/AuthRepository.ts:39-51 | Never rejects. GETs `/api/auth/session` and returns the mapped answer's `authenticated` field. Returns false when the request fails or reading the field throws. |
| AuthService.IsAuthenticatedWith | src/service/AuthService.ts:2-22 | Over the AuthRepository of src/repository/auth it is exactly that check's answer and never rejects. Over the older AuthRepository it rejects with the TypeError "checkAuthentication is not a function". |
| AuthService.IsAuthenticated | src/service/AuthService.ts:20-22 | Exactly the answer of the AuthRepository in src/repository/auth, so it never rejects. |
| AuthService.QuickAuthCheck | src/service/AuthService.ts:25-27 | The same answer as isAuthenticated, so it never rejects. |
| AdminAuth.GateEvents | src/composables/useAdminAuth.ts:22-34 | No event exactly for a truthy answer. Otherwise one warning, "login required" for a falsy answer and "session expired" for a rejection, then the route replaced by `/admin/login`. |
| AdminAuth.AdminGate.constructor | src/composables/useAdminAuth.ts:12-13 | Starts with a check pending and nobody authenticated. |
| AdminAuth.AdminGate.Begin | src/composables/useAdminAuth.ts:16 | Marks the check pending and leaves isAuthenticated unchanged. |
| AdminAuth.AdminGate.Finish | src/composables/useAdminAuth.ts:18-37 | The check is over on every exit. Returns true iff the service answered truthy, which is the only case that sets isAuthenticated; nothing clears it. A falsy answer warns "login required" and an exception warns "session expired"; both then replace the route with `/admin/login`. |
| AdminAuth.AdminGate.CheckAuth | src/composables/useAdminAuth.ts:15-38 | The full check over the AuthRepository of src/repository/auth. That service never rejects, so the catch block is unreachable: only the "login required" warning and redirect can appear. |
| AdminAuth.AdminGate.CheckAuthAsWritten | src/composables/useAdminAuth.ts:15-38 | The full check with the older repository injected. It always ends in the session-expired warning and the redirect, returns false, and leaves isAuthenticated as it was. |
| AdminAuth.AsWrittenGateAlwaysExpires | src/composables/useAdminAuth.ts:30-34 | With the older repository injected, the gate's events are the session-expired warning and the redirect, whatever the server answers. |
| PostRepository.GetPagePosts | src/repository/post/PostRepository.ts:13-21 | GETs `/api/posts` with params exactly `{page, size}`, defaults 0 and 10. Maps the answer onto PostPageResponse. Failures pass through. |
| PostRepository.GetCategoryPagePosts | src/repository/post/PostRepository.ts:24-33 | GETs `/api/posts/category` with `{categoryName, page, size}` and the same defaults. |
| PostRepository.GetSinglePost | src/repository/post/PostRepository.ts:36-43 | GETs `/api/posts/single` with `{postId}`. Maps the answer onto PostItem. |
| PostRepository.PagingParamsAgree | src/repository/post/PostRepository.ts:16-31 | The category listing's page and size read exactly like the plain listing's. Only it carries categoryName. |
| CategoryRepository.ListField | src/repository/category/CategoryRepository.ts:19-23 | The result is never falsy. A transport failure rejects with the same HttpError, and a null answer rejects with a TypeError. Otherwise the result is the field when truthy, else `[]`. |
| CategoryRepository.GetCategories | src/repository/category/CategoryRepository.ts:18-24 | GETs `/api/categories` with no params. Returns `categoryResponses`, or `[]` when falsy. |
| CategoryRepository.GetCategoriesAndPostCount | src/repository/category/CategoryRepository.ts:27-33 | GETs `/api/categories/stats`. Returns `CategoryWithCountResponses`, or `[]` when falsy. |
| Markdown.StripTags | src/composables/modifyMarkdown.ts:17 | Never lengthens the text. Text without a `<` comes through unchanged. |
| Markdown.StripTagsOnlyDeletes | src/composables/modifyMarkdown.ts:17 | The stripped text is a subsequence of the input: characters are only deleted, and the rest keep their order. |
| Markdown.StripTagsKeepsOnlyInputChars | src/composables/modifyMarkdown.ts:17 | Every character of the stripped text occurs in the input. |
| Markdown.StripTagsRemovesOneTag | src/composables/modifyMarkdown.ts:17 | Text before the first `<` is kept, the tag up to the first `>` is removed whole, and stripping goes on after it. |
| Markdown.StripTagsLeavesNoTag | src/composables/modifyMarkdown.ts:17 | After stripping, no `<` is followed anywhere later by a `>`. |
| Markdown.ReplaceAll | src/composables/modifyMarkdown.ts:18-23 | A global literal replacement. Text without the pattern's first character is unchanged. A replacement no longer than its pattern never lengthens the text. |
| Markdown.DecodeEntities | src/composables/modifyMarkdown.ts:18-23 | The six replacements in their order. The text never grows, and text without `&` is unchanged. |
| Markdown.EscapedAmpersandDecodedOnce | src/composables/modifyMarkdown.ts:18-21 | For every text t without `&` that does not start with `quot;` or `#39;`, `&amp;` followed by t decodes to `&` followed by t. |
| Markdown.EscapedEntityDecodedOnce | src/composables/modifyMarkdown.ts:18-21 | `&amp;` is decoded after `&lt;` and `&gt;`, so `&amp;lt;` yields `&lt;` and not `<`. |
| Markdown.EscapedQuoteDecodedTwice | src/composables/modifyMarkdown.ts:21-22 | `&quot;` is decoded after `&amp;`, so for every t without `&`, `&amp;quot;` followed by t decodes to `"` followed by t. |
| Markdown.EscapedApostropheDecodedTwice | src/composables/modifyMarkdown.ts:21-23 | `&#39;` is decoded after `&amp;`, so for every t without `&`, `&amp;#39;` followed by t decodes to `'` followed by t. |
| Markdown.CollapseSpaces | src/composables/modifyMarkdown.ts:24 | Never lengthens the text. Text without whitespace comes through unchanged. |
| Markdown.Trim | src/composables/modifyMarkdown.ts:25 | Leaves no whitespace at either end. Text that neither starts nor ends with whitespace comes through unchanged. |
| Markdown.CollapseSpacesSingleSpaced | src/composables/modifyMarkdown.ts:24 | After collapsing, every whitespace character is a plain space and no two are adjacent. |
| Markdown.TrimSingleSpacedTidy | src/composables/modifyMarkdown.ts:25 | Trimming a single-spaced text leaves no whitespace at either end. |
| Markdown.CollapseThenTrimTidy | src/composables/modifyMarkdown.ts:24-25 | The cleaned text has no edge whitespace and no run of two or more whitespace characters. |
| Markdown.CleanText | src/composables/modifyMarkdown.ts:16-25 | The text content of rendered HTML is tidy. |
| Markdown.Truncate | src/composables/modifyMarkdown.ts:27-29 | A text that fits is returned whole, with no `...`. Otherwise the result is its first maxLength characters then `...`. The result is never longer than maxLength + 3. |
| Markdown.GetMarkdownPreview | src/composables/modifyMarkdown.ts:8-38 | Empty content gives `""`. A successful render gives the truncated clean text. A failed render gives the truncated raw content. maxLength defaults to 200. |
| Markdown.RenderedPreviewIsTidyText | src/composables/modifyMarkdown.ts:16-29 | A rendered preview is the whole tidy text when it fits, else a prefix of it followed by `...`. |

## Findings

| source | as written | input that shows it | evidently intended | confidence | as-written member | corrected member |
|---|---|---|---|---|---|---|
| src/service/AuthService.ts:2-21 | The service imports the older `src/repository/AuthRepository.ts`, which has no `checkAuthentication`. `isAuthenticated` then rejects with a TypeError, and `checkAuth` always takes its catch branch. | Any call of `checkAuth`, whatever the server answers: it shows "세션이 만료되었습니다. 다시 로그인해주세요.", redirects to `/admin/login` and returns false. | Import `src/repository/auth/AuthRepository.ts`, whose `checkAuthentication` never rejects. | medium, not executed | AdminAuth.AdminGate.CheckAuthAsWritten | AdminAuth.AdminGate.CheckAuth |

The preview's entity decoding also decodes escaped quotes twice. marked escapes the text `&quot;` as `&amp;quot;`, and the preview shows it as `"`; `&amp;#39;` likewise becomes `'` (Markdown.EscapedQuoteDecodedTwice, Markdown.EscapedApostropheDecodedTwice). The model keeps this behaviour of the source.

## Left out

- Network I/O, axios and its 3000 ms timeout (src/http/AxiosHttpClient.ts) are outside the model. The transport is a parameter answering each config with a body or an HttpError. The 401 branch there only logs.
- `plainToInstance` and the entity classes' default field values are outside the model. Among them are PostPageResponse's `content=[]`, `pageNumber=0`, `pageSize=10` and `first=last=true`. The mapping is an uninterpreted parameter, so the model says which class an answer is mapped onto but not what the mapped object holds.
- `marked` is a parameter, and its module-level `setOptions({breaks, gfm})` call is not modelled.
- Markdown.Truncate: lengths count Unicode scalar values, whereas JavaScript's `length` and `substring` count UTF-16 code units. The two differ for characters outside the Basic Multilingual Plane.
- Markdown.GetMarkdownPreview: `maxLength` is an integer. NaN, fractions and Infinity are not modelled.
- Js.Value: numbers are unbounded integers. `IntToString` matches JavaScript's rendering only for integers of magnitude below 10^21, which JavaScript writes in exponent form. JavaScript also holds integers above 2^53 inexactly. Objects keep insertion order, so the reordering of integer-like keys by `Object.values` is not modelled.
- Js.Value: an `Obj` may list a key twice, which no JavaScript object does. For such a value `Lookup` reads the first entry while `ObjectValues` lists both. The objects the model builds itself (ErrorBody, the request params) have distinct keys.
- Js.Value: getters are the datatype's own field selectors, and readonly fields are immutable datatype fields.
- ErrorHandler.NoticeText: HttpErrors are recognised by their kind, not duck-typed by the presence of `getStatusCode` and `getMessage`.
- ErrorHandler.ThrownValueNotice: it says nothing for a thrown object whose `message` is a truthy non-string. The source would pass that value itself to ElMessage, and Classify reads it as having no message.
- All `console.log` and `console.error` output is outside the model.
- AuthService `saveSession` and `logout` only log and change no state, so there is nothing to model.
- Async scheduling: each call runs to completion in order, and `useAdminAuth` is split at its single await into `Begin` and `Finish`. Concurrent `checkAuth` calls interleaving are not modelled.
- The Vue reactivity system (`ref`), the dependency-injection container, `src/main.ts` and `src/router/index.ts` are outside the model.
- src/repository/image/ImageRepository.ts is not part of this model. It calls `postFormData`, which HttpRepository does not define, and uses the browser's FormData.
- The empty stub repositories (PostAdmin, CategoryAdmin, Comment, CommentAdmin) have no behaviour.
- The superseded duplicates under src/repository/ (HttpReposiroty.ts, PostRepository.ts, AuthRepository.ts, CategoryRepository.ts) are not part of this model.
- vite.config.ts is build configuration whose proxy is commented out.
