# coffee-damin admin tool, modelled in Dafny

The repository is a small coffee-shop back office: a Spring Boot server with product, order,
member and file-storage services, and a React admin client (stores, edit forms, pages). This
project models the core of both halves and proves the properties they promise.

- **Server services.** The JPA repositories become value tables, held in a class field `db`.
  `ProductService` works over products, detail images, options and variants. `OrderService`
  works over orders and order items. `MemberService` works over members. Each service call
  (`createProduct`, `updateOrderStatus`, ...) is stated as a pure function giving the tables it
  leaves behind, or the exception it throws (`Result`). A class method then performs the call
  loop by loop and is proved equal to that function. For products, those functions and the
  `ProductService.Service` class run the corrected program of Findings rows 1, 2 and 4: answers
  list the detail images and each option's variant id, and an absent detail-image part counts
  as an empty list. The code as written is stated beside them (`ProductService.CreateAsWritten`,
  `ProductService.ToResponseAsWritten`). `@Transactional` means a call that throws
  leaves the tables as they were. Java's 32-bit `int` wrap-around in order totals is explicit
  (`Common.Int32`).
- **Upload checks** (`FileStorageService`). The subdirectory, extension and MIME allow-lists
  and the stored name are pure functions, with the UUID as a parameter. The path-traversal
  guard of `deleteFile` is modelled over path-segment sequences.
- **Client stores** (`useProducts`, `useMembers`, `useOrders`). Each is a class holding its
  list, a `loading` flag and the status banner. The server's answer is a parameter:
  `Reply = Answered(ok, body) | NoReply`. The confirmation dialog's answer is a `bool`.
- **Pages and forms.** These are classes whose handlers update their fields. Object rows that
  the source writes in place are classes too: option rows in the product form, item rows in
  the order form. The older self-contained product page (`pages/AdminProducts.jsx`) is
  modelled separately, with its parallel file and preview lists.

Modules, one file each: `Common`, `Dto`, `FileStorage`, `ProductService`, `OrderService`,
`MemberService`, `ProductStore`, `MemberStore`, `OrderStore`, `ProductsPage`, `MembersPage`,
`OrdersPage`, `ProductForm`, `LegacyProductsPage`, `OrderForm`, `MemberForm`.

Where the code and its description disagree, the model follows the code. For example, the
client stores' `fetch` handlers take the body of any response, and never look at `res.ok`.

## Model

| member | source | states |
|---|---|---|
| Common.KeyOf | coffee-admin/src/product/AdminProducts.jsx:63 | the form key is `New` exactly when `editingId` is falsy, and otherwise carries the edited id |
| Common.KeyOfDistinguishes | coffee-admin/src/member/AdminMembers.jsx:56 | two sessions share one form instance exactly when both create or both edit the same id, so a change of edit target remounts the form |
| Common.Int32 | coffee/src/main/java/com/example/coffee/service/OrderService.java:42 | the result is within the 32-bit range |
| Common.Int32Wraps | coffee/src/main/java/com/example/coffee/service/OrderService.java:52 | Java `int` arithmetic differs from the exact value by a multiple of 2^32 |
| Common.Int32Exact | coffee/src/main/java/com/example/coffee/service/OrderService.java:52 | a value already in range is unchanged |
| Common.Int32AddWrapped | coffee/src/main/java/com/example/coffee/service/OrderService.java:52 | wrapping an intermediate running total does not change the wrapped sum |
| Common.Int32MulWrapped | coffee/src/main/java/com/example/coffee/service/OrderService.java:104 | wrapping a factor does not change the wrapped product |
| Common.RemoveAt | coffee-admin/src/order/OrderForm.jsx:43 | `filter((_, i) => i !== index)` drops exactly position `index`; any other index leaves the list unchanged |
| Common.Swap | coffee-admin/src/product/ProductForm.jsx:124-125 | the destructuring swap exchanges two positions and keeps length and multiset |
| Common.ReplaceByKey | coffee-admin/src/product/useProducts.js:45-49 | `map(it => same id ? saved : it)` keeps the list's length |
| Common.RemoveByKey | coffee-admin/src/product/useProducts.js:72 | `filter(it => id !== ...)` never grows the list |
| Common.Saved | coffee-admin/src/member/useMembers.js:41-46 | an edit keeps the list's length, and a create adds one item |
| Common.SavedContains | coffee-admin/src/product/useProducts.js:45-49 | the saved item is listed afterwards exactly when it was created, or when its id was already listed |
| Common.SavedKeepsOthers | coffee-admin/src/member/useMembers.js:41-46 | every element with a different id survives a save |
| Common.SavedKeepsUnique | coffee-admin/src/order/useOrders.js:58-62 | ids stay unique across a save that edits, or that creates an item with a fresh id |
| Common.ReplaceByKeyAbsent | coffee-admin/src/order/useOrders.js:83-85 | replacing by an id that is not listed changes nothing |
| Common.ReplaceByKeyPositions | coffee-admin/src/order/useOrders.js:83-85 | every position keeps its id, so the echoed item stands exactly where its id stood and the length is kept |
| Common.RemoveByKeyMembers | coffee-admin/src/order/useOrders.js:101-103 | the filter keeps exactly the elements whose id differs |
| Common.RemoveByKeyExactlyOne | coffee-admin/src/product/useProducts.js:72 | with unique ids, deleting removes exactly the one element carrying that id |
| Common.RemoveByKeyAbsent | coffee-admin/src/member/useMembers.js:68 | deleting an id that is not listed changes nothing |
| Common.RemoveByKeyKeepsUnique | coffee-admin/src/member/useMembers.js:68 | deleting keeps ids unique |
| Common.PrependFreshKeepsUnique | coffee-admin/src/order/useOrders.js:58-62 | prepending an item with an unseen id keeps ids unique |
| Dto.ParseStatus | coffee/src/main/java/com/example/coffee/service/OrderService.java:78 | `valueOf` finds a constant only by its exact name |
| Dto.ParseStatusName | coffee/src/main/java/com/example/coffee/entity/OrderStatus.java:3-19 | `valueOf(name())` is the identity, and `valueOf(n)` is `s` exactly when `n` is `s`'s name |
| Dto.StatusName | coffee/src/main/java/com/example/coffee/entity/OrderStatus.java:3-8 | each constant's `name()` is a non-empty run of capital letters |
| Dto.DisplayName | coffee/src/main/java/com/example/coffee/entity/OrderStatus.java:4-8 | each constant's display name is a non-empty Korean word in Hangul syllables |
| FileStorage.LastIndexOf | coffee/src/main/java/com/example/coffee/service/FileStorageService.java:48 | the last position of the character, or -1 when it does not occur |
| FileStorage.Lower | coffee/src/main/java/com/example/coffee/service/FileStorageService.java:49 | `toLowerCase` on ASCII text: keeps the length and lowers each ASCII capital, leaving every other character |
| FileStorage.Extension | coffee/src/main/java/com/example/coffee/service/FileStorageService.java:47-50 | empty exactly when the name has no dot; otherwise the name's suffix from its last dot, lower-cased, whose only dot is its first character |
| FileStorage.StoreFile | coffee/src/main/java/com/example/coffee/service/FileStorageService.java:38-77 | a null or empty file gives null, and only such a file; a stored file passed the subdirectory, extension and MIME allow-lists; a stored name is the UUID plus the extension, with `subDir/` in front exactly when a subdirectory is given |
| FileStorage.StoreFileCheckOrder | coffee/src/main/java/com/example/coffee/service/FileStorageService.java:42-60 | the first failing check decides: a bad subdirectory whatever the name, a missing name (the null dereference) whatever the type, a bad extension whatever the type, then a bad MIME type; an upload that passes every check is stored |
| FileStorage.ExtensionIsLower | coffee/src/main/java/com/example/coffee/service/FileStorageService.java:49 | an extension is already lower case |
| FileStorage.StoredNameKeepsExtension | coffee/src/main/java/com/example/coffee/service/FileStorageService.java:62-77 | reading the extension back from a stored name gives the upload's allowed extension |
| FileStorage.DeleteFile | coffee/src/main/java/com/example/coffee/service/FileStorageService.java:80-92 | a null or blank path deletes nothing; whatever is deleted lies inside the upload directory and existed |
| FileStorage.Split | coffee/src/main/java/com/example/coffee/service/FileStorageService.java:84 | the path's `/`-separated segments: at least one, none holding a `/` |
| FileStorage.Normalize | coffee/src/main/java/com/example/coffee/service/FileStorageService.java:84 | `normalize()` leaves no empty, `.` or `..` segment behind a normal directory, and adds at most one name per segment |
| FileStorage.Resolve | coffee/src/main/java/com/example/coffee/service/FileStorageService.java:84 | `uploadPath.resolve(filePath).normalize()` is a normal path whenever the upload directory is |
| FileStorage.NormalizeStaysBelow | coffee/src/main/java/com/example/coffee/service/FileStorageService.java:84-86 | without `..` segments, normalising never leaves the starting directory |
| FileStorage.RelativePathWithoutDotDotIsInside | coffee/src/main/java/com/example/coffee/service/FileStorageService.java:80-92 | the guard rejects only paths that climb with `..`; any other relative path is deleted exactly when it exists |
| ProductService.ImagesOfMembers | coffee/src/main/java/com/example/coffee/service/ProductService.java:200 | the images found for a product are exactly the rows carrying its id |
| ProductService.ImagesOf | coffee/src/main/java/com/example/coffee/service/ProductService.java:200 | every image found carries the product's id, and there are no more than the table holds |
| ProductService.OptionsOfMembers | coffee/src/main/java/com/example/coffee/service/ProductService.java:185 | the options found for a product are exactly the rows carrying its id |
| ProductService.OptionsOf | coffee/src/main/java/com/example/coffee/service/ProductService.java:185 | every option found carries the product's id, and there are no more than the table holds |
| ProductService.VariantFor | coffee/src/main/java/com/example/coffee/service/ProductService.java:212-213 | a row found matches the product and the option |
| ProductService.VariantForMatches | coffee/src/main/java/com/example/coffee/service/ProductService.java:212-213 | the row found is a row of the table; when none is found, no row matches |
| ProductService.VariantForFirst | coffee/src/main/java/com/example/coffee/service/ProductService.java:212-213 | the lookup returns the first matching row |
| ProductService.SortBySortOrder | coffee/src/main/java/com/example/coffee/service/ProductService.java:200 | `ORDER BY sortOrder` yields a permutation of the rows in ascending `sortOrder` |
| ProductService.InsertKeepsSorted | coffee/src/main/java/com/example/coffee/service/ProductService.java:200 | inserting into rows in order keeps them in order |
| ProductService.SortSortedIsIdentity | coffee/src/main/java/com/example/coffee/service/ProductService.java:200 | rows already in order come back unchanged |
| ProductService.OptionEntry | coffee/src/main/java/com/example/coffee/service/ProductService.java:211-220 | an option's entry has the variant's stock, or 0 when there is no variant, and the variant's id |
| ProductService.ToResponse | coffee/src/main/java/com/example/coffee/service/ProductService.java:197-234 | the answer is for the requested product, and its continent is never set |
| ProductService.ToResponseAsWritten | coffee/src/main/java/com/example/coffee/service/ProductService.java:224-233 | as written, `.images(...)` names a builder method the DTO does not have, so the call does not compile; the model reads it as leaving `detailImages` null, and no option carries a variant id |
| ProductService.ToResponseOrdersImages | coffee/src/main/java/com/example/coffee/service/ProductService.java:199-222 | the answer lists exactly the product's image rows (as a multiset), by ascending `sortOrder`, and its options in table order with their value and extra price, and their variant's stock (0 without a variant) |
| ProductService.ImageResponses | coffee/src/main/java/com/example/coffee/service/ProductService.java:199-207 | one entry per image row, carrying that row's id, URL and sort order |
| ProductService.ImageResponsesPermute | coffee/src/main/java/com/example/coffee/service/ProductService.java:199-207 | rows that are a permutation of each other give entries that are a permutation of each other |
| ProductService.AnswerAsWrittenLosesImages | coffee/src/main/java/com/example/coffee/service/ProductService.java:231 | reading the non-compiling `.images(...)` as leaving `detailImages` null, a create's answer never carries the detail images just uploaded; the declared DTO lists them in upload order |
| ProductService.StoreAll | coffee/src/main/java/com/example/coffee/service/ProductService.java:60-61 | the detail files are stored in order, or the call fails with the first failing file's error |
| ProductService.StoreAllStoresEach | coffee/src/main/java/com/example/coffee/service/ProductService.java:60-61 | the files are stored exactly when each can be, and path `k` is file `k`'s stored name |
| ProductService.StoreAllStopsAtFailure | coffee/src/main/java/com/example/coffee/service/ProductService.java:60-61 | once a prefix fails, the whole loop fails with that error |
| ProductService.ImageRows | coffee/src/main/java/com/example/coffee/service/ProductService.java:59-70 | one image row per file, `sortOrder` counting 1..n in upload order |
| ProductService.OptionRows | coffee/src/main/java/com/example/coffee/service/ProductService.java:73-80 | one option row per option request, in request order |
| ProductService.VariantRows | coffee/src/main/java/com/example/coffee/service/ProductService.java:82-88 | one variant per option row, holding the requested stock |
| ProductService.NewProduct | coffee/src/main/java/com/example/coffee/service/ProductService.java:48-54 | the product row carries the request's name, price, process type and nationality, and the thumbnail path |
| ProductService.CreatedTables | coffee/src/main/java/com/example/coffee/service/ProductService.java:56 | the new product is stored under the next id |
| ProductService.CreatedTablesValid | coffee/src/main/java/com/example/coffee/service/ProductService.java:38-92 | `createProduct` keeps the tables consistent: children owned, one variant per option |
| ProductService.CreatedTablesAnswers | coffee/src/main/java/com/example/coffee/service/ProductService.java:59-89 | the new product answers with the uploaded images numbered 1..n in upload order, and one option per request with its own variant and the requested stock |
| ProductService.Create | coffee/src/main/java/com/example/coffee/service/ProductService.java:38-92 | the call succeeds exactly when the thumbnail and every detail file can be stored and the options part is present; on success the tables are `CreatedTables` of them, and the new id is the next one |
| ProductService.CreateAsWritten | coffee/src/main/java/com/example/coffee/service/ProductService.java:60 | as written, a request without a detail image part fails at the loop over a null list |
| ProductService.MissingDetailPartRejected | coffee/src/main/java/com/example/coffee/service/ProductService.java:60 | as written, such a create is rejected with a null dereference; read as an empty list, it is accepted |
| ProductService.NewThumbnail | coffee/src/main/java/com/example/coffee/service/ProductService.java:124-127 | only a non-empty upload replaces the thumbnail; anything else keeps it |
| ProductService.ReplacedTables | coffee/src/main/java/com/example/coffee/service/ProductService.java:118-121 | the product row is replaced at its own id |
| ProductService.ReplacedTablesValid | coffee/src/main/java/com/example/coffee/service/ProductService.java:130-170 | `updateProduct` keeps the tables consistent, and dropping the old rows leaves none behind |
| ProductService.ReplacedTablesAnswers | coffee/src/main/java/com/example/coffee/service/ProductService.java:130-170 | after the update the product has exactly this request's images (1..n) and options |
| ProductService.Update | coffee/src/main/java/com/example/coffee/service/ProductService.java:108-173 | an unknown id throws; otherwise the call succeeds exactly when the new thumbnail and every detail file can be stored and the options part is present, and it leaves `ReplacedTables` |
| ProductService.UpdateAsWritten | coffee/src/main/java/com/example/coffee/service/ProductService.java:134 | as written, an edit with no detail image part fails at the loop over a null list |
| ProductService.EditWithoutDetailPartRejected | coffee/src/main/java/com/example/coffee/service/ProductService.java:130-134 | as written, such an edit is rejected; read as an empty list, it succeeds and leaves the product without detail images |
| ProductService.Delete | coffee/src/main/java/com/example/coffee/service/ProductService.java:179-192 | an unknown id throws; otherwise the product is removed |
| ProductService.DeleteCascades | coffee/src/main/java/com/example/coffee/service/ProductService.java:183-191 | delete keeps the tables consistent and removes every image, option and variant of the product; every other product keeps its images, its options and the variant each option finds, so it answers exactly as before |
| ProductService.DeleteKeepsVariants | coffee/src/main/java/com/example/coffee/service/ProductService.java:185-188 | the `deleteByOption` calls for the deleted product's options leave every other product's variant lookups unchanged, since option ids are unique |
| ProductService.VariantForRemoveOption | coffee/src/main/java/com/example/coffee/service/ProductService.java:187 | one `deleteByOption` keeps the lookups of a product with no variant of that option |
| ProductService.DropChildrenValid | coffee/src/main/java/com/example/coffee/service/ProductService.java:183-189 | deleting a product's children keeps the tables consistent and leaves nothing referring to it |
| ProductService.AddChildrenValid | coffee/src/main/java/com/example/coffee/service/ProductService.java:59-89 | adding the new images, options and variants keeps the tables consistent |
| ProductService.AddedVariantsHaveOptions | coffee/src/main/java/com/example/coffee/service/ProductService.java:82-88 | every new variant points at an option of its own product |
| ProductService.AddedOptionsHaveVariants | coffee/src/main/java/com/example/coffee/service/ProductService.java:73-89 | every new option has a variant |
| ProductService.SaveImages | coffee/src/main/java/com/example/coffee/service/ProductService.java:59-70 | the image loop stores each file under the next UUID and saves its row with `sortOrder` counting from 1; the first failing file ends the call |
| ProductService.SaveOptions | coffee/src/main/java/com/example/coffee/service/ProductService.java:73-89 | the option loop saves an option row and then its variant row for each request, under consecutive ids |
| ProductService.DeleteVariantsOf | coffee/src/main/java/com/example/coffee/service/ProductService.java:147-150 | `deleteByOption` for each option in turn |
| ProductService.CreateInTransaction | coffee/src/main/java/com/example/coffee/service/ProductService.java:38-92 | the body of `createProduct`, in the corrected program (an absent detail part read as an empty list), computes `Create` |
| ProductService.UpdateInTransaction | coffee/src/main/java/com/example/coffee/service/ProductService.java:108-173 | the body of `updateProduct`, in the corrected program (an absent detail part read as an empty list), computes `Update` |
| ProductService.DeleteInTransaction | coffee/src/main/java/com/example/coffee/service/ProductService.java:179-192 | the body of `deleteProduct` computes exactly `Delete` |
| ProductService.Service.CreateProduct | coffee/src/main/java/com/example/coffee/service/ProductService.java:37-92 | in the corrected program: on failure the tables are unchanged; on success they are `Create`'s and the answer is the new product, with its detail images and variant ids; consistency is kept |
| ProductService.Service.UpdateProduct | coffee/src/main/java/com/example/coffee/service/ProductService.java:107-173 | in the corrected program: on failure the tables are unchanged; on success they are `Update`'s and the answer is the product, with its detail images and variant ids; consistency is kept |
| ProductService.Service.DeleteProduct | coffee/src/main/java/com/example/coffee/service/ProductService.java:178-192 | on failure the tables are unchanged; on success they are `Delete`'s; consistency is kept |
| OrderService.TotalIsSum | coffee/src/main/java/com/example/coffee/service/OrderService.java:37-55 | the total is the exact sum of unit price times quantity, wrapped to 32 bits, so it is the exact sum whenever that fits |
| OrderService.Total | coffee/src/main/java/com/example/coffee/service/OrderService.java:37-52 | the running `totalAmount` is a 32-bit `int` after every line |
| OrderService.Lines | coffee/src/main/java/com/example/coffee/service/OrderService.java:38-53 | one line per request item, or the first item's failure |
| OrderService.LinesResolve | coffee/src/main/java/com/example/coffee/service/OrderService.java:38-53 | the lines exist exactly when every item resolves, and line `k` carries item `k`'s variant, quantity and unit price |
| OrderService.ResolveLine | coffee/src/main/java/com/example/coffee/service/OrderService.java:39-42 | an item resolves exactly when its variant id is present and known; a null id and an unknown id fail with their own errors; a resolved line keeps the item's variant and quantity and prices it as base plus extra price |
| OrderService.LinesFirstFailure | coffee/src/main/java/com/example/coffee/service/OrderService.java:39-40 | the first item that does not resolve decides the failure |
| OrderService.ItemRows | coffee/src/main/java/com/example/coffee/service/OrderService.java:44-51 | one item row per priced line |
| OrderService.ItemRowsAt | coffee/src/main/java/com/example/coffee/service/OrderService.java:44-51 | row `k` records line `k` of the order |
| OrderService.Create | coffee/src/main/java/com/example/coffee/service/OrderService.java:24-57 | a placed order is stored under the next id |
| OrderService.CreateRejects | coffee/src/main/java/com/example/coffee/service/OrderService.java:25-40 | an unknown member is refused before any item is looked at; otherwise the first item that does not resolve decides; the order is accepted exactly when all items resolve |
| OrderService.CreatedOrder | coffee/src/main/java/com/example/coffee/service/OrderService.java:28-55 | a created order belongs to the requesting member, starts PENDING, totals unit price times quantity, and adds one priced row per item after the existing rows |
| OrderService.CreatedKeepsValid | coffee/src/main/java/com/example/coffee/service/OrderService.java:24-57 | a create keeps the tables valid and their member and variant links intact |
| OrderService.CreatedResponse | coffee/src/main/java/com/example/coffee/service/OrderService.java:116-126 | the answer to a create shows the new order PENDING for the member, with the requested address and the total |
| OrderService.CreatedResponseItems | coffee/src/main/java/com/example/coffee/service/OrderService.java:94-106 | the answer lists one item per request item, in order, each with its price and its subtotal |
| OrderService.UpdateStatus | coffee/src/main/java/com/example/coffee/service/OrderService.java:74-82 | an unknown id throws not-found; for a known id the call succeeds exactly when the name is a status, and otherwise throws an unknown-status error |
| OrderService.StatusChangeOnlyStatus | coffee/src/main/java/com/example/coffee/service/OrderService.java:78-81 | a status change alters only the two status fields of that order's answer; every other order answers as before |
| OrderService.UpdateStatusKeepsValid | coffee/src/main/java/com/example/coffee/service/OrderService.java:74-82 | a status change keeps the tables valid |
| OrderService.Delete | coffee/src/main/java/com/example/coffee/service/OrderService.java:85-91 | an unknown id throws, and nothing else does; otherwise the order goes, the ids keep counting, and the item table never grows |
| OrderService.DeleteCascades | coffee/src/main/java/com/example/coffee/service/OrderService.java:89-90 | after a delete no item of the order remains, and every other order answers with its items as before |
| OrderService.ItemsOfMembers | coffee/src/main/java/com/example/coffee/service/OrderService.java:94 | `findByOrder` lists only the order's own rows from the item table |
| OrderService.ItemResponse | coffee/src/main/java/com/example/coffee/service/OrderService.java:97-105 | an item's answer carries its unit price and the subtotal, unit price times quantity in Java `int` |
| OrderService.ToResponse | coffee/src/main/java/com/example/coffee/service/OrderService.java:93-127 | the answer is for the order, with its stored total and one entry per item of the order |
| OrderService.Get | coffee/src/main/java/com/example/coffee/service/OrderService.java:67-71 | an unknown id throws, and nothing else does |
| OrderService.SaveItems | coffee/src/main/java/com/example/coffee/service/OrderService.java:37-53 | the loop looks each item up, saves its priced row under the next id and accumulates the total; the first unresolved item ends the call |
| OrderService.CreateInTransaction | coffee/src/main/java/com/example/coffee/service/OrderService.java:24-57 | the body of `createOrder` computes exactly `Create` |
| OrderService.Service.CreateOrder | coffee/src/main/java/com/example/coffee/service/OrderService.java:23-57 | on failure nothing is stored; on success the tables are `Create`'s and the answer is the new order's; validity and links are kept |
| OrderService.Service.UpdateOrderStatus | coffee/src/main/java/com/example/coffee/service/OrderService.java:73-82 | on failure nothing changes; on success the tables are `UpdateStatus`'s and the answer is the order's |
| OrderService.Service.DeleteOrder | coffee/src/main/java/com/example/coffee/service/OrderService.java:84-91 | on failure nothing changes; on success the tables are `Delete`'s |
| OrderService.Service.GetOrder | coffee/src/main/java/com/example/coffee/service/OrderService.java:66-71 | the answer is `Get`'s |
| MemberService.ToResponse | coffee/src/main/java/com/example/coffee/service/MemberService.java:80-90 | the answer carries the member's id, email, name, phone and address |
| MemberService.ResponseHidesPassword | coffee/src/main/java/com/example/coffee/service/MemberService.java:80-90 | the answer never depends on the password |
| MemberService.Create | coffee/src/main/java/com/example/coffee/service/MemberService.java:21-36 | an email already in use throws and stores nothing; otherwise the request's fields are stored under the next id |
| MemberService.NewPassword | coffee/src/main/java/com/example/coffee/service/MemberService.java:63-65 | a non-empty submitted password replaces the stored one; a null or empty one keeps it |
| MemberService.Update | coffee/src/main/java/com/example/coffee/service/MemberService.java:53-71 | an unknown id throws; the email is refused only when it changes to one another member has; otherwise every field is overwritten except an empty password, and no other member changes |
| MemberService.UpdateEmailClash | coffee/src/main/java/com/example/coffee/service/MemberService.java:57-60 | with unique emails, keeping one's own email never clashes, and taking another member's always does |
| MemberService.Delete | coffee/src/main/java/com/example/coffee/service/MemberService.java:74-78 | an unknown id throws; otherwise exactly that member is removed |
| MemberService.Get | coffee/src/main/java/com/example/coffee/service/MemberService.java:46-50 | an unknown id throws; otherwise the member's answer |
| MemberService.CreateKeepsValid | coffee/src/main/java/com/example/coffee/service/MemberService.java:21-36 | a create keeps emails unique |
| MemberService.UpdateKeepsValid | coffee/src/main/java/com/example/coffee/service/MemberService.java:53-71 | an update keeps emails unique |
| MemberService.Service.CreateMember | coffee/src/main/java/com/example/coffee/service/MemberService.java:20-36 | on failure the table is unchanged; on success it is `Create`'s |
| MemberService.Service.UpdateMember | coffee/src/main/java/com/example/coffee/service/MemberService.java:52-71 | the setters, applied one by one, leave `Update`'s table; on failure it is unchanged |
| MemberService.Service.DeleteMember | coffee/src/main/java/com/example/coffee/service/MemberService.java:73-78 | on failure the table is unchanged; on success it is `Delete`'s |
| MemberService.Service.GetMember | coffee/src/main/java/com/example/coffee/service/MemberService.java:45-50 | the answer is `Get`'s |
| ProductStore.Store.constructor | coffee-admin/src/product/useProducts.js:6-8 | the store starts with no products, not loading, and a blank banner |
| ProductStore.Store.ShowMessage | coffee-admin/src/product/useProducts.js:11-14 | the banner holds the latest message; nothing else changes |
| ProductStore.Store.FetchProducts | coffee-admin/src/product/useProducts.js:17-30 | any response's body replaces the list; without one the list stays and an error is shown; loading ends false |
| ProductStore.Store.SaveProduct | coffee-admin/src/product/useProducts.js:33-59 | an accepted save resolves with the saved product, replaced by id in an edit or prepended in a create, and shows success; otherwise the list stays, an error is shown and the promise rejects; loading ends false |
| ProductStore.Store.DeleteProduct | coffee-admin/src/product/useProducts.js:62-81 | a declined confirmation resolves false and changes nothing; otherwise the result is whether the response was ok, and only then is the id filtered out |
| MemberStore.Store.constructor | coffee-admin/src/member/useMembers.js:6-8 | the store starts with no members, not loading, and a blank banner |
| MemberStore.Store.ShowMessage | coffee-admin/src/member/useMembers.js:10-13 | the banner holds the latest message; nothing else changes |
| MemberStore.Store.FetchMembers | coffee-admin/src/member/useMembers.js:15-28 | any response's body replaces the list; without one the list stays and an error is shown |
| MemberStore.Store.SaveMember | coffee-admin/src/member/useMembers.js:30-56 | an accepted save resolves with the saved member, replaced by id or prepended; otherwise the list stays and an error is shown |
| MemberStore.Store.DeleteMember | coffee-admin/src/member/useMembers.js:58-77 | a declined confirmation resolves false and changes nothing; otherwise the id is filtered out exactly when the response was ok |
| OrderStore.Store.constructor | coffee-admin/src/order/useOrders.js:8-12 | the store starts with empty lists, not loading, and a blank banner |
| OrderStore.Store.ShowMessage | coffee-admin/src/order/useOrders.js:14-17 | the banner holds the latest message; nothing else changes |
| OrderStore.Store.FetchOrders | coffee-admin/src/order/useOrders.js:19-32 | any response's body replaces the orders; without one they stay and an error is shown; loading ends false |
| OrderStore.Store.FetchMembers | coffee-admin/src/order/useOrders.js:34-39 | a response's body replaces the member list; a failure changes nothing |
| OrderStore.Store.FetchProducts | coffee-admin/src/order/useOrders.js:41-46 | a response's body replaces the product list; a failure changes nothing |
| OrderStore.Store.CreateOrder | coffee-admin/src/order/useOrders.js:48-70 | an accepted create prepends the saved order and shows success; otherwise the orders stay, an error is shown and the promise rejects; loading ends false |
| OrderStore.Store.UpdateOrderStatus | coffee-admin/src/order/useOrders.js:72-92 | an accepted change replaces the order with the echoed id and keeps the length; otherwise nothing changes but the error banner |
| OrderStore.Store.DeleteOrder | coffee-admin/src/order/useOrders.js:94-113 | a declined confirmation resolves false with no loading change; otherwise the result is whether the response was ok, and only then is the id filtered out |
| ProductsPage.Page.constructor | coffee-admin/src/product/AdminProducts.jsx:9-10 | no edit session |
| ProductsPage.Page.HandleSave | coffee-admin/src/product/AdminProducts.jsx:13-20 | the session ends only when the save resolves, and the form key is then `new`; a rejection keeps the session |
| ProductsPage.Page.HandleEdit | coffee-admin/src/product/AdminProducts.jsx:23-27 | the session now edits the product |
| ProductsPage.Page.HandleCancel | coffee-admin/src/product/AdminProducts.jsx:30-33 | the session is cleared |
| ProductsPage.Page.HandleDelete | coffee-admin/src/product/AdminProducts.jsx:36-38 | the session is left as it is; only the store's list changes |
| MembersPage.Page.constructor | coffee-admin/src/member/AdminMembers.jsx:9-10 | no edit session |
| MembersPage.Page.HandleSave | coffee-admin/src/member/AdminMembers.jsx:12-19 | the session ends only when the save resolves; a rejection keeps it |
| MembersPage.Page.HandleEdit | coffee-admin/src/member/AdminMembers.jsx:21-25 | the session now edits the member |
| MembersPage.Page.HandleCancel | coffee-admin/src/member/AdminMembers.jsx:27-30 | the session is cleared |
| MembersPage.Page.HandleDelete | coffee-admin/src/member/AdminMembers.jsx:32-34 | the session is left as it is |
| OrdersPage.PanelOf | coffee-admin/src/order/AdminOrders.jsx:80-100 | the open form wins over a selected order; the detail shows exactly when the form is closed and an order is selected |
| OrdersPage.Page.constructor | coffee-admin/src/order/AdminOrders.jsx:10-11 | nothing selected and the form closed |
| OrdersPage.Page.HandleCreateOrder | coffee-admin/src/order/AdminOrders.jsx:13-17 | an accepted create closes the form; a rejected one keeps it as it was |
| OrdersPage.Page.HandleStatusChange | coffee-admin/src/order/AdminOrders.jsx:19-27 | the selection takes the echoed order exactly when the change was accepted and the selection is that order |
| OrdersPage.Page.HandleDelete | coffee-admin/src/order/AdminOrders.jsx:29-35 | the selection is cleared exactly when the delete went through and the selection is that order |
| OrdersPage.Page.HandleViewDetail | coffee-admin/src/order/AdminOrders.jsx:37-40 | the order is selected, the form closed, and the detail panel shows it |
| OrdersPage.Page.OpenForm | coffee-admin/src/order/AdminOrders.jsx:62 | the form opens and the selection is cleared |
| OrdersPage.Page.CloseForm | coffee-admin/src/order/AdminOrders.jsx:85 | the form closes; the selection is kept |
| OrdersPage.Page.CloseDetail | coffee-admin/src/order/AdminOrders.jsx:92 | the selection is cleared |
| ProductForm.ImageUrl | coffee-admin/src/product/ProductForm.jsx:20-24 | empty exactly for an empty path; a path starting with `http` is returned as it is, any other is prefixed with the upload base |
| ProductForm.ImageUrlIdempotent | coffee-admin/src/product/ProductForm.jsx:20-24 | resolving a resolved URL again changes nothing |
| ProductForm.RowValues | coffee-admin/src/product/ProductForm.jsx:204-208 | the options list the payload maps, one entry per row |
| ProductForm.RemovePickedFile | coffee-admin/src/product/ProductForm.jsx:102-112 | dropping a picked preview drops exactly its own file, the one counted by the picked previews before it |
| ProductForm.RemoveStoredFile | coffee-admin/src/product/ProductForm.jsx:116 | dropping a stored preview leaves the files as they were |
| ProductForm.NewCountPermutation | coffee-admin/src/product/ProductForm.jsx:122-127 | rearranging the previews keeps the number of picked ones |
| ProductForm.EditOptions | coffee-admin/src/product/ProductForm.jsx:58-65 | an edit form starts with the product's options, or with one default `200g` row when it has none |
| ProductForm.StoredPreviews | coffee-admin/src/product/ProductForm.jsx:42-46 | one stored preview per detail image, with its resolved URL; none without a list |
| ProductForm.EditFormFilesInOrder | coffee-admin/src/product/ProductForm.jsx:41-66 | an edit form starts with no file, so both file invariants hold |
| ProductForm.NewRows | coffee-admin/src/product/ProductForm.jsx:60-64 | one new row object per option value |
| ProductForm.NewInitialForm | coffee-admin/src/product/ProductForm.jsx:26-37 | the blank form, built once, with a single default row object |
| ProductForm.Validate | coffee-admin/src/product/ProductForm.jsx:163-177 | the first failing check in order (blank name, then a missing or non-positive price, then a create with no thumbnail), or none |
| ProductForm.Payload | coffee-admin/src/product/ProductForm.jsx:184-210 | the text fields as typed, the price or 0, the thumbnail when picked, the options given; upload `k` is the file of the new preview with `k` new previews before it, and every new preview is uploaded at that position |
| ProductForm.PreviewOfPicked | coffee-admin/src/product/ProductForm.jsx:195-199 | each uploaded detail image is the file of a new preview, with as many new previews before it as uploads before it |
| ProductForm.PayloadFiles | coffee-admin/src/product/ProductForm.jsx:195-199 | under the file invariant, the uploads are exactly the form's files |
| ProductForm.UntouchedEditResubmits | coffee-admin/src/product/ProductForm.jsx:41-66 | an untouched edit form validates exactly when the product has a name and a positive price, and sends the product back as listed, with no upload |
| ProductForm.NextWeight | coffee-admin/src/product/ProductForm.jsx:143 | the first weight in list order not yet used; `300g` when all are used |
| ProductForm.NextWeightUnused | coffee-admin/src/product/ProductForm.jsx:137-143 | below the cap some weight is always unused, so the `300g` fallback is never taken |
| ProductForm.Editor.constructor | coffee-admin/src/product/ProductForm.jsx:40-69 | an edit form from `editData` with fresh option rows, or `initialForm` itself |
| ProductForm.Editor.Change | coffee-admin/src/product/ProductForm.jsx:72-74 | only the named field changes |
| ProductForm.Editor.ChangeContinent | coffee-admin/src/product/ProductForm.jsx:267-269 | a new continent always clears the nationality |
| ProductForm.Editor.ChangeThumbnail | coffee-admin/src/product/ProductForm.jsx:77-84 | no file, no change; otherwise the file and its preview URL |
| ProductForm.Editor.RemoveThumbnail | coffee-admin/src/product/ProductForm.jsx:320 | the file and the preview are cleared |
| ProductForm.Editor.AddDetailFiles | coffee-admin/src/product/ProductForm.jsx:87-99 | files and their picked previews are appended side by side, keeping both file invariants |
| ProductForm.Editor.RemoveDetail | coffee-admin/src/product/ProductForm.jsx:102-119 | the preview goes; for a picked one, so does the file counted at its position; both file invariants are kept |
| ProductForm.Editor.MoveDetail | coffee-admin/src/product/ProductForm.jsx:122-127 | a no-op when `to` is off either end; otherwise the two previews swap, and the files are untouched |
| ProductForm.Editor.ChangeOptionAsWritten | coffee-admin/src/product/ProductForm.jsx:130-134 | the row object itself is written |
| ProductForm.Editor.ChangeOption | coffee-admin/src/product/ProductForm.jsx:130-134 | the row at the index gets the new value in a fresh object; the other rows keep theirs |
| ProductForm.Editor.AddOption | coffee-admin/src/product/ProductForm.jsx:137-148 | at four rows a warning and no change; below, one new row with the next weight, 0 and 0 |
| ProductForm.Editor.RemoveOption | coffee-admin/src/product/ProductForm.jsx:151-160 | at one row a warning and no change; otherwise exactly that row goes, the others keep their order |
| ProductForm.Editor.HandleSubmit | coffee-admin/src/product/ProductForm.jsx:180-213 | an invalid form shows its first failure and sends nothing; a valid one sends the payload |
| ProductForm.Editor.HandleCancel | coffee-admin/src/product/ProductForm.jsx:216-219 | the form is back to `initialForm` |
| ProductForm.DefaultOptionLeaks | coffee-admin/src/product/ProductForm.jsx:130-134 | as written, an edit to the default row of one create form shows up in the next create form |
| ProductForm.DefaultOptionKept | coffee-admin/src/product/ProductForm.jsx:26-37 | with the row copied before it is written, the next create form starts from the default |
| LegacyProductsPage.SubmissionOf | coffee-admin/src/pages/AdminProducts.jsx:121-124 | one `detailOrders` entry per file, numbered 0..n-1 in file order |
| LegacyProductsPage.OptionValues | coffee-admin/src/pages/AdminProducts.jsx:170 | the edit form takes the product's options as they are |
| LegacyProductsPage.Page.constructor | coffee-admin/src/pages/AdminProducts.jsx:18-31 | no products, no session, the blank form |
| LegacyProductsPage.Page.Load | coffee-admin/src/pages/AdminProducts.jsx:34-38 | any response's body becomes the list |
| LegacyProductsPage.Page.Change | coffee-admin/src/pages/AdminProducts.jsx:41-43 | only the named field changes |
| LegacyProductsPage.Page.ChangeThumbnail | coffee-admin/src/pages/AdminProducts.jsx:46-52 | the file is taken even when there is none; the preview only changes for a file |
| LegacyProductsPage.Page.AddDetailFiles | coffee-admin/src/pages/AdminProducts.jsx:55-62 | files and their previews are appended side by side |
| LegacyProductsPage.Page.RemoveDetail | coffee-admin/src/pages/AdminProducts.jsx:64-70 | the same position leaves both lists |
| LegacyProductsPage.Page.MoveDetail | coffee-admin/src/pages/AdminProducts.jsx:72-82 | bounded by the file list; otherwise the same swap in both lists |
| LegacyProductsPage.Page.AddOption | coffee-admin/src/pages/AdminProducts.jsx:91-97 | at three rows no change; otherwise a `300g` row with 0 and 0 is appended |
| LegacyProductsPage.Page.RemoveOption | coffee-admin/src/pages/AdminProducts.jsx:99-105 | index 0 is never removed; any other index removes exactly that row |
| LegacyProductsPage.Page.Reset | coffee-admin/src/pages/AdminProducts.jsx:181-194 | no session and the blank form |
| LegacyProductsPage.Page.Submit | coffee-admin/src/pages/AdminProducts.jsx:108-150 | the request built in the loop is `SubmissionOf` the form; any answer is saved into the list (replaced by id in an edit, prepended otherwise) and the form reset; without an answer nothing changes |
| LegacyProductsPage.Page.Edit | coffee-admin/src/pages/AdminProducts.jsx:153-172 | the session moves to the product; the form follows only when the product has no detail image, since reading one fails |
| LegacyProductsPage.Page.Remove | coffee-admin/src/pages/AdminProducts.jsx:175-179 | a declined confirmation changes nothing; otherwise any answer drops every product with that id |
| OrderForm.FirstIndex | coffee-admin/src/order/OrderForm.jsx:12 | `find` stops at the first match; the result is the length of the list when nothing matches |
| OrderForm.Find | coffee-admin/src/order/OrderForm.jsx:48 | the first element that matches, or none exactly when nothing does |
| OrderForm.ProductOptions | coffee-admin/src/order/OrderForm.jsx:47-50 | the options of the first product with that id; none for an unknown product |
| OrderForm.ApplyItem | coffee-admin/src/order/OrderForm.jsx:20-27 | a new product clears the row's option |
| OrderForm.Validate | coffee-admin/src/order/OrderForm.jsx:52-62 | a missing member fails first, then any row lacking a product or an option; otherwise the form is valid |
| OrderForm.LineOf | coffee-admin/src/order/OrderForm.jsx:69-76 | a line carries the row's quantity and the selected option's variant id, absent when no option is found; the line is emitted either way |
| OrderForm.RequestOf | coffee-admin/src/order/OrderForm.jsx:69-82 | one line per row, in row order, for the chosen member and the typed address |
| OrderForm.ProductChangeBlocksSubmit | coffee-admin/src/order/OrderForm.jsx:23-25 | after a product change the form does not validate until an option is picked again |
| OrderForm.OrdersRejectedAsWritten | coffee-admin/src/order/OrderForm.jsx:71-73 | when no product option carries a variant id, every order the form sends for a known member is refused with a null id |
| OrderForm.SelectedVariantsOrdered | coffee-admin/src/order/OrderForm.jsx:69-81 | when every row's option carries a known variant id, the order is accepted, and line `k` is row `k`'s variant in row `k`'s quantity |
| OrderForm.ItemRow.constructor | coffee-admin/src/order/OrderForm.jsx:7 | a blank row: no product, no option, quantity 1 |
| OrderForm.Editor.constructor | coffee-admin/src/order/OrderForm.jsx:4-8 | no member, no address, one blank row |
| OrderForm.Editor.ChangeMember | coffee-admin/src/order/OrderForm.jsx:10-18 | the member is set; the member's address, when it has one, replaces the typed one; otherwise the address is kept |
| OrderForm.Editor.ChangeAddress | coffee-admin/src/order/OrderForm.jsx:116 | only the address changes |
| OrderForm.Editor.ChangeItem | coffee-admin/src/order/OrderForm.jsx:20-27 | the row object is written in place; a new product clears its option; the other rows keep their values |
| OrderForm.Editor.AddItem | coffee-admin/src/order/OrderForm.jsx:29-34 | one fresh blank row is appended, with no upper bound |
| OrderForm.Editor.RemoveItem | coffee-admin/src/order/OrderForm.jsx:36-45 | at one row a warning and no change; otherwise exactly that row goes |
| OrderForm.Editor.HandleSubmit | coffee-admin/src/order/OrderForm.jsx:64-83 | an invalid form shows its first failure and sends nothing; a valid one sends `RequestOf` the rows and the store's products |
| MemberForm.EditFields | coffee-admin/src/member/MemberForm.jsx:13-21 | an edit starts from the member's email, name, phone and address, and an empty password |
| MemberForm.Validate | coffee-admin/src/member/MemberForm.jsx:29-43 | a blank email fails first, then a blank password when creating only, then a blank name |
| MemberForm.RequestOf | coffee-admin/src/member/MemberForm.jsx:48 | the form is sent as it is, the password as a string |
| MemberForm.EditFormValidates | coffee-admin/src/member/MemberForm.jsx:34 | an edit form never asks for a password, and validates exactly when the member's email and name are not blank |
| MemberForm.UntouchedEditKeepsMember | coffee-admin/src/member/MemberForm.jsx:12-23 | saving an untouched edit form leaves the member table as it was: the empty password keeps the stored one |
| MemberForm.CreatedPasswordNotBlank | coffee-admin/src/member/MemberForm.jsx:34-37 | a member created from a validated form has a non-blank password |
| MemberForm.Editor.constructor | coffee-admin/src/member/MemberForm.jsx:12-23 | the edit fields of `editData`, or `initialForm` |
| MemberForm.Editor.Change | coffee-admin/src/member/MemberForm.jsx:25-27 | only the named field changes |
| MemberForm.Editor.HandleSubmit | coffee-admin/src/member/MemberForm.jsx:45-49 | an invalid form shows its first failure and hands nothing on; a valid one hands on the form unchanged |
| MemberForm.Editor.HandleCancel | coffee-admin/src/member/MemberForm.jsx:51-54 | the form is back to `initialForm` |

## Left out

- HTTP, JSON and multipart encoding, and the Spring controllers. Each call's outcome is a parameter (`Reply` on the client, `Result` on the server).
- The list reads `getAllProducts`, `getAllOrders` and `getAllMembers`. They only map `toResponse` over a table.
- The filesystem: `init`, `Files.copy`, `createDirectories` and `StringUtils.cleanPath`. The UUID is a parameter. `Path.normalize` is modelled over path segments, not over strings with drive letters or symbolic links.
- Browser services: `URL.createObjectURL` (a parameter), `confirm` (a `bool`), `window.scrollTo`, and the three-second `setTimeout` that clears the banner. The banner is last-write-wins.
- Async interleaving of overlapping store calls. Each call is atomic.
- JavaScript coercions: `Number(quantity)`, `Number(extraPrice)`, string prices compared with `<= 0`. Numeric inputs are `int`, or `Option<int>` for an empty input.
- Rendering, CSS and display formatting, including the list components.
- Timestamps (`createdAt`, `orderDate`, `updatedAt`) in the answers.
- The legacy page's `changeOption` (`pages/AdminProducts.jsx:85-89`). It writes into the product's own option objects in place. The model keeps that page's options as values.
- OrderService.Service.CreateOrder: the answer's items are read through the variants' current product and option. They are passed in as a catalogue map rather than followed through the product tables.
- FileStorage.Lower: lowers ASCII capitals only. Java's `toLowerCase()` follows the default locale and all of Unicode, which the model does not encode; for the ASCII file names the allow-list accepts the two agree.
- Common.IsBlank: treats only ASCII white space (space, tab, line feed, carriage return, form feed, vertical tab) as blank. Java's `isBlank()` and JavaScript's `trim()` also treat other Unicode white space, such as the ideographic space U+3000, as blank.
- ProductService.Service: runs the corrected program of Findings rows 1, 2 and 4, not the Java body as written: answers carry the detail images and variant ids, and an absent detail part is an empty list. The as-written behaviour is stated by `ProductService.CreateAsWritten`, `ProductService.ToResponseAsWritten` and `ProductService.MissingDetailPartRejected`.
- OrderService.Create: a null `memberId`, `items` or item `quantity` is not modelled. The request DTO allows all three (coffee/src/main/java/com/example/coffee/dto/OrderRequest.java:11-21), but the model types them as a number and a list. In Java, `findById(null)` throws at OrderService.java:25, and a null list or quantity throws a `NullPointerException` at :38 or :52. The order form always sends a number for each and a list of items (coffee-admin/src/order/OrderForm.jsx:69-81). A null `variantId` is modelled (`NullValue`).
- OrderService.ItemsOf: `findByOrder` has no `ORDER BY`, so the database may return an order's items in any order. The model returns them in table order, which is insertion order.
- Ids: each service draws every new id, whatever the table, from one counter `nextId`. The database numbers each table on its own. Only uniqueness and freshness of ids are relied on, and both hold either way.
- ProductService.Create: a missing `options` part is read as the null dereference it causes. The controller's parsing of that part is not modelled.

## Findings

| source | as written | input that shows it | evidently intended | confidence | as-written member | corrected member |
|---|---|---|---|---|---|---|
| coffee-admin/src/order/OrderForm.jsx:71-73 | the line's `variantId` is read from the product option, but the server's option entries have no such property (coffee/src/main/java/com/example/coffee/dto/ProductResponse.java:40-45), so every line carries none, and `createOrder` then calls `findById(null)` | any valid order form: one row with a product and an option, for an existing member | each line carries the variant of the selected option | not executed | OrderForm.OrdersRejectedAsWritten, ProductService.ToResponseAsWritten | OrderForm.SelectedVariantsOrdered, ProductService.ToResponse |
| coffee/src/main/java/com/example/coffee/service/ProductService.java:231 | the builder is handed `images(...)`, but the Lombok builder only has `detailImages(...)` (coffee/src/main/java/com/example/coffee/dto/ProductResponse.java:23), so the file does not compile as written; the model reads the call as leaving `detailImages` unset, so answers would never list the detail images | create a product with one detail image | the answer lists the images in `sortOrder` | not executed | ProductService.AnswerAsWrittenLosesImages, ProductService.ToResponseAsWritten | ProductService.ToResponseOrdersImages, ProductService.ToResponse |
| coffee-admin/src/product/ProductForm.jsx:130-134 | `changeOption` writes into the row object that the module-level `initialForm` shares | in a create form set the first option's extra price to 500, then open a new create form | every new create form starts from the default row | not executed | ProductForm.DefaultOptionLeaks, ProductForm.Editor.ChangeOptionAsWritten | ProductForm.DefaultOptionKept, ProductForm.Editor.ChangeOption |
| coffee/src/main/java/com/example/coffee/service/ProductService.java:60 | the loop runs over `detailImages`, which is null when the optional part is absent | create a product with a thumbnail and no detail image | no detail image means an empty list | not executed | ProductService.CreateAsWritten, ProductService.MissingDetailPartRejected | ProductService.Create, ProductService.EditWithoutDetailPartRejected |
