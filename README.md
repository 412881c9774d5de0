# Ecommerce microservices: checkout, catalog queries, discount seeding and order deletion, in Dafny

This project models the parts of the e-commerce microservices that have logic of their own:

- **Event envelope** (`events.dfy`, module `EventBusMessages`). `BaseIntegrationEvent` is a class with a mutable `corelationId` and a `const` `creationDate`. The GUID generator and the UTC clock are oracle objects passed to the parameterless constructor. `GuidString` is the GUID's text form, with `ParseGuid` as its inverse.
- **Checkout** (`basket.dfy`, module `Basket`). `BasketController` holds the basket store (user name to basket) and an ordered log of the effects it had outside: events handed to the publish endpoint and baskets removed. Whether the publish endpoint and the store's delete succeed or throw is passed in. The AutoMapper mapping of the request to a `BasketCheckoutEvent` is a function parameter.
- **Discount database seeding** (`migration.dfy`, module `DiscountMigration`). The `while (retry > 0)` retry loop of `ApplyMigrations` and the drop / create / insert steps of each attempt. The database is passed in and out as a value. What each attempt meets is an oracle `outcomes: nat -> AttemptOutcome`: either success, or an exception at one named step.
- **Discount lookup** (`discount.dfy`, module `Discount`). `GetDiscountQueryHandler.Handle` is a function over the Coupon table's rows.
- **Catalog queries and mutations** (`strings.dfy`, `catalog_query.dfy`, `catalog_repository.dfy`). The product collection is the sequence field of `ProductRepository`. The queries are functions that read it: filter composition, sort-key selection, skip/limit paging and the reported count. Create, delete and update are methods that change it. `WebUtility.UrlDecode` and the case folding of case-insensitive regular expressions are functions given to the constructor and are not interpreted.
- **Order deletion** (`ordering.dfy`, module `Ordering`). `DeleteOrderCommandHandler` works over an `OrderRepository` object whose orders are a map keyed by id.

In a few places the code departs from what a checkout service is usually expected to do; the model follows the code:

- An event envelope is usually immutable once created. In the code `CorelationId` has a public setter, and the model keeps it (`SetCorelationId`).
- A checkout of a missing basket would usually be answered NotFound. The code answers BadRequest.
- A checkout would usually return the correlation id of the event it published. The code answers Accepted with no body.
- Once the event is published, a failed basket deletion would usually not fail the call. In the code, an exception from the delete command propagates to the caller after the event has gone out. `Checkout` models that as `Threw`, with the event published and the basket still stored.
- A published checkout event would usually go to an idempotent consumer that deduplicates by correlation id. No consumer is part of this code, so none is modelled.

Some driver behaviour the model makes explicit:

- A `Limit(0)` is no limit. So with `PageSize == 0`, `GetProducts` returns every match in sort order, and "at most PageSize items" holds only for `PageSize > 0`.
- `ReplaceOne` with a document identical to the stored one reports no modification, so `UpdateProduct` returns false then.
- Inserting an id already present is a duplicate-key error.
- The Coupon table's SERIAL ids restart at 1 after each drop-and-recreate, so the seed rows always get ids 1 and 2.

## Model

| member | source | states |
|---|---|---|
| `EventBusMessages.BaseIntegrationEvent.constructor` | Infrastructure/EventBus.Messages/Events/BaseIntegrationEvent.cs:7-11 | draws exactly one new GUID from the generator, sets CorelationId to that GUID's text form and CreationDate to the clock's reading with kind Utc |
| `EventBusMessages.BaseIntegrationEvent.FromValues` | Infrastructure/EventBus.Messages/Events/BaseIntegrationEvent.cs:13-17 | stores exactly the text form of the given GUID and the given date; nothing is drawn |
| `EventBusMessages.BaseIntegrationEvent.SetCorelationId` | Infrastructure/EventBus.Messages/Events/BaseIntegrationEvent.cs:5-6 | any holder can reassign CorelationId; CreationDate is a `const`, fixed at construction |
| `EventBusMessages.GuidGenerator.NewGuid` | Infrastructure/EventBus.Messages/Events/BaseIntegrationEvent.cs:9 | the generator hands out one arbitrary GUID and records it |
| `EventBusMessages.ParseGuidString` | Infrastructure/EventBus.Messages/Events/BaseIntegrationEvent.cs:9 | parsing the text form of a GUID gives back that GUID |
| `EventBusMessages.GuidStringOfParse` | Infrastructure/EventBus.Messages/Events/BaseIntegrationEvent.cs:15 | every string the parser accepts is the text form of the GUID it yields, so text form and GUID correspond one to one |
| `EventBusMessages.GuidStringInjective` | Infrastructure/EventBus.Messages/Events/BaseIntegrationEvent.cs:9 | distinct GUIDs give distinct correlation ids |
| `Basket.BasketController.GetBasket` | Services/Basket/Basket.API/Controllers/BasketController.cs:32-44 | NotFound exactly when the store has no basket for the user, otherwise that basket |
| `Basket.BasketController.SendDelete` | Services/Basket/Basket.API/Controllers/BasketController.cs:64-65 | the store removes the user's basket, leaves every other basket as it was, and reports whether one existed; a throwing store changes nothing |
| `Basket.BasketController.DeleteBasket` | Services/Basket/Basket.API/Controllers/BasketController.cs:60-73 | returns exactly the store's deleted flag, false for a missing basket rather than an error |
| `Basket.BasketController.Publish` | Services/Basket/Basket.API/Controllers/BasketController.cs:94 | a delivered event is appended to the log; a faulted publish throws and records nothing |
| `Basket.BasketController.Checkout` | Services/Basket/Basket.API/Controllers/BasketController.cs:79-101 | no basket: BadRequest, nothing published, store unchanged. Publish throws: the exception propagates, nothing published, basket kept. Otherwise exactly one event is published, carrying the mapped request with TotalPrice replaced by the stored basket's total. Only after that is the basket removed, every other basket untouched, and the answer is Accepted whatever the deleted flag. A delete that throws leaves the event published and the basket stored |
| `Basket.PublishedEventsAppend` | Services/Basket/Basket.API/Controllers/BasketController.cs:94 | the events of a concatenated log are the events of each part, in order |
| `Basket.CheckoutPublishesOne` | Services/Basket/Basket.API/Controllers/BasketController.cs:94-100 | a checkout that gets past publishing adds exactly one event, the priced one, to the published events |
| `Discount.GetDiscount` | Services/Discount/Discount.Application/Handlers/GetDiscountQueryHandler.cs:21 | null exactly when no row has the product name; otherwise a row of the table with that name |
| `Discount.Handle` | Services/Discount/Discount.Application/Handlers/GetDiscountQueryHandler.cs:19-35 | fails exactly when no coupon has the query's product name, with a NotFound status naming the product; otherwise a CouponModel copying Id, ProductName, Description and Amount of a coupon with that name; the table is an input only |
| `DiscountMigration.SeedInserts` | Services/Discount/Discount.Infrastructure/Extensions/DbExtension.cs:53-63 | the two INSERTs into the freshly created table (its Id sequence at 1) give exactly the two seed rows, the shoe coupon with Id 1 then the racquet coupon with Id 2, and leave the sequence at 3 |
| `DiscountMigration.RunAttempt` | Services/Discount/Discount.Infrastructure/Extensions/DbExtension.cs:44-66 | an attempt succeeds exactly when no statement throws, and then leaves the two seed rows in insertion order whatever the table held before; a failed attempt returns that statement's exception and leaves what the statements before it did |
| `DiscountMigration.ApplyMigrations` | Services/Discount/Discount.Infrastructure/Extensions/DbExtension.cs:36-80 | 1 to 5 attempts. Every attempt but the last failed. It completes exactly when one of the first five attempts succeeds, and stops at the first success, leaving the two seed rows. Otherwise it makes all 5 attempts and rethrows the fifth attempt's exception. It sleeps RetryDelayMs (2000 ms) after each failed attempt that is followed by another, so k failures then a success mean k * 2000 ms of sleep |
| `DiscountMigration.MigrateDatabase` | Services/Discount/Discount.Infrastructure/Extensions/DbExtension.cs:12-34 | returns the same host exactly when the migration completes, logging start and completion; otherwise logs the error and rethrows the same exception |
| `DiscountMigration.SeededCouponsFound` | Services/Discount/Discount.Infrastructure/Extensions/DbExtension.cs:59-63 | after seeding, the discount lookup returns coupon 1 (Shoe Discount, 500) and coupon 2 (Racquet Discount, 700) for the two seeded product names |
| `Strings.NullOrEmptyIsNullOrWhiteSpace` | Services/Catalog/Catalog.Infrastructure/Repositories/ProductRepository.cs:61-77 | null or empty counts as blank, and a blank string need not be empty |
| `CatalogQuery.Find` | Services/Catalog/Catalog.Infrastructure/Repositories/ProductRepository.cs:140 | keeps every document that satisfies the filter exactly as often as the collection holds it, and no other |
| `CatalogQuery.IndexOfId` | Services/Catalog/Catalog.Infrastructure/Repositories/ProductRepository.cs:93 | -1 exactly when no document has the id, otherwise the first position holding it |
| `CatalogQuery.RemoveAtIsWithoutId` | Services/Catalog/Catalog.Infrastructure/Repositories/ProductRepository.cs:93 | with unique ids, removing the document at the id's position is keeping, in order, every document with another id |
| `CatalogQuery.WithoutIdMembers` | Services/Catalog/Catalog.Infrastructure/Repositories/ProductRepository.cs:93 | what remains after removing an id is exactly the documents with other ids |
| `CatalogQuery.SortOrderOf` | Services/Catalog/Catalog.Infrastructure/Repositories/ProductRepository.cs:124-139 | price ascending exactly for "priceAsc", price descending exactly for "priceDesc", name ascending for anything else, empty or null |
| `CatalogQuery.SortBySortedPermutation` | Services/Catalog/Catalog.Infrastructure/Repositories/ProductRepository.cs:140-141 | the sorted result is ordered by the chosen key and is a permutation of the matches |
| `CatalogQuery.Page` | Services/Catalog/Catalog.Infrastructure/Repositories/ProductRepository.cs:142-143 | element k of the page is element (PageIndex-1)*PageSize+k of the input; at most PageSize of them, as many as remain; PageSize 0 keeps everything |
| `CatalogQuery.PageSorted` | Services/Catalog/Catalog.Infrastructure/Repositories/ProductRepository.cs:140-144 | a page of a sorted sequence is sorted |
| `CatalogQuery.PagesArePrefix` | Services/Catalog/Catalog.Infrastructure/Repositories/ProductRepository.cs:142-143 | pages 1 to k, concatenated, are the first k*PageSize elements: consecutive pages neither overlap nor leave gaps |
| `CatalogRepository.ProductRepository.GetProduct` | Services/Catalog/Catalog.Infrastructure/Repositories/ProductRepository.cs:20-23 | null exactly when no document has the id, otherwise a document with that id |
| `CatalogRepository.ProductRepository.ParamsFilter` | Services/Catalog/Catalog.Infrastructure/Repositories/ProductRepository.cs:27-45 | a product satisfies the composed filter exactly when it meets every non-empty parameter: its name contains the decoded search case-insensitively and literally, its brand id equals BrandId, its type id equals TypeId |
| `CatalogRepository.ProductRepository.DataFilter` | Services/Catalog/Catalog.Infrastructure/Repositories/ProductRepository.cs:122-145 | the result is the window of the sorted matches that skips (PageIndex-1)*PageSize and takes PageSize, all of them for PageSize 0; so it is sorted by the chosen key, holds only matching documents of the collection and at most PageSize of them |
| `CatalogRepository.ProductRepository.GetProducts` | Services/Catalog/Catalog.Infrastructure/Repositories/ProductRepository.cs:25-57 | PageIndex and PageSize echoed; Count is the number of all matching documents; Data is the window of the matches in sort order that skips (PageIndex-1)*PageSize and takes PageSize, every match for PageSize 0; it holds only products meeting every given parameter, at most PageSize of them, in sort order |
| `CatalogRepository.ProductRepository.GetProductsByBrand` | Services/Catalog/Catalog.Infrastructure/Repositories/ProductRepository.cs:59-72 | empty for a null, empty or blank brand; otherwise exactly the products whose brand name contains the decoded brand case-insensitively |
| `CatalogRepository.ProductRepository.GetProductsByName` | Services/Catalog/Catalog.Infrastructure/Repositories/ProductRepository.cs:74-83 | empty for a null or empty name; otherwise, blank names included, exactly the products whose name contains the decoded name case-insensitively |
| `CatalogRepository.ProductRepository.CreateProduct` | Services/Catalog/Catalog.Infrastructure/Repositories/ProductRepository.cs:85-89 | inserts and returns the same product exactly when its id is new; a known id is a duplicate-key error and nothing changes; ids stay unique |
| `CatalogRepository.ProductRepository.DeleteProduct` | Services/Catalog/Catalog.Infrastructure/Repositories/ProductRepository.cs:91-95 | true exactly when a document had the id; the collection becomes every other document in order, unchanged when false, one shorter when true |
| `CatalogRepository.ProductRepository.UpdateProduct` | Services/Catalog/Catalog.Infrastructure/Repositories/ProductRepository.cs:98-102 | the document with the product's id is replaced and all others kept; true exactly when such a document existed and differed from the replacement |
| `CatalogRepository.CountIgnoresPaging` | Services/Catalog/Catalog.Infrastructure/Repositories/ProductRepository.cs:46-56 | Count does not depend on PageIndex, PageSize or Sort |
| `CatalogRepository.ReturnedPagesArePages` | Services/Catalog/Catalog.Infrastructure/Repositories/ProductRepository.cs:140-144 | the Data of pages 1 to k returned by GetProducts, one after the other, are consecutive windows of the sorted matches |
| `CatalogRepository.AllPagesHoldEveryMatch` | Services/Catalog/Catalog.Infrastructure/Repositories/ProductRepository.cs:46-57 | Count is the number of sorted matches; once k pages span Count, the Data GetProducts returns for pages 1 to k, together, is every match in sort order, each as often as the collection holds it |
| `CatalogQuery.SortedUnique` | Services/Catalog/Catalog.Infrastructure/Repositories/ProductRepository.cs:140-141 | when no two different documents tie under the order, there is exactly one sorted order of them: any two sorted sequences holding the same documents are equal |
| `CatalogQuery.TiedPagesMayRepeat` | Services/Catalog/Catalog.Infrastructure/Repositories/ProductRepository.cs:140-143 | with two different products of equal price, both orders are sorted permutations of each other, and page 1 of one order followed by page 2 of the other (PageSize 1) returns the first product twice and never the second |
| `CatalogRepository.AnyServerOrderGivesSamePage` | Services/Catalog/Catalog.Infrastructure/Repositories/ProductRepository.cs:140-144 | when the matches have no ties, the page cut from any sorted order of them the server may pick is exactly the Data GetProducts returns |
| `CatalogRepository.BlankSearchRules` | Services/Catalog/Catalog.Infrastructure/Repositories/ProductRepository.cs:59-83 | a blank brand returns nothing while the same blank text is still searched as a name |
| `Ordering.OrderRepository.GetByIdAsync` | Services/Ordering/Ordering.Core/Repositories/IAsyncRepository.cs:11 | null exactly when no order has the id, otherwise the order with that id |
| `Ordering.OrderRepository.DeleteAsync` | Services/Ordering/Ordering.Core/Repositories/IAsyncRepository.cs:14 | removes the entity's id and nothing else |
| `Ordering.DeleteOrderCommandHandler.Handle` | Services/Ordering/Ordering.Application/Handlers/DeleteOrderCommandHandler.cs:19-29 | unknown id: throws OrderNotFoundException("Order", id), store unchanged; known id: exactly that order is removed, the others untouched, and the result is true; a normal return is never false |

## Left out

- `BasketController.UpdateBasket` and the other basket, catalog, discount and ordering endpoints forward to handlers that are not part of this model.
- Basket totals: `ShoppingCart.cs` is not part of this model. A basket's total is taken as the sum of price times quantity over its items, in integer minor units.
- BasketMapper's profile is not part of this model. The mapping is a function parameter of `Checkout`, and only TotalPrice is pinned. The envelope fields of the published event are whatever the mapper returns; a fresh correlation id per checkout is not modelled.
- Basket.BasketController.GetBasket: exceptions from the basket store during a lookup are not modelled. Only the delete command can throw.
- Message-bus delivery (redelivery, acknowledgement, competing consumers) is not modelled. Publishing either appends to the log or throws.
- The consumer that turns checkout events into orders, and deduplication by correlation id, are not part of this code.
- Logging is dropped, except for the three messages `MigrateDatabase` writes, which are kept as a returned log.
- `Thread.Sleep` is modelled only by the milliseconds it would wait, summed; no clock advances. Asynchrony and concurrent requests are not modelled; every operation runs to completion alone.
- SQL, Npgsql and the Mongo driver are replaced by values: the Coupon table, the product sequence and the order map. A NULL Coupon Description, which the schema allows, is not modelled.
- CatalogQuery.Find: `WebUtility.UrlDecode`, `Regex.Escape` and regex case folding are not interpreted. Decoding and folding are opaque function fields, and an escaped pattern is matched as a literal substring.
- CatalogQuery.SortBySortedPermutation: the server does not fix the order of documents with equal keys. The model sorts stably, by insertion, so equal-key order is one particular choice.
- CatalogRepository.ReturnedPagesArePages: holds for the model's single, fixed tie order, applied the same way on every call. The sort has no unique tiebreaker, and the server may order documents with equal Name or Price differently from one query to the next. Real pages fetched one by one may then repeat one such product and never return another (`TiedPagesMayRepeat` shows this). Without ties, `SortedUnique` and `AnyServerOrderGivesSamePage` show that any order the server picks gives the model's pages.
- CatalogRepository.AllPagesHoldEveryMatch: "every match, once, across pages 1 to k" rests on the same fixed tie order. With products tied on Name or Price, the real pages may repeat or skip some of them.
- CatalogRepository.ProductRepository.GetProducts: `PageIndex >= 1` and `PageSize >= 0` are preconditions, because the driver rejects a negative skip or limit. The 32-bit products `(PageIndex - 1) * PageSize` and `(int)totalItems` are unbounded here, so overflow is not modelled.
- CatalogRepository.ProductRepository.CreateProduct: ids are supplied by the caller. The driver's generation of an id for a product without one is not modelled.
- Write concern is always acknowledged. `IsAcknowledged == false` is not modelled.
- `GetAllBrands` and `GetAllTypes` return whole collections and have no logic.
- Ordering.OrderRepository.DeleteAsync: `IAsyncRepository`'s implementation is not part of this model. Its result is taken as "an order with that id existed"; the handler ignores it either way.
- Discount.GetDiscount: the discount repository is not part of this model. The lookup is taken to be the first row whose ProductName equals the query's name.
- `Order.cs` is not part of this model. An order is its id, user name and total.
