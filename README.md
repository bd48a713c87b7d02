# Cache-aside layer of the contacts API, in Dafny

This project models the cache-aside layer of a small contacts/categories
CRUD API. Reads go through a Redis cache and fall back to the durable store.
Writes go to the store and then delete or repopulate particular cache keys.
It covers:

- the two cache adapters (`RedisCategoryRepository`, `RedisContactRepository`);
- the two cache-aside services (`CategoryService`, `ContactService`);
- the older inline contact flow in the `/contacts` route handlers;
- the generic cache helpers `getCacheDataOrSet` and `revalidateCacheOrDelete`;
- the `Map`-backed `InMemoryCategoryRepository`;
- the `ResourceNotFoundError` message rule.

State is explicit:

- A Redis keyspace is a field `entries: map<string, Raw<V>>` keyed by the full key. `Raw` is either the encoded value or the empty string. JSON encoding is taken to be the identity.
- A durable store is an insertion-ordered table (`Tables.Table`). This is the JavaScript `Map` semantics of the in-memory repository.
- The classes hold this state and their methods update it. Every method that models a source operation states, in its `ensures`, the whole new state in terms of the old one.
- The other methods are scenarios. They run several operations in a row and state one observable outcome, such as a stale read or a refused request.
- The functions and lemmas state what the operations mean: set/get round trips, that only the written key changes, idempotent deletes, insertion order, first match, merge semantics, and injective key composition.

The model follows the code, including its quirks:

- Category `update` writes the old row back to the store but caches the new data.
- Category `create` does no name check.
- Contact `create` populates the item key and leaves `all` in place.
- Contact `create` does not check the category id.
- Contact `update` fails with the message "Category not found".
- Contact `delete` never touches the store.
- The route's PUT refuses a contact's own email.
- The route's list key (`list:contact`) differs from the service's (`contact:all`), but the item keys coincide (`contact:<id>`).

## Model

| member | source | states |
|---|---|---|
| Entities.WithId | src/services/contact-service.ts:47-50 | `{ id, ...data }` has the given id and exactly the given fields |
| Entities.Read | src/repositories/redis/redis-category-repository.ts:30-32 | `data && JSON.parse(data)`: a missing key or an empty string is no value; otherwise the stored value |
| Entities.WithIdFields | src/services/contact-service.ts:47-50 | splitting a contact into id and fields and rebuilding it gives the same contact |
| Tables.Empty | src/repositories/in-memory/in-memory-category.repository.ts:7 | `new Map()`: a valid table with no entries |
| Tables.Put | src/repositories/in-memory/in-memory-category.repository.ts:18-21 | `Map.set`: the key then holds the value; every other key is unchanged; an existing key keeps its place and the size; a new key goes last and the size grows by one |
| Tables.PutUnchanged | src/services/category-service.ts:65 | writing back the value a key already holds leaves the table unchanged |
| Tables.Get | src/repositories/in-memory/in-memory-category.repository.ts:28 | `Map.get`: no value exactly when the key is absent; otherwise the value stored under it |
| Tables.Without | src/repositories/in-memory/in-memory-category.repository.ts:40-42 | the insertion order after a delete: every key but `x`, once each, with `x` cut out at its position and the rest in their old order |
| Tables.Remove | src/repositories/in-memory/in-memory-category.repository.ts:40-42 | `Map.delete`: the key is absent afterwards; every other key is unchanged and keeps its place in the insertion order; deleting an absent key changes nothing |
| Tables.RemoveIdempotent | src/repositories/in-memory/in-memory-category.repository.ts:40-42 | deleting twice is the same as deleting once |
| Tables.Values | src/repositories/in-memory/in-memory-category.repository.ts:32-34 | `Array.from(map.values())`: each stored value exactly once, in insertion order, with length equal to the map size |
| Tables.RemoveValues | src/repositories/in-memory/in-memory-category.repository.ts:40-42 | after a delete, the listing is the old listing with exactly the deleted entry cut out and the others in their old order |
| Tables.FindValues | src/repositories/in-memory/in-memory-category.repository.ts:11-13 | a find over the listing gives the first stored row in insertion order that matches; no value exactly when no stored row matches |
| Tables.Find | src/repositories/in-memory/in-memory-category.repository.ts:11-13 | `Array.find`: no value exactly when no element matches; otherwise a matching element with no match before it |
| Repositories.CategoryByName | src/repositories/in-memory/in-memory-category.repository.ts:10-16 | a stored category named exactly `name` with no such category before it in insertion order; none exactly when no category has that name |
| Repositories.ContactByEmail | src/repositories/contracts/contact-repository.ts:6 | a stored contact with exactly that email; none exactly when no contact has it |
| CacheKeys.Compose | src/repositories/redis/redis-category-repository.ts:55-57 | the key is the prefix, a colon, then exactly the suffix |
| CacheKeys.ComposeInjective | src/repositories/redis/redis-contact-repository.ts:55-57 | under one prefix, two suffixes give the same key if and only if they are equal |
| CacheKeys.RouteItemKeyIsAdapterKey | src/config/redis-client.ts:7 | the route's `contact:` + id is the contact adapter's key for that id |
| CacheKeys.RouteListKeyIsNoAdapterKey | src/config/redis-client.ts:8 | `list:contact` is not a contact adapter key for any suffix |
| RedisCategory.RedisCategoryRepository.constructor | src/repositories/redis/redis-category-repository.ts:7-10 | the adapter over the given keyspace, with prefix `category` and a TTL of 3600 |
| RedisCategory.RedisCategoryRepository.ComposeKey | src/repositories/redis/redis-category-repository.ts:55-57 | the key is `"category:" + suffix`; no other suffix gives the same key |
| RedisCategory.RedisCategoryRepository.Set | src/repositories/redis/redis-category-repository.ts:12-17 | writes only the composed key; `get` of the suffix then returns the data; every other suffix reads as before |
| RedisCategory.RedisCategoryRepository.SetById | src/repositories/redis/redis-category-repository.ts:19-24 | writes the same key `set` writes, with the same effect |
| RedisCategory.RedisCategoryRepository.Get | src/repositories/redis/redis-category-repository.ts:26-33 | a missing key or an empty string reads as no value; otherwise the stored value |
| RedisCategory.RedisCategoryRepository.GetAll | src/repositories/redis/redis-category-repository.ts:35-40 | reads the key `get` reads; with no argument, `category:all` |
| RedisCategory.RedisCategoryRepository.GetById | src/repositories/redis/redis-category-repository.ts:42-47 | reads the key `get` reads |
| RedisCategory.RedisCategoryRepository.Delete | src/repositories/redis/redis-category-repository.ts:49-53 | removes only the composed key; the suffix then reads as no value; a missing key is a no-op |
| RedisContact.RedisContactRepository.constructor | src/repositories/redis/redis-contact-repository.ts:7-10 | the adapter over the given keyspace, with prefix `contact` and a TTL of 3600 |
| RedisContact.RedisContactRepository.ComposeKey | src/repositories/redis/redis-contact-repository.ts:55-57 | the key is `"contact:" + suffix`; no other suffix gives the same key |
| RedisContact.RedisContactRepository.Set | src/repositories/redis/redis-contact-repository.ts:12-17 | writes only the composed key; `get` of the suffix then returns the data; every other suffix reads as before |
| RedisContact.RedisContactRepository.SetById | src/repositories/redis/redis-contact-repository.ts:19-24 | writes the same key `set` writes, with the same effect |
| RedisContact.RedisContactRepository.Get | src/repositories/redis/redis-contact-repository.ts:26-33 | a missing key or an empty string reads as no value; otherwise the stored value |
| RedisContact.RedisContactRepository.GetAll | src/repositories/redis/redis-contact-repository.ts:35-40 | reads the key `get` reads; with no argument, `contact:all` |
| RedisContact.RedisContactRepository.GetById | src/repositories/redis/redis-contact-repository.ts:42-47 | reads the key `get` reads |
| RedisContact.RedisContactRepository.Delete | src/repositories/redis/redis-contact-repository.ts:49-53 | removes only the composed key; the suffix then reads as no value; a missing key is a no-op |
| InMemoryCategory.InMemoryCategoryRepository.constructor | src/repositories/in-memory/in-memory-category.repository.ts:6-8 | starts with an empty map |
| InMemoryCategory.InMemoryCategoryRepository.FindByName | src/repositories/in-memory/in-memory-category.repository.ts:10-16 | the scan returns the first category in insertion order named exactly `name`, or null exactly when none is |
| InMemoryCategory.InMemoryCategoryRepository.Save | src/repositories/in-memory/in-memory-category.repository.ts:18-21 | `findById(c.id)` then returns `c`; other ids are unchanged; returns `{ id: c.id }` |
| InMemoryCategory.InMemoryCategoryRepository.Create | src/repositories/in-memory/in-memory-category.repository.ts:23-25 | `findById(c.id)` then returns `c`; other ids are unchanged |
| InMemoryCategory.InMemoryCategoryRepository.FindById | src/repositories/in-memory/in-memory-category.repository.ts:27-30 | the stored category, or null exactly when the id is absent |
| InMemoryCategory.InMemoryCategoryRepository.FindAll | src/repositories/in-memory/in-memory-category.repository.ts:32-34 | the loop returns every stored category once, in insertion order, with length equal to the map size |
| InMemoryCategory.InMemoryCategoryRepository.Update | src/repositories/in-memory/in-memory-category.repository.ts:36-38 | upsert: `findById` then returns the new record, whether or not the id was present |
| InMemoryCategory.InMemoryCategoryRepository.Delete | src/repositories/in-memory/in-memory-category.repository.ts:40-42 | removes only that id; other ids are unchanged; an absent id leaves the map unchanged; the next `findAll` lists the remaining categories in their old order |
| CategoryServices.CategoryService.constructor | src/services/category-service.ts:8-11 | holds the given repository state and cache |
| CategoryServices.CategoryService.GetAll | src/services/category-service.ts:13-22 | a hit returns the cached value and writes nothing; a miss returns the store listing and caches exactly that under `all`; the store is unchanged |
| CategoryServices.CategoryService.GetById | src/services/category-service.ts:24-33 | a hit returns the cached value; a miss with no row fails with "Category not found" and writes nothing; otherwise it caches the row under its id and returns it |
| CategoryServices.CategoryService.GetByName | src/services/category-service.ts:35-45 | as `getById`, but the name itself is the cache suffix, and the store lookup is the first category with that name |
| CategoryServices.CategoryService.Create | src/services/category-service.ts:48-58 | inserts `{ id, name }` without a name check; deletes only `all`; the item key is not written |
| CategoryServices.CategoryService.Update | src/services/category-service.ts:60-71 | a missing id fails before any write; otherwise the store receives the old row and so is unchanged; the item key holds the passed data; `all` is untouched; the old row is returned |
| CategoryServices.CategoryService.UpdateWritingData | src/services/category-service.ts:60-71 | corrected update: the store receives `data`, and the cached item equals the stored row |
| CategoryServices.CategoryService.Recache | src/services/category-service.ts:67-68 | delete then `setById` on one id: the item key then holds the data, and every other suffix reads as before |
| CategoryServices.CategoryService.Delete | src/services/category-service.ts:73-78 | removes the row, present or not; deletes the item key and `all` |
| CategoryServices.RepeatedGetById | src/services/category-service.ts:24-33 | a second `getById` returns the same result as the first; after a miss, that result is the store row |
| CategoryServices.UpdateKeepsOldRow | src/services/category-service.ts:65-68 | after `update` with a new name, the cache holds the new name and the store the old one |
| CategoryServices.NameShadowsList | src/services/category-service.ts:35-45 | `getByName("all")` on a miss puts one category under `all`, and the next `getAll` returns it in place of the list |
| ContactServices.ContactService.constructor | src/services/contact-service.ts:8-13 | holds the given repository state and cache |
| ContactServices.ContactService.GetAll | src/services/contact-service.ts:15-24 | a hit returns the cached value and writes nothing; a miss caches the store listing under `all` and returns it |
| ContactServices.ContactService.GetById | src/services/contact-service.ts:26-35 | a hit returns the cached value; a miss with no row fails with "Contact not found" and writes nothing; otherwise it caches the row under its id |
| ContactServices.ContactService.Create | src/services/contact-service.ts:38-54 | succeeds exactly when no contact has the email, so the category id is not checked; on conflict, "Contact already exists" and no change; on success, adds `{ id, ...data }`, sets the item key and leaves `all` untouched |
| ContactServices.ContactService.Update | src/services/contact-service.ts:57-69 | a missing id fails with "Category not found" and writes nothing; otherwise it stores `data` verbatim with no merge and no email check; the item key holds `data`; `all` is untouched |
| ContactServices.ContactService.Recache | src/services/contact-service.ts:65-66 | delete then `setById` on one id: the item key then holds the data, and every other suffix reads as before |
| ContactServices.ContactService.Delete | src/services/contact-service.ts:71-76 | the store is unchanged; the item key and `all` are absent afterwards |
| ContactServices.ContactService.DeleteFromStore | src/services/contact-service.ts:71-76 | corrected delete: the row leaves the store as well as the cache |
| ContactServices.DeletedContactReappears | src/services/contact-service.ts:71-76 | after `delete`, `getById` still returns the row and caches it again |
| ContactServices.DeletedContactIsGone | src/services/contact-service.ts:26-31 | after the corrected delete, `getById` fails with "Contact not found" |
| ContactServices.CreateLeavesListStale | src/services/contact-service.ts:52 | after `create` with `all` warm, `getAll` returns the list cached before the contact was created |
| RedisClients.RedisClient.constructor | src/config/redis-client.ts:3 | the client over the given keyspace |
| RedisClients.RedisClient.Get | src/functions/cache/get-cache-data-or-set.ts:7-9 | `if (cachedData)`: a missing key or an empty string is a miss; otherwise the stored value |
| RedisClients.RedisClient.Set | src/functions/cache/get-cache-data-or-set.ts:15-20 | the key then holds the value; nothing else changes |
| RedisClients.RedisClient.Del | src/functions/cache/revalidate-cache.ts:4 | the key is absent afterwards; nothing else changes |
| CacheFunctions.GetCacheDataOrSet | src/functions/cache/get-cache-data-or-set.ts:3-23 | a hit returns the cached value, skips the callback and writes nothing; a miss runs the callback once and stores its result under `key` only |
| CacheFunctions.Truthy | src/functions/cache/revalidate-cache.ts:6 | `if (value)`: every JSON value is truthy except null, `false`, `0` and the empty string |
| CacheFunctions.RevalidateCacheOrDelete | src/functions/cache/revalidate-cache.ts:3-14 | with a truthy value, the key then holds it; otherwise the key is absent; no other key changes |
| CacheFunctions.GetCacheDataOrSetTwice | src/functions/cache/get-cache-data-or-set.ts:3-23 | two calls with one key run the callback at most once and return the same data |
| CacheFunctions.RevalidateTwice | src/functions/cache/revalidate-cache.ts:3-14 | calling it twice with the same arguments has the effect of calling it once |
| ContactRoute.Merge | src/routes/contact.route.ts:173 | `Object.assign({}, contact, body)`: supplied fields override; the others and the id are kept |
| ContactRoute.MergeEmpty | src/routes/contact.route.ts:173 | an empty body leaves the contact unchanged |
| ContactRoute.MergeIdempotent | src/routes/contact.route.ts:173 | merging the same body twice is the same as merging it once |
| ContactRoute.MergeFull | src/routes/contact.route.ts:173 | a body with every field keeps only the id of the old contact |
| ContactRoute.ItemKey | src/routes/contact.route.ts:59 | `${CONTACT_KEY}${params.id}`: the key is `contact:` followed by exactly the id |
| ContactRoute.ItemKeys | src/routes/contact.route.ts:59 | item keys are equal if and only if the ids are equal, and no item key is the list key |
| ContactRoute.EmailTaken | src/routes/contact.route.ts:163-170 | PUT's conflict: the body's email is given, non-empty and held by some stored contact |
| ContactRoute.EmailTakenByOther | src/routes/contact.route.ts:163-170 | the corrected conflict: the body's email is given, non-empty and held by a stored contact other than `id` |
| ContactRoute.OthersHoldEmail | src/routes/contact.route.ts:163-170 | the store without `id` holds the email exactly when some other contact has it |
| ContactRoute.DeleteBoth | src/routes/contact.route.ts:177-180 | both deletes together leave the item key and the list key absent, and nothing else changed |
| ContactRoute.ContactRoutes.constructor | src/routes/contact.route.ts:11-16 | the route handlers over the given contact store and Redis client |
| ContactRoute.ContactRoutes.GetAll | src/routes/contact.route.ts:19-36 | a hit on `list:contact` returns the cached list with no store call; a miss caches the store listing there and returns it |
| ContactRoute.ContactRoutes.GetById | src/routes/contact.route.ts:58-79 | a hit returns the cached value; with no row, 404 "Contact not found" and no write; otherwise it caches the row under `contact:` + id |
| ContactRoute.ContactRoutes.Post | src/routes/contact.route.ts:101-118 | a taken email gives 409 "Email already taken" with no store write and the list key intact; otherwise it deletes the list key and saves `{ id, ...body }` |
| ContactRoute.ContactRoutes.Put | src/routes/contact.route.ts:156-183 | a missing id gives 404 with no writes; a non-empty email held by any contact, itself included, gives 409 with no writes; otherwise it stores the merge and deletes the item and list keys |
| ContactRoute.ContactRoutes.EmailCheck | src/routes/contact.route.ts:163-170 | the email look-up of PUT reports a conflict exactly when `EmailTaken` holds; nothing is written |
| ContactRoute.ContactRoutes.PutIgnoringSelf | src/routes/contact.route.ts:163-171 | corrected PUT: only an email held by a different contact conflicts |
| ContactRoute.ContactRoutes.Delete | src/routes/contact.route.ts:227-236 | removes the row, with no error when absent; deletes the item key and the list key |
| ContactRoute.PutOwnEmailConflicts | src/routes/contact.route.ts:163-170 | a PUT that supplies a contact's own non-empty email is refused with 409 |
| ContactRoute.PutOwnEmailAccepted | src/routes/contact.route.ts:163-170 | with the corrected check, keeping one's own unique email succeeds |
| ResourceNotFound.NewResourceNotFoundError | src/services/errors/resource-not-found.ts:1-8 | name is always "NotFoundError"; the message always ends in " not found"; a non-empty resource is the start of the message |
| ResourceNotFound.FalsyResourceIsDefault | src/services/errors/resource-not-found.ts:3 | an undefined or empty resource gives "Resource not found" |
| ResourceNotFound.MessageNamesResource | src/services/errors/resource-not-found.ts:3 | for a non-empty resource, the message is `resource + " not found"`: the resource is the message minus its suffix |
| ResourceNotFound.MessagesOfResources | src/services/errors/resource-not-found.ts:3 | two non-empty resources give the same message if and only if they are equal |
| ResourceNotFound.ResourceIsDefault | src/services/errors/resource-not-found.ts:3 | the resource "Resource" gives the same error as no resource |

## Left out

- Postgres repositories: their SQL is a foreign call. Their stores are modelled as the insertion-ordered table, so the following are not modelled:
  - `ORDER BY name` listings;
  - `LIKE` pattern matching in `findByName`;
  - the joined `ContactWithCategory` read shape, which is identified with `Contact`;
  - the `category_id`/`categoryId` column naming of the raw rows (see the `ContactRoute.ContactRoutes.Put` line below).
- ContactRoute.ContactRoutes.Put: the merge keeps the old contact's `categoryId`. In the source, `findById` (postgres-contact.repository.ts:44) selects the raw column `category_id`. So the merged object at contact.route.ts:173 has no `categoryId` unless the body supplies one. `update` (postgres-contact.repository.ts:81) then reads `categoryId` as undefined and writes that to the row. `ContactRoute.Merge` keeps the old `categoryId` instead.
- Failures of store and cache calls (connectivity errors, the "Failed to create/update" throws): every collaborator call is taken to succeed.
- TTL: no clock is observable, so every entry is unexpired. The TTL constants are kept in `CacheKeys`.
- JSON: the `JSON.stringify`/`JSON.parse` round trip is taken to be the identity. Only the empty string a key may hold is kept, as `Raw.Blank`.
- Id generation (`randomUUIDv7`): the new id is a parameter, with a precondition that it is not already in the store.
- Concurrency: the `Promise.all` pairs of deletes run one after the other (`ContactRoute.DeleteBoth`). Interleavings between requests are not modelled.
- HTTP plumbing: status codes on success (201, 204), the request schemas and extra body properties. `Reply` keeps only the error status codes and the bodies.
- Category id validation: `create` never checks `categoryId` (the `// TODO: Validate category id` at contact-service.ts:44); `ContactServices.ContactService.Create` shows that the outcome does not depend on it.
- CacheFunctions.GetCacheDataOrSet: the callback is represented by the value it resolves to; a callback resolving to `undefined` is not modelled.
- CacheFunctions.Truthy: JSON numbers are integers, so `NaN` and `-0` are not modelled.
- Stubs with no behaviour: `src/services/contact.service.ts`, the seeded in-memory contact repository and the `it.todo` spec files.

## Findings

| source | as written | input that shows it | evidently intended | confidence | as-written member | corrected member |
|---|---|---|---|---|---|---|
| src/services/category-service.ts:65 | `update` passes the row it just read (`categoryToUpdate`) to the store, so the new data is never persisted, yet the cache holds the new data | store `{c1: {id: "c1", name: "A"}}`, `update({id: "c1", name: "B"})`: the store keeps "A" and `getById("c1")` serves "B" | persist `data` | high; not executed | CategoryServices.UpdateKeepsOldRow | CategoryServices.CategoryService.UpdateWritingData |
| src/services/contact-service.ts:72 | `delete` deletes the cache key twice and never calls the repository | store with contact `t1`, `delete("t1")` then `getById("t1")`: the contact is returned and cached again | `contactRepository.delete(id)` as the first step | high; not executed | ContactServices.DeletedContactReappears | ContactServices.ContactService.DeleteFromStore |
| src/routes/contact.route.ts:163-170 | PUT refuses any email that some contact has, including the contact being updated | contact `t1` with email `a@x.com`, `PUT /t1 {email: "a@x.com"}`: 409 "Email already taken" | conflict only with a different contact | medium; not executed | ContactRoute.PutOwnEmailConflicts | ContactRoute.ContactRoutes.PutIgnoringSelf |
