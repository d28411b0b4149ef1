# Countries of the World: generic repository and continent service

This project models the data-access core of a small reference-data backend
(continents and countries) and proves properties of that model.

- **Generic repository** (`Repositories.GenericRepository<T>`). It holds a
  store of records in store order, with unique keys given by each entity's
  `Id`. It also holds an append-only change set. `Add`, `AddRange`,
  `Update`, `Remove` and `RemoveRange` only stage changes. Committing them is
  the data store's job and is not modelled. The queries are functions over
  the store: `Find` (filter by a predicate), `GetAll`, the paged `GetAll`
  (named `GetAllPaged`, because Dafny has no overloading) and `GetById`
  (a lookup that may return nothing).
- **Query semantics** (`Queries`). Lookup by key, filtering, and LINQ
  `Skip`/`Take` paging are written as functions over sequences. Lemmas say
  how these behave over one fixed store order: a page is a contiguous slice
  of that order, pages laid end to end cover it, and each record sits on a
  known page at a known position. The source pages without `OrderBy`, so
  these facts hold for the repository only when the database returns the
  same order to every query (see "## Left out").
- **Continent service** (`Services.ContinentService`). It holds the
  repository as a read-only field. A lookup that misses becomes
  `NotFound(message)`, the model of `KeyNotFoundException`. An update or a
  delete is staged only after the entity's `Id` was found, and what gets
  staged is the caller's value. Adding has no check at all. The methods
  `LookupScenarios`, `UpdateScenarios`, `DeleteScenarios` and `AddScenarios`
  replay the scenarios of `backend/Tests/UnitTests/CountryServiceTests.cs`
  for continents, as assertions over a store that holds continent 9.

Modelling decisions:

- An exception thrown by a service method becomes a returned value:
  `Result<R>` for `GetContinentById`, and `Outcome` (`Done | Failed`) for the
  `void` methods.
- A null returned by `FindAsync` becomes `Option.None`.
- LINQ expression trees `Expression<Func<T, bool>>` become Dafny functions
  `T -> bool`.
- `async` methods and the blocking `.Result` waits become plain synchronous
  calls. The data store collaborator becomes plain fields: `records` for
  the stored rows and `staged` for the change set.
- The paged query requires `pageIndex >= 1` and `pageSize >= 1`. It also
  requires the offset `(pageIndex - 1) * pageSize` to fit in a C# `int`.
  The source does not define its behaviour outside these bounds.
- The model follows the code on two points that look unintended. The total
  of the paged query counts every record, and `search` is accepted but
  ignored. `GetAll` returns records in store order, with no
  sorting applied.

## Model

| member | source | states |
|---|---|---|
| Repositories.GenericRepository.constructor | backend/Infrastructure/Repositories/GenericRepository.cs:8-10 | the repository starts over the given store, with unique keys and an empty change set |
| Repositories.GenericRepository.Add | backend/Infrastructure/Repositories/GenericRepository.cs:12-15 | appends exactly one `Added` change carrying the given entity; the stored records are unchanged; no check that the key is new |
| Repositories.StageEach | backend/Infrastructure/Repositories/GenericRepository.cs:17-20 | the staged form of a range: one change per entity, position k holding entity k, of the given kind |
| Repositories.GenericRepository.AddRange | backend/Infrastructure/Repositories/GenericRepository.cs:17-20 | calls `Add` once per entity in input order, so the change set grows by one `Added` change per element, in order; the store is unchanged |
| Queries.Filter | backend/Infrastructure/Repositories/GenericRepository.cs:22-25 | every result satisfies the predicate and is a stored record; every stored record that satisfies it is in the result; the result is no longer than the store |
| Queries.FilterConcat | backend/Infrastructure/Repositories/GenericRepository.cs:22-25 | filtering a concatenation is concatenating the filtered parts, so the result keeps store order |
| Queries.FilterSingleton | backend/Infrastructure/Repositories/GenericRepository.cs:22-25 | a single record is kept exactly when it satisfies the predicate |
| Repositories.GenericRepository.Find | backend/Infrastructure/Repositories/GenericRepository.cs:22-25 | returns exactly the stored records satisfying the predicate, as `Filter` of the store |
| Repositories.GenericRepository.GetAll | backend/Infrastructure/Repositories/GenericRepository.cs:27-30 | returns every stored record, position by position, and stages nothing (it is a function of the store) |
| Queries.Skip | backend/Infrastructure/Repositories/GenericRepository.cs:39 | for a non-negative count, drops that many leading records (all of them if the count exceeds the length), keeping the rest in order |
| Queries.Take | backend/Infrastructure/Repositories/GenericRepository.cs:40 | keeps the first `min(n, length)` records, and none when `n <= 0` |
| Queries.PageStart | backend/Infrastructure/Repositories/GenericRepository.cs:39 | the page offset `(pageIndex - 1) * pageSize` is never negative for valid page arguments |
| Queries.Page | backend/Infrastructure/Repositories/GenericRepository.cs:38-41 | page length is `min(pageSize, max(0, n - (pageIndex - 1) * pageSize))`, and item k is record `(pageIndex - 1) * pageSize + k` |
| Queries.PageIsSlice | backend/Infrastructure/Repositories/GenericRepository.cs:38-41 | a page that starts past the end is empty; otherwise it is the contiguous slice from its offset to at most `pageSize` further |
| Queries.PagesCoverPrefix | backend/Infrastructure/Repositories/GenericRepository.cs:38-41 | pages 1 to `count`, laid end to end, are exactly the first `count * pageSize` records (all of them when that passes the end): no gaps, no overlaps |
| Queries.PageOfIndex | backend/Infrastructure/Repositories/GenericRepository.cs:38-41 | record i appears on page `i / pageSize + 1` at position `i % pageSize` |
| Queries.PageScenario | backend/Infrastructure/Repositories/GenericRepository.cs:32-45 | with 25 records, page 2 of size 10 is records 10 to 19 |
| Repositories.GenericRepository.GetAllPaged | backend/Infrastructure/Repositories/GenericRepository.cs:32-45 | the total is the count of all stored records whatever `search` is; the page has the length and items of `Skip((pageIndex - 1) * pageSize).Take(pageSize)` |
| Queries.FindByKey | backend/Infrastructure/Repositories/GenericRepository.cs:47-50 | a result is a stored record with that key; the result is none exactly when no stored record has the key |
| Queries.FindByKeyUnique | backend/Infrastructure/Repositories/GenericRepository.cs:47-50 | when keys are unique, the lookup returns exactly the stored record holding the key |
| Repositories.GenericRepository.GetById | backend/Infrastructure/Repositories/GenericRepository.cs:47-50 | returns the stored record with the key, or none when there is none (a miss is not an error); with unique keys it is exactly that record |
| Repositories.GenericRepository.Remove | backend/Infrastructure/Repositories/GenericRepository.cs:52-55 | appends exactly one `Removed` change carrying the given entity; the stored records are unchanged |
| Repositories.GenericRepository.RemoveRange | backend/Infrastructure/Repositories/GenericRepository.cs:57-60 | stages one `Removed` change per entity, in input order; the store is unchanged |
| Repositories.GenericRepository.Update | backend/Infrastructure/Repositories/GenericRepository.cs:62-66 | appends exactly one `Updated` change carrying the given entity; the stored records are unchanged |
| Services.ContinentService.constructor | backend/Core/Services/ContinentService.cs:14-19 | the service keeps the repository it is given, which is keyed by `Continent.Id` |
| Services.ContinentService.GetContinentById | backend/Core/Services/ContinentService.cs:21-30 | succeeds exactly when a stored continent has the id, and then returns that continent; otherwise fails with `NotFound("Continent not found")` and returns no value |
| Services.ContinentService.GetAllContinents | backend/Core/Services/ContinentService.cs:32-35 | returns the repository's full list unchanged, element by element, with no failure case, even when the list is empty |
| Services.ContinentService.AddContinent | backend/Core/Services/ContinentService.cs:37-40 | stages the continent unconditionally as one `Added` change; there is no failure case |
| Services.ContinentService.AddContinentRange | backend/Core/Services/ContinentService.cs:42-45 | stages every continent, in order, with no existence check and no failure case |
| Services.ContinentService.UpdateContinent | backend/Core/Services/ContinentService.cs:47-55 | succeeds exactly when the id is stored, and then stages one `Updated` change with the caller's value, not the stored one; otherwise fails with `NotFound("Continent to update not found")` and stages nothing; the store never changes |
| Services.ContinentService.DeleteContinent | backend/Core/Services/ContinentService.cs:57-65 | succeeds exactly when the id is stored, and then stages one `Removed` change with the caller's entity; otherwise fails with `NotFound("Continent to delete not found")` and stages nothing |

## Left out

- Commit (`SaveChanges`) and durability belong to the persistence layer, which is not part of this model. So is the step from staged changes to stored records.
- EF Core's change tracker is reduced to an append-only log. These EF Core behaviours are not modelled:
  - `FindAsync` also returns entities that are tracked but not yet saved.
  - `Add`/`Update`/`Remove` throw when a different instance with the same key is already tracked.
  - `Update` of an entity with no key marks it as added.
- Queries.PagesCoverPrefix: the model fixes one store order, shared by every query (the count, each page, `GetAll`, `Find`). The paged query runs `Skip`/`Take` with no `OrderBy` and counts in a separate query, so the database may order each call differently. This lemma, `Queries.PageIsSlice` and `Queries.PageOfIndex` (no gaps, no overlaps, record i on page `i / pageSize + 1`) hold only for that fixed order.
- Queries.PageOfIndex, Queries.PageIsSlice: as above, they describe one fixed order, not a guarantee of the source.
- Services.ContinentService.UpdateContinent: the service's field is an `IContinentRepository`, whose implementation is not part of this model. The model takes it to be the plain `GenericRepository<Continent>`, although every repository member is `virtual` and could be overridden. Under EF Core, the lookup through `FindAsync` starts tracking the stored instance. A following `Update` of a different instance with the same `Id`, which is what a caller-built continent is, would then throw `InvalidOperationException` instead of staging. The model's success path follows the abstract repository contract the unit tests use, not that EF Core behaviour. This is a reading of EF Core's documented behaviour; nothing was executed.
- Services.ContinentService.DeleteContinent: the same two gaps as `UpdateContinent`, with `Remove` in place of `Update`.
- Null arguments (a null entity or a null range) and the store-level exceptions the source passes through unchanged (connectivity, constraint violations, concurrency conflicts) are not modelled.
- `async`/`await`, `Task` and the blocking `.Result` calls are modelled as synchronous calls.
- The race between the existence check and the staged update of two concurrent callers is a concurrency matter, outside a sequential model.
- `Find` returns a lazy `IQueryable` in the source. The model returns the materialized sequence.
- Repositories.GenericRepository.GetAllPaged: requires `pageIndex >= 1`, `pageSize >= 1` and an offset that fits in 32 bits, because the code defines no behaviour outside these bounds. It does not model `CountAsync` overflowing past `int` range.
- The Country entity and `CountryService` are not part of this model. Their tests serve only as scenarios, replayed for continents.
- HTTP controllers, dependency-injection wiring, the schema and migrations, and the Moq test harness are outside the modelled core.
