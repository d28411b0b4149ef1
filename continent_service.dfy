/**
  The continent service: a thin layer over the continent repository that
  turns a missed lookup into a NotFound failure, and stages an update or a
  removal only after the entity's `Id` was found.
 */
module Services {
  import opened Wrappers
  import opened Entities
  import opened Queries
  import opened Repositories

  /** The one failure this layer signals (a KeyNotFoundException with its message). */
  datatype ServiceError = NotFound(message: string)

  /** The outcome of a lookup: the value, or the failure raised instead. */
  datatype Result<R> = Ok(value: R) | Err(error: ServiceError)

  /** The outcome of an operation that returns nothing. */
  datatype Outcome = Done | Failed(error: ServiceError)

  const ContinentNotFound: string := "Continent not found"
  const ContinentToUpdateNotFound: string := "Continent to update not found"
  const ContinentToDeleteNotFound: string := "Continent to delete not found"

  class ContinentService {
    const continentRepository: GenericRepository<Continent>

    /** The repository is keyed by `Continent.Id` and its primary key is unique. */
    ghost predicate Valid()
      reads continentRepository
    {
      && continentRepository.Valid()
      && forall c: Continent :: continentRepository.IdOf(c) == c.Id
    }

    /** True when the repository holds a continent whose key is `id`. */
    ghost predicate Exists(id: int)
      reads continentRepository
    {
      exists c :: c in continentRepository.records && c.Id == id
    }

    constructor (repository: GenericRepository<Continent>)
      requires repository.Valid()
      requires forall c: Continent :: repository.IdOf(c) == c.Id
      ensures continentRepository == repository
      ensures Valid()
    {
      continentRepository := repository;
    }

    /** The stored continent with key `id`; a miss fails with "Continent not found". */
    function GetContinentById(id: int): (r: Result<Continent>)
      requires Valid()
      reads continentRepository
      ensures r.Ok? <==> Exists(id)
      ensures forall c :: c in continentRepository.records && c.Id == id ==> r == Ok(c)
      ensures r.Err? ==> r.error == NotFound(ContinentNotFound)
    {
      match continentRepository.GetById(id)
      case None => Err(NotFound(ContinentNotFound))
      case Some(c) => Ok(c)
    }

    /** Every stored continent, with no failure case (the list may be empty). */
    function GetAllContinents(): (r: seq<Continent>)
      reads continentRepository
      ensures |r| == |continentRepository.records|
      ensures forall k :: 0 <= k < |r| ==> r[k] == continentRepository.records[k]
    {
      continentRepository.GetAll()
    }

    /** Stages `continent` for insertion, with no existence check. */
    method AddContinent(continent: Continent)
      requires Valid()
      modifies continentRepository
      ensures Valid()
      ensures continentRepository.records == old(continentRepository.records)
      ensures continentRepository.staged == old(continentRepository.staged) + [Change(Added, continent)]
    {
      continentRepository.Add(continent);
    }

    /** Stages every continent for insertion, in order, with no existence check. */
    method AddContinentRange(continents: seq<Continent>)
      requires Valid()
      modifies continentRepository
      ensures Valid()
      ensures continentRepository.records == old(continentRepository.records)
      ensures continentRepository.staged == old(continentRepository.staged) + StageEach(Added, continents)
    {
      continentRepository.AddRange(continents);
    }

    /**
      Stages the caller's `continent` as an update when its `Id` is stored;
      otherwise fails with "Continent to update not found" and stages nothing.
     */
    method UpdateContinent(continent: Continent) returns (r: Outcome)
      requires Valid()
      modifies continentRepository
      ensures Valid()
      ensures continentRepository.records == old(continentRepository.records)
      ensures r.Done? <==> Exists(continent.Id)
      ensures r.Done? ==>
        continentRepository.staged == old(continentRepository.staged) + [Change(Updated, continent)]
      ensures r.Failed? ==>
        r.error == NotFound(ContinentToUpdateNotFound) &&
        continentRepository.staged == old(continentRepository.staged)
    {
      var existingContinent := continentRepository.GetById(continent.Id);
      if existingContinent.None? {
        return Failed(NotFound(ContinentToUpdateNotFound));
      }
      continentRepository.Update(continent);
      r := Done;
    }

    /**
      Stages the caller's `continent` for removal when its `Id` is stored;
      otherwise fails with "Continent to delete not found" and stages nothing.
     */
    method DeleteContinent(continent: Continent) returns (r: Outcome)
      requires Valid()
      modifies continentRepository
      ensures Valid()
      ensures continentRepository.records == old(continentRepository.records)
      ensures r.Done? <==> Exists(continent.Id)
      ensures r.Done? ==>
        continentRepository.staged == old(continentRepository.staged) + [Change(Removed, continent)]
      ensures r.Failed? ==>
        r.error == NotFound(ContinentToDeleteNotFound) &&
        continentRepository.staged == old(continentRepository.staged)
    {
      var existingContinent := continentRepository.GetById(continent.Id);
      if existingContinent.None? {
        return Failed(NotFound(ContinentToDeleteNotFound));
      }
      continentRepository.Remove(continent);
      r := Done;
    }
  }

  /** A service over a store that holds only `stored`, with nothing staged. */
  method ServiceOver(stored: Continent) returns (service: ContinentService)
    ensures service.Valid()
    ensures service.continentRepository.records == [stored]
    ensures service.continentRepository.staged == []
    ensures fresh(service.continentRepository)
  {
    var repository := new GenericRepository<Continent>(ContinentId, [stored]);
    service := new ContinentService(repository);
  }

  /** The lookup scenarios of the unit tests, on a store holding continent 9. */
  method LookupScenarios()
  {
    var stored := Continent(9, "Continent1");
    var service := ServiceOver(stored);
    assert service.GetContinentById(9) == Ok(stored);
    assert !service.Exists(999);
    assert service.GetContinentById(999) == Err(NotFound("Continent not found"));
    assert service.GetAllContinents() == [stored];
  }

  /** The update scenarios: a stored key stages the caller's value, a missing one fails. */
  method UpdateScenarios()
  {
    var service := ServiceOver(Continent(9, "Continent1"));
    var renamed := Continent(9, "NewContinent1");
    var r := service.UpdateContinent(renamed);
    assert r == Done;
    assert service.continentRepository.staged == [Change(Updated, renamed)];

    r := service.UpdateContinent(Continent(999, "NonExistingContinent"));
    assert r == Failed(NotFound("Continent to update not found"));
    assert service.continentRepository.staged == [Change(Updated, renamed)];
  }

  /** The delete scenarios: a stored key stages the caller's value, a missing one fails. */
  method DeleteScenarios()
  {
    var service := ServiceOver(Continent(9, "Continent1"));
    var given := Continent(9, "NewContinent1");
    var r := service.DeleteContinent(given);
    assert r == Done;
    assert service.continentRepository.staged == [Change(Removed, given)];

    r := service.DeleteContinent(Continent(999, "NonExistingContinent"));
    assert r == Failed(NotFound("Continent to delete not found"));
    assert service.continentRepository.staged == [Change(Removed, given)];
  }

  /** The insertion scenarios: both continents are staged, in order, and the store is untouched. */
  method AddScenarios()
  {
    var stored := Continent(9, "Continent1");
    var service := ServiceOver(stored);
    service.AddContinentRange([Continent(9, "Continent1"), Continent(13, "Continent2")]);
    assert service.continentRepository.staged ==
      [Change(Added, Continent(9, "Continent1")), Change(Added, Continent(13, "Continent2"))];
    service.AddContinent(Continent(5, "Continent3"));
    assert |service.continentRepository.staged| == 3;
    assert service.continentRepository.records == [stored];
  }
}
