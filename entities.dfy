/** The entity model of the reference-data domain. */
module Entities {

  /** A continent record; `Id` is its primary key (the BaseEntity identity). */
  datatype Continent = Continent(Id: int, Name: string)

  /** The key selector of a continent, the `Id` every BaseEntity carries. */
  function ContinentId(c: Continent): int
  {
    c.Id
  }
}
