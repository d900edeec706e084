/**
 * The search filter bar's state: four free-text price and year bounds and
 * three chip choices, whether any of them is set, the update of one of them,
 * and the chip option lists.
 */
module SearchFilter {

  /** `FilterOptions`. */
  datatype FilterOptions = FilterOptions(
    minPrice: string,
    maxPrice: string,
    minYear: string,
    maxYear: string,
    fuelType: string,
    bodyType: string,
    location: string)

  /** `keyof FilterOptions`. */
  datatype FilterKey = MinPrice | MaxPrice | MinYear | MaxYear | FuelType | BodyType | Location

  /** `filters[key]`. */
  function Get(f: FilterOptions, key: FilterKey): string {
    match key
    case MinPrice => f.minPrice
    case MaxPrice => f.maxPrice
    case MinYear => f.minYear
    case MaxYear => f.maxYear
    case FuelType => f.fuelType
    case BodyType => f.bodyType
    case Location => f.location
  }

  /** The chip value meaning "any". */
  const AnyChoice: string := "Alle"

  /** The value that leaves a field inactive: empty text, or the "any" chip. */
  function DefaultValue(key: FilterKey): string {
    match key
    case MinPrice => ""
    case MaxPrice => ""
    case MinYear => ""
    case MaxYear => ""
    case FuelType => AnyChoice
    case BodyType => AnyChoice
    case Location => AnyChoice
  }

  /** The one filter state with nothing set. */
  const NoFilters: FilterOptions := FilterOptions("", "", "", "", AnyChoice, AnyChoice, AnyChoice)

  /** `hasActiveFilters`: some field differs from its inactive value. */
  function HasActiveFilters(f: FilterOptions): (r: bool)
    ensures !r <==> forall key :: Get(f, key) == DefaultValue(key)
    ensures !r <==> f == NoFilters
  {
    var r :=
      f.minPrice != "" || f.maxPrice != "" || f.minYear != "" || f.maxYear != ""
      || f.fuelType != AnyChoice || f.bodyType != AnyChoice || f.location != AnyChoice;
    assert Get(f, MinPrice) == f.minPrice && Get(f, MaxPrice) == f.maxPrice
      && Get(f, MinYear) == f.minYear && Get(f, MaxYear) == f.maxYear
      && Get(f, FuelType) == f.fuelType && Get(f, BodyType) == f.bodyType && Get(f, Location) == f.location;
    r
  }

  /** `{ ...filters, [key]: value }`: that field takes the value, the others keep theirs. */
  function HandleFilterChange(f: FilterOptions, key: FilterKey, value: string): (r: FilterOptions)
    ensures Get(r, key) == value
    ensures forall other :: other != key ==> Get(r, other) == Get(f, other)
  {
    match key
    case MinPrice => f.(minPrice := value)
    case MaxPrice => f.(maxPrice := value)
    case MinYear => f.(minYear := value)
    case MaxYear => f.(maxYear := value)
    case FuelType => f.(fuelType := value)
    case BodyType => f.(bodyType := value)
    case Location => f.(location := value)
  }

  /**
   * Setting a field to anything but its inactive value makes the filters
   * active; setting it back to that value on otherwise unset filters makes
   * them inactive again.
   */
  lemma ChangeActivates(f: FilterOptions, key: FilterKey, value: string)
    ensures value != DefaultValue(key) ==> HasActiveFilters(HandleFilterChange(f, key, value))
    ensures HandleFilterChange(f, key, value) == NoFilters || HasActiveFilters(HandleFilterChange(f, key, value))
    ensures (forall other :: other != key ==> Get(f, other) == DefaultValue(other)) ==>
      (HasActiveFilters(HandleFilterChange(f, key, value)) <==> value != DefaultValue(key))
  {
  }

  /** Changing a field to the value it already has gives the same filters. */
  lemma ChangeToSameValue(f: FilterOptions, key: FilterKey)
    ensures HandleFilterChange(f, key, Get(f, key)) == f
  {
  }

  /** `FUEL_TYPES`, `BODY_TYPES` and `LOCATIONS`. */
  const FuelTypes: seq<string> := ["Alle", "Benzin", "Diesel", "Elektro", "Hybrid"]
  const BodyTypes: seq<string> := ["Alle", "Limousine", "Kombi", "SUV", "Hatchback", "Coupe"]
  const Locations: seq<string> := ["Alle", "Wien", "Graz", "Salzburg", "Linz", "Innsbruck", "Klagenfurt"]

  predicate IsChip(key: FilterKey) {
    key == FuelType || key == BodyType || key == Location
  }

  /** The options the chip row of a chip field offers. */
  function ChipOptions(key: FilterKey): seq<string>
    requires IsChip(key)
  {
    match key
    case FuelType => FuelTypes
    case BodyType => BodyTypes
    case Location => Locations
  }

  /** Every chip row starts with its field's inactive value, so "any" can always be chosen again. */
  lemma ChipOptionsStartWithDefault(key: FilterKey)
    requires IsChip(key)
    ensures |ChipOptions(key)| > 1 && ChipOptions(key)[0] == DefaultValue(key)
    ensures forall i :: 1 <= i < |ChipOptions(key)| ==> ChipOptions(key)[i] != DefaultValue(key)
  {
  }
}
