/**
 * The app's built-in sample listings and the three list helpers over them:
 * the list sorted by creation time on a copy, the lookup by id, and the
 * "similar vehicles" strip (the other listings, at most four).
 */
module MockVehicles {
  import opened Wrappers
  import opened Text
  import Lists

  /** The app's `Vehicle` record; `phone` is optional. */
  datatype MockVehicle = MockVehicle(
    id: string,
    title: string,
    year: int,
    mileage: int,
    price: int,
    location: string,
    phone: Option<string>,
    imageUrl: string,
    expirationDate: string,
    fuelType: string,
    transmission: string,
    power: string,
    bodyType: string,
    color: string,
    doors: int,
    seats: int,
    previousOwners: int,
    description: string,
    createdAt: string)

  /** `mockVehicles`. */
  const MockList: seq<MockVehicle> := [
    MockVehicle(
      "auto-12345678", "BMW 320d xDrive Touring M Sport",
      2021, 45000, 38900, "Wien", Some("+43 664 1234567"),
      "https://images.unsplash.com/photo-1555215695-3004980ad54e?w=400&h=400&fit=crop",
      "2025-01-15", "Diesel", "Automatik", "190 PS", "Kombi", "Schwarz Metallic",
      5, 5, 1,
      "Gepflegter BMW mit voller Ausstattung, Serviceheft, Nichtraucher.",
      "2024-12-01T10:30:00Z"),
    MockVehicle(
      "auto-23456789", "Audi A4 Avant 2.0 TDI quattro",
      2020, 62000, 32500, "Graz", Some("+43 699 2345678"),
      "https://images.unsplash.com/photo-1606664515524-ed2f786a0bd6?w=400&h=400&fit=crop",
      "2025-01-20", "Diesel", "Automatik", "150 PS", "Kombi", "Grau Metallic",
      5, 5, 2,
      "S-Line Paket, LED Scheinwerfer, Navigationssystem.",
      "2024-11-30T14:15:00Z"),
    MockVehicle(
      "auto-34567890", "Mercedes-Benz C 220 d AMG Line",
      2022, 28000, 45900, "Salzburg", None,
      "https://images.unsplash.com/photo-1618843479313-40f8afb4b4d8?w=400&h=400&fit=crop",
      "2025-02-01", "Diesel", "Automatik", "200 PS", "Limousine", "Weiß",
      4, 5, 1,
      "AMG Line, Panoramadach, 360° Kamera, Top Zustand.",
      "2024-11-29T09:00:00Z"),
    MockVehicle(
      "auto-45678901", "Volkswagen Golf 8 GTI",
      2023, 15000, 41000, "Linz", Some("+43 660 4567890"),
      "https://images.unsplash.com/photo-1471444928139-48c5bf5173f8?w=400&h=400&fit=crop",
      "2025-01-25", "Benzin", "DSG", "245 PS", "Hatchback", "Rot",
      5, 5, 1,
      "Wie neu, Werksgarantie, alle Extras.",
      "2024-11-28T16:45:00Z"),
    MockVehicle(
      "auto-56789012", "Skoda Octavia RS Combi",
      2021, 55000, 29900, "Innsbruck", Some("+43 676 5678901"),
      "https://images.unsplash.com/photo-1549317661-bd32c8ce0db2?w=400&h=400&fit=crop",
      "2025-01-18", "Benzin", "DSG", "245 PS", "Kombi", "Blau Metallic",
      5, 5, 1,
      "RS Paket, Canton Soundsystem, Matrix LED.",
      "2024-11-27T11:20:00Z"),
    MockVehicle(
      "auto-67890123", "Porsche 911 Carrera S",
      2019, 32000, 129000, "Wien", None,
      "https://images.unsplash.com/photo-1503376780353-7e6692767b70?w=400&h=400&fit=crop",
      "2025-02-10", "Benzin", "PDK", "450 PS", "Coupe", "Silber Metallic",
      2, 4, 2,
      "Sport Chrono Paket, Keramik Bremsen, Vollausstattung.",
      "2024-11-26T08:30:00Z"),
    MockVehicle(
      "auto-78901234", "Toyota RAV4 Hybrid AWD",
      2022, 25000, 39500, "Klagenfurt", Some("+43 664 7890123"),
      "https://images.unsplash.com/photo-1581540222194-0def2dda95b8?w=400&h=400&fit=crop",
      "2025-01-30", "Hybrid", "CVT", "222 PS", "SUV", "Grün Metallic",
      5, 5, 1,
      "Style Selection, JBL Sound, Adaptiver Tempomat.",
      "2024-11-25T13:00:00Z"),
    MockVehicle(
      "auto-89012345", "Tesla Model 3 Long Range",
      2023, 18000, 42900, "Wien", None,
      "https://images.unsplash.com/photo-1560958089-b8a1929cea89?w=400&h=400&fit=crop",
      "2025-02-05", "Elektro", "Automatik", "491 PS", "Limousine", "Weiß",
      4, 5, 1,
      "Autopilot, Premium Interieur, Supercharger kostenlos.",
      "2024-11-24T15:30:00Z")
  ]

  /**
   * The sort key standing for `new Date(createdAt).getTime()`: the digits of
   * the timestamp read as one decimal number, which orders timestamps of the
   * form `YYYY-MM-DDTHH:MM:SSZ` as time does.
   */
  function CreatedKey(v: MockVehicle): int {
    DecimalValue(Keep(v.createdAt, IsDigit))
  }

  /**
   * `getSortedVehicles`: a copy of the list, latest `createdAt` first. The
   * list itself is a constant, so sorting the copy leaves it as it is.
   */
  function GetSortedVehicles(): (r: seq<MockVehicle>)
    ensures Lists.SortedDesc(r, CreatedKey)
    ensures multiset(r) == multiset(MockList)
    ensures |r| == |MockList|
  {
    var r := Lists.SortDesc(MockList, CreatedKey);
    assert |r| == |multiset(r)|;
    r
  }

  /** Listings created at the same moment keep their list order in the sorted copy. */
  lemma GetSortedVehiclesStable(k: int)
    ensures Lists.Filter(GetSortedVehicles(), Lists.KeyIs(CreatedKey, k)) == Lists.Filter(MockList, Lists.KeyIs(CreatedKey, k))
  {
    Lists.SortDescStable(MockList, CreatedKey, k);
  }

  function IdIs(id: string): MockVehicle -> bool {
    (v: MockVehicle) => v.id == id
  }

  function IdIsNot(id: string): MockVehicle -> bool {
    (v: MockVehicle) => v.id != id
  }

  /** `getVehicleById`, over any list: the first listing with that id, or none (`undefined`). */
  function FirstById(vehicles: seq<MockVehicle>, id: string): (r: Option<MockVehicle>)
    ensures r.None? <==> forall i :: 0 <= i < |vehicles| ==> vehicles[i].id != id
    ensures r.Some? ==>
      exists i ::
        0 <= i < |vehicles| && vehicles[i] == r.value && r.value.id == id
        && forall j :: 0 <= j < i ==> vehicles[j].id != id
  {
    var r := Lists.Find(vehicles, IdIs(id));
    if r.Some? then
      var i :| 0 <= i < |vehicles| && vehicles[i] == r.value && IdIs(id)(vehicles[i]) && Lists.FirstAt(vehicles, IdIs(id), i);
      assert forall j :: 0 <= j < i ==> !IdIs(id)(vehicles[j]);
      r
    else
      r
  }

  /** `getVehicleById` on the sample list. */
  function GetVehicleById(id: string): Option<MockVehicle> {
    FirstById(MockList, id)
  }

  /** The most listings the similar-vehicles strip shows. */
  const SimilarLimit: nat := 4

  /**
   * `getSimilarVehicles`, over any list: the listings whose id differs from
   * `currentId`, in list order, cut to the first four.
   */
  function SimilarIn(vehicles: seq<MockVehicle>, currentId: string): (r: seq<MockVehicle>)
    ensures |r| <= SimilarLimit
    ensures forall i :: 0 <= i < |r| ==> r[i].id != currentId && r[i] in vehicles
    ensures var others := Lists.Filter(vehicles, IdIsNot(currentId));
      |r| == (if |others| < SimilarLimit then |others| else SimilarLimit) && r == others[..|r|]
  {
    Lists.FilterMembers(vehicles, IdIsNot(currentId));
    Lists.Take(Lists.Filter(vehicles, IdIsNot(currentId)), SimilarLimit)
  }

  /** `getSimilarVehicles` on the sample list. */
  function GetSimilarVehicles(currentId: string): seq<MockVehicle> {
    SimilarIn(MockList, currentId)
  }

  /** For an id the list does not hold, the strip is the first four listings. */
  lemma SimilarForUnknownId(vehicles: seq<MockVehicle>, currentId: string)
    requires forall i :: 0 <= i < |vehicles| ==> vehicles[i].id != currentId
    ensures SimilarIn(vehicles, currentId) == if |vehicles| < SimilarLimit then vehicles else vehicles[..SimilarLimit]
  {
    Lists.FilterAll(vehicles, IdIsNot(currentId));
  }
}
