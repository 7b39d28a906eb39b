/** The city picker of src/components/shared/citiesSearch.tsx: the list of
    municipalities from the IBGE service, filtered by the typed query. */
module CitySearch {
  import opened Wrappers
  import opened JsText
  import Lists

  /** The nested part of an IBGE municipality record the picker reads:
      `microrregiao.mesorregiao.UF.sigla`, where any level may be absent. */
  datatype Uf = Uf(sigla: Option<string>)
  datatype Mesoregion = Mesoregion(uf: Option<Uf>)
  datatype Microregion = Microregion(mesoregion: Option<Mesoregion>)
  datatype RawCity = RawCity(id: int, nome: string, microregion: Option<Microregion>)

  datatype City = City(id: int, name: string, state: string)

  const MissingState: string := "N/A"

  /** `microrregiao?.mesorregiao?.UF?.sigla`: the state code, if every level
      is there. */
  function StateCode(c: RawCity): (r: Option<string>)
    ensures r.Some? <==>
      c.microregion.Some? && c.microregion.value.mesoregion.Some? &&
      c.microregion.value.mesoregion.value.uf.Some? &&
      c.microregion.value.mesoregion.value.uf.value.sigla.Some?
    ensures r.Some? ==> r.value == c.microregion.value.mesoregion.value.uf.value.sigla.value
  {
    match c.microregion
    case None => None
    case Some(mi) =>
      match mi.mesoregion
      case None => None
      case Some(me) =>
        match me.uf
        case None => None
        case Some(u) => u.sigla
  }

  /** The mapping of one record: id and name kept, the state code or "N/A". */
  function MapCity(c: RawCity): (r: City)
    ensures r.id == c.id && r.name == c.nome
    ensures StateCode(c).Some? ==> r.state == StateCode(c).value
    ensures StateCode(c).None? ==> r.state == MissingState
  {
    City(c.id, c.nome, StateCode(c).GetOr(MissingState))
  }

  function MapCities(raw: seq<RawCity>): (r: seq<City>)
    ensures |r| == |raw| && forall i :: 0 <= i < |raw| ==> r[i] == MapCity(raw[i])
  {
    if raw == [] then [] else [MapCity(raw[0])] + MapCities(raw[1..])
  }

  /** `city.name.toLowerCase().includes(query.toLowerCase())`. */
  predicate Matches(c: City, query: string) {
    Includes(ToLower(c.name), ToLower(query))
  }

  /** The `filter` over the fetched cities: the matching ones, in order. */
  function FilterByName(cities: seq<City>, query: string): (r: seq<City>)
    ensures |r| <= |cities|
    ensures forall c :: c in r <==> c in cities && Matches(c, query)
  {
    Lists.Filter(cities, c => Matches(c, query))
  }

  /** The empty query occurs in every name, so filtering by it keeps every
      city; the list stays hidden until the trimmed query has a character. */
  lemma EmptyQueryMatchesAll(cities: seq<City>)
    ensures FilterByName(cities, "") == cities
  {
    forall c | c in cities
      ensures Matches(c, "")
    {
      assert OccursAt(ToLower(c.name), ToLower(""), 0);
    }
    Lists.FilterKeepsAll(cities, c => Matches(c, ""));
  }

  /** The rendered results: none while the trimmed query is empty or a city
      has been picked, otherwise the matching cities. */
  function Shown(cities: seq<City>, query: string, isSelected: bool): (r: seq<City>)
    ensures Trim(query) == "" || isSelected ==> r == []
    ensures Trim(query) != "" && !isSelected ==> r == FilterByName(cities, query)
  {
    if Trim(query) == "" || isSelected then [] else FilterByName(cities, query)
  }

  /** The label a pick writes into the input: `name + "-" + state`. */
  function SelectionText(c: City): (r: string)
    ensures |r| == |c.name| + 1 + |c.state|
    ensures r[..|c.name|] == c.name && r[|c.name|] == '-' && r[|c.name| + 1..] == c.state
  {
    c.name + "-" + c.state
  }

  class CityPicker {
    var query: string
    var isSelected: bool
    var cities: seq<City>

    constructor ()
      ensures query == "" && !isSelected && cities == []
    {
      query := "";
      isSelected := false;
      cities := [];
    }

    /** The fetch effect: the mapped records, or no change on failure. */
    method Loaded(reply: Option<seq<RawCity>>)
      modifies this
      ensures reply.Some? ==> cities == MapCities(reply.value)
      ensures reply.None? ==> cities == old(cities)
      ensures query == old(query) && isSelected == old(isSelected)
    {
      if reply.Some? {
        cities := MapCities(reply.value);
      }
    }

    /** Typing replaces the query and re-opens the list. */
    method Type(value: string)
      modifies this
      ensures query == value && !isSelected && cities == old(cities)
    {
      query := value;
      isSelected := false;
    }

    /** Picking a city writes its label and closes the list. */
    method Select(c: City)
      modifies this
      ensures query == SelectionText(c) && isSelected && cities == old(cities)
      ensures Shown(cities, query, isSelected) == []
    {
      query := SelectionText(c);
      isSelected := true;
    }
  }
}
