/**
 * `DoctorListPage`: the state the component holds and the handlers that change
 * it. Each handler updates its field, writes the matching query key into a
 * copy of the store and then recomputes the displayed list, which is what the
 * component's effect does after every change of its inputs.
 */
module ViewModel {
  import opened Seqs
  import opened Directory
  import opened FilterEngine
  import opened Autocomplete
  import opened QuerySync

  function Other(value: string): string -> bool
  {
    s => s != value
  }

  /** `specialties.filter(s => s !== value)`. */
  function Without(selected: seq<string>, value: string): seq<string>
  {
    Keep(selected, Other(value))
  }

  /**
   * `toggleSpecialty`'s new list: every occurrence of `value` removed when
   * present, otherwise `value` added at the end. Whether `value` is selected
   * flips; every other entry stays, in the same order.
   */
  function Toggled(selected: seq<string>, value: string): (r: seq<string>)
    ensures value in r <==> value !in selected
    ensures Without(r, value) == Without(selected, value)
    ensures value !in selected ==> r == selected + [value]
  {
    KeepAllMembers(selected, Other(value));
    if value in selected then
      KeepAll(Without(selected, value), Other(value));
      Without(selected, value)
    else
      KeepAppend(selected, [value], Other(value));
      assert [value][1..] == [];
      selected + [value]
  }

  /** A value toggled on and off again leaves the selection as it was. */
  lemma ToggleTwice(selected: seq<string>, value: string)
    requires value !in selected
    ensures Toggled(Toggled(selected, value), value) == selected
  {
    KeepAll(selected, Other(value));
  }

  class DoctorListPage {
    var doctors: seq<Doctor>
    var filteredDoctors: seq<Doctor>
    var search: string
    var suggestions: seq<Doctor>
    var consultation: string
    var specialties: seq<string>
    var sort: string
    var params: Store

    function State(): Filters
      reads this
    {
      Filters(search, consultation, specialties, sort)
    }

    /**
     * The store read back the way the page seeds itself gives the current
     * state, and the displayed list is the one that state selects.
     */
    ghost predicate Valid()
      reads this
    {
      Seed(params) == State() && filteredDoctors == Displayed(doctors, State())
    }

    /** The first render: the state is seeded from the store; nothing is fetched yet. */
    constructor (initial: Store)
      ensures Valid()
      ensures params == initial && State() == Seed(initial)
      ensures doctors == [] && suggestions == [] && filteredDoctors == []
    {
      doctors := [];
      search := GetOrEmpty(initial, SearchKey);
      suggestions := [];
      consultation := GetOrEmpty(initial, ConsultationKey);
      specialties := GetAll(initial, SpecialtiesKey);
      sort := GetOrEmpty(initial, SortKey);
      params := initial;
      new;
      filteredDoctors := ApplyFilters([], State());
    }

    /** The effect that reruns `applyFilters` after a change. */
    method Refresh()
      modifies this`filteredDoctors
      ensures filteredDoctors == Displayed(doctors, State())
    {
      filteredDoctors := ApplyFilters(doctors, State());
    }

    /** The fetch resolving with the list of records. */
    method ReceiveDoctors(fetched: seq<Doctor>)
      requires Valid()
      modifies this
      ensures Valid()
      ensures doctors == fetched && State() == old(State())
      ensures params == old(params) && suggestions == old(suggestions)
    {
      doctors := fetched;
      Refresh();
    }

    /** `handleSearchChange`: typing into the search box. */
    method HandleSearchChange(value: string)
      requires Valid()
      modifies this
      ensures Valid()
      ensures State() == old(State()).(search := value)
      ensures params == Written(old(params), SearchKey, Text(value))
      ensures suggestions == Suggestions(doctors, value)
      ensures doctors == old(doctors)
    {
      search := value;
      params := UpdateQueryParams(params, SearchKey, Text(value));
      KeepsSeed(old(params), SearchKey, Text(value));
      suggestions := Suggestions(doctors, value);
      Refresh();
    }

    /** `handleSuggestionClick`: picking a suggested name. */
    method HandleSuggestionClick(name: string)
      requires Valid()
      modifies this
      ensures Valid()
      ensures State() == old(State()).(search := name)
      ensures params == Written(old(params), SearchKey, Text(name))
      ensures suggestions == []
      ensures doctors == old(doctors)
    {
      search := name;
      params := UpdateQueryParams(params, SearchKey, Text(name));
      KeepsSeed(old(params), SearchKey, Text(name));
      suggestions := [];
      Refresh();
    }

    /** `toggleSpecialty`: ticking or clearing a specialty checkbox. */
    method ToggleSpecialty(value: string)
      requires Valid()
      modifies this
      ensures Valid()
      ensures State() == old(State()).(specialties := Toggled(old(specialties), value))
      ensures params == Written(old(params), SpecialtiesKey, Items(specialties))
      ensures suggestions == old(suggestions) && doctors == old(doctors)
    {
      var updated := Toggled(specialties, value);
      specialties := updated;
      params := UpdateQueryParams(params, SpecialtiesKey, Items(updated));
      assert Seed(params) == State() by {
        KeepsSeed(old(params), SpecialtiesKey, Items(updated));
      }
      Refresh();
    }

    /** A consultation-type radio button's `onChange`. */
    method ChooseConsultation(value: string)
      requires Valid()
      modifies this
      ensures Valid()
      ensures State() == old(State()).(consultation := value)
      ensures params == Written(old(params), ConsultationKey, Text(value))
      ensures suggestions == old(suggestions) && doctors == old(doctors)
    {
      consultation := value;
      params := UpdateQueryParams(params, ConsultationKey, Text(value));
      KeepsSeed(old(params), ConsultationKey, Text(value));
      Refresh();
    }

    /** A sort radio button's `onChange`. */
    method ChooseSort(value: string)
      requires Valid()
      modifies this
      ensures Valid()
      ensures State() == old(State()).(sort := value)
      ensures params == Written(old(params), SortKey, Text(value))
      ensures suggestions == old(suggestions) && doctors == old(doctors)
    {
      sort := value;
      params := UpdateQueryParams(params, SortKey, Text(value));
      KeepsSeed(old(params), SortKey, Text(value));
      Refresh();
    }
  }

  /**
   * Writing one of the page's keys changes only that field of the seeded
   * state, and changes it to the value written.
   */
  lemma KeepsSeed(ps: Store, key: string, v: Value)
    requires key in {SearchKey, ConsultationKey, SpecialtiesKey, SortKey}
    requires key == SpecialtiesKey <==> v.Items?
    ensures key == SearchKey ==> Seed(Written(ps, key, v)) == Seed(ps).(search := v.text)
    ensures key == ConsultationKey ==> Seed(Written(ps, key, v)) == Seed(ps).(consultation := v.text)
    ensures key == SpecialtiesKey ==> Seed(Written(ps, key, v)) == Seed(ps).(specialties := v.items)
    ensures key == SortKey ==> Seed(Written(ps, key, v)) == Seed(ps).(sort := v.text)
  {
    ReadBack(ps, key, v);
    if key != SearchKey { WrittenOthers(ps, key, v, SearchKey); }
    if key != ConsultationKey { WrittenOthers(ps, key, v, ConsultationKey); }
    if key != SpecialtiesKey { WrittenOthers(ps, key, v, SpecialtiesKey); }
    if key != SortKey { WrittenOthers(ps, key, v, SortKey); }
  }
}
