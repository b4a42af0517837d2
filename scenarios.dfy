/** Example sessions over two records, worked through the model. */
module Scenarios {
  import opened Seqs
  import opened Directory
  import opened Sorting
  import opened FilterEngine
  import opened Autocomplete
  import opened QuerySync
  import opened ViewModel

  const Alice := Doctor("Alice Smith", ["Dentist"], "In Clinic", 5, 300)
  const Bob := Doctor("Bob Lee", ["Cardiologist"], "Video Consult", 10, 200)

  lemma ByConsultation()
    ensures Displayed([Alice, Bob], Filters("", "Video Consult", [], "")) == [Bob]
  {
    var f := Filters("", "Video Consult", [], "");
    var p := AdmittedBy(f);
    assert !p(Alice) && p(Bob);
    assert Keep([Bob], p) == [Bob] by {
      assert [Bob][1..] == [];
    }
    assert [Alice, Bob][1..] == [Bob];
    assert Keep([Alice, Bob], p) == [Bob];
  }

  lemma Unfiltered(sort: string)
    ensures Passing([Alice, Bob], Filters("", "", [], sort)) == [Alice, Bob]
  {
    KeepAll([Alice, Bob], AdmittedBy(Filters("", "", [], sort)));
  }

  lemma SortOne(x: Doctor, o: Order)
    ensures SortBy([x], o) == [x]
  {
    assert [x][..0] == [];
  }

  lemma SortTwo(x: Doctor, y: Doctor, o: Order)
    requires Compare(o, x, y) > 0
    ensures SortBy([x, y], o) == [y, x]
  {
    assert [x, y][..1] == [x] && [x][..0] == [];
    SortOne(x, o);
    assert Insert([x], y, o) == Insert([], y, o) + [x];
  }

  lemma SortBoth(o: Order)
    ensures SortBy([Alice, Bob], o) == [Bob, Alice]
  {
    SortTwo(Alice, Bob, o);
  }

  lemma ByFeesAndExperience()
    ensures Displayed([Alice, Bob], Filters("", "", [], "fees")) == [Bob, Alice]
    ensures Displayed([Alice, Bob], Filters("", "", [], "experience")) == [Bob, Alice]
  {
    Unfiltered("fees");
    Unfiltered("experience");
    SortBoth(ByFees);
    SortBoth(ByExperience);
  }

  /** A name with no letter b in either case does not match "bob". */
  lemma NoB(d: Doctor)
    requires forall k :: 0 <= k < |d.name| ==> d.name[k] != 'b' && d.name[k] != 'B'
    ensures !NameMatches("bob", d)
  {
    var hay := Lower(d.name);
    assert Lower("bob") == "bob";
    forall i | 0 <= i <= |hay| ensures !("bob" <= hay[i..]) {
      if i < |hay| {
        assert hay[i..][0] == LowerChar(d.name[i]);
      }
    }
    IncludesAt(hay, "bob");
  }

  lemma BySpecialties()
    ensures Displayed([Alice, Bob], Filters("", "", ["Dentist", "Cardiologist"], "")) == [Alice, Bob]
  {
    var f := Filters("", "", ["Dentist", "Cardiologist"], "");
    assert "Dentist" in f.specialties && "Dentist" in Alice.specialties;
    assert "Cardiologist" in f.specialties && "Cardiologist" in Bob.specialties;
    KeepAll([Alice, Bob], AdmittedBy(f));
  }

  lemma AliceIsNotBob()
    ensures !NameMatches("bob", Alice)
  {
    NoB(Alice);
  }

  lemma BobIsBob()
    ensures NameMatches("bob", Bob)
  {
    assert Lower(Bob.name)[..3] == "bob";
  }

  lemma SuggestBob()
    ensures Suggestions([Alice, Bob], "bob") == [Bob]
  {
    var p := MatchesText("bob");
    AliceIsNotBob();
    BobIsBob();
    assert Keep([Bob], p) == [Bob] by {
      assert [Bob][1..] == [];
    }
    assert [Alice, Bob][1..] == [Bob];
    assert Matching([Alice, Bob], "bob") == [Bob];
  }

  /** Typing "bob" suggests Bob Lee; clicking him fills the box and hides the list. */
  method TypeAndPick() returns (search: string, suggestions: seq<Doctor>, stored: Option<string>)
    ensures search == "Bob Lee" && suggestions == [] && stored == Some("Bob Lee")
  {
    var page := new DoctorListPage([]);
    page.ReceiveDoctors([Alice, Bob]);
    page.HandleSearchChange("bob");
    SuggestBob();
    assert page.suggestions == [Bob];
    page.HandleSuggestionClick("Bob Lee");
    search, suggestions, stored := page.search, page.suggestions, Get(page.params, SearchKey);
  }
}
