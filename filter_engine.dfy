/**
 * `applyFilters`: the displayed list computed from the fetched records and the
 * current filter state, narrowed stage by stage and then sorted.
 */
module FilterEngine {
  import opened Seqs
  import opened Directory
  import opened Sorting
  import opened SortArray

  function AdmittedBy(f: Filters): Doctor -> bool
  {
    d => Admits(f, d)
  }

  /** The records that pass every active stage, in fetch order. */
  function Passing(doctors: seq<Doctor>, f: Filters): seq<Doctor>
  {
    Keep(doctors, AdmittedBy(f))
  }

  /** The sort stage: only the two known sort keys reorder the list. */
  function Arranged(s: seq<Doctor>, sort: string): seq<Doctor>
  {
    if sort == "fees" then SortBy(s, ByFees)
    else if sort == "experience" then SortBy(s, ByExperience)
    else s
  }

  /** What the page shows for `doctors` under `f`. */
  function Displayed(doctors: seq<Doctor>, f: Filters): seq<Doctor>
  {
    Arranged(Passing(doctors, f), f.sort)
  }

  /**
   * Copies the list, narrows it by the active stages, and sorts it in place
   * when a known sort key is selected.
   */
  method ApplyFilters(doctors: seq<Doctor>, f: Filters) returns (data: seq<Doctor>)
    ensures data == Displayed(doctors, f)
  {
    ghost var byName: Doctor -> bool := d => NameStage(f, d);
    ghost var byType: Doctor -> bool := d => NameStage(f, d) && TypeStage(f, d);
    data := doctors;
    if f.search != "" {
      var matches: Doctor -> bool := d => NameMatches(f.search, d);
      data := Keep(data, matches);
      assert data == Keep(doctors, byName) by {
        KeepSame(doctors, matches, byName);
      }
    } else {
      assert data == Keep(doctors, byName) by {
        KeepAll(doctors, byName);
      }
    }
    if f.consultation != "" {
      var hasType: Doctor -> bool := (d: Doctor) => d.consultationType == f.consultation;
      data := Keep(data, hasType);
      assert data == Keep(doctors, byType) by {
        KeepKeep(doctors, byName, hasType, byType);
      }
    } else {
      assert data == Keep(doctors, byType) by {
        KeepSame(doctors, byName, byType);
      }
    }
    if |f.specialties| > 0 {
      var shares: Doctor -> bool := d => SharesSpecialty(f.specialties, d);
      data := Keep(data, shares);
      assert data == Passing(doctors, f) by {
        KeepKeep(doctors, byType, shares, AdmittedBy(f));
      }
    } else {
      assert data == Passing(doctors, f) by {
        KeepSame(doctors, byType, AdmittedBy(f));
      }
    }
    if f.sort == "fees" || f.sort == "experience" {
      data := SortData(data, if f.sort == "fees" then ByFees else ByExperience);
    }
  }

  /**
   * The displayed list holds exactly the records that pass every active stage:
   * with no known sort key it is their subsequence in fetch order, otherwise a
   * rearrangement of it in fee order or in experience order, highest first.
   */
  lemma DisplayedSpec(doctors: seq<Doctor>, f: Filters)
    ensures |Displayed(doctors, f)| <= |doctors|
    ensures forall d :: d in Displayed(doctors, f) <==> d in doctors && Admits(f, d)
    ensures multiset(Displayed(doctors, f)) == multiset(Passing(doctors, f))
    ensures f.sort != "fees" && f.sort != "experience" ==> Displayed(doctors, f) == Passing(doctors, f)
    ensures f.sort == "fees" ==>
              var r := Displayed(doctors, f);
              forall i, j :: 0 <= i < j < |r| ==> r[i].fees <= r[j].fees
    ensures f.sort == "experience" ==>
              var r := Displayed(doctors, f);
              forall i, j :: 0 <= i < j < |r| ==> r[i].experience >= r[j].experience
  {
    var p, r := Passing(doctors, f), Displayed(doctors, f);
    KeepAllMembers(doctors, AdmittedBy(f));
    if f.sort == "fees" || f.sort == "experience" {
      var o := if f.sort == "fees" then ByFees else ByExperience;
      SortByPermutes(p, o);
      SortBySorted(p, o);
      assert |r| == |multiset(r)| == |p|;
      forall d ensures d in r <==> d in p {
        assert d in r <==> d in multiset(r);
      }
    }
  }

  /** Ties under the selected sort key keep their fetch order. */
  lemma DisplayedStable(doctors: seq<Doctor>, f: Filters, y: Doctor)
    ensures f.sort == "fees" ==>
              Ties(Displayed(doctors, f), ByFees, y) == Ties(Passing(doctors, f), ByFees, y)
    ensures f.sort == "experience" ==>
              Ties(Displayed(doctors, f), ByExperience, y) == Ties(Passing(doctors, f), ByExperience, y)
  {
    SortByStable(Passing(doctors, f), ByFees, y);
    SortByStable(Passing(doctors, f), ByExperience, y);
  }

  /** Filtering the displayed list again under the same state changes nothing. */
  lemma DisplayedIdempotent(doctors: seq<Doctor>, f: Filters)
    ensures Displayed(Displayed(doctors, f), f) == Displayed(doctors, f)
  {
    var p, d := Passing(doctors, f), Displayed(doctors, f);
    if f.sort == "fees" || f.sort == "experience" {
      var o := if f.sort == "fees" then ByFees else ByExperience;
      SortByPermutes(p, o);
      SortBySorted(p, o);
      forall x | x in d ensures AdmittedBy(f)(x) {
        assert x in multiset(d);
        assert x in p;
        KeepMembers(doctors, AdmittedBy(f), x);
      }
      KeepAll(d, AdmittedBy(f));
      SortBySortedIdentity(d, o);
    } else {
      KeepAllMembers(doctors, AdmittedBy(f));
      KeepAll(d, AdmittedBy(f));
    }
  }
}
