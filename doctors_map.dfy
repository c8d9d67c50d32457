/**
 * The profile map: the loaded doctors, the two option lists offered for
 * filtering, and the doctors shown for a selection.
 */
module DoctorsMap {
  import opened Strings
  import opened Seqs
  import opened DashboardCsv
  import StringOrder

  lemma SpecialtiesMembers(doctors: seq<ProfileDoctor>)
    ensures forall o :: o in Specialties(doctors) <==> exists k | 0 <= k < |doctors| :: doctors[k].specialty == o
  {
    var names := Specialties(doctors);
    forall o | o in names ensures exists k | 0 <= k < |doctors| :: doctors[k].specialty == o {
      var k :| 0 <= k < |names| && names[k] == o;
    }
  }

  lemma GovernoratesMembers(doctors: seq<ProfileDoctor>)
    ensures forall o :: o in Governorates(doctors) <==> exists k | 0 <= k < |doctors| :: Governorate(doctors[k].address) == o
  {
    var names := Governorates(doctors);
    forall o | o in names ensures exists k | 0 <= k < |doctors| :: Governorate(doctors[k].address) == o {
      var k :| 0 <= k < |names| && names[k] == o;
    }
  }

  /** The specialty options: `'all'` and every distinct specialty, sorted together. */
  function SpecialtyOptions(doctors: seq<ProfileDoctor>): seq<string> {
    SortedOptions(Specialties(doctors))
  }

  /** The governorate options: `'all'` and every distinct governorate, sorted together. */
  function GovernorateOptions(doctors: seq<ProfileDoctor>): seq<string> {
    SortedOptions(Governorates(doctors))
  }

  predicate Shown(selectedSpecialty: string, selectedGovernorate: string, d: ProfileDoctor) {
    Matches(selectedSpecialty, selectedGovernorate, d.specialty, d.address)
  }

  /** The doctors drawn on the map for a selection. */
  function FilteredDoctors(doctors: seq<ProfileDoctor>, selectedSpecialty: string, selectedGovernorate: string)
    : (r: seq<ProfileDoctor>)
    ensures |r| <= |doctors|
  {
    Filter(doctors, d => Shown(selectedSpecialty, selectedGovernorate, d))
  }

  /**
   * The shown doctors are those of the list passing both tests, in list
   * order; so "Showing n of m" never has n above m.
   */
  lemma FilteredDoctorsSpec(doctors: seq<ProfileDoctor>, selectedSpecialty: string, selectedGovernorate: string)
    ensures IsSubsequence(FilteredDoctors(doctors, selectedSpecialty, selectedGovernorate), doctors)
    ensures forall d :: (d in FilteredDoctors(doctors, selectedSpecialty, selectedGovernorate) <==>
                            d in doctors && Shown(selectedSpecialty, selectedGovernorate, d))
    ensures |FilteredDoctors(doctors, selectedSpecialty, selectedGovernorate)| <= |doctors|
  {
    FilterSpec(doctors, d => Shown(selectedSpecialty, selectedGovernorate, d));
  }

  /** With both selections at `'all'` every doctor is shown. */
  lemma {:induction false} AllShowsEverything(doctors: seq<ProfileDoctor>)
    ensures FilteredDoctors(doctors, All, All) == doctors
    decreases |doctors|
  {
    if doctors != [] {
      AllShowsEverything(doctors[1..]);
      assert doctors == [doctors[0]] + doctors[1..];
    }
  }

  /** The specialty options are sorted and offer `'all'` and exactly the specialties present. */
  lemma SpecialtyOptionsSpec(doctors: seq<ProfileDoctor>)
    ensures StringOrder.Sorted(SpecialtyOptions(doctors))
    ensures forall o :: (o in SpecialtyOptions(doctors) <==>
                            o == All || exists k | 0 <= k < |doctors| :: doctors[k].specialty == o)
  {
    SortedOptionsSpec(Specialties(doctors));
    SpecialtiesMembers(doctors);
  }

  /** The governorate options are sorted and offer `'all'` and exactly the governorates present. */
  lemma GovernorateOptionsSpec(doctors: seq<ProfileDoctor>)
    ensures StringOrder.Sorted(GovernorateOptions(doctors))
    ensures forall o :: (o in GovernorateOptions(doctors) <==>
                            o == All || exists k | 0 <= k < |doctors| :: Governorate(doctors[k].address) == o)
  {
    SortedOptionsSpec(Governorates(doctors));
    GovernoratesMembers(doctors);
  }

  /** Choosing a doctor's governorate from the list always shows that doctor. */
  lemma OwnGovernorateShown(doctors: seq<ProfileDoctor>, k: nat)
    requires k < |doctors|
    ensures doctors[k] in FilteredDoctors(doctors, All, Governorate(doctors[k].address))
  {
    FilteredDoctorsSpec(doctors, All, Governorate(doctors[k].address));
    IncludesSuffix(doctors[k].address, Governorate(doctors[k].address));
  }
}
