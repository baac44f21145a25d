/** The client's registration wizard state: the step shown, the account
    fields typed so far, the list of club entries being edited, and the
    starting handicap. Every action replaces one part of the state. */
module Registration {

  /** A value typed into a club entry's form field. */
  datatype FieldValue = Text(s: string) | Flag(b: bool)

  /** A club entry: field name to value, as a JavaScript object. */
  type ClubDraft = map<string, FieldValue>

  /** The entry addClub appends and the wizard starts with. */
  const EmptyClub: ClubDraft := map["club" := Text(""), "distance_meter" := Text(""), "preferred_club" := Flag(false)]

  const EmptyUserData: map<string, string> := map["email" := "", "firstName" := "", "lastName" := "", "password" := ""]

  const InitialHandicapData: map<string, real> := map["initialHandicap" := 54.0]

  /** `{ ...current, ...data }`: the given keys overwritten, all others
      kept. */
  function Merge<V>(current: map<string, V>, data: map<string, V>): (r: map<string, V>)
    ensures r.Keys == current.Keys + data.Keys
    ensures forall k :: k in data ==> r[k] == data[k]
    ensures forall k :: k in current && k !in data ==> r[k] == current[k]
  {
    current + data
  }

  /** `filter((_, i) => i !== index)`: the entry at index dropped, the
      others kept in order; an index outside the list drops nothing. */
  function RemoveAt<T>(s: seq<T>, index: int): (r: seq<T>)
    ensures 0 <= index < |s| ==> |r| == |s| - 1
    ensures 0 <= index < |s| ==> forall k :: 0 <= k < index ==> r[k] == s[k]
    ensures 0 <= index < |s| ==> forall k :: index <= k < |r| ==> r[k] == s[k + 1]
    ensures !(0 <= index < |s|) ==> r == s
  {
    if 0 <= index < |s| then s[..index] + s[index + 1..] else s
  }

  /** The list after updateClub: the entry at index gets the field set.
      One past the end, the spread of a missing entry is empty, so an entry
      holding only that field is appended. A negative index names a
      property of the array object, not an entry, and leaves the entries
      as they were. */
  function SetField(s: seq<ClubDraft>, index: int, field: string, value: FieldValue): (r: seq<ClubDraft>)
    requires index <= |s|
    ensures 0 <= index < |s| ==> |r| == |s| && forall k :: 0 <= k < |s| && k != index ==> r[k] == s[k]
    ensures 0 <= index < |s| ==> r[index].Keys == s[index].Keys + {field} && r[index][field] == value
    ensures 0 <= index < |s| ==> forall f :: f in s[index] && f != field ==> r[index][f] == s[index][f]
    ensures index == |s| ==> r == s + [map[field := value]]
    ensures index < 0 ==> r == s
  {
    if index < 0 then s
    else if index == |s| then s + [map[field := value]]
    else s[index := s[index][field := value]]
  }

  /** Adding an entry and removing it again restores the list. */
  lemma AddThenRemove(s: seq<ClubDraft>)
    ensures RemoveAt(s + [EmptyClub], |s|) == s
  {
    assert (s + [EmptyClub])[..|s|] == s;
  }

  class RegistrationStore {
    var step: int
    var userData: map<string, string>
    var clubsData: seq<ClubDraft>
    var handicapData: map<string, real>

    /** The state the wizard starts in and resetRegistration returns to. */
    predicate Initial()
      reads this
    {
      step == 1 && userData == EmptyUserData && clubsData == [EmptyClub] && handicapData == InitialHandicapData
    }

    constructor ()
      ensures Initial()
    {
      step := 1;
      userData := EmptyUserData;
      clubsData := [EmptyClub];
      handicapData := InitialHandicapData;
    }

    method SetStep(step: int)
      modifies this`step
      ensures this.step == step
    {
      this.step := step;
    }

    method SetUserData(data: map<string, string>)
      modifies this`userData
      ensures userData == Merge(old(userData), data)
    {
      userData := Merge(userData, data);
    }

    method SetClubsData(clubs: seq<ClubDraft>)
      modifies this`clubsData
      ensures clubsData == clubs
    {
      clubsData := clubs;
    }

    method AddClub()
      modifies this`clubsData
      ensures clubsData == old(clubsData) + [EmptyClub]
    {
      clubsData := clubsData + [EmptyClub];
    }

    method RemoveClub(index: int)
      modifies this`clubsData
      ensures clubsData == RemoveAt(old(clubsData), index)
    {
      clubsData := RemoveAt(clubsData, index);
    }

    method UpdateClub(index: int, field: string, value: FieldValue)
      requires index <= |clubsData|
      modifies this`clubsData
      ensures clubsData == SetField(old(clubsData), index, field, value)
    {
      clubsData := SetField(clubsData, index, field, value);
    }

    method SetHandicapData(handicap: map<string, real>)
      modifies this`handicapData
      ensures handicapData == Merge(old(handicapData), handicap)
    {
      handicapData := Merge(handicapData, handicap);
    }

    method ResetRegistration()
      modifies this
      ensures Initial()
    {
      step := 1;
      userData := EmptyUserData;
      clubsData := [EmptyClub];
      handicapData := InitialHandicapData;
    }
  }
}
