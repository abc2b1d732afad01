/** The event form: the team member list built from a text field, the reset
    after creation, and the data sent to `createEvent`. */
module Events {
  import opened Wrappers
  import opened Js
  import opened Types
  import Api

  /** The form fields other than the team list and the sibling box. */
  datatype FormData = FormData(
    name: string,
    duration: int,
    timePeriod: Period,
    siblingEventName: string,
    siblingTimePeriod: Period,
    resultsReleased: bool)

  datatype EventForm = EventForm(
    formData: FormData,
    teamMembers: seq<string>,
    teamMemberInput: string,
    hasSibling: bool)

  const EmptyPeriod := Period("", "")
  const EmptyFormData := FormData("", 0, EmptyPeriod, "", EmptyPeriod, false)

  /** The form as first shown. */
  const InitialForm := EventForm(EmptyFormData, [], "", false)

  // ---------------------------------------------------------------------
  // Team members

  predicate Distinct(s: seq<string>) {
    forall i, j :: 0 <= i < j < |s| ==> s[i] != s[j]
  }

  /** What the list always satisfies: no repeats, and every entry trimmed
      and non-empty. */
  predicate TeamOk(members: seq<string>) {
    Distinct(members) && forall i :: 0 <= i < |members| ==> members[i] != "" && Trim(members[i]) == members[i]
  }

  /** Whether `addTeamMember` takes the input. */
  predicate Accepts(members: seq<string>, input: string) {
    Trim(input) != "" && Trim(input) !in members
  }

  /** `addTeamMember`: the trimmed input is appended and the field cleared
      when it is non-empty and not yet listed; otherwise nothing changes. */
  function AddTeamMember(f: EventForm): (r: EventForm)
    ensures r.formData == f.formData && r.hasSibling == f.hasSibling
    ensures Accepts(f.teamMembers, f.teamMemberInput) ==>
      r.teamMembers == f.teamMembers + [Trim(f.teamMemberInput)] && r.teamMemberInput == ""
    ensures !Accepts(f.teamMembers, f.teamMemberInput) ==> r == f
  {
    var t := Trim(f.teamMemberInput);
    if t != "" && t !in f.teamMembers then f.(teamMembers := f.teamMembers + [t], teamMemberInput := "")
    else f
  }

  /** Adding keeps the list free of repeats and of blank entries. */
  lemma AddKeepsTeamOk(f: EventForm)
    requires TeamOk(f.teamMembers)
    ensures TeamOk(AddTeamMember(f).teamMembers)
  {
    TrimIdempotent(f.teamMemberInput);
  }

  /** A name that is already listed is refused, and so is the same name
      with surrounding spaces. */
  lemma AddTwiceRefused(f: EventForm, input: string)
    requires Trim(input) == Trim(f.teamMemberInput) && Accepts(f.teamMembers, f.teamMemberInput)
    ensures var g := AddTeamMember(f).(teamMemberInput := input);
            AddTeamMember(g) == g
  {
  }

  function NotMember(member: string): string -> bool {
    (m: string) => m != member
  }

  /** `removeTeamMember`: every entry equal to the name goes, the rest stay
      in order. */
  function RemoveTeamMember(f: EventForm, member: string): (r: EventForm)
    ensures r.formData == f.formData && r.teamMemberInput == f.teamMemberInput
    ensures r.hasSibling == f.hasSibling
    ensures forall m :: m in r.teamMembers <==> m in f.teamMembers && m != member
  {
    f.(teamMembers := Filter(f.teamMembers, NotMember(member)))
  }

  /** Removing keeps the list free of repeats and of blank entries. */
  lemma {:induction false} RemoveKeepsTeamOk(members: seq<string>, member: string)
    requires TeamOk(members)
    ensures TeamOk(Filter(members, NotMember(member)))
  {
    var r := Filter(members, NotMember(member));
    forall i | 0 <= i < |r| ensures r[i] != "" && Trim(r[i]) == r[i] {
      assert r[i] in members;
    }
    FilterDistinct(members, member);
  }

  lemma {:induction false} FilterDistinct(members: seq<string>, member: string)
    requires Distinct(members)
    ensures Distinct(Filter(members, NotMember(member)))
  {
    if members != [] {
      var rest := Filter(members[1..], NotMember(member));
      assert Distinct(members[1..]);
      FilterDistinct(members[1..], member);
      if members[0] != member {
        assert Filter(members, NotMember(member)) == [members[0]] + rest;
        forall j | 0 <= j < |rest| ensures members[0] != rest[j] {
          assert rest[j] in members[1..];
        }
      }
    }
  }

  /** Removal keeps the order of the list: removing from a list made of two
      parts removes from each part. */
  lemma RemoveAppend(f: EventForm, a: seq<string>, b: seq<string>, member: string)
    requires f.teamMembers == a + b
    ensures RemoveTeamMember(f, member).teamMembers
            == RemoveTeamMember(f.(teamMembers := a), member).teamMembers
               + RemoveTeamMember(f.(teamMembers := b), member).teamMembers
  {
    FilterAppend(a, b, NotMember(member));
  }

  /** A single entry goes exactly when it is the name. */
  lemma RemoveOne(f: EventForm, m: string, member: string)
    requires f.teamMembers == [m]
    ensures RemoveTeamMember(f, member).teamMembers == if m == member then [] else [m]
  {
    assert Filter([m], NotMember(member)) == (if m != member then [m] else []) + Filter([m][1..], NotMember(member));
    assert [m][1..] == [];
  }

  /** Adding a name and then removing it gives back the list from before. */
  lemma AddThenRemove(f: EventForm)
    requires Accepts(f.teamMembers, f.teamMemberInput)
    ensures RemoveTeamMember(AddTeamMember(f), Trim(f.teamMemberInput)).teamMembers == f.teamMembers
  {
    var t := Trim(f.teamMemberInput);
    FilterAppend(f.teamMembers, [t], NotMember(t));
    FilterAll(f.teamMembers, NotMember(t));
    assert [t][1..] == [];
  }

  // ---------------------------------------------------------------------
  // Reset and submit

  /** `resetForm`: empty fields, an empty team and no sibling; the team
      member field keeps its text. */
  function ResetForm(f: EventForm): (r: EventForm)
    ensures r.formData == EmptyFormData && r.teamMembers == [] && !r.hasSibling
    ensures r.teamMemberInput == f.teamMemberInput
  {
    EventForm(EmptyFormData, [], f.teamMemberInput, false)
  }

  /** A reset form is the initial form, apart from the team member field. */
  lemma ResetIsInitial(f: EventForm)
    ensures ResetForm(f) == InitialForm.(teamMemberInput := f.teamMemberInput)
    ensures TeamOk(ResetForm(f).teamMembers)
  {
  }

  /** `handleSubmit`'s payload: the form fields, the team list and the
      sibling box. The form always supplies the sibling name and period. */
  function Payload(f: EventForm): (r: CreateEventData)
    ensures r.name == f.formData.name && r.duration == f.formData.duration
    ensures r.timePeriod == f.formData.timePeriod && r.resultsReleased == f.formData.resultsReleased
    ensures r.teamMembers == f.teamMembers && r.hasSiblingEvent == f.hasSibling
    ensures r.siblingEventName == Some(f.formData.siblingEventName)
    ensures r.siblingTimePeriod == Some(f.formData.siblingTimePeriod)
  {
    CreateEventData(f.formData.name, f.formData.duration, f.formData.timePeriod, f.hasSibling,
      Some(f.formData.siblingEventName), Some(f.formData.siblingTimePeriod),
      f.formData.resultsReleased, f.teamMembers)
  }

  /** The stored event has a sibling exactly when the box is ticked and the
      sibling name is filled in, and it carries the form's team. */
  lemma CreatedSibling(f: EventForm, n: nat, now: Timestamp)
    ensures var e := Api.NewEvent(n, Payload(f), now);
            (e.siblingEvent.Some? <==> f.hasSibling && f.formData.siblingEventName != "")
            && (e.siblingEvent.Some? ==> e.siblingEvent.value.name == f.formData.siblingEventName
                                         && e.siblingEvent.value.timePeriod == f.formData.siblingTimePeriod)
            && e.teamMembers == f.teamMembers
  {
  }
}
