/** The client form: its initial data, the text-field and status handlers,
    the status badge, the submit flags, and the list of clients offered as
    relationship candidates. */
module ClientForm {
  import opened Wrappers
  import opened Text
  import opened JsErrors
  import opened Clients

  /** The text inputs of the form, each named after its client field. */
  datatype TextField =
    | FirstName | LastName | DateOfBirth | TherapyStartDate | Email | Phone | Address
    | EmergencyContactName | EmergencyContactPhone | EmergencyContactRelationship

  /** The `name` attribute of each input. */
  function FieldName(f: TextField): string {
    match f
    case FirstName => "first_name"
    case LastName => "last_name"
    case DateOfBirth => "date_of_birth"
    case TherapyStartDate => "therapy_start_date"
    case Email => "email"
    case Phone => "phone"
    case Address => "address"
    case EmergencyContactName => "emergency_contact_name"
    case EmergencyContactPhone => "emergency_contact_phone"
    case EmergencyContactRelationship => "emergency_contact_relationship"
  }

  /** The form's `formData`: every text field, plus the status. */
  datatype FormData = FormData(
    firstName: string,
    lastName: string,
    status: Status,
    dateOfBirth: string,
    therapyStartDate: string,
    email: string,
    phone: string,
    address: string,
    emergencyContactName: string,
    emergencyContactPhone: string,
    emergencyContactRelationship: string)

  function Get(d: FormData, f: TextField): string {
    match f
    case FirstName => d.firstName
    case LastName => d.lastName
    case DateOfBirth => d.dateOfBirth
    case TherapyStartDate => d.therapyStartDate
    case Email => d.email
    case Phone => d.phone
    case Address => d.address
    case EmergencyContactName => d.emergencyContactName
    case EmergencyContactPhone => d.emergencyContactPhone
    case EmergencyContactRelationship => d.emergencyContactRelationship
  }

  /** The value a client field starts with: `client?.field || ''`. */
  function OrEmpty(v: Option<string>): string {
    v.GetOr("")
  }

  /** The initial `formData`: empty text and `active` for a new client; the
      client's values for an existing one, with its absent optional fields
      as empty text. */
  function InitialFormData(client: Option<Client>): (r: FormData)
    ensures client.None? ==> r.status == Active && forall f :: Get(r, f) == ""
    ensures client.Some? ==>
      var c := client.value;
      && r.status == c.status
      && r.firstName == c.firstName && r.lastName == c.lastName
      && r.dateOfBirth == OrEmpty(c.dateOfBirth)
      && r.therapyStartDate == OrEmpty(c.therapyStartDate)
      && r.email == OrEmpty(c.email) && r.phone == OrEmpty(c.phone)
      && r.address == OrEmpty(c.address)
      && r.emergencyContactName == OrEmpty(c.emergencyContactName)
      && r.emergencyContactPhone == OrEmpty(c.emergencyContactPhone)
      && r.emergencyContactRelationship == OrEmpty(c.emergencyContactRelationship)
  {
    match client
    case None => FormData("", "", Active, "", "", "", "", "", "", "", "")
    case Some(c) =>
      FormData(c.firstName, c.lastName, c.status,
        OrEmpty(c.dateOfBirth), OrEmpty(c.therapyStartDate), OrEmpty(c.email),
        OrEmpty(c.phone), OrEmpty(c.address), OrEmpty(c.emergencyContactName),
        OrEmpty(c.emergencyContactPhone), OrEmpty(c.emergencyContactRelationship))
  }

  /** `handleChange`: the input named `f` gets the typed text; every other
      field and the status are kept. */
  function HandleChange(d: FormData, f: TextField, value: string): (r: FormData)
    ensures Get(r, f) == value
    ensures forall g :: g != f ==> Get(r, g) == Get(d, g)
    ensures r.status == d.status
  {
    match f
    case FirstName => d.(firstName := value)
    case LastName => d.(lastName := value)
    case DateOfBirth => d.(dateOfBirth := value)
    case TherapyStartDate => d.(therapyStartDate := value)
    case Email => d.(email := value)
    case Phone => d.(phone := value)
    case Address => d.(address := value)
    case EmergencyContactName => d.(emergencyContactName := value)
    case EmergencyContactPhone => d.(emergencyContactPhone := value)
    case EmergencyContactRelationship => d.(emergencyContactRelationship := value)
  }

  /** The status toggle button: the other status, nothing else changed. */
  function ToggleStatus(d: FormData): (r: FormData)
    ensures r.status != d.status
    ensures forall f :: Get(r, f) == Get(d, f)
  {
    d.(status := if d.status == Active then Inactive else Active)
  }

  /** The status select: the chosen status, nothing else changed. */
  function SelectStatus(d: FormData, s: Status): (r: FormData)
    ensures r.status == s
    ensures forall f :: Get(r, f) == Get(d, f)
  {
    d.(status := s)
  }

  /** Toggling twice gives back the form as it was. */
  lemma ToggleTwiceIsIdentity(d: FormData)
    ensures ToggleStatus(ToggleStatus(d)) == d
  {
  }

  /** The badge text: the stored status with its first letter uppercased. */
  function StatusLabel(s: Status): (r: string)
    ensures |r| == |StatusText(s)| && r[1..] == StatusText(s)[1..]
    ensures r[0] == UpperChar(StatusText(s)[0])
  {
    Capitalize(StatusText(s))
  }

  /** The two badges read "Active" and "Inactive". */
  lemma StatusLabels()
    ensures StatusLabel(Active) == "Active"
    ensures StatusLabel(Inactive) == "Inactive"
  {
    assert StatusText(Active)[1..] == "ctive";
    assert StatusText(Inactive)[1..] == "nactive";
  }

  /** `availableClients.filter(c => c.id !== client.id)`. */
  function RelationshipCandidates(available: seq<Client>, self: Client): (r: seq<Client>)
    ensures forall c :: c in r <==> c in available && c.id != self.id
    ensures |r| <= |available|
  {
    if available == [] then []
    else
      var rest := RelationshipCandidates(available[1..], self);
      assert forall c :: c in available <==> c == available[0] || c in available[1..];
      if available[0].id == self.id then rest else [available[0]] + rest
  }

  /** The filter keeps the candidates in the order given: it distributes
      over concatenation. */
  lemma {:induction false} CandidatesConcat(a: seq<Client>, b: seq<Client>, self: Client)
    ensures RelationshipCandidates(a + b, self) == RelationshipCandidates(a, self) + RelationshipCandidates(b, self)
  {
    if a != [] {
      assert (a + b)[0] == a[0];
      assert (a + b)[1..] == a[1..] + b;
      CandidatesConcat(a[1..], b, self);
    } else {
      assert a + b == b;
    }
  }

  /** The form's submit flags: `loading` and the error shown. */
  datatype SubmitState = SubmitState(loading: bool, error: Option<string>)

  const SaveFailedMessage := "Failed to save client"

  /** `handleSubmit`, given what `onSubmit` did (`None` when it returned):
      loading ends either way, and a throw shows its message or the
      fallback. */
  function Submit(outcome: Option<Thrown>): (r: SubmitState)
    ensures !r.loading
    ensures r.error.None? <==> outcome.None?
    ensures outcome == Some(OtherValue) ==> r.error == Some(SaveFailedMessage)
    ensures outcome.Some? && outcome.value.ErrorValue? ==> r.error == Some(outcome.value.message)
  {
    match outcome
    case None => SubmitState(false, None)
    case Some(e) => SubmitState(false, Some(MessageOf(e, SaveFailedMessage)))
  }

  /** While `onSubmit` is pending the form is loading and shows no error. */
  const SubmitPending := SubmitState(true, None)
}
