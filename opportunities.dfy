/**
 * The opportunity and application records: their enumerations and defaults,
 * the date-ordering check `Opportunity.clean`, the validation gate that
 * `Opportunity.save` runs before every write, and the rule that a volunteer
 * holds at most one application per opportunity.
 */
module Opportunities {
  import opened Wrappers

  type UserId = nat
  type OpportunityId = nat
  type OrganisationId = nat
  /** A calendar date, as a day number. */
  type Date = int

  // ---------------------------------------------------------------------
  // Enumerations
  // ---------------------------------------------------------------------

  datatype Category =
    | Education | Healthcare | Environment | Community | Animals
    | Arts | Sports | Technology | Other

  /** The stored code of each category choice. */
  function CategoryCode(c: Category): string {
    match c
    case Education => "EDUCATION"
    case Healthcare => "HEALTHCARE"
    case Environment => "ENVIRONMENT"
    case Community => "COMMUNITY"
    case Animals => "ANIMALS"
    case Arts => "ARTS"
    case Sports => "SPORTS"
    case Technology => "TECHNOLOGY"
    case Other => "OTHER"
  }

  /** The category whose code is `code`, if `code` is one of the nine choices. */
  function ParseCategory(code: string): (r: Option<Category>)
    ensures r.Some? ==> CategoryCode(r.value) == code
  {
    if code == "EDUCATION" then Some(Education)
    else if code == "HEALTHCARE" then Some(Healthcare)
    else if code == "ENVIRONMENT" then Some(Environment)
    else if code == "COMMUNITY" then Some(Community)
    else if code == "ANIMALS" then Some(Animals)
    else if code == "ARTS" then Some(Arts)
    else if code == "SPORTS" then Some(Sports)
    else if code == "TECHNOLOGY" then Some(Technology)
    else if code == "OTHER" then Some(Other)
    else None
  }

  /** Every category's code is accepted as a choice and names that category. */
  lemma CategoryCodeRoundTrip(c: Category)
    ensures ParseCategory(CategoryCode(c)) == Some(c)
  {
    match c
    case Education =>
    case Healthcare =>
    case Environment =>
    case Community =>
    case Animals =>
    case Arts =>
    case Sports =>
    case Technology =>
    case Other =>
  }

  const DefaultCategoryCode: string := "OTHER"

  datatype OpportunityStatus = Open | Closed

  function StatusCode(s: OpportunityStatus): string {
    match s
    case Open => "OPEN"
    case Closed => "CLOSED"
  }

  /** The status whose code is `code`, if `code` is one of the two choices. */
  function ParseStatus(code: string): (r: Option<OpportunityStatus>)
    ensures r.Some? ==> StatusCode(r.value) == code
  {
    if code == "OPEN" then Some(Open)
    else if code == "CLOSED" then Some(Closed)
    else None
  }

  lemma StatusCodeRoundTrip(s: OpportunityStatus)
    ensures ParseStatus(StatusCode(s)) == Some(s)
  {
  }

  const DefaultStatusCode: string := "OPEN"

  datatype ApplicationStatus = Pending | Accepted | Rejected | Withdrawn

  function ApplicationStatusCode(s: ApplicationStatus): string {
    match s
    case Pending => "PENDING"
    case Accepted => "ACCEPTED"
    case Rejected => "REJECTED"
    case Withdrawn => "WITHDRAWN"
  }

  /** The application status whose code is `code`, if it is one of the four choices. */
  function ParseApplicationStatus(code: string): (r: Option<ApplicationStatus>)
    ensures r.Some? ==> ApplicationStatusCode(r.value) == code
  {
    if code == "PENDING" then Some(Pending)
    else if code == "ACCEPTED" then Some(Accepted)
    else if code == "REJECTED" then Some(Rejected)
    else if code == "WITHDRAWN" then Some(Withdrawn)
    else None
  }

  lemma ApplicationStatusCodeRoundTrip(s: ApplicationStatus)
    ensures ParseApplicationStatus(ApplicationStatusCode(s)) == Some(s)
  {
    match s
    case Pending =>
    case Accepted =>
    case Rejected =>
    case Withdrawn =>
  }

  const DefaultApplicationStatus: ApplicationStatus := Pending

  // ---------------------------------------------------------------------
  // Opportunity records
  // ---------------------------------------------------------------------

  /** A stored opportunity: every field has passed validation. */
  datatype Opportunity = Opportunity(
    id: OpportunityId,
    title: string,
    description: string,
    location: string,
    category: Category,
    requiredSkills: string,
    minHoursPerWeek: int,
    startDate: Date,
    endDate: Date,
    isRemote: bool,
    status: OpportunityStatus,
    organisation: OrganisationId)

  /**
   * An opportunity as built by a caller before it is saved: choice fields
   * still hold their codes, and the dates and the organisation may be missing.
   */
  datatype OpportunityDraft = OpportunityDraft(
    id: OpportunityId,
    title: string,
    description: string,
    location: string,
    category: string,
    requiredSkills: string,
    minHoursPerWeek: int,
    startDate: Option<Date>,
    endDate: Option<Date>,
    isRemote: bool,
    status: string,
    organisation: Option<OrganisationId>)

  /** A new draft; omitted fields take the model's defaults. */
  function NewOpportunityDraft(
    id: OpportunityId, title: string, description: string, location: string,
    requiredSkills: string, minHoursPerWeek: int,
    startDate: Option<Date>, endDate: Option<Date>, organisation: Option<OrganisationId>,
    category: string := DefaultCategoryCode, isRemote: bool := false,
    status: string := DefaultStatusCode): (d: OpportunityDraft)
    ensures d.title == title && d.description == description && d.location == location
    ensures d.requiredSkills == requiredSkills && d.minHoursPerWeek == minHoursPerWeek
    ensures d.startDate == startDate && d.endDate == endDate && d.organisation == organisation
    ensures d.category == category && d.isRemote == isRemote && d.status == status
  {
    OpportunityDraft(id, title, description, location, category, requiredSkills, minHoursPerWeek,
                     startDate, endDate, isRemote, status, organisation)
  }

  datatype Field = TitleField | DescriptionField | LocationField | CategoryField | RequiredSkillsField
                 | MinHoursField | StartDateField | EndDateField | StatusField | OrganisationField

  datatype ErrorKind =
    | Blank
    | Null
    | TooLong(maxLength: nat)
    | InvalidChoice(value: string)
    | BelowMinimum(minimum: int)
    | AboveMaximum(maximum: int)
    | EndBeforeStart

  datatype FieldError = FieldError(field: Field, kind: ErrorKind)

  const TitleMaxLength: nat := 200
  const LocationMaxLength: nat := 200

  /** The largest value the database backend accepts for an integer column (a signed 32-bit integer). */
  const IntegerFieldMax: int := 0x7FFF_FFFF

  /** `Opportunity.clean`: the end date may not precede the start date. */
  function Clean(d: OpportunityDraft): (r: Option<FieldError>)
    ensures r.Some? ==> r.value == FieldError(EndDateField, EndBeforeStart)
  {
    if d.endDate.Some? && d.startDate.Some? && d.endDate.value < d.startDate.value then
      Some(FieldError(EndDateField, EndBeforeStart))
    else
      None
  }

  /** Equal start and end dates pass `clean`; a reversed pair is rejected. */
  lemma CleanDateOrder(d: OpportunityDraft, start: Date, end: Date)
    requires d.startDate == Some(start) && d.endDate == Some(end)
    ensures Clean(d).None? <==> start <= end
  {
  }

  /** `clean` only judges the order of two dates that are both present. */
  lemma CleanIgnoresMissingDates(d: OpportunityDraft)
    requires d.startDate.None? || d.endDate.None?
    ensures Clean(d).None?
  {
  }

  /** The error, if any, of a required text field with an optional maximum length. */
  function TextFieldError(field: Field, value: string, maxLength: Option<nat>): (r: Option<FieldError>)
    ensures r.None? <==> value != "" && (maxLength.Some? ==> |value| <= maxLength.value)
  {
    if value == "" then Some(FieldError(field, Blank))
    else if maxLength.Some? && |value| > maxLength.value then Some(FieldError(field, TooLong(maxLength.value)))
    else None
  }

  /** The error, if any, of a required field that may be null. */
  function RequiredFieldError<T>(field: Field, value: Option<T>): (r: Option<FieldError>)
    ensures r.None? <==> value.Some?
  {
    if value.None? then Some(FieldError(field, Null)) else None
  }

  /** The error, if any, of a field restricted to a list of choices. */
  function ChoiceFieldError(field: Field, value: string, valid: bool): (r: Option<FieldError>)
    ensures r.None? <==> value != "" && valid
  {
    if value == "" then Some(FieldError(field, Blank))
    else if !valid then Some(FieldError(field, InvalidChoice(value)))
    else None
  }

  /**
   * The error, if any, of the weekly hours: the field's own minimum of 0, then
   * the maximum of the backend's integer range that Django adds to every
   * integer field.
   */
  function MinHoursError(hours: int): (r: Option<FieldError>)
    ensures r.None? <==> 0 <= hours <= IntegerFieldMax
    ensures r.Some? ==> r.value.field == MinHoursField
  {
    if hours < 0 then Some(FieldError(MinHoursField, BelowMinimum(0)))
    else if hours > IntegerFieldMax then Some(FieldError(MinHoursField, AboveMaximum(IntegerFieldMax)))
    else None
  }

  function Errors(candidates: seq<Option<FieldError>>): (errors: seq<FieldError>)
    ensures errors == [] <==> forall i :: 0 <= i < |candidates| ==> candidates[i].None?
  {
    if candidates == [] then []
    else (if candidates[0].Some? then [candidates[0].value] else []) + Errors(candidates[1..])
  }

  /** The per-field checks, in field order: blank, null, choice, length, minimum and maximum. */
  function CleanFields(d: OpportunityDraft): seq<FieldError> {
    Errors([
      TextFieldError(TitleField, d.title, Some(TitleMaxLength)),
      TextFieldError(DescriptionField, d.description, None),
      TextFieldError(LocationField, d.location, Some(LocationMaxLength)),
      ChoiceFieldError(CategoryField, d.category, ParseCategory(d.category).Some?),
      TextFieldError(RequiredSkillsField, d.requiredSkills, None),
      MinHoursError(d.minHoursPerWeek),
      RequiredFieldError(StartDateField, d.startDate),
      RequiredFieldError(EndDateField, d.endDate),
      ChoiceFieldError(StatusField, d.status, ParseStatus(d.status).Some?),
      RequiredFieldError(OrganisationField, d.organisation)
    ])
  }

  /** `full_clean`: the field checks, then `clean`. */
  function FullClean(d: OpportunityDraft): seq<FieldError> {
    CleanFields(d) + (match Clean(d) case Some(e) => [e] case None => [])
  }

  /**
   * `Opportunity.save`: runs `full_clean` and stores the record only when it
   * reports nothing; otherwise the errors are raised and nothing is stored.
   */
  function Save(d: OpportunityDraft): Result<Opportunity, seq<FieldError>> {
    var errors := FullClean(d);
    if errors != [] then Err(errors)
    else
      match (ParseCategory(d.category), ParseStatus(d.status), d.startDate, d.endDate, d.organisation)
      case (Some(category), Some(status), Some(start), Some(end), Some(organisation)) =>
        Ok(Opportunity(d.id, d.title, d.description, d.location, category, d.requiredSkills,
                       d.minHoursPerWeek, start, end, d.isRemote, status, organisation))
      case _ => Err(errors)
  }

  /** What every stored opportunity satisfies. */
  predicate Persisted(o: Opportunity) {
    && o.title != "" && |o.title| <= TitleMaxLength
    && o.description != ""
    && o.location != "" && |o.location| <= LocationMaxLength
    && o.requiredSkills != ""
    && 0 <= o.minHoursPerWeek <= IntegerFieldMax
    && o.startDate <= o.endDate
  }

  /** A draft that every per-field check accepts, stated field by field. */
  predicate FieldsAcceptable(d: OpportunityDraft) {
    && d.title != "" && |d.title| <= TitleMaxLength
    && d.description != ""
    && d.location != "" && |d.location| <= LocationMaxLength
    && ParseCategory(d.category).Some?
    && d.requiredSkills != ""
    && 0 <= d.minHoursPerWeek <= IntegerFieldMax
    && d.startDate.Some? && d.endDate.Some?
    && ParseStatus(d.status).Some?
    && d.organisation.Some?
  }

  /** A draft that every check of `full_clean` accepts, the date order included. */
  predicate DraftAcceptable(d: OpportunityDraft) {
    FieldsAcceptable(d) && d.startDate.value <= d.endDate.value
  }

  /** The per-field checks report nothing exactly for a draft whose every field is acceptable. */
  lemma CleanFieldsPass(d: OpportunityDraft)
    ensures CleanFields(d) == [] <==> FieldsAcceptable(d)
  {
    var checks := [
      TextFieldError(TitleField, d.title, Some(TitleMaxLength)),
      TextFieldError(DescriptionField, d.description, None),
      TextFieldError(LocationField, d.location, Some(LocationMaxLength)),
      ChoiceFieldError(CategoryField, d.category, ParseCategory(d.category).Some?),
      TextFieldError(RequiredSkillsField, d.requiredSkills, None),
      MinHoursError(d.minHoursPerWeek),
      RequiredFieldError(StartDateField, d.startDate),
      RequiredFieldError(EndDateField, d.endDate),
      ChoiceFieldError(StatusField, d.status, ParseStatus(d.status).Some?),
      RequiredFieldError(OrganisationField, d.organisation)
    ];
    assert CleanFields(d) == Errors(checks);
    if CleanFields(d) == [] {
      assert checks[0].None? && checks[1].None? && checks[2].None? && checks[3].None? && checks[4].None?;
      assert checks[5].None? && checks[6].None? && checks[7].None? && checks[8].None? && checks[9].None?;
    }
    if FieldsAcceptable(d) {
      assert forall i :: 0 <= i < |checks| ==> checks[i].None?;
    }
  }

  /**
   * `save` stores exactly the acceptable drafts, and what it stores keeps the
   * draft's values and satisfies the stored-record invariant.
   */
  lemma SaveGate(d: OpportunityDraft)
    ensures Save(d).Ok? <==> DraftAcceptable(d)
    ensures Save(d).Err? ==> Save(d).error != []
    ensures Save(d).Ok? ==> var o := Save(d).value;
      && Persisted(o)
      && o.id == d.id && o.title == d.title && o.requiredSkills == d.requiredSkills
      && o.description == d.description && o.location == d.location && Some(o.organisation) == d.organisation
      && o.minHoursPerWeek == d.minHoursPerWeek && o.isRemote == d.isRemote
      && CategoryCode(o.category) == d.category && StatusCode(o.status) == d.status
      && Some(o.startDate) == d.startDate && Some(o.endDate) == d.endDate
  {
    CleanFieldsPass(d);
  }

  /** A draft that gives only the required fields is saved as an open opportunity of category OTHER, on site. */
  lemma DefaultsOnSave(
    id: OpportunityId, title: string, description: string, location: string, skills: string,
    hours: int, start: Date, end: Date, organisation: OrganisationId)
    requires title != "" && |title| <= TitleMaxLength && description != ""
    requires location != "" && |location| <= LocationMaxLength
    requires skills != "" && 0 <= hours <= IntegerFieldMax && start <= end
    ensures var d := NewOpportunityDraft(id, title, description, location, skills, hours, Some(start), Some(end), Some(organisation));
      Save(d).Ok? && Save(d).value.status == Open && Save(d).value.category == Other && !Save(d).value.isRemote
  {
    var d := NewOpportunityDraft(id, title, description, location, skills, hours, Some(start), Some(end), Some(organisation));
    SaveGate(d);
  }

  // ---------------------------------------------------------------------
  // Applications
  // ---------------------------------------------------------------------

  /** A volunteer's application to an opportunity, with the opportunity's stored record. */
  datatype Application = Application(volunteer: UserId, opportunity: Opportunity, status: ApplicationStatus)

  /** The (volunteer, opportunity) pair of `a` is the given one. */
  predicate IsPair(a: Application, volunteer: UserId, opportunity: OpportunityId) {
    a.volunteer == volunteer && a.opportunity.id == opportunity
  }

  /** The table holds at most one application per (volunteer, opportunity) pair. */
  predicate UniquePairs(table: seq<Application>) {
    forall i, j :: 0 <= i < j < |table| ==>
      !IsPair(table[j], table[i].volunteer, table[i].opportunity.id)
  }

  datatype IntegrityError = DuplicateApplication

  /**
   * Inserting an application: the database refuses a second row for the same
   * pair; otherwise the new row, PENDING unless a status is given, goes first,
   * since it is the most recently created and the table is kept in
   * `-created_at` order.
   */
  function CreateApplication(
    table: seq<Application>, volunteer: UserId, opportunity: Opportunity,
    status: ApplicationStatus := DefaultApplicationStatus): (r: Result<seq<Application>, IntegrityError>)
    ensures r.Err? <==> exists i :: 0 <= i < |table| && IsPair(table[i], volunteer, opportunity.id)
    ensures r.Ok? ==> r.value == [Application(volunteer, opportunity, status)] + table
  {
    if exists i :: 0 <= i < |table| && IsPair(table[i], volunteer, opportunity.id) then
      Err(DuplicateApplication)
    else
      Ok([Application(volunteer, opportunity, status)] + table)
  }

  /** A successful insertion keeps the one-application-per-pair rule. */
  lemma CreateKeepsPairsUnique(table: seq<Application>, volunteer: UserId, opportunity: Opportunity, status: ApplicationStatus)
    requires UniquePairs(table)
    requires CreateApplication(table, volunteer, opportunity, status).Ok?
    ensures UniquePairs(CreateApplication(table, volunteer, opportunity, status).value)
  {
    var t := CreateApplication(table, volunteer, opportunity, status).value;
    forall i, j | 0 <= i < j < |t|
      ensures !IsPair(t[j], t[i].volunteer, t[i].opportunity.id)
    {
      if i == 0 {
        assert !IsPair(table[j - 1], volunteer, opportunity.id);
      } else {
        assert t[i] == table[i - 1] && t[j] == table[j - 1];
      }
    }
  }

  /** Applying twice for the same opportunity is refused the second time. */
  lemma SecondApplicationRefused(table: seq<Application>, volunteer: UserId, opportunity: Opportunity, s1: ApplicationStatus, s2: ApplicationStatus)
    requires CreateApplication(table, volunteer, opportunity, s1).Ok?
    ensures CreateApplication(CreateApplication(table, volunteer, opportunity, s1).value, volunteer, opportunity, s2).Err?
  {
    var t := CreateApplication(table, volunteer, opportunity, s1).value;
    assert IsPair(t[0], volunteer, opportunity.id);
  }
}
