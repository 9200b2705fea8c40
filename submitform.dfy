/**
  The submission form of app/submit/page.tsx: what it holds, the checks
  `handleSubmit` makes before sending anything, the record it sends, and
  the page state it leaves behind.
*/
module SubmitForm {
  import opened Wrappers
  import opened Text
  import opened SubmitJam

  /** Everything the form holds: the text of every input and the five
      check boxes. */
  datatype FormState = FormState(
    eventName: string, eventKind: string, primaryGenre: string, secondaryGenres: string,
    skillLevel: string, venueName: string, address: string, city: string, region: string,
    greaterRegion: string, state: string, country: string, latitude: string, longitude: string,
    dayOfWeek: string, frequency: string, weeksOfMonth: string, startDate: string,
    endDate: string, startTime: string, endTime: string, recurrenceDescription: string,
    avgCrowdSize: string, timeOfDay: string, inviteStatus: string, coverChargeType: string,
    coverChargeAmount: string, websiteUrl: string, facebookUrl: string, instagramUrl: string,
    otherLinks: string, eventDescription: string, contactEmail: string, contactPhone: string,
    tradLevel: string, multipleJamsAtOnce: bool, includesDancing: bool, includesVisualArt: bool,
    isHouseJam: bool, isFestival: bool)

  /** The form as it starts and as it is left after a successful
      submission: every input empty, every box unchecked. */
  const EMPTY_FORM := FormState(
    "", "", "", "", "", "", "", "", "", "", "", "", "", "", "", "", "", "", "", "", "", "", "",
    "", "", "", "", "", "", "", "", "", "", "", "", false, false, false, false, false)

  /** The record sent to the `jams` table. Name, city and region are
      required; any other text is `null` when left blank. */
  datatype Payload = Payload(
    eventName: string, eventKind: Option<string>, primaryGenre: Option<string>,
    secondaryGenres: Option<string>, skillLevel: Option<string>, venueName: Option<string>,
    address: Option<string>, city: string, region: string, greaterRegion: Option<string>,
    state: Option<string>, country: Option<string>, dayOfWeek: Option<string>,
    frequency: Option<string>, weeksOfMonth: Option<string>, startDate: Option<string>,
    endDate: Option<string>, startTime: Option<string>, endTime: Option<string>,
    recurrenceDescription: Option<string>, avgCrowdSize: Option<string>,
    timeOfDay: Option<string>, inviteStatus: Option<string>, coverChargeType: Option<string>,
    coverChargeAmount: Option<string>, websiteUrl: Option<string>, facebookUrl: Option<string>,
    instagramUrl: Option<string>, otherLinks: Option<string>, eventDescription: Option<string>,
    contactEmail: Option<string>, contactPhone: Option<string>, tradLevel: Option<string>,
    multipleJamsAtOnce: bool, includesDancing: bool, includesVisualArt: bool, isHouseJam: bool,
    isFestival: bool, status: string)

  /** The optional text columns of the record, each filled from the form
      input of the same name. */
  datatype TextColumn =
    EventKind | PrimaryGenre | SecondaryGenres | SkillLevel | VenueName | Address |
    GreaterRegion | State | Country | DayOfWeek | Frequency | WeeksOfMonth | StartDate |
    EndDate | RecurrenceDescription | AvgCrowdSize | TimeOfDay | InviteStatus |
    CoverChargeType | CoverChargeAmount | WebsiteUrl | FacebookUrl | InstagramUrl | OtherLinks |
    EventDescription | ContactEmail | ContactPhone | TradLevel

  /** The form input a column is filled from. */
  function FormText(form: FormState, c: TextColumn): string {
    match c
    case EventKind => form.eventKind
    case PrimaryGenre => form.primaryGenre
    case SecondaryGenres => form.secondaryGenres
    case SkillLevel => form.skillLevel
    case VenueName => form.venueName
    case Address => form.address
    case GreaterRegion => form.greaterRegion
    case State => form.state
    case Country => form.country
    case DayOfWeek => form.dayOfWeek
    case Frequency => form.frequency
    case WeeksOfMonth => form.weeksOfMonth
    case StartDate => form.startDate
    case EndDate => form.endDate
    case RecurrenceDescription => form.recurrenceDescription
    case AvgCrowdSize => form.avgCrowdSize
    case TimeOfDay => form.timeOfDay
    case InviteStatus => form.inviteStatus
    case CoverChargeType => form.coverChargeType
    case CoverChargeAmount => form.coverChargeAmount
    case WebsiteUrl => form.websiteUrl
    case FacebookUrl => form.facebookUrl
    case InstagramUrl => form.instagramUrl
    case OtherLinks => form.otherLinks
    case EventDescription => form.eventDescription
    case ContactEmail => form.contactEmail
    case ContactPhone => form.contactPhone
    case TradLevel => form.tradLevel
  }

  /** The value of an optional text column in a record. */
  function PayloadText(p: Payload, c: TextColumn): Option<string> {
    match c
    case EventKind => p.eventKind
    case PrimaryGenre => p.primaryGenre
    case SecondaryGenres => p.secondaryGenres
    case SkillLevel => p.skillLevel
    case VenueName => p.venueName
    case Address => p.address
    case GreaterRegion => p.greaterRegion
    case State => p.state
    case Country => p.country
    case DayOfWeek => p.dayOfWeek
    case Frequency => p.frequency
    case WeeksOfMonth => p.weeksOfMonth
    case StartDate => p.startDate
    case EndDate => p.endDate
    case RecurrenceDescription => p.recurrenceDescription
    case AvgCrowdSize => p.avgCrowdSize
    case TimeOfDay => p.timeOfDay
    case InviteStatus => p.inviteStatus
    case CoverChargeType => p.coverChargeType
    case CoverChargeAmount => p.coverChargeAmount
    case WebsiteUrl => p.websiteUrl
    case FacebookUrl => p.facebookUrl
    case InstagramUrl => p.instagramUrl
    case OtherLinks => p.otherLinks
    case EventDescription => p.eventDescription
    case ContactEmail => p.contactEmail
    case ContactPhone => p.contactPhone
    case TradLevel => p.tradLevel
  }

  /** The check boxes of the form. */
  function Flags(form: FormState): seq<bool> {
    [form.multipleJamsAtOnce, form.includesDancing, form.includesVisualArt, form.isHouseJam, form.isFestival]
  }

  /** The check boxes of a record. */
  function PayloadFlags(p: Payload): seq<bool> {
    [p.multipleJamsAtOnce, p.includesDancing, p.includesVisualArt, p.isHouseJam, p.isFestival]
  }

  const NAME_MISSING := "Please add a jam name."
  const LOCATION_MISSING := "Please include the city and region so others can find it."
  const BAD_TIME := "Please use a valid time format (e.g., 19:00 or 7:00 PM)."

  /** `time ?? null`: a parsed time, or `null` for no time. */
  function TimeValue(t: TimeResult): (r: Option<string>)
    requires !t.BadTime?
    ensures r.None? <==> t.NoTime?
    ensures r.Some? ==> r.value == t.value
  {
    if t.DbTime? then Some(t.value) else None
  }

  /** The record built from a form whose checks have passed. */
  function BuildPayload(form: FormState, start: TimeResult, end: TimeResult): Payload
    requires !start.BadTime? && !end.BadTime?
  {
    Payload(
      Trim(form.eventName), NullIfEmpty(form.eventKind), NullIfEmpty(form.primaryGenre),
      NullIfEmpty(form.secondaryGenres), NullIfEmpty(form.skillLevel),
      NullIfEmpty(form.venueName), NullIfEmpty(form.address), Trim(form.city),
      Trim(form.region), NullIfEmpty(form.greaterRegion), NullIfEmpty(form.state),
      NullIfEmpty(form.country), NullIfEmpty(form.dayOfWeek), NullIfEmpty(form.frequency),
      NullIfEmpty(form.weeksOfMonth), NullIfEmpty(form.startDate), NullIfEmpty(form.endDate),
      TimeValue(start), TimeValue(end), NullIfEmpty(form.recurrenceDescription),
      NullIfEmpty(form.avgCrowdSize), NullIfEmpty(form.timeOfDay),
      NullIfEmpty(form.inviteStatus), NullIfEmpty(form.coverChargeType),
      NullIfEmpty(form.coverChargeAmount), NullIfEmpty(form.websiteUrl),
      NullIfEmpty(form.facebookUrl), NullIfEmpty(form.instagramUrl),
      NullIfEmpty(form.otherLinks), NullIfEmpty(form.eventDescription),
      NullIfEmpty(form.contactEmail), NullIfEmpty(form.contactPhone),
      NullIfEmpty(form.tradLevel), form.multipleJamsAtOnce, form.includesDancing,
      form.includesVisualArt, form.isHouseJam, form.isFestival, "active")
  }

  /** The checks `handleSubmit` makes before anything is sent, in their
      order, and the record it then builds. */
  function Validate(form: FormState): Result<Payload, string> {
    if Trim(form.eventName) == "" then Failure(NAME_MISSING)
    else if Trim(form.city) == "" || Trim(form.region) == "" then Failure(LOCATION_MISSING)
    else
      var start := ParseTimeToDb(Some(form.startTime));
      var end := ParseTimeToDb(Some(form.endTime));
      if start == BadTime || end == BadTime then Failure(BAD_TIME)
      else Success(BuildPayload(form, start, end))
  }

  /** The checks come in a fixed order, the first that fails decides the
      message, and a record is built exactly when all of them pass. */
  lemma ValidationOrder(form: FormState)
    ensures AllSpace(form.eventName) ==> Validate(form) == Failure(NAME_MISSING)
    ensures (!AllSpace(form.eventName) && (AllSpace(form.city) || AllSpace(form.region)))
              ==> Validate(form) == Failure(LOCATION_MISSING)
    ensures (&& !AllSpace(form.eventName) && !AllSpace(form.city) && !AllSpace(form.region)
             && (ParseTimeToDb(Some(form.startTime)) == BadTime || ParseTimeToDb(Some(form.endTime)) == BadTime))
              ==> Validate(form) == Failure(BAD_TIME)
    ensures Validate(form).Success? <==>
              && !AllSpace(form.eventName) && !AllSpace(form.city) && !AllSpace(form.region)
              && ParseTimeToDb(Some(form.startTime)) != BadTime && ParseTimeToDb(Some(form.endTime)) != BadTime
  {
  }

  /** A time field of a record: `null` exactly when the input was blank,
      otherwise a time in the database's form. */
  predicate TimeFieldOf(t: Option<string>, input: string) {
    && (t.None? <==> AllSpace(input))
    && (t.Some? ==> IsDbTime(t.value) && ParseTimeToDb(Some(input)) == DbTime(t.value))
  }

  /** A time input that is not rejected becomes such a field. */
  lemma TimeField(input: string)
    requires ParseTimeToDb(Some(input)) != BadTime
    ensures TimeFieldOf(TimeValue(ParseTimeToDb(Some(input))), input)
  {
    ParsedIsDbTime(Some(input));
    NoTimeExactly(Some(input));
  }

  /** The record of a form that passed the checks. */
  lemma ValidatedPayload(form: FormState)
    requires Validate(form).Success?
    ensures ParseTimeToDb(Some(form.startTime)) != BadTime && ParseTimeToDb(Some(form.endTime)) != BadTime
    ensures Trim(form.eventName) != "" && Trim(form.city) != "" && Trim(form.region) != ""
    ensures Validate(form).value
              == BuildPayload(form, ParseTimeToDb(Some(form.startTime)), ParseTimeToDb(Some(form.endTime)))
  {
  }

  /** Every optional column is its input passed through `nullIfEmpty`. */
  lemma BuildPayloadText(form: FormState, start: TimeResult, end: TimeResult)
    requires !start.BadTime? && !end.BadTime?
    ensures forall c :: PayloadText(BuildPayload(form, start, end), c) == NullIfEmpty(FormText(form, c))
  {
    var p := BuildPayload(form, start, end);
    forall c ensures PayloadText(p, c) == NullIfEmpty(FormText(form, c)) {
      match c
      case EventKind =>
      case PrimaryGenre =>
      case SecondaryGenres =>
      case SkillLevel =>
      case VenueName =>
      case Address =>
      case GreaterRegion =>
      case State =>
      case Country =>
      case DayOfWeek =>
      case Frequency =>
      case WeeksOfMonth =>
      case StartDate =>
      case EndDate =>
      case RecurrenceDescription =>
      case AvgCrowdSize =>
      case TimeOfDay =>
      case InviteStatus =>
      case CoverChargeType =>
      case CoverChargeAmount =>
      case WebsiteUrl =>
      case FacebookUrl =>
      case InstagramUrl =>
      case OtherLinks =>
      case EventDescription =>
      case ContactEmail =>
      case ContactPhone =>
      case TradLevel =>
    }
  }

  /** What a record built by the checks holds: the required text trimmed
      and not empty, every optional text `null` exactly when its input is
      blank and otherwise that input trimmed, the times in the database's
      form, the boxes as checked, and the status active. */
  lemma PayloadContents(form: FormState)
    requires Validate(form).Success?
    ensures var p := Validate(form).value;
            && p.eventName == Trim(form.eventName) && p.eventName != "" && IsTrimmed(p.eventName)
            && p.city == Trim(form.city) && p.city != "" && IsTrimmed(p.city)
            && p.region == Trim(form.region) && p.region != "" && IsTrimmed(p.region)
            && (forall c :: PayloadText(p, c) == NullIfEmpty(FormText(form, c)))
            && TimeFieldOf(p.startTime, form.startTime) && TimeFieldOf(p.endTime, form.endTime)
            && PayloadFlags(p) == Flags(form)
            && p.status == "active"
  {
    ValidatedPayload(form);
    BuildPayloadText(form, ParseTimeToDb(Some(form.startTime)), ParseTimeToDb(Some(form.endTime)));
    TimeField(form.startTime);
    TimeField(form.endTime);
  }

  // ---------------------------------------------------------------------
  // Records read back
  // ---------------------------------------------------------------------

  /** An optional text as a record stores it: `null`, or trimmed and not
      empty. */
  predicate CleanText(o: Option<string>) {
    o.None? || (o.value != "" && IsTrimmed(o.value))
  }

  /** A record of the shape the checks build. */
  ghost predicate IsRecord(p: Payload) {
    && p.eventName != "" && IsTrimmed(p.eventName)
    && p.city != "" && IsTrimmed(p.city)
    && p.region != "" && IsTrimmed(p.region)
    && (forall c :: CleanText(PayloadText(p, c)))
    && (p.startTime.Some? ==> IsDbTime(p.startTime.value))
    && (p.endTime.Some? ==> IsDbTime(p.endTime.value))
    && p.status == "active"
  }

  /** Every record the checks build has that shape. */
  lemma ValidatedIsRecord(form: FormState)
    requires Validate(form).Success?
    ensures IsRecord(Validate(form).value)
  {
    PayloadContents(form);
  }

  /** The form that shows a record: each text as stored, a `null` as an
      empty input, the coordinates empty. */
  function FormOf(p: Payload): FormState {
    FormState(
      p.eventName, p.eventKind.GetOr(""), p.primaryGenre.GetOr(""), p.secondaryGenres.GetOr(""),
      p.skillLevel.GetOr(""), p.venueName.GetOr(""), p.address.GetOr(""), p.city, p.region,
      p.greaterRegion.GetOr(""), p.state.GetOr(""), p.country.GetOr(""), "", "",
      p.dayOfWeek.GetOr(""), p.frequency.GetOr(""), p.weeksOfMonth.GetOr(""),
      p.startDate.GetOr(""), p.endDate.GetOr(""), p.startTime.GetOr(""), p.endTime.GetOr(""),
      p.recurrenceDescription.GetOr(""), p.avgCrowdSize.GetOr(""), p.timeOfDay.GetOr(""),
      p.inviteStatus.GetOr(""), p.coverChargeType.GetOr(""), p.coverChargeAmount.GetOr(""),
      p.websiteUrl.GetOr(""), p.facebookUrl.GetOr(""), p.instagramUrl.GetOr(""),
      p.otherLinks.GetOr(""), p.eventDescription.GetOr(""), p.contactEmail.GetOr(""),
      p.contactPhone.GetOr(""), p.tradLevel.GetOr(""), p.multipleJamsAtOnce, p.includesDancing,
      p.includesVisualArt, p.isHouseJam, p.isFestival)
  }

  /** The form that shows a record holds the record's text. */
  lemma FormOfText(p: Payload, c: TextColumn)
    ensures FormText(FormOf(p), c) == PayloadText(p, c).GetOr("")
  {
    match c
    case EventKind =>
    case PrimaryGenre =>
    case SecondaryGenres =>
    case SkillLevel =>
    case VenueName =>
    case Address =>
    case GreaterRegion =>
    case State =>
    case Country =>
    case DayOfWeek =>
    case Frequency =>
    case WeeksOfMonth =>
    case StartDate =>
    case EndDate =>
    case RecurrenceDescription =>
    case AvgCrowdSize =>
    case TimeOfDay =>
    case InviteStatus =>
    case CoverChargeType =>
    case CoverChargeAmount =>
    case WebsiteUrl =>
    case FacebookUrl =>
    case InstagramUrl =>
    case OtherLinks =>
    case EventDescription =>
    case ContactEmail =>
    case ContactPhone =>
    case TradLevel =>
  }

  /** A stored text read back through `nullIfEmpty` is itself. */
  lemma NullIfEmptyStored(o: Option<string>)
    requires CleanText(o)
    ensures NullIfEmpty(o.GetOr("")) == o
  {
    if o.Some? {
      NullIfEmptyKeeps(o.value);
    }
  }

  /** A stored time read back is itself. */
  lemma TimeStored(t: Option<string>)
    requires t.Some? ==> IsDbTime(t.value)
    ensures ParseTimeToDb(Some(t.GetOr(""))) != BadTime
    ensures TimeValue(ParseTimeToDb(Some(t.GetOr("")))) == t
  {
    if t.Some? {
      DbTimeReparses(t.value);
    } else {
      NoTimeExactly(Some(""));
    }
  }

  /** Agreeing columns give agreeing fields, four at a time: eventKind to skillLevel. */
  lemma SameText1(p: Payload, q: Payload)
    requires forall c :: PayloadText(p, c) == PayloadText(q, c)
    ensures p.eventKind == q.eventKind && p.primaryGenre == q.primaryGenre &&
            p.secondaryGenres == q.secondaryGenres && p.skillLevel == q.skillLevel
  {
    assert PayloadText(p, EventKind) == PayloadText(q, EventKind);
    assert PayloadText(p, PrimaryGenre) == PayloadText(q, PrimaryGenre);
    assert PayloadText(p, SecondaryGenres) == PayloadText(q, SecondaryGenres);
    assert PayloadText(p, SkillLevel) == PayloadText(q, SkillLevel);
  }

  /** Agreeing columns give agreeing fields, four at a time: venueName to state. */
  lemma SameText2(p: Payload, q: Payload)
    requires forall c :: PayloadText(p, c) == PayloadText(q, c)
    ensures p.venueName == q.venueName && p.address == q.address &&
            p.greaterRegion == q.greaterRegion && p.state == q.state
  {
    assert PayloadText(p, VenueName) == PayloadText(q, VenueName);
    assert PayloadText(p, Address) == PayloadText(q, Address);
    assert PayloadText(p, GreaterRegion) == PayloadText(q, GreaterRegion);
    assert PayloadText(p, State) == PayloadText(q, State);
  }

  /** Agreeing columns give agreeing fields, four at a time: country to weeksOfMonth. */
  lemma SameText3(p: Payload, q: Payload)
    requires forall c :: PayloadText(p, c) == PayloadText(q, c)
    ensures p.country == q.country && p.dayOfWeek == q.dayOfWeek &&
            p.frequency == q.frequency && p.weeksOfMonth == q.weeksOfMonth
  {
    assert PayloadText(p, Country) == PayloadText(q, Country);
    assert PayloadText(p, DayOfWeek) == PayloadText(q, DayOfWeek);
    assert PayloadText(p, Frequency) == PayloadText(q, Frequency);
    assert PayloadText(p, WeeksOfMonth) == PayloadText(q, WeeksOfMonth);
  }

  /** Agreeing columns give agreeing fields, four at a time: startDate to avgCrowdSize. */
  lemma SameText4(p: Payload, q: Payload)
    requires forall c :: PayloadText(p, c) == PayloadText(q, c)
    ensures p.startDate == q.startDate && p.endDate == q.endDate &&
            p.recurrenceDescription == q.recurrenceDescription &&
            p.avgCrowdSize == q.avgCrowdSize
  {
    assert PayloadText(p, StartDate) == PayloadText(q, StartDate);
    assert PayloadText(p, EndDate) == PayloadText(q, EndDate);
    assert PayloadText(p, RecurrenceDescription) == PayloadText(q, RecurrenceDescription);
    assert PayloadText(p, AvgCrowdSize) == PayloadText(q, AvgCrowdSize);
  }

  /** Agreeing columns give agreeing fields, four at a time: timeOfDay to coverChargeAmount. */
  lemma SameText5(p: Payload, q: Payload)
    requires forall c :: PayloadText(p, c) == PayloadText(q, c)
    ensures p.timeOfDay == q.timeOfDay && p.inviteStatus == q.inviteStatus &&
            p.coverChargeType == q.coverChargeType &&
            p.coverChargeAmount == q.coverChargeAmount
  {
    assert PayloadText(p, TimeOfDay) == PayloadText(q, TimeOfDay);
    assert PayloadText(p, InviteStatus) == PayloadText(q, InviteStatus);
    assert PayloadText(p, CoverChargeType) == PayloadText(q, CoverChargeType);
    assert PayloadText(p, CoverChargeAmount) == PayloadText(q, CoverChargeAmount);
  }

  /** Agreeing columns give agreeing fields, four at a time: websiteUrl to otherLinks. */
  lemma SameText6(p: Payload, q: Payload)
    requires forall c :: PayloadText(p, c) == PayloadText(q, c)
    ensures p.websiteUrl == q.websiteUrl && p.facebookUrl == q.facebookUrl &&
            p.instagramUrl == q.instagramUrl && p.otherLinks == q.otherLinks
  {
    assert PayloadText(p, WebsiteUrl) == PayloadText(q, WebsiteUrl);
    assert PayloadText(p, FacebookUrl) == PayloadText(q, FacebookUrl);
    assert PayloadText(p, InstagramUrl) == PayloadText(q, InstagramUrl);
    assert PayloadText(p, OtherLinks) == PayloadText(q, OtherLinks);
  }

  /** Agreeing columns give agreeing fields, four at a time: eventDescription to tradLevel. */
  lemma SameText7(p: Payload, q: Payload)
    requires forall c :: PayloadText(p, c) == PayloadText(q, c)
    ensures p.eventDescription == q.eventDescription && p.contactEmail == q.contactEmail &&
            p.contactPhone == q.contactPhone && p.tradLevel == q.tradLevel
  {
    assert PayloadText(p, EventDescription) == PayloadText(q, EventDescription);
    assert PayloadText(p, ContactEmail) == PayloadText(q, ContactEmail);
    assert PayloadText(p, ContactPhone) == PayloadText(q, ContactPhone);
    assert PayloadText(p, TradLevel) == PayloadText(q, TradLevel);
  }

  /** Two records that agree on every column are the same record. */
  lemma SameRecord(p: Payload, q: Payload)
    requires forall c :: PayloadText(p, c) == PayloadText(q, c)
    requires p.eventName == q.eventName && p.city == q.city && p.region == q.region
    requires p.startTime == q.startTime && p.endTime == q.endTime
    requires PayloadFlags(p) == PayloadFlags(q) && p.status == q.status
    ensures p == q
  {
    SameText1(p, q);
    SameText2(p, q);
    SameText3(p, q);
    SameText4(p, q);
    SameText5(p, q);
    SameText6(p, q);
    SameText7(p, q);
    assert PayloadFlags(p)[0] == PayloadFlags(q)[0] && PayloadFlags(p)[1] == PayloadFlags(q)[1];
    assert PayloadFlags(p)[2] == PayloadFlags(q)[2] && PayloadFlags(p)[3] == PayloadFlags(q)[3];
    assert PayloadFlags(p)[4] == PayloadFlags(q)[4];
  }

  /** Building a record from the form that shows it, with its own times,
      gives it back. */
  lemma RebuildRecord(p: Payload, start: TimeResult, end: TimeResult)
    requires IsRecord(p)
    requires !start.BadTime? && !end.BadTime? && TimeValue(start) == p.startTime && TimeValue(end) == p.endTime
    ensures BuildPayload(FormOf(p), start, end) == p
  {
    var q := BuildPayload(FormOf(p), start, end);
    BuildPayloadText(FormOf(p), start, end);
    forall c ensures PayloadText(q, c) == PayloadText(p, c) {
      FormOfText(p, c);
      NullIfEmptyStored(PayloadText(p, c));
    }
    TrimmedIsFixed(p.eventName);
    TrimmedIsFixed(p.city);
    TrimmedIsFixed(p.region);
    SameRecord(q, p);
  }

  /** Submitting the form that shows a record sends that same record. */
  lemma ResubmitRecord(p: Payload)
    requires IsRecord(p)
    ensures Validate(FormOf(p)) == Success(p)
  {
    var form := FormOf(p);
    TrimmedIsFixed(p.eventName);
    TrimmedIsFixed(p.city);
    TrimmedIsFixed(p.region);
    TimeStored(p.startTime);
    TimeStored(p.endTime);
    var start, end := ParseTimeToDb(Some(form.startTime)), ParseTimeToDb(Some(form.endTime));
    RebuildRecord(p, start, end);
  }

  /** Checking a sent record's form again sends the same record. */
  lemma ValidateIdempotent(form: FormState)
    requires Validate(form).Success?
    ensures Validate(FormOf(Validate(form).value)) == Validate(form)
  {
    ValidatedIsRecord(form);
    ResubmitRecord(Validate(form).value);
  }

  // ---------------------------------------------------------------------
  // Submitting
  // ---------------------------------------------------------------------

  /** What the database answers to the insert: an error message, or the
      rows written, of which the first one's `id` is read (absent when no
      row came back). */
  datatype InsertOutcome = InsertFailed(message: string) | Inserted(id: Option<int>)

  const SUBMITTED := "Jam submitted! It is live now."

  /** The confirmation: with a link to the new jam when its id came back
      and is not 0 (a falsy id shows no link). */
  function SuccessMessage(id: Option<int>): (r: string)
    ensures StartsWith(r, SUBMITTED)
    ensures r == SUBMITTED <==> id.None? || id.value == 0
    ensures id.Some? && id.value != 0 ==> EndsWith(r, "/jam/" + IntToString(id.value) + ".")
  {
    if id.Some? && id.value != 0 then
      var link := "/jam/" + IntToString(id.value) + ".";
      Surrounded(SUBMITTED, " View it at ", link);
      SUBMITTED + " View it at " + link
    else
      Surrounded(SUBMITTED, "", "");
      SUBMITTED
  }

  /** A string followed by others starts with it and ends with the last. */
  lemma Surrounded(p: string, mid: string, t: string)
    ensures StartsWith(p + mid + t, p) && EndsWith(p + mid + t, t)
    ensures |p + mid + t| == |p| + |mid| + |t|
  {
    assert (p + mid + t)[..|p|] == p;
    assert (p + mid + t)[|p + mid + t| - |t|..] == t;
  }

  /** The submission page: the form and the messages it shows. */
  class SubmitJamPage {
    var form: FormState
    var submitting: bool
    var error: Option<string>
    var success: Option<string>

    constructor ()
      ensures form == EMPTY_FORM && !submitting && error == None && success == None
    {
      form := EMPTY_FORM;
      submitting := false;
      error := None;
      success := None;
    }

    /** `handleSubmit`: clears both messages, makes the checks in order and
        stops at the first that fails with its message; otherwise sends the
        record (returned here) and, on the database's answer `insert`,
        shows its error, or the confirmation and an empty form. */
    method HandleSubmit(insert: InsertOutcome) returns (sent: Option<Payload>)
      modifies this
      ensures !submitting
      ensures Validate(old(form)).Failure? ==>
                && sent == None && error == Some(Validate(old(form)).error) && success == None
                && form == old(form)
      ensures Validate(old(form)).Success? ==> sent == Some(Validate(old(form)).value)
      ensures Validate(old(form)).Success? && insert.InsertFailed? ==>
                error == Some(insert.message) && success == None && form == old(form)
      ensures Validate(old(form)).Success? && insert.Inserted? ==>
                error == None && success == Some(SuccessMessage(insert.id)) && form == EMPTY_FORM
    {
      var f := form;
      ghost var outcome := Validate(f);
      error := None;
      success := None;
      submitting := true;
      if Trim(f.eventName) == "" {
        assert outcome == Failure(NAME_MISSING);
        error := Some(NAME_MISSING);
        submitting := false;
        return None;
      }
      if Trim(f.city) == "" || Trim(f.region) == "" {
        assert outcome == Failure(LOCATION_MISSING);
        error := Some(LOCATION_MISSING);
        submitting := false;
        return None;
      }
      var startTime := ParseTimeToDb(Some(f.startTime));
      var endTime := ParseTimeToDb(Some(f.endTime));
      if startTime == BadTime || endTime == BadTime {
        assert outcome == Failure(BAD_TIME);
        error := Some(BAD_TIME);
        submitting := false;
        return None;
      }
      var payload := BuildPayload(f, startTime, endTime);
      assert outcome == Success(payload);
      sent := Some(payload);
      match insert
      case InsertFailed(message) =>
        error := Some(message);
        submitting := false;
      case Inserted(id) =>
        success := Some(SuccessMessage(id));
        form := EMPTY_FORM;
        submitting := false;
    }
  }
}
