/** The option checks of Init in globals/globals.go: a fixed chain of guards over
    the parsed command-line options that stops at the first one violated. */
module Validation {
  import opened Wrappers
  import opened Dates

  /** The options Init checks, as flag.Parse leaves them. The repeatable
      -mixpanelEventsFile option is the sequence of its values in the order given. */
  datatype Config = Config(
    csvFilePath: string,
    schemaFilePath: string,
    mixpanelSecret: string,
    mpEventsFilePaths: seq<string>,
    importService: string,
    awsSecretAccessKey: string,
    awsAccessKeyID: string,
    awsRegion: string,
    s3Bucket: string,
    startDate: string,
    endDate: string,
    accountID: string,
    accountPasscode: string,
    evtName: string,
    dataType: string,
    region: string)

  /** The flag defaults: every string empty except -t "profile" and -r "eu". */
  function Defaults(): (c: Config)
    ensures c.dataType == "profile" && c.region == "eu" && c.mpEventsFilePaths == []
    ensures c.csvFilePath == c.mixpanelSecret == c.importService == c.accountID == c.accountPasscode == ""
    ensures c.schemaFilePath == c.awsSecretAccessKey == c.awsAccessKeyID == c.awsRegion == c.s3Bucket == ""
    ensures c.startDate == c.endDate == c.evtName == ""
  {
    Config("", "", "", [], "", "", "", "", "", "", "", "", "", "", "profile", "eu")
  }

  /** One rule per diagnostic Init logs, in the order Init checks them. */
  datatype Rule =
    | SourceAndCredentials   // a data source, the account id and the passcode are mandatory
    | SingleSource           // CSV file and Mixpanel secret together
    | DataTypeValue          // -t is neither "profile" nor "event"
    | EventNameRequired      // event CSV upload without -evtName
    | StartDateRequired      // Mixpanel event export without -startDate
    | StartDateFormat        // -startDate is not yyyy-mm-dd
    | EndDateFormat          // -endDate is not yyyy-mm-dd
    | DateOrder              // start date after end date
    | EventsFileNeedsEvent   // Mixpanel events files with a type other than "event"
    | RegionValue            // -r is neither "eu" nor "in"
    | MParticleCredentials   // mparticle import without all four AWS options
  {
    function Index(): (i: nat)
      ensures i < 11
    {
      match this
      case SourceAndCredentials => 0
      case SingleSource => 1
      case DataTypeValue => 2
      case EventNameRequired => 3
      case StartDateRequired => 4
      case StartDateFormat => 5
      case EndDateFormat => 6
      case DateOrder => 7
      case EventsFileNeedsEvent => 8
      case RegionValue => 9
      case MParticleCredentials => 10
    }
  }

  /** The outcome of Init: true, or false together with the rule whose message was logged. */
  datatype Verdict = Valid | Invalid(rule: Rule)

  predicate IsMixpanelEventExport(c: Config) {
    c.mixpanelSecret != "" && c.dataType == "event"
  }

  /** The guard of each rule taken on its own: true when the rule's message
      would be logged were the check reached. */
  predicate Violates(c: Config, rule: Rule) {
    match rule
    case SourceAndCredentials =>
      (c.csvFilePath == "" && c.mixpanelSecret == "" && c.mpEventsFilePaths == [] && c.importService == "")
      || c.accountID == "" || c.accountPasscode == ""
    case SingleSource => c.csvFilePath != "" && c.mixpanelSecret != ""
    case DataTypeValue => c.dataType != "profile" && c.dataType != "event"
    case EventNameRequired => c.csvFilePath != "" && c.evtName == "" && c.dataType == "event"
    case StartDateRequired => IsMixpanelEventExport(c) && c.startDate == ""
    case StartDateFormat => IsMixpanelEventExport(c) && c.startDate != "" && Parse(c.startDate).None?
    case EndDateFormat => IsMixpanelEventExport(c) && c.endDate != "" && Parse(c.endDate).None?
    case DateOrder =>
      c.endDate != "" && c.startDate != "" &&
      After(ParseIgnoringError(c.startDate), ParseIgnoringError(c.endDate))
    case EventsFileNeedsEvent => |c.mpEventsFilePaths| > 0 && c.dataType != "event"
    case RegionValue => c.region != "eu" && c.region != "in"
    case MParticleCredentials =>
      c.importService == "mparticle" &&
      (c.awsSecretAccessKey == "" || c.awsAccessKeyID == "" || c.s3Bucket == "" || c.awsRegion == "")
  }

  /** The checks of Init after flag.Parse: each guard in turn, returning at the
      first that fails. */
  function Validate(c: Config): (v: Verdict)
    ensures v.Invalid? ==> Violates(c, v.rule)
  {
    if (c.csvFilePath == "" && c.mixpanelSecret == "" && c.mpEventsFilePaths == [] && c.importService == "")
       || c.accountID == "" || c.accountPasscode == "" then
      Invalid(SourceAndCredentials)
    else if c.csvFilePath != "" && c.mixpanelSecret != "" then
      Invalid(SingleSource)
    else if c.dataType != "profile" && c.dataType != "event" then
      Invalid(DataTypeValue)
    else if c.csvFilePath != "" && c.evtName == "" && c.dataType == "event" then
      Invalid(EventNameRequired)
    else if c.mixpanelSecret != "" && c.dataType == "event" && c.startDate == "" then
      Invalid(StartDateRequired)
    else if c.mixpanelSecret != "" && c.dataType == "event" && c.startDate != "" && Parse(c.startDate).None? then
      Invalid(StartDateFormat)
    else if c.mixpanelSecret != "" && c.dataType == "event" && c.endDate != "" && Parse(c.endDate).None? then
      Invalid(EndDateFormat)
    else if c.endDate != "" && c.startDate != "" &&
            After(ParseIgnoringError(c.startDate), ParseIgnoringError(c.endDate)) then
      Invalid(DateOrder)
    else if |c.mpEventsFilePaths| > 0 && c.dataType != "event" then
      Invalid(EventsFileNeedsEvent)
    else if c.region != "eu" && c.region != "in" then
      Invalid(RegionValue)
    else if c.importService == "mparticle" &&
            (c.awsSecretAccessKey == "" || c.awsAccessKeyID == "" || c.s3Bucket == "" || c.awsRegion == "") then
      Invalid(MParticleCredentials)
    else
      Valid
  }

  /** The chain reports the first violated rule: Valid when no rule is
      violated, and otherwise a violated rule such that every rule Init checks
      before it holds. */
  lemma ValidateReportsFirstViolation(c: Config)
    ensures Validate(c) == Valid <==> forall rule :: !Violates(c, rule)
    ensures Validate(c).Invalid? ==> Violates(c, Validate(c).rule)
    ensures Validate(c).Invalid? ==>
      forall rule: Rule :: rule.Index() < Validate(c).rule.Index() ==> !Violates(c, rule)
  {
    var v := Validate(c);
    forall rule: Rule
      ensures v == Valid ==> !Violates(c, rule)
      ensures v.Invalid? && rule.Index() < v.rule.Index() ==> !Violates(c, rule)
    {
      match rule
      case SourceAndCredentials =>
      case SingleSource =>
      case DataTypeValue =>
      case EventNameRequired =>
      case StartDateRequired =>
      case StartDateFormat =>
      case EndDateFormat =>
      case DateOrder =>
      case EventsFileNeedsEvent =>
      case RegionValue =>
      case MParticleCredentials =>
    }
  }

  // The properties the chain promises, stated on the options themselves.

  /** Without an account id or a passcode nothing is accepted, whatever else is set. */
  lemma RejectsMissingCredentials(c: Config)
    requires c.accountID == "" || c.accountPasscode == ""
    ensures Validate(c) == Invalid(SourceAndCredentials)
  {
  }

  /** Without any data source nothing is accepted. */
  lemma RejectsMissingSource(c: Config)
    requires c.csvFilePath == "" && c.mixpanelSecret == "" && c.mpEventsFilePaths == [] && c.importService == ""
    ensures Validate(c) == Invalid(SourceAndCredentials)
  {
  }

  /** A CSV file and a Mixpanel secret together are rejected. */
  lemma RejectsTwoSources(c: Config)
    requires c.csvFilePath != "" && c.mixpanelSecret != ""
    ensures Validate(c) == Invalid(SourceAndCredentials) || Validate(c) == Invalid(SingleSource)
  {
  }

  /** What every accepted configuration satisfies: the invariants of a validated run. */
  lemma AcceptedConfig(c: Config)
    requires Validate(c) == Valid
    ensures c.accountID != "" && c.accountPasscode != ""
    ensures c.csvFilePath != "" || c.mixpanelSecret != "" || c.mpEventsFilePaths != [] || c.importService != ""
    ensures c.csvFilePath == "" || c.mixpanelSecret == ""
    ensures c.dataType == "profile" || c.dataType == "event"
    ensures c.region == "eu" || c.region == "in"
    ensures c.csvFilePath != "" && c.dataType == "event" ==> c.evtName != ""
    ensures c.mpEventsFilePaths != [] ==> c.dataType == "event"
    ensures c.startDate != "" && c.endDate != "" ==>
      !After(ParseIgnoringError(c.startDate), ParseIgnoringError(c.endDate))
    ensures c.importService == "mparticle" ==>
      c.awsSecretAccessKey != "" && c.awsAccessKeyID != "" && c.s3Bucket != "" && c.awsRegion != ""
  {
  }

  /** An event CSV upload without an event name is rejected. */
  lemma RejectsEventCsvWithoutName(c: Config)
    requires c.csvFilePath != "" && c.evtName == "" && c.dataType == "event"
    ensures Validate(c).Invalid?
  {
  }

  /** Mixpanel events files are rejected unless the type is "event". */
  lemma RejectsEventsFilesWithoutEventType(c: Config)
    requires c.mpEventsFilePaths != [] && c.dataType != "event"
    ensures Validate(c).Invalid?
  {
  }

  /** A Mixpanel event export is accepted only with a start date, and only with
      dates that are valid yyyy-mm-dd calendar dates. */
  lemma AcceptedMixpanelDates(c: Config)
    requires Validate(c) == Valid && IsMixpanelEventExport(c)
    ensures c.startDate != "" && HasDateLayout(c.startDate)
    ensures c.endDate != "" ==> HasDateLayout(c.endDate)
  {
  }

  /** Conversely, a Mixpanel event export with a missing or malformed start date,
      or a malformed end date, is rejected. */
  lemma RejectsBadMixpanelDates(c: Config)
    requires IsMixpanelEventExport(c)
    requires c.startDate == "" || !HasDateLayout(c.startDate) || (c.endDate != "" && !HasDateLayout(c.endDate))
    ensures Validate(c).Invalid?
  {
  }

  /** Once the rules before it hold, the ordering rule rejects exactly the
      configurations whose start date, read as the zero date when it does not
      parse, is after the end date, read the same way. Both dates must be given. */
  lemma DateOrderDecides(c: Config)
    requires forall rule: Rule :: rule.Index() < DateOrder.Index() ==> !Violates(c, rule)
    ensures Validate(c) == Invalid(DateOrder) <==>
      c.startDate != "" && c.endDate != "" &&
      After(ParseIgnoringError(c.startDate), ParseIgnoringError(c.endDate))
  {
    assert !Violates(c, SourceAndCredentials) && !Violates(c, SingleSource) && !Violates(c, DataTypeValue);
    assert !Violates(c, EventNameRequired) && !Violates(c, StartDateRequired);
    assert !Violates(c, StartDateFormat) && !Violates(c, EndDateFormat);
  }

  /** The ordering rule ignores the parse errors: a start date that is not a
      date reads as January 1 of year 1, which is after no date from that day
      on, so it never fails the ordering rule against such an end date. (In a
      Mixpanel event export the start-date format rule rejects it first.) */
  lemma UnparseableStartIsZeroDate(c: Config)
    requires c.startDate != "" && !HasDateLayout(c.startDate)
    requires Parse(c.endDate).Some? && !After(ZeroDate, Parse(c.endDate).value)
    ensures Validate(c) != Invalid(DateOrder)
  {
  }

  /** An mparticle import missing any of the four AWS options is rejected. */
  lemma RejectsIncompleteMParticle(c: Config)
    requires c.importService == "mparticle"
    requires c.awsSecretAccessKey == "" || c.awsAccessKeyID == "" || c.s3Bucket == "" || c.awsRegion == ""
    ensures Validate(c).Invalid?
  {
  }

  // Concrete configurations.

  /** A CSV profile upload with credentials and nothing else is accepted. */
  lemma AcceptsMinimalCsvProfile()
    ensures Validate(Defaults().(csvFilePath := "f.csv", accountID := "a", accountPasscode := "b")) == Valid
  {
  }

  lemma RejectsInvalidMonth()
    ensures Validate(Defaults().(mixpanelSecret := "s", dataType := "event", startDate := "2023-13-01",
                                 accountID := "a", accountPasscode := "b")) == Invalid(StartDateFormat)
  {
    assert !HasDateLayout("2023-13-01") by {
      LayoutDigits("2023-13-01");
    }
  }

  lemma StartAfterEndDates()
    ensures Parse("2023-02-01") == Some(Date(2023, 2, 1))
    ensures Parse("2023-01-01") == Some(Date(2023, 1, 1))
  {
    assert Format(Date(2023, 2, 1)) == "2023-02-01";
    ParseFormat(Date(2023, 2, 1));
    assert Format(Date(2023, 1, 1)) == "2023-01-01";
    ParseFormat(Date(2023, 1, 1));
  }

  lemma RejectsStartAfterEnd()
    ensures Validate(Defaults().(csvFilePath := "f", startDate := "2023-02-01", endDate := "2023-01-01",
                                 accountID := "a", accountPasscode := "b")) == Invalid(DateOrder)
  {
    StartAfterEndDates();
  }

  /** A malformed start date passes the ordering rule of a CSV upload, because it reads as the zero date. */
  lemma AcceptsUnparseableStartOnCsv()
    ensures Validate(Defaults().(csvFilePath := "f", startDate := "yesterday", endDate := "2023-01-01",
                                 accountID := "a", accountPasscode := "b")) == Valid
  {
    ParseFormat(Date(2023, 1, 1));
  }

  /** A malformed end date reads as the zero date, so any real start date is after it. */
  lemma RejectsUnparseableEndOnCsv()
    ensures Validate(Defaults().(csvFilePath := "f", startDate := "2023-01-01", endDate := "tomorrow",
                                 accountID := "a", accountPasscode := "b")) == Invalid(DateOrder)
  {
    ParseFormat(Date(2023, 1, 1));
  }

  /** The zero date is in year 1, so a malformed start date is after an end date in year 0. */
  lemma RejectsUnparseableStartAgainstYearZero()
    ensures Validate(Defaults().(csvFilePath := "f", startDate := "junk", endDate := "0000-06-15",
                                 accountID := "a", accountPasscode := "b")) == Invalid(DateOrder)
  {
    assert Format(Date(0, 6, 15)) == "0000-06-15";
    ParseFormat(Date(0, 6, 15));
  }

  lemma RejectsMParticleWithOnlyAccessKey()
    ensures Validate(Defaults().(importService := "mparticle", awsAccessKeyID := "k",
                                 accountID := "a", accountPasscode := "b")) == Invalid(MParticleCredentials)
  {
  }
}
