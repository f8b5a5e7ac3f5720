/** The report store of app.py: the `CrimeReport` table keyed by `firNo`,
    with the routes that create a row (`process_reported_crime`), overwrite
    its citations (`submit_ipc_sections`) and fetch it (`display_fir`,
    `download_fir_pdf`). */
module Reports {
  import opened Wrappers
  import Classifier

  /** A calendar date, as `datetime.strptime(text, '%Y-%m-%d')` returns it. */
  datatype Date = Date(year: int, month: int, day: int)

  /** `datetime.strptime(text, '%Y-%m-%d')`: the date, or `None` where it
      raises. Its rules are not part of this model. */
  type DateParser = string -> Option<Date>

  /** The JSON body sent to `/process_reported_crime`: `None` is a key that
      is absent, so that `data.get(key)` gives Python's `None`. */
  datatype ReportRequest = ReportRequest(
    firNo: Option<string>,
    district: Option<string>,
    date: Option<string>,
    day: Option<string>,
    dateOfOccurrence: Option<string>,
    placeOfOccurrence: Option<string>,
    name: Option<string>,
    dob: Option<string>,
    nationality: Option<string>,
    occupation: Option<string>,
    address: Option<string>,
    reportedCrime: Option<string>,
    propertiesInvolved: Option<string>)

  /** One row of the table; the descriptive columns may be NULL (`None`). */
  datatype CrimeReport = CrimeReport(
    firNo: string,
    district: Option<string>,
    date: Date,
    day: Option<string>,
    dateOfOccurrence: Date,
    placeOfOccurrence: Option<string>,
    name: Option<string>,
    dob: Date,
    nationality: Option<string>,
    occupation: Option<string>,
    address: Option<string>,
    reportedCrime: string,
    propertiesInvolved: Option<string>,
    modelOutput: seq<string>)

  /** Why a route answers with an error instead of changing the table. */
  datatype ReportError =
    | InferenceFailure             // `generate` raised
    | UnparsableDate(field: string) // `strptime` raised on this key's value
    | MissingKey                   // a row with a NULL primary key cannot be added
    | DuplicateKey                 // the primary key is already in the table
    | NotFound                     // no row has the given `firNo`

  /** `data.get('reportedCrime', '')`: the narrative that is classified and
      the one that is stored. */
  function Narrative(req: ReportRequest): string {
    req.reportedCrime.GetOr("")
  }

  /** `datetime.strptime(data.get(key), '%Y-%m-%d')`: an absent value raises
      as well. */
  function ParseField(value: Option<string>, parse: DateParser): Option<Date> {
    match value
    case None => None
    case Some(text) => parse(text)
  }

  /** `rec` holds what the request supplies: every text column verbatim, the
      three parsed dates, the narrative, and `sections` as the model output. */
  ghost predicate Describes(rec: CrimeReport, req: ReportRequest, sections: seq<string>, parse: DateParser) {
    && req.firNo == Some(rec.firNo)
    && ParseField(req.date, parse) == Some(rec.date)
    && ParseField(req.dateOfOccurrence, parse) == Some(rec.dateOfOccurrence)
    && ParseField(req.dob, parse) == Some(rec.dob)
    && rec.district == req.district && rec.day == req.day
    && rec.placeOfOccurrence == req.placeOfOccurrence && rec.name == req.name
    && rec.nationality == req.nationality && rec.occupation == req.occupation
    && rec.address == req.address && rec.propertiesInvolved == req.propertiesInvolved
    && rec.reportedCrime == Narrative(req)
    && rec.modelOutput == sections
  }

  /** The `CrimeReport(...)` of lines 56-71 and the key check of the add: the
      dates are parsed in the order date, dateOfOccurrence, dob, and the first
      one that fails is the error; a request without `firNo` fails after them. */
  function BuildReport(req: ReportRequest, sections: seq<string>, parse: DateParser): (r: Result<CrimeReport, ReportError>)
    ensures r.Success? ==> Describes(r.value, req, sections, parse)
    ensures ParseField(req.date, parse).None? ==> r == Failure(UnparsableDate("date"))
    ensures ParseField(req.date, parse).Some? && ParseField(req.dateOfOccurrence, parse).None? ==>
              r == Failure(UnparsableDate("dateOfOccurrence"))
    ensures (ParseField(req.date, parse).Some? && ParseField(req.dateOfOccurrence, parse).Some?
             && ParseField(req.dob, parse).None?) ==> r == Failure(UnparsableDate("dob"))
    ensures (ParseField(req.date, parse).Some? && ParseField(req.dateOfOccurrence, parse).Some?
             && ParseField(req.dob, parse).Some?) ==> (r.Success? <==> req.firNo.Some?)
    ensures (ParseField(req.date, parse).Some? && ParseField(req.dateOfOccurrence, parse).Some?
             && ParseField(req.dob, parse).Some? && req.firNo.None?) ==> r == Failure(MissingKey)
    ensures r.Failure? && req.firNo.Some? ==> r.error.UnparsableDate?
  {
    match ParseField(req.date, parse)
    case None => Failure(UnparsableDate("date"))
    case Some(date) =>
      match ParseField(req.dateOfOccurrence, parse)
      case None => Failure(UnparsableDate("dateOfOccurrence"))
      case Some(dateOfOccurrence) =>
        match ParseField(req.dob, parse)
        case None => Failure(UnparsableDate("dob"))
        case Some(dob) =>
          match req.firNo
          case None => Failure(MissingKey)
          case Some(firNo) =>
            Success(CrimeReport(
              firNo, req.district, date, req.day, dateOfOccurrence, req.placeOfOccurrence,
              req.name, dob, req.nationality, req.occupation, req.address,
              Narrative(req), req.propertiesInvolved, sections))
  }

  /** The outcome of `process_reported_crime` against the table `reports`:
      classify first, then build the record, then add it under a new key. */
  function Admit(reports: map<string, CrimeReport>, req: ReportRequest, client: Classifier.Client,
                 parse: DateParser): (r: Result<CrimeReport, ReportError>)
    ensures Classifier.Classify(Narrative(req), client).None? ==> r == Failure(InferenceFailure)
    ensures r.Success? <==>
              && Classifier.Classify(Narrative(req), client).Some?
              && BuildReport(req, Classifier.Classify(Narrative(req), client).value, parse).Success?
              && req.firNo.value !in reports
    ensures r.Success? ==>
              && Describes(r.value, req, Classifier.Classify(Narrative(req), client).value, parse)
              && r.value.firNo !in reports
    ensures req.firNo.Some? && req.firNo.value in reports ==> r.Failure?
    ensures (&& Classifier.Classify(Narrative(req), client).Some?
             && BuildReport(req, Classifier.Classify(Narrative(req), client).value, parse).Success?
             && req.firNo.value in reports) ==> r == Failure(DuplicateKey)
  {
    match Classifier.Classify(Narrative(req), client)
    case None => Failure(InferenceFailure)
    case Some(sections) =>
      match BuildReport(req, sections, parse)
      case Failure(e) => Failure(e)
      case Success(rec) =>
        if rec.firNo in reports then Failure(DuplicateKey) else Success(rec)
  }

  /** The table after `process_reported_crime`. */
  function AfterCreate(reports: map<string, CrimeReport>, req: ReportRequest, client: Classifier.Client,
                       parse: DateParser): map<string, CrimeReport> {
    match Admit(reports, req, client, parse)
    case Success(rec) => reports[rec.firNo := rec]
    case Failure(_) => reports
  }

  /** `CrimeReport.query.filter_by(firNo=firNo).first()`. */
  function Lookup(reports: map<string, CrimeReport>, firNo: Option<string>): Option<CrimeReport> {
    match firNo
    case Some(k) => if k in reports then Some(reports[k]) else None
    case None => None
  }

  /** The table after `submit_ipc_sections`, or `NotFound`. */
  function AfterUpdate(reports: map<string, CrimeReport>, firNo: Option<string>,
                       sections: seq<string>): Result<map<string, CrimeReport>, ReportError> {
    match Lookup(reports, firNo)
    case Some(rec) => Success(reports[rec.firNo := rec.(modelOutput := sections)])
    case None => Failure(NotFound)
  }

  /** Every row is stored under its own `firNo`: the primary key. */
  ghost predicate Keyed(reports: map<string, CrimeReport>) {
    forall k :: k in reports ==> reports[k].firNo == k
  }

  /** A successful create adds exactly the built record under a key that was
      free; a later fetch of that key returns it, and every other row is as
      before. A failed create leaves the table as it was. */
  lemma CreateThenGet(reports: map<string, CrimeReport>, req: ReportRequest, client: Classifier.Client,
                        parse: DateParser, other: Option<string>)
    requires Keyed(reports)
    ensures Keyed(AfterCreate(reports, req, client, parse))
    ensures Admit(reports, req, client, parse).Failure? ==> AfterCreate(reports, req, client, parse) == reports
    ensures Admit(reports, req, client, parse).Success? ==>
              var rec := Admit(reports, req, client, parse).value;
              && Lookup(AfterCreate(reports, req, client, parse), Some(rec.firNo)) == Some(rec)
              && (other != Some(rec.firNo) ==> Lookup(AfterCreate(reports, req, client, parse), other) == Lookup(reports, other))
              && AfterCreate(reports, req, client, parse).Keys == reports.Keys + {rec.firNo}
  {
  }

  /** An update of an existing row replaces its model output and nothing
      else, and leaves every other row and the set of keys unchanged; an
      update of a missing key fails. */
  lemma UpdateOnlyOutput(reports: map<string, CrimeReport>, firNo: Option<string>, sections: seq<string>,
                         other: Option<string>)
    requires Keyed(reports)
    ensures AfterUpdate(reports, firNo, sections).Failure? <==> Lookup(reports, firNo).None?
    ensures Lookup(reports, firNo).None? ==> AfterUpdate(reports, firNo, sections) == Failure(NotFound)
    ensures AfterUpdate(reports, firNo, sections).Success? ==>
              var after := AfterUpdate(reports, firNo, sections).value;
              && Keyed(after)
              && after.Keys == reports.Keys
              && Lookup(after, firNo) == Some(Lookup(reports, firNo).value.(modelOutput := sections))
              && (other != firNo ==> Lookup(after, other) == Lookup(reports, other))
  {
  }

  /** Two updates of the same row leave it as the second alone would: the
      last write wins, with nothing of the first left over. */
  lemma LastUpdateWins(reports: map<string, CrimeReport>, firNo: Option<string>, first: seq<string>,
                       second: seq<string>)
    requires Keyed(reports) && AfterUpdate(reports, firNo, first).Success?
    ensures AfterUpdate(AfterUpdate(reports, firNo, first).value, firNo, second) == AfterUpdate(reports, firNo, second)
  {
    var k := firNo.value;
    var rec := reports[k];
    var once := reports[k := rec.(modelOutput := first)];
    assert AfterUpdate(reports, firNo, first).value == once;
    assert Lookup(once, firNo) == Some(rec.(modelOutput := first));
    assert once[k := rec.(modelOutput := second)] == reports[k := rec.(modelOutput := second)];
  }

  /** The table of app.py, held in memory. */
  class ReportStore {
    var reports: map<string, CrimeReport>

    ghost predicate Valid()
      reads this
    {
      Keyed(reports)
    }

    /** `db.create_all()` on a new database: an empty table. */
    constructor ()
      ensures Valid() && reports == map[]
    {
      reports := map[];
    }

    /** `process_reported_crime`: classify the narrative, build the record and
      add it; on any error the table is left unchanged. */
    method Create(req: ReportRequest, client: Classifier.Client, parse: DateParser)
      returns (r: Result<seq<string>, ReportError>)
      requires Valid()
      modifies this
      ensures Valid()
      ensures reports == AfterCreate(old(reports), req, client, parse)
      ensures match Admit(old(reports), req, client, parse)
              case Success(rec) => r == Success(rec.modelOutput)
              case Failure(e) => r == Failure(e)
    {
      var sections := Classifier.Generate(Narrative(req), client);
      if sections.None? {
        return Failure(InferenceFailure);
      }
      var built := BuildReport(req, sections.value, parse);
      if built.Failure? {
        return Failure(built.error);
      }
      var rec := built.value;
      if rec.firNo in reports {
        return Failure(DuplicateKey);
      }
      reports := reports[rec.firNo := rec];
      r := Success(sections.value);
    }

    /** `submit_ipc_sections`: overwrite the model output of an existing row,
      or answer "Report not found" and change nothing. */
    method UpdateOutput(firNo: Option<string>, sections: seq<string>) returns (r: Result<(), ReportError>)
      requires Valid()
      modifies this
      ensures Valid()
      ensures match AfterUpdate(old(reports), firNo, sections)
              case Success(after) => r == Success(()) && reports == after
              case Failure(e) => r == Failure(e) && reports == old(reports)
    {
      var found := Get(firNo);
      if found.None? {
        return Failure(NotFound);
      }
      var rec := found.value;
      reports := reports[rec.firNo := rec.(modelOutput := sections)];
      r := Success(());
    }

    /** The lookup of `display_fir` and `download_fir_pdf`: the stored row,
      or `None` for "Report not found". */
    method Get(firNo: Option<string>) returns (r: Option<CrimeReport>)
      requires Valid()
      ensures r == Lookup(reports, firNo)
      ensures r.Some? <==> firNo.Some? && firNo.value in reports
      ensures r.Some? ==> r.value == reports[firNo.value] && r.value.firNo == firNo.value
    {
      if firNo.Some? && firNo.value in reports {
        r := Some(reports[firNo.value]);
      } else {
        r := None;
      }
    }
  }
}

/** The end-to-end scenario: the unit test's narrative and stubbed stream,
    filed under "FIR001" in a new store and fetched back. */
module ReportScenario {
  import opened Wrappers
  import opened Reports
  import Classifier
  import ClassifierExamples

  method FileAndGet(client: Classifier.Client, parse: DateParser) returns (found: Option<CrimeReport>)
    requires client(Classifier.FormatPrompt(ClassifierExamples.TheftNarrative)) == Some(ClassifierExamples.TheftStream)
    requires parse("2024-03-01").Some? && parse("1990-07-15").Some?
    ensures found.Some? && found.value.firNo == "FIR001"
    ensures found.value.modelOutput == ["Section 378", "Section 457"]
    ensures found.value.reportedCrime == ClassifierExamples.TheftNarrative
  {
    var store := new ReportStore();
    var req := ReportRequest(
      Some("FIR001"), Some("Chennai"), Some("2024-03-01"), Some("Friday"), Some("2024-03-01"),
      Some("Anna Nagar"), Some("R. Kumar"), Some("1990-07-15"), Some("Indian"), Some("Clerk"),
      Some("12 Main Road"), Some(ClassifierExamples.TheftNarrative), None);
    ClassifierExamples.TheftClassified(client);
    var created := store.Create(req, client, parse);
    assert created == Success(["Section 378", "Section 457"]);
    found := store.Get(Some("FIR001"));
  }
}
