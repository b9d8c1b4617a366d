/** The pure and sequential parts of the trade-register (RŽP) client of internal/rzp/rzp.go:
    the query parameters of the subject and person searches, the flattening of a statement's
    trades, the mapping of a statement to a `SubjectDetail`, and the date fields that must
    parse for a response to be accepted. HTTP requests, the session, status codes and XML/JSON
    decoding are not modelled: decoded responses are inputs, and the second-stage fetch of
    `GetSubjectDetails` is a function parameter. */
module Rzp {
  import opened Types
  import opened Calendar
  import opened TimeFormat

  datatype RzpError =
    | Transport(message: string)            // request, status code or decoding failure
    | UnknownSubjectType(subjectType: string)
    | DateParse(dateError: ParseError)           // "unable to parse date"
    | BirthDateParse(dateError: ParseError)      // "unable to parse birth date in statement detail"
    | DeeperDetails(inner: RzpError)         // "unable to get deeper subject details"
    | NotAJsonString                         // a JSON date that is not a string
    | IsoDateParse(dateError: ParseError)        // an `Iso8601Date` that does not parse

  /** Go's zero `time.Time`, 1 January of year 1, reduced to its date. */
  const ZeroDate: Date := Date(1, 1, 1)

  // ---------------------------------------------------------------------------
  // Subject search

  const StatutoryBody: string := "statutory body"
  const Entrepreneur: string := "enterpreneur"

  datatype Subject = Subject(name: string, ico: Ico, address: string, ssarzp: string)

  datatype SearchSubjectResponse = SearchSubjectResponse(morePossibleMatches: bool, subjects: seq<Subject>)

  datatype SearchSubjectQuery = SearchSubjectQuery(name: string, startsWithName: bool, ico: Ico, subjectType: string)

  /** Go's `url.Values`: each key holds the list of values added under it. `Encode` sorts by
      key, so the order in which keys were added does not reach the request. */
  type QueryValues = map<string, seq<string>>

  /** `q.Add(key, value)`. */
  function Add(q: QueryValues, key: string, value: string): (r: QueryValues)
    ensures r.Keys == q.Keys + {key}
    ensures r[key] == (if key in q then q[key] else []) + [value]
    ensures forall k :: k in q && k != key ==> r[k] == q[k]
  {
    q[key := (if key in q then q[key] else []) + [value]]
  }

  /** The query of `SearchSubject`. The subject type is checked after the other parameters
      are added, and an unknown type fails the call before any request is made. */
  method SubjectSearchParameters(query: SearchSubjectQuery) returns (r: Result<QueryValues, RzpError>)
    ensures r.Err? <==> query.subjectType != StatutoryBody && query.subjectType != Entrepreneur
    ensures r.Err? ==> r.error == UnknownSubjectType(query.subjectType)
    ensures r.Ok? ==> r.value.Keys <= {"s-obchjm", "s-ico", "s-presvyber", "pouzeplatne", "s-role"}
    ensures r.Ok? ==> ("s-obchjm" in r.value <==> query.name != "")
    ensures r.Ok? && query.name != "" ==> r.value["s-obchjm"] == [query.name]
    ensures r.Ok? ==> "s-ico" in r.value && r.value["s-ico"] == [query.ico]
    ensures r.Ok? ==> "s-presvyber" in r.value && r.value["s-presvyber"] == ["true"]
    ensures r.Ok? ==> "pouzeplatne" in r.value && r.value["pouzeplatne"] == ["true"]
    ensures r.Ok? ==> "s-role" in r.value && r.value["s-role"] == [if query.subjectType == StatutoryBody then "S" else "P"]
  {
    var q: QueryValues := map[];
    if query.name != "" {
      q := Add(q, "s-obchjm", query.name);
    }
    q := Add(q, "s-ico", query.ico);
    q := Add(q, "s-presvyber", "true");
    q := Add(q, "pouzeplatne", "true");
    if query.subjectType == StatutoryBody {
      q := Add(q, "s-role", "S");
    } else if query.subjectType == Entrepreneur {
      q := Add(q, "s-role", "P");
    } else {
      return Err(UnknownSubjectType(query.subjectType));
    }
    return Ok(q);
  }

  // ---------------------------------------------------------------------------
  // Person search

  datatype SearchPersonQuery = SearchPersonQuery(firstName: string, surname: string, dateOfBirth: Date)

  datatype Person = Person(
    firstName: string, lastName: string, displayName: string,
    titleBeforeName: string, titleAfterName: string,
    dateOfBirth: Date, personId: string, personRole: string)

  datatype SearchPersonResponse = SearchPersonResponse(morePossibleMatches: bool, people: seq<Person>)

  /** The query of `SearchPerson`: names only when non-empty, the birth date only when it is not
      the zero time, written as YYYY-MM-DD. */
  method PersonSearchParameters(query: SearchPersonQuery) returns (q: QueryValues)
    requires Valid(query.dateOfBirth)
    ensures q.Keys <= {"pouzeplatne", "o-jmeno", "o-prijmeni", "o-datum"}
    ensures "pouzeplatne" in q && q["pouzeplatne"] == ["true"]
    ensures "o-jmeno" in q <==> query.firstName != ""
    ensures "o-prijmeni" in q <==> query.surname != ""
    ensures "o-datum" in q <==> query.dateOfBirth != ZeroDate
    ensures "o-jmeno" in q ==> q["o-jmeno"] == [query.firstName]
    ensures "o-prijmeni" in q ==> q["o-prijmeni"] == [query.surname]
    ensures "o-datum" in q ==> q["o-datum"] == [FormatIsoDate(query.dateOfBirth)]
    ensures "o-datum" in q && 0 <= query.dateOfBirth.year <= 9999 ==>
      ParseIsoDate(q["o-datum"][0]) == Ok(query.dateOfBirth)
  {
    q := map[];
    q := Add(q, "pouzeplatne", "true");
    if query.firstName != "" {
      q := Add(q, "o-jmeno", query.firstName);
    }
    if query.surname != "" {
      q := Add(q, "o-prijmeni", query.surname);
    }
    if query.dateOfBirth != ZeroDate {
      var text := FormatIsoDate(query.dateOfBirth);
      if 0 <= query.dateOfBirth.year <= 9999 {
        IsoDateParsesBack(query.dateOfBirth);
      }
      q := Add(q, "o-datum", text);
    }
  }

  // ---------------------------------------------------------------------------
  // Iso8601Date

  /** A JSON value as the decoder hands it to `UnmarshalJSON`. */
  datatype JsonValue = JsonString(text: string) | JsonNull | JsonOther

  /** `(*Iso8601Date).UnmarshalJSON`: the new value of the target and the error. A JSON null
      decodes to the empty string, which then fails to parse. */
  function UnmarshalIso8601Date(data: JsonValue, target: Date): (r: (Date, Option<RzpError>))
    ensures r.1.None? <==> data.JsonString? && ParseIsoDate(data.text).Ok?
    ensures r.1.Some? ==> r.0 == target
    ensures r.1.None? ==> Valid(r.0) && 0 <= r.0.year <= 9999 && FormatIsoDate(r.0) == data.text
  {
    match data
    case JsonOther => (target, Some(NotAJsonString))
    case JsonNull => (target, Some(IsoDateParse(ParseError(""))))
    case JsonString(text) =>
      match ParseIsoDate(text)
      case Err(e) => (target, Some(IsoDateParse(e)))
      case Ok(d) => ParseIsoDateCanonical(text); (d, None)
  }

  /** A person as it arrives in the JSON list; `datum` is absent when the key is missing. */
  datatype RawPerson = RawPerson(
    firstName: string, lastName: string, displayName: string,
    titleBeforeName: string, titleAfterName: string,
    datum: Option<JsonValue>, personId: string, personRole: string)

  function DecodedDate(raw: RawPerson): (Date, Option<RzpError>)
  {
    match raw.datum
    case None => (ZeroDate, None)
    case Some(v) => UnmarshalIso8601Date(v, ZeroDate)
  }

  /** Decoding the list of people: the decoder stops at the first date that fails, and the
      whole response is rejected. */
  function DecodePeople(raw: seq<RawPerson>): (r: Result<seq<Person>, RzpError>)
  {
    if raw == [] then Ok([])
    else
      var (date, err) := DecodedDate(raw[0]);
      if err.Some? then Err(err.value)
      else
        var rest := DecodePeople(raw[1..]);
        if rest.Err? then rest
        else
          var p := raw[0];
          Ok([Person(p.firstName, p.lastName, p.displayName, p.titleBeforeName, p.titleAfterName,
                     date, p.personId, p.personRole)] + rest.value)
  }

  /** The list decodes exactly when every date present decodes; then the people keep their
      order and each carries its own date. */
  lemma {:induction false} DecodePeopleAllOrNothing(raw: seq<RawPerson>)
    ensures DecodePeople(raw).Ok? <==> forall i :: 0 <= i < |raw| ==> DecodedDate(raw[i]).1.None?
    ensures DecodePeople(raw).Ok? ==>
      |DecodePeople(raw).value| == |raw| &&
      forall i :: 0 <= i < |raw| ==>
        DecodePeople(raw).value[i].personId == raw[i].personId &&
        DecodePeople(raw).value[i].dateOfBirth == DecodedDate(raw[i]).0
  {
    if raw != [] {
      DecodePeopleAllOrNothing(raw[1..]);
      if DecodePeople(raw).Ok? {
        forall i | 0 <= i < |raw|
          ensures DecodePeople(raw).value[i].personId == raw[i].personId
          ensures DecodePeople(raw).value[i].dateOfBirth == DecodedDate(raw[i]).0
        {
          if i > 0 {
            assert DecodePeople(raw).value[i] == DecodePeople(raw[1..]).value[i - 1];
            assert raw[1..][i - 1] == raw[i];
          }
        }
      }
      if forall i :: 0 <= i < |raw| ==> DecodedDate(raw[i]).1.None? {
        assert forall i :: 0 <= i < |raw[1..]| ==> DecodedDate(raw[1..][i]).1.None? by {
          forall i | 0 <= i < |raw[1..]| ensures DecodedDate(raw[1..][i]).1.None? {
            assert raw[1..][i] == raw[i + 1];
          }
        }
      } else {
        var k :| 0 <= k < |raw| && DecodedDate(raw[k]).1.Some?;
        if k > 0 {
          assert raw[1..][k - 1] == raw[k];
        }
      }
    }
  }

  // ---------------------------------------------------------------------------
  // Trades and the subject detail

  datatype Trade = Trade(tradeType: string, dateOfOrigin: Date, validityOfLicense: string)

  datatype SubjectDetail = SubjectDetail(
    address: string, ico: Ico, fullNameWithTitles: string, trades: seq<Trade>,
    firstName: string, lastName: string, titleBeforeName: string, titleAfterName: string,
    birthDate: Date, citizenship: string)

  /** The zero `SubjectDetail{}` a failed call returns beside its error. */
  const EmptyDetail: SubjectDetail := SubjectDetail("", "", "", [], "", "", "", "", ZeroDate, "")

  /** One `Zivnost` of a statement: its `Vznik` date text and its `Obor.Vycet.Drive` values. */
  datatype StatementEntry = StatementEntry(vznik: string, drive: seq<string>)

  /** The fields of a decoded statement (`statement.Listiny`) that the client reads. */
  datatype Statement = Statement(
    address: string, ico: string, fullName: string, firstName: string, lastName: string,
    titleBefore: string, titleAfter: string, citizenship: string,
    birthDate: string, entries: seq<StatementEntry>)

  /** One trade per `Drive` value, each carrying the entry's date and no licence validity. */
  function EntryTrades(e: StatementEntry, date: Date): (ts: seq<Trade>)
    ensures |ts| == |e.drive|
    ensures forall i :: 0 <= i < |ts| ==> ts[i] == Trade(e.drive[i], date, "")
  {
    seq(|e.drive|, i requires 0 <= i < |e.drive| => Trade(e.drive[i], date, ""))
  }

  /** The trades of a statement, entry after entry; the first entry whose `Vznik` does not parse
      as DD.MM.YYYY is the error. */
  function StatementTrades(entries: seq<StatementEntry>): Result<seq<Trade>, RzpError>
  {
    if entries == [] then Ok([])
    else
      var before := StatementTrades(entries[..|entries| - 1]);
      var last := entries[|entries| - 1];
      if before.Err? then before
      else match ParseDottedDate(last.vznik)
        case Err(e) => Err(DateParse(e))
        case Ok(d) => Ok(before.value + EntryTrades(last, d))
  }

  /** The trade loop of `getSubjectStatement`: one trade appended per `Drive` value. */
  method CollectStatementTrades(entries: seq<StatementEntry>) returns (r: Result<seq<Trade>, RzpError>)
    ensures r == StatementTrades(entries)
  {
    var trades: seq<Trade> := [];
    var i := 0;
    while i < |entries|
      invariant 0 <= i <= |entries|
      invariant StatementTrades(entries[..i]) == Ok(trades)
    {
      assert entries[..i + 1][..i] == entries[..i];
      var date := ParseDottedDate(entries[i].vznik);
      if date.Err? {
        StatementTradesKeepsFirstError(entries, i + 1);
        return Err(DateParse(date.error));
      }
      var drive := entries[i].drive;
      var j := 0;
      while j < |drive|
        invariant 0 <= j <= |drive|
        invariant trades == StatementTrades(entries[..i]).value + EntryTrades(entries[i], date.value)[..j]
      {
        trades := trades + [Trade(drive[j], date.value, "")];
        j := j + 1;
      }
      assert EntryTrades(entries[i], date.value)[..j] == EntryTrades(entries[i], date.value);
      i := i + 1;
    }
    assert entries[..i] == entries;
    return Ok(trades);
  }

  /** Once a prefix fails, every longer prefix fails with the same error. */
  lemma {:induction false} StatementTradesKeepsFirstError(entries: seq<StatementEntry>, k: nat)
    requires k <= |entries|
    requires StatementTrades(entries[..k]).Err?
    ensures StatementTrades(entries) == StatementTrades(entries[..k])
    decreases |entries| - k
  {
    if k < |entries| {
      assert entries[..k + 1][..k] == entries[..k];
      StatementTradesKeepsFirstError(entries, k + 1);
    } else {
      assert entries[..k] == entries;
    }
  }

  /** The statement fails exactly when some entry's `Vznik` does not parse, whether or not that
      entry has any `Drive` value. */
  lemma {:induction false} StatementTradesFailIffBadDate(entries: seq<StatementEntry>)
    ensures StatementTrades(entries).Err? <==>
      exists i :: 0 <= i < |entries| && ParseDottedDate(entries[i].vznik).Err?
  {
    if entries != [] {
      var init := entries[..|entries| - 1];
      StatementTradesFailIffBadDate(init);
      if exists i :: 0 <= i < |init| && ParseDottedDate(init[i].vznik).Err? {
        var i :| 0 <= i < |init| && ParseDottedDate(init[i].vznik).Err?;
        assert entries[i] == init[i];
      }
      if exists i :: 0 <= i < |entries| && ParseDottedDate(entries[i].vznik).Err? {
        var i :| 0 <= i < |entries| && ParseDottedDate(entries[i].vznik).Err?;
        if i < |init| {
          assert init[i] == entries[i];
        }
      }
    }
  }

  /** Flattening distributes over concatenation of the entry lists. */
  lemma {:induction false} StatementTradesConcat(a: seq<StatementEntry>, b: seq<StatementEntry>)
    ensures StatementTrades(a + b) ==
      if StatementTrades(a).Err? then StatementTrades(a)
      else if StatementTrades(b).Err? then StatementTrades(b)
      else Ok(StatementTrades(a).value + StatementTrades(b).value)
    decreases |b|
  {
    if b == [] {
      assert a + b == a;
      if StatementTrades(a).Ok? {
        assert StatementTrades(a).value + [] == StatementTrades(a).value;
      }
    } else {
      var init := b[..|b| - 1];
      assert (a + b)[..|a + b| - 1] == a + init;
      assert (a + b)[|a + b| - 1] == b[|b| - 1];
      StatementTradesConcat(a, init);
      var last := b[|b| - 1];
      if StatementTrades(a).Ok? && StatementTrades(init).Ok? && ParseDottedDate(last.vznik).Ok? {
        var x, y, z := StatementTrades(a).value, StatementTrades(init).value, EntryTrades(last, ParseDottedDate(last.vznik).value);
        assert (x + y) + z == x + (y + z);
      }
    }
  }

  /** A single entry gives one trade per `Drive` value, all dated by the entry. */
  lemma StatementTradesOfEntry(e: StatementEntry)
    ensures StatementTrades([e]) ==
      match ParseDottedDate(e.vznik)
      case Err(err) => Err(DateParse(err))
      case Ok(d) => Ok(EntryTrades(e, d))
  {
    assert [e][..0] == [];
    if ParseDottedDate(e.vznik).Ok? {
      var ts := EntryTrades(e, ParseDottedDate(e.vznik).value);
      assert [] + ts == ts;
    }
  }

  function TotalDrives(entries: seq<StatementEntry>): nat
  {
    if entries == [] then 0 else TotalDrives(entries[..|entries| - 1]) + |entries[|entries| - 1].drive|
  }

  /** On success there is exactly one trade per `Drive` value across all entries. */
  lemma {:induction false} StatementTradesCount(entries: seq<StatementEntry>)
    requires StatementTrades(entries).Ok?
    ensures |StatementTrades(entries).value| == TotalDrives(entries)
  {
    if entries != [] {
      StatementTradesCount(entries[..|entries| - 1]);
    }
  }

  /** The field mapping at the end of `getSubjectStatement`. */
  function DetailOf(st: Statement, birth: Date, trades: seq<Trade>): SubjectDetail
  {
    SubjectDetail(
      address := st.address, ico := st.ico, fullNameWithTitles := st.fullName, trades := trades,
      firstName := st.firstName, lastName := st.lastName,
      titleBeforeName := st.titleBefore, titleAfterName := st.titleAfter,
      birthDate := birth, citizenship := st.citizenship)
  }

  /** `getSubjectStatement` after decoding: the birth date must parse, then the trades. */
  function StatementDetail(st: Statement): Result<SubjectDetail, RzpError>
    requires ParseDottedDate(st.birthDate).Ok? ==> |st.entries| > 0
  {
    match ParseDottedDate(st.birthDate)
    case Err(e) => Err(BirthDateParse(e))
    case Ok(birth) =>
      match StatementTrades(st.entries)
      case Err(e) => Err(e)
      case Ok(trades) => Ok(DetailOf(st, birth, trades))
  }

  /** The statement yields a detail exactly when its birth date and every `Vznik` parse; the detail
      copies the statement's fields and carries the parsed birth date and the flattened trades. */
  lemma StatementDetailOutcome(st: Statement)
    requires ParseDottedDate(st.birthDate).Ok? ==> |st.entries| > 0
    ensures StatementDetail(st).Ok? <==>
      ParseDottedDate(st.birthDate).Ok? &&
      forall i :: 0 <= i < |st.entries| ==> ParseDottedDate(st.entries[i].vznik).Ok?
    ensures StatementDetail(st).Ok? ==>
      var d := StatementDetail(st).value;
      d.birthDate == ParseDottedDate(st.birthDate).value &&
      DottedForm(d.birthDate) == st.birthDate &&
      d.trades == StatementTrades(st.entries).value &&
      |d.trades| == TotalDrives(st.entries) &&
      d.address == st.address && d.ico == st.ico && d.citizenship == st.citizenship &&
      d.firstName == st.firstName && d.lastName == st.lastName && d.fullNameWithTitles == st.fullName &&
      d.titleBeforeName == st.titleBefore && d.titleAfterName == st.titleAfter
  {
    StatementTradesFailIffBadDate(st.entries);
    if StatementDetail(st).Ok? {
      ParsedDottedIsCanonical(st.birthDate);
      StatementTradesCount(st.entries);
    }
  }

  /** `getSubjectStatement` after decoding. `Zivnost[0]` is read before the loop, so a statement
      whose birth date parses must have at least one trade entry. */
  method GetSubjectStatement(st: Statement) returns (r: Result<SubjectDetail, RzpError>)
    requires ParseDottedDate(st.birthDate).Ok? ==> |st.entries| > 0
    ensures r == StatementDetail(st)
  {
    var birth := ParseDottedDate(st.birthDate);
    if birth.Err? {
      return Err(BirthDateParse(birth.error));
    }
    var capacity := |st.entries[0].drive|;
    var trades := CollectStatementTrades(st.entries);
    if trades.Err? {
      return Err(trades.error);
    }
    return Ok(DetailOf(st, birth.value, trades.value));
  }

  /** One trade of the first-stage directory record (`subjectdetails.Vypis`). */
  datatype DirectoryTrade = DirectoryTrade(tradeType: string, datumVzniku: string, validity: string)

  /** The fields of the first-stage record the client reads: its trades and the path of the statement. */
  datatype DirectoryRecord = DirectoryRecord(trades: seq<DirectoryTrade>, statementPath: string)

  predicate DirectoryDatesParse(record: DirectoryRecord)
  {
    forall i :: 0 <= i < |record.trades| ==> ParseDottedDate(record.trades[i].datumVzniku).Ok?
  }

  /** `GetSubjectDetails` after decoding the first stage. The first-stage trades are built and
      discarded, but one unparsable `DatumVzniku` fails the call; the result is the detail of the
      statement fetched from the record's link, whose failures come back wrapped. */
  method GetSubjectDetails(record: DirectoryRecord, fetchStatement: string -> Result<Statement, RzpError>)
    returns (r: Result<SubjectDetail, RzpError>)
    requires DirectoryDatesParse(record) && fetchStatement(record.statementPath).Ok? &&
             ParseDottedDate(fetchStatement(record.statementPath).value.birthDate).Ok? ==>
             |fetchStatement(record.statementPath).value.entries| > 0
    ensures !DirectoryDatesParse(record) ==> r.Err? && r.error.DateParse?
    ensures DirectoryDatesParse(record) && fetchStatement(record.statementPath).Err? ==>
      r == Err(DeeperDetails(fetchStatement(record.statementPath).error))
    ensures DirectoryDatesParse(record) && fetchStatement(record.statementPath).Ok? ==>
      var detail := StatementDetail(fetchStatement(record.statementPath).value);
      r == if detail.Ok? then detail else Err(DeeperDetails(detail.error))
  {
    var firstStage: seq<Trade> := [];
    var i := 0;
    while i < |record.trades|
      invariant 0 <= i <= |record.trades|
      invariant |firstStage| == i
      invariant forall k :: 0 <= k < i ==> ParseDottedDate(record.trades[k].datumVzniku).Ok?
    {
      var z := record.trades[i];
      var date := ParseDottedDate(z.datumVzniku);
      if date.Err? {
        return Err(DateParse(date.error));
      }
      firstStage := firstStage + [Trade(z.tradeType, date.value, z.validity)];
      i := i + 1;
    }
    var statement := fetchStatement(record.statementPath);
    if statement.Err? {
      return Err(DeeperDetails(statement.error));
    }
    var deeper := GetSubjectStatement(statement.value);
    if deeper.Err? {
      return Err(DeeperDetails(deeper.error));
    }
    return deeper;
  }
}
