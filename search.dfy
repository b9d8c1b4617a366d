/** The decisions of internal/search/search.go: the split of the free-text query into a person
    query, the checks of `rzpPersonSearch` and `rzpAddressToCode`, and the assembly of one
    output person in the per-person task. Every registry call is a parameter; the cause handed
    to `cancel` is returned beside the result. */
module Search {
  import opened Types
  import opened Calendar
  import Rzp

  datatype SearchError =
    | ClientError(cause: Rzp.RzpError)          // a registry error passed on unwrapped
    | PersonSearchFailed(cause: Rzp.RzpError)   // "unable to search persons in RZP"
    | TooManyMatches                            // "too many possible matches, please provide more details"
    | NotSearchable(message: string)            // "unable to convert address to searchable string"
    | AddressSearchFailed(cause: Rzp.RzpError)  // "unable to search address in RZP"
    | AddressCount(count: nat)                  // "expected exactly one address, got %d"

  /** A helper's result, its error, and the cause it passed to `cancel`, if it called it. */
  datatype Outcome<+T> = Outcome(value: T, err: Option<SearchError>, cancelCause: Option<SearchError>)

  // ---------------------------------------------------------------------------
  // strings.Split(s, " ") and strings.Join(parts, " ")

  /** `strings.Split(s, " ")`: the pieces between single spaces; n spaces give n + 1 pieces. */
  function Split(s: string): (parts: seq<string>)
    ensures |parts| >= 1
  {
    if s == [] then [""]
    else
      var p := Split(s[..|s| - 1]);
      var c := s[|s| - 1];
      if c == ' ' then p + [""] else p[..|p| - 1] + [p[|p| - 1] + [c]]
  }

  /** `strings.Join(parts, " ")`. */
  function Join(parts: seq<string>): string
  {
    if parts == [] then ""
    else if |parts| == 1 then parts[0]
    else Join(parts[..|parts| - 1]) + " " + parts[|parts| - 1]
  }

  function Spaces(s: string): nat
  {
    if s == [] then 0 else Spaces(s[..|s| - 1]) + (if s[|s| - 1] == ' ' then 1 else 0)
  }

  lemma JoinSnoc(parts: seq<string>, x: string)
    requires |parts| >= 1
    ensures Join(parts + [x]) == Join(parts) + " " + x
  {
    assert (parts + [x])[..|parts|] == parts;
  }

  /** Joining the pieces with single spaces gives back the text. */
  lemma {:induction false} JoinSplit(s: string)
    ensures Join(Split(s)) == s
  {
    if s != [] {
      var init := s[..|s| - 1];
      var c := s[|s| - 1];
      var p := Split(init);
      JoinSplit(init);
      assert s == init + [c];
      if c == ' ' {
        JoinSnoc(p, "");
      } else if |p| == 1 {
        assert Split(s) == [p[0] + [c]];
      } else {
        var q := p[..|p| - 1];
        assert p == q + [p[|p| - 1]];
        JoinSnoc(q, p[|p| - 1]);
        JoinSnoc(q, p[|p| - 1] + [c]);
      }
    }
  }

  /** No piece contains the separator, and there is one piece more than there are spaces. */
  lemma {:induction false} SplitPieces(s: string)
    ensures forall i :: 0 <= i < |Split(s)| ==> ' ' !in Split(s)[i]
    ensures |Split(s)| == Spaces(s) + 1
  {
    if s != [] {
      SplitPieces(s[..|s| - 1]);
    }
  }

  lemma {:induction false} SpacesCountsSpaces(s: string)
    ensures Spaces(s) == 0 <==> ' ' !in s
  {
    if s != [] {
      SpacesCountsSpaces(s[..|s| - 1]);
      assert s == s[..|s| - 1] + [s[|s| - 1]];
    }
  }

  // ---------------------------------------------------------------------------
  // rzpPersonSearch

  /** The name split of `rzpPersonSearch`: the last space-separated piece is the surname, the
      pieces before it, joined again, the first name. */
  function SplitName(name: string): (r: (string, string))
    ensures ' ' !in r.1
    ensures ' ' !in name ==> r == ("", name)
    ensures ' ' in name ==> r.0 + " " + r.1 == name
  {
    var parts := Split(name);
    SplitLastPiece(name);
    (Join(parts[..|parts| - 1]), parts[|parts| - 1])
  }

  lemma SplitLastPiece(s: string)
    ensures var parts := Split(s);
      && ' ' !in parts[|parts| - 1]
      && (' ' !in s ==> parts == [s])
      && (' ' in s ==> Join(parts[..|parts| - 1]) + " " + parts[|parts| - 1] == s)
  {
    var parts := Split(s);
    SplitPieces(s);
    SpacesCountsSpaces(s);
    JoinSplit(s);
    if |parts| >= 2 {
      JoinSnoc(parts[..|parts| - 1], parts[|parts| - 1]);
      assert parts[..|parts| - 1] + [parts[|parts| - 1]] == parts;
    } else {
      assert Join(parts) == parts[0];
    }
  }

  /** Consecutive and trailing spaces give empty pieces, which stay in the split. */
  lemma SplitNameKeepsEmptyPieces()
    ensures SplitName("Jan  Novak") == ("Jan ", "Novak")
    ensures SplitName("Jan ") == ("Jan", "")
  {
    var a := SplitName("Jan  Novak");
    assert ' ' in "Jan  Novak" by { assert "Jan  Novak"[4] == ' '; }
    LastSpaceSplits("Jan  Novak", a.0, a.1, 4);
    assert "Jan  Novak"[5..] == "Novak" && "Jan  Novak"[..4] == "Jan ";
    var b := SplitName("Jan ");
    assert ' ' in "Jan " by { assert "Jan "[3] == ' '; }
    LastSpaceSplits("Jan ", b.0, b.1, 3);
    assert "Jan "[4..] == "" && "Jan "[..3] == "Jan";
  }

  /** When `s == f + " " + l` with no space in `l`, and `s[i]` is the last space of `s`, then `l`
      is the text after position `i` and `f` the text before it. */
  lemma LastSpaceSplits(s: string, f: string, l: string, i: nat)
    requires f + " " + l == s && ' ' !in l
    requires i < |s| && s[i] == ' ' && forall j :: i < j < |s| ==> s[j] != ' '
    ensures l == s[i + 1..] && f == s[..i]
  {
    assert forall j :: |s| - |l| <= j < |s| ==> s[j] == l[j - (|s| - |l|)];
    assert s[|s| - |l| - 1] == ' ';
    assert |l| == |s| - i - 1;
    assert l == s[|s| - |l|..];
    assert f == s[..|s| - |l| - 1];
  }

  /** The person query of `rzpPersonSearch`: no names for an empty query, else the split name. */
  function PersonQueryFor(name: string): (q: Rzp.SearchPersonQuery)
    ensures q.dateOfBirth == Rzp.ZeroDate
    ensures name == "" ==> q.firstName == "" && q.surname == ""
    ensures name != "" ==> (q.firstName, q.surname) == SplitName(name)
  {
    if name == "" then Rzp.SearchPersonQuery("", "", Rzp.ZeroDate)
    else Rzp.SearchPersonQuery(SplitName(name).0, SplitName(name).1, Rzp.ZeroDate)
  }

  /** `rzpPersonSearch`: a failed search is cancelled with and returned as the wrapped error, a
      truncated answer is refused without cancelling, and otherwise the people come back as found. */
  function RzpPersonSearch(
    name: string,
    searchPerson: Rzp.SearchPersonQuery -> Result<Rzp.SearchPersonResponse, Rzp.RzpError>)
    : (r: Outcome<seq<Rzp.Person>>)
    ensures var answer := searchPerson(PersonQueryFor(name));
      && (r.cancelCause.Some? <==> answer.Err?)
      && (answer.Err? ==> r.err == r.cancelCause == Some(PersonSearchFailed(answer.error)))
      && (answer.Ok? && answer.value.morePossibleMatches ==> r.err == Some(TooManyMatches))
      && (r.err.None? <==> answer.Ok? && !answer.value.morePossibleMatches)
      && (r.err.None? ==> r.value == answer.value.people)
      && (r.err.Some? ==> r.value == [])
  {
    match searchPerson(PersonQueryFor(name))
    case Err(e) => Outcome([], Some(PersonSearchFailed(e)), Some(PersonSearchFailed(e)))
    case Ok(response) =>
      if response.morePossibleMatches then Outcome([], Some(TooManyMatches), None)
      else Outcome(response.people, None, None)
  }

  // ---------------------------------------------------------------------------
  // rzpAddressToCode

  /** The registry calls the per-person task makes. `toSearchable` and `searchAddress` stand for
      `RzpAddress.ToSearchableString` and `SearchAddress` (the codes of the matched addresses). */
  datatype Client = Client(
    searchByPerson: string -> Result<seq<ListedSubject>, Rzp.RzpError>,
    getDetails: string -> Result<Rzp.SubjectDetail, Rzp.RzpError>,
    toSearchable: string -> Result<string, string>,
    searchAddress: string -> Result<seq<nat>, Rzp.RzpError>,
    searchByAddress: nat -> Result<Rzp.SearchSubjectResponse, Rzp.RzpError>)

  /** `rzpAddressToCode`: the code only for exactly one matching address, else 0 and an error;
      only a failed address search cancels. */
  function AddressToCode(address: string, client: Client): (r: Outcome<nat>)
    ensures var searchable := client.toSearchable(address);
      && (r.err.None? <==>
            searchable.Ok? && client.searchAddress(searchable.value).Ok? &&
            |client.searchAddress(searchable.value).value| == 1)
      && (r.err.None? ==> r.value == client.searchAddress(searchable.value).value[0])
      && (r.err.Some? ==> r.value == 0)
      && (searchable.Err? ==> r.err == Some(NotSearchable(searchable.error)))
      && (r.cancelCause.Some? <==> searchable.Ok? && client.searchAddress(searchable.value).Err?)
      && (r.cancelCause.Some? ==> r.err == r.cancelCause)
  {
    match client.toSearchable(address)
    case Err(e) => Outcome(0, Some(NotSearchable(e)), None)
    case Ok(searchable) =>
      match client.searchAddress(searchable)
      case Err(e) => Outcome(0, Some(AddressSearchFailed(e)), Some(AddressSearchFailed(e)))
      case Ok(codes) =>
        if |codes| != 1 then Outcome(0, Some(AddressCount(|codes|)), None)
        else Outcome(codes[0], None, None)
  }

  // ---------------------------------------------------------------------------
  // The per-person task

  /** A subject found for a person, with the `Type` field the task reads ("F" marks a natural
      person in business). */
  datatype ListedSubject = ListedSubject(name: string, address: string, ico: Ico, ssarzp: string, subjectType: string)

  datatype EconomicSubject = EconomicSubject(name: string, address: string, ico: Ico)

  datatype Person = Person(
    citizenship: string, birthDate: Date, firstName: string, lastName: string,
    titleBeforeName: string, titleAfterName: string, fullName: string, address: string,
    subjects: seq<EconomicSubject>, sameAddressSubjects: seq<string>)

  /** The zero `Person{}` sent beside an error. */
  const EmptyPerson: Person := Person("", Rzp.ZeroDate, "", "", "", "", "", "", [], [])

  function EconomicSubjects(subjects: seq<ListedSubject>): (es: seq<EconomicSubject>)
    ensures |es| == |subjects|
    ensures forall i :: 0 <= i < |subjects| ==>
      es[i] == EconomicSubject(subjects[i].name, subjects[i].address, subjects[i].ico)
  {
    if subjects == [] then []
    else
      var last := subjects[|subjects| - 1];
      EconomicSubjects(subjects[..|subjects| - 1]) + [EconomicSubject(last.name, last.address, last.ico)]
  }

  function Names(subjects: seq<Rzp.Subject>): (names: seq<string>)
    ensures |names| == |subjects|
    ensures forall i :: 0 <= i < |subjects| ==> names[i] == subjects[i].name
  {
    if subjects == [] then [] else Names(subjects[..|subjects| - 1]) + [subjects[|subjects| - 1].name]
  }

  /** The person before the "F" subjects are visited: identity from the candidate, one economic
      subject per found subject. */
  function BasePerson(candidate: Rzp.Person, subjects: seq<ListedSubject>): Person
  {
    Person(
      citizenship := "", birthDate := candidate.dateOfBirth,
      firstName := candidate.firstName, lastName := candidate.lastName,
      titleBeforeName := candidate.titleBeforeName, titleAfterName := candidate.titleAfterName,
      fullName := candidate.displayName, address := "",
      subjects := EconomicSubjects(subjects), sameAddressSubjects := [])
  }

  /** What the task has built and sent so far, and the causes it handed to `cancel`. */
  datatype Progress = Progress(person: Person, sent: seq<ResultPair<Person, SearchError>>, cancels: seq<SearchError>)

  /** One pass of the loop over the subjects: an "F" subject sets the address, the citizenship of
      its detail and the names at the same address; a failed detail is cancelled and sent as an
      error, and the zero detail is used on. */
  function Visit(client: Client, p: Progress, s: ListedSubject): Progress
  {
    if s.subjectType != "F" then p
    else
      var fetched := client.getDetails(s.ssarzp);
      var detail := if fetched.Ok? then fetched.value else Rzp.EmptyDetail;
      var failure := if fetched.Err? then [ClientError(fetched.error)] else [];
      var code := AddressToCode(detail.address, client);
      var same := client.searchByAddress(code.value);
      var names := if same.Ok? then Names(same.value.subjects) else [];
      Progress(
        p.person.(sameAddressSubjects := names, address := s.address, citizenship := detail.citizenship),
        p.sent + (if fetched.Err? then [ResultPair(EmptyPerson, Some(ClientError(fetched.error)))] else []),
        p.cancels + failure + (if code.cancelCause.Some? then [code.cancelCause.value] else []))
  }

  function VisitAll(client: Client, p: Progress, subjects: seq<ListedSubject>): Progress
  {
    if subjects == [] then p
    else Visit(client, VisitAll(client, p, subjects[..|subjects| - 1]), subjects[|subjects| - 1])
  }

  /** The subjects the task works on: the zero response's empty list when the search failed. */
  function FoundSubjects(candidate: Rzp.Person, client: Client): seq<ListedSubject>
  {
    var found := client.searchByPerson(candidate.personId);
    if found.Ok? then found.value else []
  }

  /** The state before the loop over the subjects: a failed subject search has already been
      cancelled and sent as an error, and the task goes on. */
  function Start(candidate: Rzp.Person, client: Client): Progress
  {
    var found := client.searchByPerson(candidate.personId);
    var base := BasePerson(candidate, FoundSubjects(candidate, client));
    if found.Ok? then Progress(base, [], [])
    else Progress(base, [ResultPair(EmptyPerson, Some(ClientError(found.error)))], [ClientError(found.error)])
  }

  /** Everything the per-person task sends, in order, and every cause it cancels with. */
  function PersonTaskEffects(candidate: Rzp.Person, client: Client): Progress
  {
    var done := VisitAll(client, Start(candidate, client), FoundSubjects(candidate, client));
    Progress(done.person, done.sent + [ResultPair(done.person, None)], done.cancels)
  }

  /** The goroutine body of `Rzp` for one candidate, run on its own. */
  method PersonTask(candidate: Rzp.Person, client: Client)
    returns (sent: seq<ResultPair<Person, SearchError>>, cancels: seq<SearchError>)
    ensures Progress(PersonTaskEffects(candidate, client).person, sent, cancels) == PersonTaskEffects(candidate, client)
  {
    sent, cancels := [], [];
    var found := client.searchByPerson(candidate.personId);
    var subjects: seq<ListedSubject> := [];
    if found.Err? {
      cancels := cancels + [ClientError(found.error)];
      sent := sent + [ResultPair(EmptyPerson, Some(ClientError(found.error)))];
    } else {
      subjects := found.value;
    }
    var economic := CollectEconomicSubjects(subjects);
    var person := Person(
      citizenship := "", birthDate := candidate.dateOfBirth,
      firstName := candidate.firstName, lastName := candidate.lastName,
      titleBeforeName := candidate.titleBeforeName, titleAfterName := candidate.titleAfterName,
      fullName := candidate.displayName, address := "",
      subjects := economic, sameAddressSubjects := []);
    var progress := Progress(person, sent, cancels);
    var i := 0;
    while i < |subjects|
      invariant 0 <= i <= |subjects|
      invariant progress == VisitAll(client, Start(candidate, client), subjects[..i])
    {
      assert subjects[..i + 1][..i] == subjects[..i];
      progress := VisitSubject(client, progress, subjects[i]);
      i := i + 1;
    }
    assert subjects[..i] == subjects;
    sent, cancels := progress.sent + [ResultPair(progress.person, None)], progress.cancels;
  }

  method CollectEconomicSubjects(subjects: seq<ListedSubject>) returns (economic: seq<EconomicSubject>)
    ensures economic == EconomicSubjects(subjects)
  {
    economic := [];
    var i := 0;
    while i < |subjects|
      invariant 0 <= i <= |subjects|
      invariant economic == EconomicSubjects(subjects[..i])
    {
      assert subjects[..i + 1][..i] == subjects[..i];
      economic := economic + [EconomicSubject(subjects[i].name, subjects[i].address, subjects[i].ico)];
      i := i + 1;
    }
    assert subjects[..i] == subjects;
  }

  method CollectNames(subjects: seq<Rzp.Subject>) returns (names: seq<string>)
    ensures names == Names(subjects)
  {
    names := [];
    var j := 0;
    while j < |subjects|
      invariant 0 <= j <= |subjects|
      invariant names == Names(subjects[..j])
    {
      assert subjects[..j + 1][..j] == subjects[..j];
      names := names + [subjects[j].name];
      j := j + 1;
    }
    assert subjects[..j] == subjects;
  }

  /** One pass of the loop over the subjects (lines 90-114). */
  method VisitSubject(client: Client, progress: Progress, subject: ListedSubject) returns (next: Progress)
    ensures next == Visit(client, progress, subject)
  {
    next := progress;
    if subject.subjectType == "F" {
      var person, sent, cancels := progress.person, progress.sent, progress.cancels;
      var detailResult := client.getDetails(subject.ssarzp);
      var detail := Rzp.EmptyDetail;
      if detailResult.Err? {
        cancels := cancels + [ClientError(detailResult.error)];
        sent := sent + [ResultPair(EmptyPerson, Some(ClientError(detailResult.error)))];
      } else {
        detail := detailResult.value;
      }
      var code := AddressToCode(detail.address, client);
      if code.cancelCause.Some? {
        cancels := cancels + [code.cancelCause.value];
      }
      var same := client.searchByAddress(code.value);
      var sameSubjects: seq<Rzp.Subject> := [];
      if same.Ok? {
        sameSubjects := same.value.subjects;
      }
      var names := CollectNames(sameSubjects);
      person := person.(sameAddressSubjects := names, address := subject.address, citizenship := detail.citizenship);
      next := Progress(person, sent, cancels);
    }
  }

  // ---------------------------------------------------------------------------
  // What the task promises

  /** Only "F" subjects change anything; the others are skipped. */
  lemma {:induction false} VisitAllSkipsOthers(client: Client, p: Progress, subjects: seq<ListedSubject>, rest: seq<ListedSubject>)
    requires forall i :: 0 <= i < |rest| ==> rest[i].subjectType != "F"
    ensures VisitAll(client, p, subjects + rest) == VisitAll(client, p, subjects)
    decreases |rest|
  {
    if rest == [] {
      assert subjects + rest == subjects;
    } else {
      var init := rest[..|rest| - 1];
      assert (subjects + rest)[..|subjects + rest| - 1] == subjects + init;
      assert (subjects + rest)[|subjects + rest| - 1] == rest[|rest| - 1];
      VisitAllSkipsOthers(client, p, subjects, init);
    }
  }

  /** The visits never touch the identity fields or the economic subjects. */
  lemma {:induction false} VisitAllKeepsIdentity(client: Client, p: Progress, subjects: seq<ListedSubject>)
    ensures var q := VisitAll(client, p, subjects).person;
      q.(sameAddressSubjects := [], address := "", citizenship := "") ==
      p.person.(sameAddressSubjects := [], address := "", citizenship := "")
  {
    if subjects != [] {
      VisitAllKeepsIdentity(client, p, subjects[..|subjects| - 1]);
    }
  }

  /** Every result sent so far carries an error, and each such error was also a cancel cause. */
  predicate SentAreCancelledErrors(p: Progress)
  {
    forall i :: 0 <= i < |p.sent| ==> p.sent[i].err.Some? && p.sent[i].err.value in p.cancels
  }

  /** Only errors are sent before the final result, and each is also a cancel cause. */
  lemma {:induction false} VisitAllSendsErrors(client: Client, p: Progress, subjects: seq<ListedSubject>)
    requires SentAreCancelledErrors(p)
    ensures SentAreCancelledErrors(VisitAll(client, p, subjects))
  {
    if subjects != [] {
      var q := VisitAll(client, p, subjects[..|subjects| - 1]);
      VisitAllSendsErrors(client, p, subjects[..|subjects| - 1]);
      var last := subjects[|subjects| - 1];
      var r := Visit(client, q, last);
      assert forall x :: x in q.cancels ==> x in r.cancels;
      if last.subjectType == "F" && client.getDetails(last.ssarzp).Err? {
        var e := ClientError(client.getDetails(last.ssarzp).error);
        assert r.sent == q.sent + [ResultPair(EmptyPerson, Some(e))];
        assert e in r.cancels;
      } else {
        assert r.sent == q.sent;
      }
      forall i | 0 <= i < |r.sent| ensures r.sent[i].err.Some? && r.sent[i].err.value in r.cancels {
        if i < |q.sent| {
          assert r.sent[i] == q.sent[i];
          assert q.sent[i].err.value in q.cancels;
        }
      }
    }
  }

  /** The final result sent is the person: identity from the candidate, one economic subject per
      found subject in order; every earlier send carries an error that was also a cancel cause. */
  lemma PersonTaskResult(candidate: Rzp.Person, client: Client)
    ensures var e := PersonTaskEffects(candidate, client);
      var subjects := FoundSubjects(candidate, client);
      && |e.sent| >= 1
      && e.sent[|e.sent| - 1] == ResultPair(e.person, None)
      && e.person.fullName == candidate.displayName
      && e.person.firstName == candidate.firstName && e.person.lastName == candidate.lastName
      && e.person.titleBeforeName == candidate.titleBeforeName
      && e.person.titleAfterName == candidate.titleAfterName
      && e.person.birthDate == candidate.dateOfBirth
      && |e.person.subjects| == |subjects|
      && (forall i :: 0 <= i < |subjects| ==>
            e.person.subjects[i] == EconomicSubject(subjects[i].name, subjects[i].address, subjects[i].ico))
      && (forall i :: 0 <= i < |e.sent| - 1 ==> e.sent[i].err.Some? && e.sent[i].err.value in e.cancels)
  {
    var subjects := FoundSubjects(candidate, client);
    VisitAllKeepsIdentity(client, Start(candidate, client), subjects);
    VisitAllSendsErrors(client, Start(candidate, client), subjects);
  }

  /** Without an "F" subject, address, citizenship and the same-address names stay empty. */
  lemma PersonTaskWithoutEntrepreneur(candidate: Rzp.Person, client: Client)
    requires var subjects := FoundSubjects(candidate, client);
      forall i :: 0 <= i < |subjects| ==> subjects[i].subjectType != "F"
    ensures var e := PersonTaskEffects(candidate, client);
      e.person.address == "" && e.person.citizenship == "" && e.person.sameAddressSubjects == []
  {
    var subjects := FoundSubjects(candidate, client);
    VisitAllSkipsOthers(client, Start(candidate, client), [], subjects);
    assert [] + subjects == subjects;
  }

  /** Address, citizenship and the same-address names come from the last "F" subject: the
      address as the subject search gave it, the rest from that subject's detail. */
  lemma PersonTaskLastEntrepreneurWins(candidate: Rzp.Person, client: Client, k: nat)
    requires var subjects := FoundSubjects(candidate, client);
      k < |subjects| && subjects[k].subjectType == "F" &&
      forall i :: k < i < |subjects| ==> subjects[i].subjectType != "F"
    ensures var e := PersonTaskEffects(candidate, client);
      var last := FoundSubjects(candidate, client)[k];
      && e.person.address == last.address
      && e.person.citizenship == LastDetail(client, last).citizenship
      && e.person.sameAddressSubjects == SameAddressNames(client, LastDetail(client, last))
  {
    VisitAllLastEntrepreneur(client, Start(candidate, client), FoundSubjects(candidate, client), k);
  }

  lemma VisitAllLastEntrepreneur(client: Client, p: Progress, subjects: seq<ListedSubject>, k: nat)
    requires k < |subjects| && subjects[k].subjectType == "F"
    requires forall i :: k < i < |subjects| ==> subjects[i].subjectType != "F"
    ensures var q := VisitAll(client, p, subjects).person;
      && q.address == subjects[k].address
      && q.citizenship == LastDetail(client, subjects[k]).citizenship
      && q.sameAddressSubjects == SameAddressNames(client, LastDetail(client, subjects[k]))
  {
    var rest := subjects[k + 1..];
    assert subjects == subjects[..k + 1] + rest;
    assert forall i :: 0 <= i < |rest| ==> rest[i] == subjects[k + 1 + i];
    VisitAllSkipsOthers(client, p, subjects[..k + 1], rest);
    assert subjects[..k + 1][..k] == subjects[..k];
  }

  /** The detail the task uses for an "F" subject: the fetched one, or the zero detail. */
  function LastDetail(client: Client, s: ListedSubject): Rzp.SubjectDetail
  {
    var fetched := client.getDetails(s.ssarzp);
    if fetched.Ok? then fetched.value else Rzp.EmptyDetail
  }

  /** The names at the address of a detail: those of the subject search by its code (0 when the
      address did not resolve), or none when that search failed. */
  function SameAddressNames(client: Client, detail: Rzp.SubjectDetail): seq<string>
  {
    var same := client.searchByAddress(AddressToCode(detail.address, client).value);
    if same.Ok? then Names(same.value.subjects) else []
  }

  // ---------------------------------------------------------------------------
  // Finding: the error paths of the task do not stop it

  /** A failed subject search sends the error and then a second result: a person with no
      subjects and no error, which the collector keeps. */
  lemma PersonTaskSendsTwiceOnFailure(candidate: Rzp.Person, client: Client)
    requires client.searchByPerson(candidate.personId).Err?
    ensures var e := PersonTaskEffects(candidate, client);
      && |e.sent| == 2
      && e.sent[0].err == Some(ClientError(client.searchByPerson(candidate.personId).error))
      && e.sent[1].err.None?
      && e.sent[1].result.subjects == []
      && e.sent[1].result.fullName == candidate.displayName
  {
  }

  /** The evidently intended task: the first error ends it, and it sends exactly one outcome. */
  function PersonOutcome(candidate: Rzp.Person, client: Client): (r: Result<Person, SearchError>)
    ensures var subjects := FoundSubjects(candidate, client);
      r.Ok? <==> (client.searchByPerson(candidate.personId).Ok? &&
        forall i :: 0 <= i < |subjects| && subjects[i].subjectType == "F" ==> client.getDetails(subjects[i].ssarzp).Ok?)
    ensures client.searchByPerson(candidate.personId).Err? ==>
      r == Err(ClientError(client.searchByPerson(candidate.personId).error))
  {
    var found := client.searchByPerson(candidate.personId);
    if found.Err? then Err(ClientError(found.error))
    else
      assert FoundSubjects(candidate, client) == found.value;
      match FirstDetailFailure(client, found.value)
      case Some(e) => Err(e)
      case None => Ok(PersonTaskEffects(candidate, client).person)
  }

  /** The error of the first "F" subject whose detail cannot be fetched. */
  function FirstDetailFailure(client: Client, subjects: seq<ListedSubject>): (r: Option<SearchError>)
    ensures r.None? <==> forall i :: 0 <= i < |subjects| && subjects[i].subjectType == "F" ==>
      client.getDetails(subjects[i].ssarzp).Ok?
  {
    if subjects == [] then None
    else if subjects[0].subjectType == "F" && client.getDetails(subjects[0].ssarzp).Err? then
      Some(ClientError(client.getDetails(subjects[0].ssarzp).error))
    else
      var r := FirstDetailFailure(client, subjects[1..]);
      assert forall i :: 1 <= i < |subjects| ==> subjects[i] == subjects[1..][i - 1];
      r
  }

  /** The intended task fails exactly when the as-written one sends an error, and otherwise
      yields the person the as-written one sends as its only result. */
  lemma PersonOutcomeMatchesTask(candidate: Rzp.Person, client: Client)
    ensures var e := PersonTaskEffects(candidate, client);
      && (PersonOutcome(candidate, client).Ok? <==> |e.sent| == 1)
      && (PersonOutcome(candidate, client).Ok? ==> e.sent == [ResultPair(PersonOutcome(candidate, client).value, None)])
  {
    var found := client.searchByPerson(candidate.personId);
    var start := Start(candidate, client);
    var subjects := FoundSubjects(candidate, client);
    VisitAllSentCount(client, start, subjects);
    if found.Ok? && FirstDetailFailure(client, found.value).None? {
      assert |VisitAll(client, start, subjects).sent| == 0;
    }
  }

  /** The visits send one error per "F" subject whose detail fails. */
  lemma {:induction false} VisitAllSentCount(client: Client, p: Progress, subjects: seq<ListedSubject>)
    ensures |VisitAll(client, p, subjects).sent| >= |p.sent|
    ensures |VisitAll(client, p, subjects).sent| == |p.sent| <==>
      forall i :: 0 <= i < |subjects| && subjects[i].subjectType == "F" ==> client.getDetails(subjects[i].ssarzp).Ok?
  {
    if subjects != [] {
      var init := subjects[..|subjects| - 1];
      VisitAllSentCount(client, p, init);
      assert forall i :: 0 <= i < |init| ==> init[i] == subjects[i];
    }
  }
}
