/** The election submission validator `check_election_data`
    (create_election/performer_jobs.py:35-110): a chain of guard clauses, each
    of which may end validation with a fixed reason string. */
module Validation {
  import opened Wrappers
  import opened Json

  const QuestionsNotJson := "questions_data is not in json"
  const BadStartDate := "invalid voting_start_date parameter"
  /** The reason for a bad end date really names `voting_send_date`. */
  const BadEndDate := "invalid voting_send_date parameter"
  const BadElectionIdChars := "invalid characters in election_id"
  const NoAuthorities := "no authorities"
  const BadQuestionCount := "Unsupported number of questions in the election"
  const BadAuthorities := "invalid authorities parameters"

  function InvalidParameter(name: string): string {
    "invalid " + name + " parameter"
  }

  function AlreadyExists(id: string): string {
    "an election with id " + id + " already exists"
  }

  // ---------------------------------------------------------------------------
  // Identifier pattern

  predicate IdChar(c: char) {
    ('a' <= c <= 'z') || ('A' <= c <= 'Z') || ('0' <= c <= '9') || c == '_' || c == '-'
  }

  predicate AllIdChars(s: string) {
    forall i | 0 <= i < |s| :: IdChar(s[i])
  }

  /** Python's `re.match("^[a-zA-Z0-9_-]+$", s)`. Without the MULTILINE flag
      `$` matches at the end of the string and also just before a newline that
      ends it, so one trailing newline is let through. */
  function MatchesIdPattern(s: string): (b: bool)
    ensures |s| > 0 && AllIdChars(s) ==> b
    ensures b ==> |s| > 0 && IdChar(s[0]) && forall i | 0 <= i < |s| - 1 :: IdChar(s[i])
    ensures b && !AllIdChars(s) ==> s[|s| - 1] == '\n'
  {
    var body := if |s| > 0 && s[|s| - 1] == '\n' then s[..|s| - 1] else s;
    |body| > 0 && AllIdChars(body)
  }

  /** The pattern accepts exactly the non-empty words over [a-zA-Z0-9_-],
      optionally followed by a single newline. */
  lemma IdPatternMeaning(s: string)
    ensures MatchesIdPattern(s) <==>
            exists t :: |t| > 0 && AllIdChars(t) && (s == t || s == t + "\n")
  {
    if MatchesIdPattern(s) {
      if |s| > 0 && s[|s| - 1] == '\n' {
        var t := s[..|s| - 1];
        assert s == t + "\n";
        assert |t| > 0 && AllIdChars(t);
      } else {
        assert |s| > 0 && AllIdChars(s) && s == s;
      }
    }
    if exists t :: |t| > 0 && AllIdChars(t) && (s == t || s == t + "\n") {
      var t :| |t| > 0 && AllIdChars(t) && (s == t || s == t + "\n");
      if s == t {
        assert IdChar(s[|s| - 1]);
      } else {
        assert s[..|s| - 1] == t;
      }
    }
  }

  /** An identifier that matches the pattern is a single, non-special path
      component: it is not empty, not `.` or `..`, and holds no `/`. This is why
      the model can address `<base>/<election_id>/<session_id>` as a tuple. */
  lemma IdIsPathComponent(s: string)
    requires MatchesIdPattern(s)
    ensures s != "" && s != "." && s != ".."
    ensures forall i | 0 <= i < |s| :: s[i] != '/'
  {
    var body := if |s| > 0 && s[|s| - 1] == '\n' then s[..|s| - 1] else s;
    forall i | 0 <= i < |s|
      ensures s[i] != '/'
    {
      if i < |body| {
        assert body[i] == s[i];
        assert IdChar(body[i]);
      }
    }
    assert IdChar(body[0]);
  }

  // ---------------------------------------------------------------------------
  // Required fields (:40-54, :62-65)

  /** The Python type a required field must have: basestring, bool or list. */
  datatype Kind = Text | Boolean | Array

  datatype Requirement = Requirement(name: string, kind: Kind)

  predicate HasKind(v: Value, kind: Kind) {
    match kind
    case Text => v.Str?
    case Boolean => v.Bool?
    case Array => v.List?
  }

  /** `req['name'] in data and isinstance(data[req['name']], req['isinstance'])` */
  predicate Meets(data: Dict, req: Requirement) {
    req.name in data && HasKind(data[req.name], req.kind)
  }

  /** The `requirements` list, in its order; the last three only with `check_extra`. */
  function Requirements(checkExtra: bool): seq<Requirement> {
    [ Requirement("election_id", Text), Requirement("title", Text),
      Requirement("url", Text), Requirement("description", Text),
      Requirement("is_recurring", Boolean), Requirement("authorities", Array) ]
    + (if checkExtra then
         [ Requirement("callback_url", Text), Requirement("extra", Array),
           Requirement("questions_data", Array) ]
       else [])
  }

  /** The position of the first requirement that `data` does not meet. */
  function FirstUnmet(data: Dict, reqs: seq<Requirement>): (r: Option<nat>)
    ensures r.None? <==> forall j | 0 <= j < |reqs| :: Meets(data, reqs[j])
    ensures r.Some? ==>
              && r.value < |reqs|
              && !Meets(data, reqs[r.value])
              && forall j | 0 <= j < r.value :: Meets(data, reqs[j])
    decreases |reqs|
  {
    if reqs == [] then None
    else if !Meets(data, reqs[0]) then Some(0)
    else match FirstUnmet(data, reqs[1..])
      case None => None
      case Some(k) => Some(k + 1)
  }

  // ---------------------------------------------------------------------------
  // Question payload (:55-60, :81-83)

  /** The question payload the validator counts: the raw field with
      `check_extra`, otherwise `json.loads` of it, where `loads` stands for the
      JSON decoder (`None` when it raises). `json.loads` of anything but a
      string, the `None` of a missing key included, raises too. */
  function QuestionsPayload(data: Dict, checkExtra: bool, loads: string -> Option<Value>): (r: Option<Value>)
    ensures r.None? ==> !checkExtra
    ensures !checkExtra ==>
              (r.Some? <==> Get(data, "questions_data").Str? && loads(Get(data, "questions_data").s).Some?)
  {
    if checkExtra then Some(Get(data, "questions_data"))
    else match Get(data, "questions_data")
      case Str(text) => loads(text)
      case _ => None
  }

  predicate QuestionCountOk(questions: Value, maxQuestions: int) {
    questions.List? && 1 <= |questions.items| <= maxQuestions
  }

  /** The voting window keys must be present, holding `None` or a datetime. */
  predicate DateOk(data: Dict, key: string) {
    key in data && (data[key].Null? || data[key].DateTime?)
  }

  // ---------------------------------------------------------------------------
  // Authority entries (:91-101)

  const AuthorityKeys: seq<string> := ["name", "orchestra_url", "ssl_cert"]

  /** The test of one key of one authority entry; `None` when it passes. Python's
      `in` is applied to whatever the entry is: a list or string entry without
      the key fails with the reason, one that "contains" it fails when indexed
      with a string, and a non-container entry fails at `in`. */
  function AuthorityKeyFailure(entry: Value, key: string): (r: Option<Failure>)
    ensures r.None? <==> entry.Obj? && key in entry.fields && entry.fields[key].Str?
    ensures entry.Obj? ==> r.None? || r == Some(TaskError(InvalidParameter(key)))
    ensures r.Some? && r.value.TaskError? ==> r.value.reason == InvalidParameter(key)
  {
    match Contains(entry, key)
    case None => Some(Crash)
    case Some(present) =>
      if !present then Some(TaskError(InvalidParameter(key)))
      else if !entry.Obj? then Some(Crash)
      else if entry.fields[key].Str? then None
      else Some(TaskError(InvalidParameter(key)))
  }

  function EntryFailure(entry: Value, keys: seq<string>): Option<Failure>
    decreases |keys|
  {
    if keys == [] then None
    else match AuthorityKeyFailure(entry, keys[0])
      case Some(f) => Some(f)
      case None => EntryFailure(entry, keys[1..])
  }

  /** The first failure over all entries, entry by entry and key by key. */
  function EntriesFailure(entries: seq<Value>): (r: Option<Failure>)
    ensures r.None? <==> forall i | 0 <= i < |entries| :: EntryFailure(entries[i], AuthorityKeys).None?
    ensures r.Some? ==>
              exists i | 0 <= i < |entries| ::
                && EntryFailure(entries[i], AuthorityKeys) == r
                && forall j | 0 <= j < i :: EntryFailure(entries[j], AuthorityKeys).None?
    decreases |entries|
  {
    if entries == [] then None
    else match EntryFailure(entries[0], AuthorityKeys)
      case Some(f) => Some(f)
      case None => EntriesFailure(entries[1..])
  }

  /** An authority entry is a dictionary with string name, endpoint and certificate. */
  predicate WellTypedAuthority(v: Value) {
    && v.Obj?
    && "name" in v.fields && v.fields["name"].Str?
    && "orchestra_url" in v.fields && v.fields["orchestra_url"].Str?
    && "ssl_cert" in v.fields && v.fields["ssl_cert"].Str?
  }

  lemma EntryFailureMeaning(v: Value)
    ensures EntryFailure(v, AuthorityKeys).None? <==> WellTypedAuthority(v)
  {
    assert AuthorityKeys[1..][1..][1..] == [];
  }

  /** The per-entry checks pass exactly when every entry is well typed. */
  lemma {:induction false} EntriesFailureMeaning(entries: seq<Value>)
    ensures EntriesFailure(entries).None? <==>
            forall i | 0 <= i < |entries| :: WellTypedAuthority(entries[i])
    decreases |entries|
  {
    if entries != [] {
      EntryFailureMeaning(entries[0]);
      EntriesFailureMeaning(entries[1..]);
      assert forall i | 1 <= i < |entries| :: entries[i] == entries[1..][i - 1];
    }
  }

  datatype Authority = Authority(name: string, orchestraUrl: string, sslCert: string)

  function ToAuthority(v: Value): Authority
    requires WellTypedAuthority(v)
  {
    Authority(v.fields["name"].s, v.fields["orchestra_url"].s, v.fields["ssl_cert"].s)
  }

  function ToAuthorities(vs: seq<Value>): seq<Authority>
    requires forall i | 0 <= i < |vs| :: WellTypedAuthority(vs[i])
  {
    seq(|vs|, i requires 0 <= i < |vs| => ToAuthority(vs[i]))
  }

  // ---------------------------------------------------------------------------
  // unique_by_keys (:103-110)

  datatype Key = SslCert | OrchestraUrl

  function Field(a: Authority, k: Key): string {
    match k
    case SslCert => a.sslCert
    case OrchestraUrl => a.orchestraUrl
  }

  /** `[i[k] for i in l]` */
  function Column(l: seq<Authority>, k: Key): seq<string> {
    seq(|l|, i requires 0 <= i < |l| => Field(l[i], k))
  }

  /** `set(s)` */
  function Elements(s: seq<string>): (r: set<string>)
    ensures forall x :: x in r <==> x in s
    decreases |s|
  {
    if s == [] then {} else {s[0]} + Elements(s[1..])
  }

  /** `unique_by_keys(l, keys)`: for each key in turn, the column has as many
      distinct values as `l` has entries. */
  function UniqueByKeys(l: seq<Authority>, keys: seq<Key>): (b: bool)
    ensures b <==> forall i | 0 <= i < |keys| :: |Elements(Column(l, keys[i]))| == |l|
    decreases |keys|
  {
    keys == [] || (|Elements(Column(l, keys[0]))| == |l| && UniqueByKeys(l, keys[1..]))
  }

  predicate NoDuplicates(s: seq<string>) {
    forall i, j | 0 <= i < j < |s| :: s[i] != s[j]
  }

  /** A sequence has no repeated value when its head does not recur and its
      tail has none. */
  lemma NoDuplicatesCons(s: seq<string>)
    requires s != []
    ensures NoDuplicates(s) <==> s[0] !in s[1..] && NoDuplicates(s[1..])
  {
    var tail := s[1..];
    if NoDuplicates(s) {
      forall i, j | 0 <= i < j < |tail|
        ensures tail[i] != tail[j]
      {
        assert tail[i] == s[i + 1] && tail[j] == s[j + 1];
      }
      forall j | 0 <= j < |tail|
        ensures tail[j] != s[0]
      {
        assert tail[j] == s[j + 1];
      }
    }
    if s[0] !in tail && NoDuplicates(tail) {
      forall i, j | 0 <= i < j < |s|
        ensures s[i] != s[j]
      {
        assert s[j] == tail[j - 1];
        if i > 0 {
          assert s[i] == tail[i - 1];
        }
      }
    }
  }

  lemma ElementsCons(s: seq<string>)
    requires s != []
    ensures s[0] in s[1..] ==> Elements(s) == Elements(s[1..])
    ensures s[0] !in s[1..] ==> |Elements(s)| == 1 + |Elements(s[1..])|
  {
    assert Elements(s) == {s[0]} + Elements(s[1..]);
  }

  /** The set-size comparison of `unique_by_keys` is a test for repeated values. */
  lemma {:induction false} SetSizeDetectsDuplicates(s: seq<string>)
    ensures |Elements(s)| <= |s|
    ensures |Elements(s)| == |s| <==> NoDuplicates(s)
    decreases |s|
  {
    if s != [] {
      SetSizeDetectsDuplicates(s[1..]);
      ElementsCons(s);
      NoDuplicatesCons(s);
    }
  }

  /** No two authorities share the value of key `k`. */
  predicate NoTwoShare(l: seq<Authority>, k: Key) {
    forall i, j | 0 <= i < j < |l| :: Field(l[i], k) != Field(l[j], k)
  }

  lemma ColumnMeaning(l: seq<Authority>, k: Key)
    ensures |Elements(Column(l, k))| == |l| <==> NoTwoShare(l, k)
  {
    var c := Column(l, k);
    SetSizeDetectsDuplicates(c);
    assert |c| == |l|;
    if NoDuplicates(c) {
      forall i, j | 0 <= i < j < |l|
        ensures Field(l[i], k) != Field(l[j], k)
      {
        assert c[i] == Field(l[i], k) && c[j] == Field(l[j], k);
      }
    }
    if NoTwoShare(l, k) {
      forall i, j | 0 <= i < j < |c|
        ensures c[i] != c[j]
      {
        assert c[i] == Field(l[i], k) && c[j] == Field(l[j], k);
      }
    }
  }

  /** `unique_by_keys(l, ['ssl_cert', 'orchestra_url'])` holds exactly when no
      two authorities share a certificate and no two share an endpoint, each
      key being checked on its own. */
  lemma UniqueByKeysMeaning(l: seq<Authority>)
    ensures UniqueByKeys(l, [SslCert, OrchestraUrl]) <==>
            NoTwoShare(l, SslCert) && NoTwoShare(l, OrchestraUrl)
  {
    var keys := [SslCert, OrchestraUrl];
    assert keys[1..] == [OrchestraUrl] && keys[1..][1..] == [];
    ColumnMeaning(l, SslCert);
    ColumnMeaning(l, OrchestraUrl);
    assert UniqueByKeys(l, keys) ==
           (|Elements(Column(l, SslCert))| == |l| && UniqueByKeys(l, [OrchestraUrl]));
    assert UniqueByKeys(l, [OrchestraUrl]) == (|Elements(Column(l, OrchestraUrl))| == |l|);
  }

  // ---------------------------------------------------------------------------
  // The validator

  /** `check_election_data(data, check_extra)`. `existing` is the set of
      election identifiers already in the Store (the `Election.query` lookup);
      `maxQuestions` is the MAX_NUM_QUESTIONS_PER_ELECTION setting. */
  function CheckElectionData(data: Dict, checkExtra: bool, loads: string -> Option<Value>,
                             maxQuestions: int, existing: set<string>): (r: Result<()>)
    ensures r.Ok? ==>
              && Get(data, "election_id").Str? && MatchesIdPattern(Get(data, "election_id").s)
              && Get(data, "authorities").List? && |Get(data, "authorities").items| > 0
              && (checkExtra ==> Get(data, "election_id").s !in existing)
  {
    var questions := QuestionsPayload(data, checkExtra, loads);
    var reqs := Requirements(checkExtra);
    var unmet := FirstUnmet(data, reqs);
    if questions.None? then Err(TaskError(QuestionsNotJson))
    else if unmet.Some? then Err(TaskError(InvalidParameter(reqs[unmet.value].name)))
    else if !DateOk(data, "voting_start_date") then Err(TaskError(BadStartDate))
    else if !DateOk(data, "voting_end_date") then Err(TaskError(BadEndDate))
    else
      assert Meets(data, reqs[0]) && Meets(data, reqs[5]);
      var electionId := data["election_id"].s;
      var authorities := data["authorities"].items;
      if !MatchesIdPattern(electionId) then Err(TaskError(BadElectionIdChars))
      else if |authorities| == 0 then Err(TaskError(NoAuthorities))
      else if !QuestionCountOk(questions.value, maxQuestions) then Err(TaskError(BadQuestionCount))
      else if checkExtra && electionId in existing then Err(TaskError(AlreadyExists(electionId)))
      else match EntriesFailure(authorities)
        case Some(f) => Err(f)
        case None =>
          EntriesFailureMeaning(authorities);
          if !UniqueByKeys(ToAuthorities(authorities), [SslCert, OrchestraUrl])
          then Err(TaskError(BadAuthorities))
          else Ok(())
  }

  // ---------------------------------------------------------------------------
  // The rules as one declarative statement, and what the validator reports

  predicate FieldsPresent(data: Dict, checkExtra: bool) {
    forall j | 0 <= j < |Requirements(checkExtra)| :: Meets(data, Requirements(checkExtra)[j])
  }

  predicate WindowOk(data: Dict) {
    DateOk(data, "voting_start_date") && DateOk(data, "voting_end_date")
  }

  /** Everything up to the question count: payload, fields, window, identifier
      characters, a non-empty authority list, between 1 and `maxQuestions`
      questions. */
  predicate ShapeOk(data: Dict, checkExtra: bool, loads: string -> Option<Value>, maxQuestions: int) {
    && QuestionsPayload(data, checkExtra, loads).Some?
    && FieldsPresent(data, checkExtra)
    && WindowOk(data)
    && Get(data, "election_id").Str? && MatchesIdPattern(Get(data, "election_id").s)
    && Get(data, "authorities").List? && |Get(data, "authorities").items| > 0
    && QuestionCountOk(QuestionsPayload(data, checkExtra, loads).value, maxQuestions)
  }

  /** On a first-time submission the identifier is not in the Store yet. */
  predicate IdIsNew(data: Dict, checkExtra: bool, existing: set<string>) {
    forall id | id in existing :: !checkExtra || Get(data, "election_id") != Str(id)
  }

  predicate AuthoritiesTyped(data: Dict) {
    var a := Get(data, "authorities");
    a.List? && forall i | 0 <= i < |a.items| :: WellTypedAuthority(a.items[i])
  }

  predicate AuthoritiesDistinct(data: Dict)
    requires AuthoritiesTyped(data)
  {
    var l := ToAuthorities(Get(data, "authorities").items);
    NoTwoShare(l, SslCert) && NoTwoShare(l, OrchestraUrl)
  }

  /** A submission that satisfies every rule of the validator at once. */
  predicate ValidSubmission(data: Dict, checkExtra: bool, loads: string -> Option<Value>,
                            maxQuestions: int, existing: set<string>) {
    && ShapeOk(data, checkExtra, loads, maxQuestions)
    && IdIsNew(data, checkExtra, existing)
    && AuthoritiesTyped(data)
    && AuthoritiesDistinct(data)
  }

  /** The chain of early exits accepts exactly the submissions that satisfy
      every rule, so negating any one rule makes it reject. */
  lemma ValidatorAcceptsExactlyValid(data: Dict, checkExtra: bool, loads: string -> Option<Value>,
                                     maxQuestions: int, existing: set<string>)
    ensures CheckElectionData(data, checkExtra, loads, maxQuestions, existing).Ok? <==>
            ValidSubmission(data, checkExtra, loads, maxQuestions, existing)
  {
    var r := CheckElectionData(data, checkExtra, loads, maxQuestions, existing);
    var reqs := Requirements(checkExtra);
    var unmet := FirstUnmet(data, reqs);
    if QuestionsPayload(data, checkExtra, loads).None? || unmet.Some? || !WindowOk(data) {
      assert r.Err? && !ShapeOk(data, checkExtra, loads, maxQuestions);
    } else {
      assert Meets(data, reqs[0]) && Meets(data, reqs[5]);
      var id := data["election_id"].s;
      var authorities := data["authorities"].items;
      if !ShapeOk(data, checkExtra, loads, maxQuestions) {
        assert r.Err?;
      } else if checkExtra && id in existing {
        assert r.Err? && !IdIsNew(data, checkExtra, existing);
      } else {
        assert IdIsNew(data, checkExtra, existing);
        EntriesFailureMeaning(authorities);
        if AuthoritiesTyped(data) {
          UniqueByKeysMeaning(ToAuthorities(authorities));
        }
      }
    }
  }

  /** A missing or wrongly typed required field is reported by name, and it is
      the first such field in list order that is reported. */
  lemma FirstBadFieldReported(data: Dict, checkExtra: bool, loads: string -> Option<Value>,
                              maxQuestions: int, existing: set<string>, k: nat)
    requires QuestionsPayload(data, checkExtra, loads).Some?
    requires k < |Requirements(checkExtra)|
    requires !Meets(data, Requirements(checkExtra)[k])
    requires forall j | 0 <= j < k :: Meets(data, Requirements(checkExtra)[j])
    ensures CheckElectionData(data, checkExtra, loads, maxQuestions, existing) ==
            Err(TaskError(InvalidParameter(Requirements(checkExtra)[k].name)))
  {
    assert FirstUnmet(data, Requirements(checkExtra)) == Some(k);
  }

  /** Without `check_extra`, a question payload that does not decode is
      reported before any field is looked at. */
  lemma UndecodableQuestionsReportedFirst(data: Dict, loads: string -> Option<Value>,
                                          maxQuestions: int, existing: set<string>)
    requires QuestionsPayload(data, false, loads).None?
    ensures CheckElectionData(data, false, loads, maxQuestions, existing) ==
            Err(TaskError(QuestionsNotJson))
  {
  }

  /** With the payload decoded and every required field in place, a voting
      window key that is missing or holds neither `None` nor a datetime is
      reported, the start date before the end date. */
  lemma BadWindowReported(data: Dict, checkExtra: bool, loads: string -> Option<Value>,
                          maxQuestions: int, existing: set<string>)
    requires QuestionsPayload(data, checkExtra, loads).Some?
    requires FieldsPresent(data, checkExtra)
    requires !WindowOk(data)
    ensures CheckElectionData(data, checkExtra, loads, maxQuestions, existing) ==
            Err(TaskError(if !DateOk(data, "voting_start_date") then BadStartDate else BadEndDate))
  {
    assert FirstUnmet(data, Requirements(checkExtra)).None?;
  }

  /** Once the payload, the fields and the window pass, an identifier the
      pattern refuses is reported as bad characters. */
  lemma BadElectionIdReported(data: Dict, checkExtra: bool, loads: string -> Option<Value>,
                              maxQuestions: int, existing: set<string>)
    requires QuestionsPayload(data, checkExtra, loads).Some?
    requires FieldsPresent(data, checkExtra) && WindowOk(data)
    requires Get(data, "election_id").Str? && !MatchesIdPattern(Get(data, "election_id").s)
    ensures CheckElectionData(data, checkExtra, loads, maxQuestions, existing) ==
            Err(TaskError(BadElectionIdChars))
  {
    assert FirstUnmet(data, Requirements(checkExtra)).None?;
  }

  /** Then an empty authority list is reported. */
  lemma NoAuthoritiesReported(data: Dict, checkExtra: bool, loads: string -> Option<Value>,
                              maxQuestions: int, existing: set<string>)
    requires QuestionsPayload(data, checkExtra, loads).Some?
    requires FieldsPresent(data, checkExtra) && WindowOk(data)
    requires Get(data, "election_id").Str? && MatchesIdPattern(Get(data, "election_id").s)
    requires Get(data, "authorities") == List([])
    ensures CheckElectionData(data, checkExtra, loads, maxQuestions, existing) ==
            Err(TaskError(NoAuthorities))
  {
    assert FirstUnmet(data, Requirements(checkExtra)).None?;
  }

  /** Then a payload that is not a list of 1 to `maxQuestions` questions is
      reported as an unsupported number of questions. */
  lemma BadQuestionCountReported(data: Dict, checkExtra: bool, loads: string -> Option<Value>,
                                 maxQuestions: int, existing: set<string>)
    requires QuestionsPayload(data, checkExtra, loads).Some?
    requires FieldsPresent(data, checkExtra) && WindowOk(data)
    requires Get(data, "election_id").Str? && MatchesIdPattern(Get(data, "election_id").s)
    requires Get(data, "authorities").List? && |Get(data, "authorities").items| > 0
    requires !QuestionCountOk(QuestionsPayload(data, checkExtra, loads).value, maxQuestions)
    ensures CheckElectionData(data, checkExtra, loads, maxQuestions, existing) ==
            Err(TaskError(BadQuestionCount))
  {
    assert FirstUnmet(data, Requirements(checkExtra)).None?;
  }

  /** Among the keys of a dictionary entry, the first one that is missing or
      not a string is reported as "invalid <key> parameter". */
  lemma BadAuthorityKeyReported(entry: Value, k: nat)
    requires entry.Obj? && k < |AuthorityKeys|
    requires forall j | 0 <= j < k :: AuthorityKeys[j] in entry.fields && entry.fields[AuthorityKeys[j]].Str?
    requires !(AuthorityKeys[k] in entry.fields && entry.fields[AuthorityKeys[k]].Str?)
    ensures EntryFailure(entry, AuthorityKeys) == Some(TaskError(InvalidParameter(AuthorityKeys[k])))
  {
    assert AuthorityKeys[1..] == ["orchestra_url", "ssl_cert"] && AuthorityKeys[1..][1..] == ["ssl_cert"];
    assert k == 0 || AuthorityKeyFailure(entry, AuthorityKeys[0]).None?;
    assert k <= 1 || AuthorityKeyFailure(entry, AuthorityKeys[1]).None?;
  }

  /** The entry loop reports the failure of the first entry that is not well
      typed. */
  lemma {:induction false} FirstBadEntry(entries: seq<Value>, i: nat)
    requires i < |entries|
    requires forall j | 0 <= j < i :: WellTypedAuthority(entries[j])
    requires !WellTypedAuthority(entries[i])
    ensures EntryFailure(entries[i], AuthorityKeys).Some?
    ensures EntriesFailure(entries) == EntryFailure(entries[i], AuthorityKeys)
    decreases i
  {
    EntryFailureMeaning(entries[0]);
    if i > 0 {
      assert forall j | 0 <= j < i - 1 :: entries[1..][j] == entries[j + 1];
      FirstBadEntry(entries[1..], i - 1);
    }
  }

  /** Once the shape and the identifier pass, the first authority entry that
      fails its key tests decides the result. */
  lemma BadAuthorityEntryReported(data: Dict, checkExtra: bool, loads: string -> Option<Value>,
                                  maxQuestions: int, existing: set<string>, i: nat)
    requires ShapeOk(data, checkExtra, loads, maxQuestions)
    requires IdIsNew(data, checkExtra, existing)
    requires i < |Get(data, "authorities").items|
    requires forall j | 0 <= j < i :: WellTypedAuthority(Get(data, "authorities").items[j])
    requires !WellTypedAuthority(Get(data, "authorities").items[i])
    ensures EntryFailure(Get(data, "authorities").items[i], AuthorityKeys).Some?
    ensures CheckElectionData(data, checkExtra, loads, maxQuestions, existing) ==
            Err(EntryFailure(Get(data, "authorities").items[i], AuthorityKeys).value)
  {
    FirstBadEntry(Get(data, "authorities").items, i);
    assert Meets(data, Requirements(checkExtra)[0]) && Meets(data, Requirements(checkExtra)[5]);
  }

  /** Submitting an identifier that the Store already holds, on a first-time
      submission that is otherwise well shaped, is rejected as a duplicate. */
  lemma ResubmissionRejected(data: Dict, loads: string -> Option<Value>,
                             maxQuestions: int, existing: set<string>)
    requires ShapeOk(data, true, loads, maxQuestions)
    requires Get(data, "election_id").s in existing
    ensures CheckElectionData(data, true, loads, maxQuestions, existing) ==
            Err(TaskError(AlreadyExists(Get(data, "election_id").s)))
  {
    var reqs := Requirements(true);
    assert Meets(data, reqs[0]) && Meets(data, reqs[5]);
  }

  /** Once every other rule holds, the authority list is rejected with
      "invalid authorities parameters" exactly when two entries share a
      certificate or two share an endpoint. */
  lemma SharedCertOrEndpointRejected(data: Dict, checkExtra: bool, loads: string -> Option<Value>,
                                     maxQuestions: int, existing: set<string>)
    requires ShapeOk(data, checkExtra, loads, maxQuestions)
    requires IdIsNew(data, checkExtra, existing)
    requires AuthoritiesTyped(data)
    ensures var l := ToAuthorities(Get(data, "authorities").items);
            CheckElectionData(data, checkExtra, loads, maxQuestions, existing) ==
            if NoTwoShare(l, SslCert) && NoTwoShare(l, OrchestraUrl) then Ok(())
            else Err(TaskError(BadAuthorities))
  {
    var reqs := Requirements(checkExtra);
    assert Meets(data, reqs[0]) && Meets(data, reqs[5]);
    var authorities := Get(data, "authorities").items;
    EntriesFailureMeaning(authorities);
    UniqueByKeysMeaning(ToAuthorities(authorities));
  }
}
