/** Reading the `generate_private_info` input (create_election/performer_jobs.py:117-145):
    the election checks, the session list checks and the lookup of this node
    among the authorities. */
module Requests {
  import opened Wrappers
  import opened Json
  import opened Validation

  const NoSessions := "No sessions provided"
  const InvalidSessionData := "Invalid session data provided"
  const ExternalElection := "trying to process what SEEMS to be an external election"

  datatype SessionEntry = SessionEntry(id: string, stub: string)

  /** An input that passed the checks, with its fields typed. `numParties` and
      `thresholdParties` are looked up only when the rows are created. */
  datatype Request = Request(
    electionId: string, title: string, url: string, description: string,
    questionsData: Value, votingStartDate: Value, votingEndDate: Value, isRecurring: bool,
    authorities: seq<Authority>, sessions: seq<SessionEntry>,
    numParties: Option<Value>, thresholdParties: Option<Value>)

  // ---------------------------------------------------------------------------
  // Sessions (:128-136)

  /** The test of one session entry: a dictionary with `id` and a string `stub`
      whose `id` matches the identifier pattern. `re.match` on an `id` that is
      not a string raises a TypeError instead of failing the match. */
  function CheckSession(v: Value): (r: Result<SessionEntry>)
    ensures r.Ok? <==>
              && v.Obj? && "id" in v.fields && v.fields["id"].Str? && MatchesIdPattern(v.fields["id"].s)
              && "stub" in v.fields && v.fields["stub"].Str?
    ensures r.Ok? ==> v.fields["id"] == Str(r.value.id) && v.fields["stub"] == Str(r.value.stub)
    ensures !(v.Obj? && "id" in v.fields && "stub" in v.fields && v.fields["stub"].Str?) ==>
              r == Err(TaskError(InvalidSessionData))
    ensures r == Err(Crash) ==> v.Obj? && "id" in v.fields && !v.fields["id"].Str?
    ensures v.Obj? && "id" in v.fields && v.fields["id"].Str? && !MatchesIdPattern(v.fields["id"].s) ==>
              r == Err(TaskError(InvalidSessionData))
    ensures v.Obj? && "id" in v.fields && !v.fields["id"].Str? && "stub" in v.fields && v.fields["stub"].Str? ==>
              r == Err(Crash)
  {
    if !v.Obj? || "id" !in v.fields || "stub" !in v.fields || !v.fields["stub"].Str? then
      Err(TaskError(InvalidSessionData))
    else if !v.fields["id"].Str? then Err(Crash)
    else if !MatchesIdPattern(v.fields["id"].s) then Err(TaskError(InvalidSessionData))
    else Ok(SessionEntry(v.fields["id"].s, v.fields["stub"].s))
  }

  /** All session entries, in order; the first entry that fails decides. */
  function ParseSessions(vs: seq<Value>): (r: Result<seq<SessionEntry>>)
    ensures r.Ok? ==>
              && |r.value| == |vs|
              && forall k | 0 <= k < |vs| :: CheckSession(vs[k]) == Ok(r.value[k])
    ensures r.Err? ==>
              exists k | 0 <= k < |vs| ::
                && CheckSession(vs[k]) == Err(r.failure)
                && forall j | 0 <= j < k :: CheckSession(vs[j]).Ok?
    decreases |vs|
  {
    if vs == [] then Ok([])
    else match CheckSession(vs[0])
      case Err(f) => Err(f)
      case Ok(s) =>
        match ParseSessions(vs[1..])
        case Err(f) =>
          assert forall k | 1 <= k < |vs| :: vs[k] == vs[1..][k - 1];
          Err(f)
        case Ok(rest) => Ok([s] + rest)
  }

  /** The entry that fails first decides what the session checks report. */
  lemma {:induction false} FirstBadSessionReported(vs: seq<Value>, k: nat)
    requires k < |vs|
    requires forall j | 0 <= j < k :: CheckSession(vs[j]).Ok?
    requires CheckSession(vs[k]).Err?
    ensures ParseSessions(vs) == Err(CheckSession(vs[k]).failure)
    decreases k
  {
    if k > 0 {
      assert forall j | 0 <= j < k - 1 :: vs[1..][j] == vs[j + 1];
      FirstBadSessionReported(vs[1..], k - 1);
    }
  }

  // ---------------------------------------------------------------------------
  // The whole input (:117-136)

  /** The parent input as phase 1 reads it: a string `election_id`, a list of
      sessions that are dictionaries with a string `id`, and a list of
      well-typed authorities. */
  predicate Phase1Ready(input: Dict) {
    && Get(input, "election_id").Str?
    && Get(input, "sessions").List?
    && (var ss := Get(input, "sessions").items;
        forall k | 0 <= k < |ss| :: ss[k].Obj? && "id" in ss[k].fields && ss[k].fields["id"].Str?)
    && AuthoritiesTyped(input)
  }

  /** What the validator guarantees about the fields the request is built
      from. */
  lemma AcceptedFieldsTyped(input: Dict, loads: string -> Option<Value>, maxQuestions: int)
    requires CheckElectionData(input, false, loads, maxQuestions, {}) == Ok(())
    ensures && "election_id" in input && input["election_id"].Str? && MatchesIdPattern(input["election_id"].s)
            && "title" in input && input["title"].Str?
            && "url" in input && input["url"].Str?
            && "description" in input && input["description"].Str?
            && "is_recurring" in input && input["is_recurring"].Bool?
            && "authorities" in input && AuthoritiesTyped(input)
  {
    ValidatorAcceptsExactlyValid(input, false, loads, maxQuestions, {});
    var reqs := Requirements(false);
    assert Meets(input, reqs[0]) && Meets(input, reqs[1]) && Meets(input, reqs[2]) && Meets(input, reqs[3]);
    assert Meets(input, reqs[4]) && Meets(input, reqs[5]);
  }

  /** Every entry of an accepted session list is a dictionary whose `id` is a
      string matching the identifier pattern. */
  lemma ParsedSessionsTyped(vs: seq<Value>)
    requires ParseSessions(vs).Ok?
    ensures var sessions := ParseSessions(vs).value;
            && (forall k | 0 <= k < |sessions| :: MatchesIdPattern(sessions[k].id))
            && (forall k | 0 <= k < |vs| :: vs[k].Obj? && "id" in vs[k].fields && vs[k].fields["id"].Str?)
  {
    var sessions := ParseSessions(vs).value;
    forall k | 0 <= k < |vs|
      ensures && MatchesIdPattern(sessions[k].id)
              && vs[k].Obj? && "id" in vs[k].fields && vs[k].fields["id"].Str?
    {
      assert CheckSession(vs[k]) == Ok(sessions[k]);
    }
  }

  /** Read `election_id` (a missing or non-string one escapes as an exception
      before any check, when the private path is joined), run the validator
      without `check_extra`, then check the session list. */
  function ParseInput(input: Dict, maxQuestions: int, loads: string -> Option<Value>): (r: Result<Request>)
    ensures r.Ok? ==>
              && CheckElectionData(input, false, loads, maxQuestions, {}) == Ok(())
              && Get(input, "election_id") == Str(r.value.electionId)
              && MatchesIdPattern(r.value.electionId)
              && |r.value.sessions| > 0
              && (forall k | 0 <= k < |r.value.sessions| :: MatchesIdPattern(r.value.sessions[k].id))
              && Phase1Ready(input)
    ensures r.Ok? ==>
              var entries := Get(input, "sessions").items;
              && |r.value.sessions| == |entries|
              && forall k | 0 <= k < |entries| ::
                   && entries[k].Obj?
                   && "id" in entries[k].fields && entries[k].fields["id"] == Str(r.value.sessions[k].id)
                   && "stub" in entries[k].fields && entries[k].fields["stub"] == Str(r.value.sessions[k].stub)
  {
    if "election_id" !in input || !input["election_id"].Str? then Err(Crash)
    else match CheckElectionData(input, false, loads, maxQuestions, {})
      case Err(f) => Err(f)
      case Ok(_) =>
        var sv := Get(input, "sessions");
        if !sv.List? || |sv.items| == 0 then Err(TaskError(NoSessions))
        else match ParseSessions(sv.items)
          case Err(f) => Err(f)
          case Ok(sessions) =>
            AcceptedFieldsTyped(input, loads, maxQuestions);
            ParsedSessionsTyped(sv.items);
            Ok(Request(
              input["election_id"].s, input["title"].s, input["url"].s, input["description"].s,
              input["questions_data"], input["voting_start_date"], input["voting_end_date"],
              input["is_recurring"].b, ToAuthorities(input["authorities"].items), sessions,
              if "num_parties" in input then Some(input["num_parties"]) else None,
              if "threshold_parties" in input then Some(input["threshold_parties"]) else None))
  }

  /** Once the election checks pass, a missing or empty session list is
      refused with "No sessions provided". */
  lemma NoSessionsReported(input: Dict, maxQuestions: int, loads: string -> Option<Value>)
    requires Get(input, "election_id").Str?
    requires CheckElectionData(input, false, loads, maxQuestions, {}) == Ok(())
    requires !Get(input, "sessions").List? || Get(input, "sessions").items == []
    ensures ParseInput(input, maxQuestions, loads) == Err(TaskError(NoSessions))
  {
  }

  /** Once the election checks pass, the first session entry that fails its
      test decides the failure: an entry that is not a dictionary, or lacks
      `id`, or lacks a string `stub`, is refused with "Invalid session data
      provided". */
  lemma BadSessionEntryReported(input: Dict, maxQuestions: int, loads: string -> Option<Value>, k: nat)
    requires Get(input, "election_id").Str?
    requires CheckElectionData(input, false, loads, maxQuestions, {}) == Ok(())
    requires Get(input, "sessions").List? && k < |Get(input, "sessions").items|
    requires forall j | 0 <= j < k :: CheckSession(Get(input, "sessions").items[j]).Ok?
    requires var e := Get(input, "sessions").items[k];
             !(e.Obj? && "id" in e.fields && "stub" in e.fields && e.fields["stub"].Str?)
    ensures ParseInput(input, maxQuestions, loads) == Err(TaskError(InvalidSessionData))
  {
    FirstBadSessionReported(Get(input, "sessions").items, k);
  }

  /** The converse of the guards above: a string `election_id`, a passing
      validator and a non-empty list of well-formed session entries are
      enough for the request to be accepted. */
  lemma ParseInputAccepts(input: Dict, maxQuestions: int, loads: string -> Option<Value>)
    requires Get(input, "election_id").Str?
    requires CheckElectionData(input, false, loads, maxQuestions, {}) == Ok(())
    requires Get(input, "sessions").List? && |Get(input, "sessions").items| > 0
    requires forall k | 0 <= k < |Get(input, "sessions").items| :: CheckSession(Get(input, "sessions").items[k]).Ok?
    ensures ParseInput(input, maxQuestions, loads).Ok?
  {
  }

  /** A validator failure is reported as it is, once `election_id` is a
      string. */
  lemma ValidatorFailureReported(input: Dict, maxQuestions: int, loads: string -> Option<Value>)
    requires Get(input, "election_id").Str?
    requires CheckElectionData(input, false, loads, maxQuestions, {}).Err?
    ensures ParseInput(input, maxQuestions, loads) == Err(CheckElectionData(input, false, loads, maxQuestions, {}).failure)
  {
  }

  /** Every field of an accepted request is the input's own value: the
      strings and the flag the validator checked, the question payload and
      voting window as given, and the party counts when present. These are
      what the performer path stores in the Election row. */
  lemma ParsedFieldsReadBack(input: Dict, maxQuestions: int, loads: string -> Option<Value>)
    requires ParseInput(input, maxQuestions, loads).Ok?
    ensures var req := ParseInput(input, maxQuestions, loads).value;
            && Get(input, "title") == Str(req.title)
            && Get(input, "url") == Str(req.url)
            && Get(input, "description") == Str(req.description)
            && Get(input, "is_recurring") == Bool(req.isRecurring)
            && Get(input, "questions_data") == req.questionsData
            && Get(input, "voting_start_date") == req.votingStartDate
            && Get(input, "voting_end_date") == req.votingEndDate
            && req.numParties == (if "num_parties" in input then Some(input["num_parties"]) else None)
            && req.thresholdParties == (if "threshold_parties" in input then Some(input["threshold_parties"]) else None)
  {
    assert CheckElectionData(input, false, loads, maxQuestions, {}) == Ok(());
    ValidatorAcceptsExactlyValid(input, false, loads, maxQuestions, {});
    AcceptedFieldsTyped(input, loads, maxQuestions);
    assert ParseSessions(Get(input, "sessions").items).Ok?;
  }

  /** The session identifiers of an input of the shape phase 1 reads. */
  function SessionIds(input: Dict): (ids: seq<string>)
    requires Phase1Ready(input)
  {
    var ss := Get(input, "sessions").items;
    seq(|ss|, k requires 0 <= k < |ss| => ss[k].fields["id"].s)
  }

  /** What phase 1 reads of a parent input that `ParseInput` accepted is what
      `ParseInput` made of it. */
  lemma ParsedInputReadsBack(input: Dict, maxQuestions: int, loads: string -> Option<Value>)
    requires ParseInput(input, maxQuestions, loads).Ok?
    ensures var req := ParseInput(input, maxQuestions, loads).value;
            && Get(input, "election_id").s == req.electionId
            && ToAuthorities(Get(input, "authorities").items) == req.authorities
            && SessionIds(input) == seq(|req.sessions|, k requires 0 <= k < |req.sessions| => req.sessions[k].id)
  {
    var req := ParseInput(input, maxQuestions, loads).value;
    var ss := Get(input, "sessions").items;
    assert ParseSessions(ss) == Ok(req.sessions);
    forall k | 0 <= k < |ss|
      ensures SessionIds(input)[k] == req.sessions[k].id
    {
      assert CheckSession(ss[k]) == Ok(req.sessions[k]);
    }
  }

  // ---------------------------------------------------------------------------
  // Which authority this node is (:139-145, :269-272)

  /** The name of the last authority whose endpoint is `url`, if any. */
  function LastMatchName(auths: seq<Authority>, url: string): Option<string>
    decreases |auths|
  {
    if auths == [] then None
    else if auths[|auths| - 1].orchestraUrl == url then Some(auths[|auths| - 1].name)
    else LastMatchName(auths[..|auths| - 1], url)
  }

  /** The lookup finds a name exactly when some authority has the endpoint, and
      the name it finds is that of the last such authority. */
  lemma {:induction false} LastMatchNameMeaning(auths: seq<Authority>, url: string)
    ensures LastMatchName(auths, url).None? <==>
            forall i | 0 <= i < |auths| :: auths[i].orchestraUrl != url
    ensures LastMatchName(auths, url).Some? ==>
              exists i | 0 <= i < |auths| ::
                && auths[i].orchestraUrl == url
                && auths[i].name == LastMatchName(auths, url).value
                && forall j | i < j < |auths| :: auths[j].orchestraUrl != url
    decreases |auths|
  {
    if auths != [] {
      var n := |auths| - 1;
      var init := auths[..n];
      LastMatchNameMeaning(init, url);
      assert forall i | 0 <= i < n :: init[i] == auths[i];
      if auths[n].orchestraUrl != url {
        if LastMatchName(init, url).Some? {
          var i :| 0 <= i < n && init[i].orchestraUrl == url && init[i].name == LastMatchName(init, url).value
                   && forall j | i < j < n :: init[j].orchestraUrl != url;
          assert auths[i] == init[i];
        }
      }
    }
  }

  /** The lookup loop: `auth_name` starts empty and takes the name of each
      authority whose endpoint is `rootUrl`, so the last one wins. */
  method LocalAuthorityName(auths: seq<Authority>, rootUrl: string) returns (name: Option<string>)
    ensures name == LastMatchName(auths, rootUrl)
  {
    name := None;
    for i := 0 to |auths|
      invariant name == LastMatchName(auths[..i], rootUrl)
    {
      assert auths[..i + 1][..i] == auths[..i];
      if auths[i].orchestraUrl == rootUrl {
        name := Some(auths[i].name);
      }
    }
    assert auths[..|auths|] == auths;
  }
}
