/** What `generate_private_info` checks before it touches anything, and what
    it creates on the performer path (create_election/performer_jobs.py:147-204). */
module Bootstrap {
  import opened Wrappers
  import opened Json
  import opened Validation
  import opened Store
  import opened Requests

  function SessionAlreadyCreated(id: string): string {
    "session_id " + id + " already created"
  }

  function ElectionDirExists(id: string): string {
    "Already existing election id " + id
  }

  function LocalProtInfo(election: string, session: string): FilePath {
    PrivateFile(election, session, LocalProtInfoName)
  }

  function StubFile(election: string, session: string): FilePath {
    PrivateFile(election, session, StubName)
  }

  // ---------------------------------------------------------------------------
  // Admission (:120-155)

  /** The position of the first session whose `localProtInfo.xml` exists. */
  function FirstCreated(files: Files, election: string, sessions: seq<SessionEntry>): (r: Option<nat>)
    ensures r.None? <==> forall k | 0 <= k < |sessions| :: LocalProtInfo(election, sessions[k].id) !in files
    ensures r.Some? ==>
              && r.value < |sessions|
              && LocalProtInfo(election, sessions[r.value].id) in files
              && forall j | 0 <= j < r.value :: LocalProtInfo(election, sessions[j].id) !in files
    decreases |sessions|
  {
    if sessions == [] then None
    else if LocalProtInfo(election, sessions[0].id) in files then Some(0)
    else match FirstCreated(files, election, sessions[1..])
      case None => None
      case Some(k) => Some(k + 1)
  }

  /** The checks on a parsed input: this node is one of the authorities (by
      endpoint, the last match, a name that is empty counting as absent), and
      no session's local descriptor exists yet. */
  function CheckParsed(req: Request, cfg: Config, files: Files): (r: Result<Request>)
    ensures r.Ok? ==> r.value == req
    ensures (forall i | 0 <= i < |req.authorities| :: req.authorities[i].orchestraUrl != cfg.rootUrl) ==>
              r == Err(TaskError(ExternalElection))
    ensures LastMatchName(req.authorities, cfg.rootUrl).None? || LastMatchName(req.authorities, cfg.rootUrl).value == "" ==>
              r == Err(TaskError(ExternalElection))
    ensures r.Ok? ==> forall k | 0 <= k < |req.sessions| :: LocalProtInfo(req.electionId, req.sessions[k].id) !in files
  {
    LastMatchNameMeaning(req.authorities, cfg.rootUrl);
    var name := LastMatchName(req.authorities, cfg.rootUrl);
    if name.None? || name.value == "" then Err(TaskError(ExternalElection))
    else match FirstCreated(files, req.electionId, req.sessions)
      case Some(k) => Err(TaskError(SessionAlreadyCreated(req.sessions[k].id)))
      case None => Ok(req)
  }

  /** Every check `generate_private_info` makes before choosing its role. */
  function Admit(input: Dict, cfg: Config, loads: string -> Option<Value>, files: Files): (r: Result<Request>)
    ensures ParseInput(input, cfg.MaxQuestions(), loads).Err? ==> r == ParseInput(input, cfg.MaxQuestions(), loads)
    ensures r.Ok? ==> ParseInput(input, cfg.MaxQuestions(), loads) == Ok(r.value)
    ensures ParseInput(input, cfg.MaxQuestions(), loads).Ok? ==>
              r == CheckParsed(ParseInput(input, cfg.MaxQuestions(), loads).value, cfg, files)
  {
    match ParseInput(input, cfg.MaxQuestions(), loads)
    case Err(f) => Err(f)
    case Ok(req) => CheckParsed(req, cfg, files)
  }

  /** An admitted input is well formed, names this node among its authorities
      and has no session whose local descriptor already exists. */
  lemma AdmittedMeansGuardsHeld(input: Dict, cfg: Config, loads: string -> Option<Value>, files: Files)
    requires Admit(input, cfg, loads, files).Ok?
    ensures var req := Admit(input, cfg, loads, files).value;
            && CheckElectionData(input, false, loads, cfg.MaxQuestions(), {}) == Ok(())
            && |req.sessions| > 0
            && (exists i | 0 <= i < |req.authorities| ::
                  req.authorities[i].orchestraUrl == cfg.rootUrl && req.authorities[i].name != "")
            && forall k | 0 <= k < |req.sessions| :: LocalProtInfo(req.electionId, req.sessions[k].id) !in files
  {
    var req := ParseInput(input, cfg.MaxQuestions(), loads).value;
    assert CheckParsed(req, cfg, files).Ok?;
    LastMatchNameMeaning(req.authorities, cfg.rootUrl);
  }

  /** Replaying a request once any session's local descriptor exists is
      refused; the reason names the first such session. */
  lemma CreatedSessionRefused(req: Request, cfg: Config, files: Files, k: nat)
    requires k < |req.sessions|
    requires LocalProtInfo(req.electionId, req.sessions[k].id) in files
    ensures CheckParsed(req, cfg, files).Err?
    ensures (forall j | 0 <= j < k :: LocalProtInfo(req.electionId, req.sessions[j].id) !in files) ==>
              CheckParsed(req, cfg, files) == Err(TaskError(
                var name := LastMatchName(req.authorities, cfg.rootUrl);
                if name.None? || name.value == "" then ExternalElection
                else SessionAlreadyCreated(req.sessions[k].id)))
  {
    var first := FirstCreated(files, req.electionId, req.sessions);
    assert first.Some?;
  }

  /** The converse of `AdmittedMeansGuardsHeld`: a parsed request that names
      this node under a non-empty name and none of whose sessions has a local
      descriptor yet is admitted as parsed. */
  lemma AdmittedWhenGuardsHold(input: Dict, cfg: Config, loads: string -> Option<Value>, files: Files)
    requires ParseInput(input, cfg.MaxQuestions(), loads).Ok?
    requires var req := ParseInput(input, cfg.MaxQuestions(), loads).value;
             && LastMatchName(req.authorities, cfg.rootUrl).Some?
             && LastMatchName(req.authorities, cfg.rootUrl).value != ""
             && forall k | 0 <= k < |req.sessions| :: LocalProtInfo(req.electionId, req.sessions[k].id) !in files
    ensures Admit(input, cfg, loads, files) == ParseInput(input, cfg.MaxQuestions(), loads)
  {
  }

  /** A replay of an input that parses and lists this node under a non-empty
      name is refused, naming the first session whose local descriptor
      exists. */
  lemma ReplayRefused(input: Dict, cfg: Config, loads: string -> Option<Value>, files: Files, k: nat)
    requires ParseInput(input, cfg.MaxQuestions(), loads).Ok?
    requires var req := ParseInput(input, cfg.MaxQuestions(), loads).value;
             && k < |req.sessions|
             && LocalProtInfo(req.electionId, req.sessions[k].id) in files
             && (forall j | 0 <= j < k :: LocalProtInfo(req.electionId, req.sessions[j].id) !in files)
             && LastMatchName(req.authorities, cfg.rootUrl).Some?
             && LastMatchName(req.authorities, cfg.rootUrl).value != ""
    ensures var req := ParseInput(input, cfg.MaxQuestions(), loads).value;
            Admit(input, cfg, loads, files) == Err(TaskError(SessionAlreadyCreated(req.sessions[k].id)))
  {
    var req := ParseInput(input, cfg.MaxQuestions(), loads).value;
    CreatedSessionRefused(req, cfg, files, k);
  }

  // ---------------------------------------------------------------------------
  // What the performer path creates (:162-204)

  /** Whether the Store holds an Election row with this identifier. */
  predicate HasElection(rows: set<ElectionRow>, id: string) {
    exists row | row in rows :: row.id == id
  }

  function ElectionRowOf(req: Request, numParties: Value, thresholdParties: Value): ElectionRow {
    ElectionRow(req.electionId, req.title, req.url, req.description, req.questionsData,
                req.votingStartDate, req.votingEndDate, req.isRecurring, numParties, thresholdParties)
  }

  function AuthorityRowOf(a: Authority, election: string): AuthorityRow {
    AuthorityRow(a.name, a.sslCert, a.orchestraUrl, election)
  }

  /** One Authority row per entry. */
  function AuthorityRows(election: string, auths: seq<Authority>): set<AuthorityRow> {
    set a | a in auths :: AuthorityRowOf(a, election)
  }

  /** One Session row per entry: status 'default', an empty public key, and the
      entry's position as its question number. */
  function SessionRows(election: string, sessions: seq<SessionEntry>): set<SessionRow> {
    set k | 0 <= k < |sessions| :: SessionRow(sessions[k].id, election, DefaultStatus, "", k)
  }

  /** The private directories `mkdir_recursive` makes for the sessions. */
  function BootstrapDirs(election: string, sessions: seq<SessionEntry>): set<DirPath> {
    (if sessions == [] then {} else {ElectionDir(Private, election)})
    + set k | 0 <= k < |sessions| :: SessionDir(Private, election, sessions[k].id)
  }

  /** The stub files, written one session after the other. */
  function StubFiles(election: string, sessions: seq<SessionEntry>): Files
    decreases |sessions|
  {
    if sessions == [] then map[]
    else
      var last := sessions[|sessions| - 1];
      StubFiles(election, sessions[..|sessions| - 1])[StubFile(election, last.id) := last.stub]
  }

  /** The stub files are exactly one `stub.xml` per session directory. */
  lemma {:induction false} StubFilesKeys(election: string, sessions: seq<SessionEntry>)
    ensures forall p :: p in StubFiles(election, sessions) <==>
                        exists k | 0 <= k < |sessions| :: p == StubFile(election, sessions[k].id)
    decreases |sessions|
  {
    if sessions != [] {
      var n := |sessions| - 1;
      StubFilesKeys(election, sessions[..n]);
      assert forall k | 0 <= k < n :: sessions[..n][k] == sessions[k];
    }
  }

  /** Each session's stub is stored verbatim; when an identifier repeats, the
      stub of its last occurrence is the one left on disk. */
  lemma {:induction false} StubWrittenVerbatim(election: string, sessions: seq<SessionEntry>, k: nat)
    requires k < |sessions|
    requires forall j | k < j < |sessions| :: sessions[j].id != sessions[k].id
    ensures StubFile(election, sessions[k].id) in StubFiles(election, sessions)
    ensures StubFiles(election, sessions)[StubFile(election, sessions[k].id)] == sessions[k].stub
    decreases |sessions|
  {
    var n := |sessions| - 1;
    if k < n {
      StubWrittenVerbatim(election, sessions[..n], k);
      assert sessions[..n][k] == sessions[k];
    }
  }

  /** What one more session adds to the rows, directories and stubs. */
  lemma BootstrapStep(election: string, entries: seq<SessionEntry>, i: nat)
    requires i < |entries|
    ensures var prefix, next, e := entries[..i], entries[..i + 1], entries[i];
            && SessionRows(election, next) ==
               SessionRows(election, prefix) + {SessionRow(e.id, election, DefaultStatus, "", i)}
            && BootstrapDirs(election, next) ==
               BootstrapDirs(election, prefix) + {ElectionDir(Private, election), SessionDir(Private, election, e.id)}
            && StubFiles(election, next) == StubFiles(election, prefix)[StubFile(election, e.id) := e.stub]
  {
    var prefix, next := entries[..i], entries[..i + 1];
    assert next[..i] == prefix && next[i] == entries[i];
  }

  /** One more authority adds its own row to those of the others. */
  lemma AuthorityRowsSnoc(election: string, auths: seq<Authority>)
    requires auths != []
    ensures var n := |auths| - 1;
            AuthorityRows(election, auths) == AuthorityRows(election, auths[..n]) + {AuthorityRowOf(auths[n], election)}
  {
    var n := |auths| - 1;
    assert forall a :: a in auths <==> a in auths[..n] || a == auths[n];
  }

  /** The bootstrap creates one Authority row per authority: with no two
      authorities sharing a certificate, as the validator ensures, there are
      exactly as many rows as authorities, each tagged with the election. */
  lemma {:induction false} AuthorityRowsMeaning(election: string, auths: seq<Authority>)
    requires NoTwoShare(auths, SslCert)
    ensures |AuthorityRows(election, auths)| == |auths|
    ensures forall row | row in AuthorityRows(election, auths) :: row.electionId == election
    decreases |auths|
  {
    if auths != [] {
      var n := |auths| - 1;
      var init := auths[..n];
      assert forall i | 0 <= i < n :: init[i] == auths[i];
      AuthorityRowsMeaning(election, init);
      AuthorityRowsSnoc(election, auths);
      var row := AuthorityRowOf(auths[n], election);
      forall a | a in init
        ensures AuthorityRowOf(a, election) != row
      {
        var i :| 0 <= i < n && init[i] == a;
        assert Field(auths[i], SslCert) != Field(auths[n], SslCert);
      }
    }
  }

  /** The bootstrap creates exactly one Session row per session entry, in the
      'default' status with an empty public key, numbered by its position, so
      a repeated session identifier still gets a row of its own. */
  lemma {:induction false} SessionRowsMeaning(election: string, sessions: seq<SessionEntry>)
    ensures |SessionRows(election, sessions)| == |sessions|
    ensures forall row | row in SessionRows(election, sessions) ::
              && row.electionId == election && row.status == DefaultStatus && row.publicKey == ""
              && row.questionNumber < |sessions| && row.id == sessions[row.questionNumber].id
    decreases |sessions|
  {
    if sessions != [] {
      var n := |sessions| - 1;
      SessionRowsMeaning(election, sessions[..n]);
      BootstrapStep(election, sessions, n);
      assert sessions[..n + 1] == sessions;
      assert forall k | 0 <= k < n :: sessions[..n][k] == sessions[k];
    }
  }

  /** The directories the bootstrap makes are private directories of the
      election, each session directory with its election directory. */
  lemma BootstrapDirsMeaning(election: string, sessions: seq<SessionEntry>)
    ensures DirsClosed(BootstrapDirs(election, sessions))
    ensures forall d | d in BootstrapDirs(election, sessions) :: d.area == Private && d.election == election
    ensures forall k | 0 <= k < |sessions| :: SessionDir(Private, election, sessions[k].id) in BootstrapDirs(election, sessions)
  {
  }

  /** A performer's bootstrap leaves its own input admissible (stubs are not
      local descriptors) but creates the election directory, so running the
      same task again before phase 1 is refused with "Already existing
      election id", not with "session already created". */
  lemma PerformerBootstrapStaysAdmitted(input: Dict, cfg: Config, loads: string -> Option<Value>, files: Files, dirs: set<DirPath>)
    requires Admit(input, cfg, loads, files).Ok?
    ensures var req := Admit(input, cfg, loads, files).value;
            && Admit(input, cfg, loads, files + StubFiles(req.electionId, req.sessions)) == Admit(input, cfg, loads, files)
            && ElectionDir(Private, req.electionId) in dirs + BootstrapDirs(req.electionId, req.sessions)
  {
    var req := Admit(input, cfg, loads, files).value;
    var files' := files + StubFiles(req.electionId, req.sessions);
    AdmittedMeansGuardsHeld(input, cfg, loads, files);
    LastMatchNameMeaning(req.authorities, cfg.rootUrl);
    StubFilesKeys(req.electionId, req.sessions);
    forall k | 0 <= k < |req.sessions|
      ensures LocalProtInfo(req.electionId, req.sessions[k].id) !in files'
    {
      assert LocalProtInfo(req.electionId, req.sessions[k].id) !in StubFiles(req.electionId, req.sessions);
    }
    AdmittedWhenGuardsHold(input, cfg, loads, files');
  }

  /** Creating the bootstrap directories and stubs keeps the store's
      invariants: stubs are private files inside directories that now exist,
      and no public copy depends on them. */
  lemma BootstrapKeepsStore(files: Files, dirs: set<DirPath>, election: string, sessions: seq<SessionEntry>)
    requires DirsClosed(dirs) && FilesInDirs(files, dirs) && PublicMirrorsPrivate(files)
    ensures var files', dirs' := files + StubFiles(election, sessions), dirs + BootstrapDirs(election, sessions);
            DirsClosed(dirs') && FilesInDirs(files', dirs') && PublicMirrorsPrivate(files')
  {
    var stubs := StubFiles(election, sessions);
    var files', dirs' := files + stubs, dirs + BootstrapDirs(election, sessions);
    StubFilesKeys(election, sessions);
    forall p | p in files'
      ensures DirOf(p) in dirs'
    {
      if p in stubs {
        var k :| 0 <= k < |sessions| && p == StubFile(election, sessions[k].id);
        assert DirOf(p) == SessionDir(Private, election, sessions[k].id);
      }
    }
    forall p | p in files' && p.area == Public
      ensures PrivateTwin(p) in files' && files'[PrivateTwin(p)] == files'[p]
    {
      assert p !in stubs;
      assert PrivateTwin(p) !in stubs;
    }
  }
}
