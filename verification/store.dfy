/** The state a node keeps: the private and public file trees, addressed by
    (area, election, session, file name), the rows of the Store, the node's
    configuration, and the child tasks a step queues. */
module Store {
  import opened Wrappers
  import opened Json

  datatype Area = Private | Public

  /** `<PRIVATE_DATA_PATH|PUBLIC_DATA_PATH>/<election>/<session>/<name>` */
  datatype FilePath = FilePath(area: Area, election: string, session: string, name: string)

  datatype DirPath =
    | ElectionDir(area: Area, election: string)
    | SessionDir(area: Area, election: string, session: string)

  const StubName := "stub.xml"
  const LocalProtInfoName := "localProtInfo.xml"
  const ProtInfoName := "protInfo.xml"
  const RawKeyName := "publicKey_raw"
  const JsonKeyName := "publicKey_json"

  function PrivateFile(election: string, session: string, name: string): FilePath {
    FilePath(Private, election, session, name)
  }

  function PublicFile(election: string, session: string, name: string): FilePath {
    FilePath(Public, election, session, name)
  }

  /** The directory a file lives in. */
  function DirOf(p: FilePath): DirPath {
    SessionDir(p.area, p.election, p.session)
  }

  /** The private file a public file mirrors. */
  function PrivateTwin(p: FilePath): FilePath {
    p.(area := Private)
  }

  type Files = map<FilePath, string>

  /** A session directory is always inside its election directory
      (`mkdir_recursive` creates both). */
  predicate DirsClosed(dirs: set<DirPath>) {
    forall d | d in dirs && d.SessionDir? :: ElectionDir(d.area, d.election) in dirs
  }

  /** Every file is inside a directory that exists. */
  predicate FilesInDirs(files: Files, dirs: set<DirPath>) {
    forall p | p in files :: DirOf(p) in dirs
  }

  /** The public tree only holds copies of the private `publicKey_json` and
      `protInfo.xml`, equal to their private originals. */
  predicate PublicMirrorsPrivate(files: Files) {
    forall p | p in files && p.area == Public ::
      && (p.name == JsonKeyName || p.name == ProtInfoName)
      && PrivateTwin(p) in files
      && files[PrivateTwin(p)] == files[p]
  }

  predicate StoreOk(files: Files, dirs: set<DirPath>) {
    DirsClosed(dirs) && FilesInDirs(files, dirs) && PublicMirrorsPrivate(files)
  }

  /** Writing a private file into an existing directory keeps the store's
      invariants, provided no public copy of that file exists. */
  lemma PrivateWriteKeepsStore(files: Files, dirs: set<DirPath>, p: FilePath, v: string)
    requires StoreOk(files, dirs)
    requires p.area == Private && DirOf(p) in dirs
    requires p.(area := Public) !in files
    ensures StoreOk(files[p := v], dirs)
  {
    forall q | q in files[p := v] && q.area == Public
      ensures PrivateTwin(q) in files[p := v] && files[p := v][PrivateTwin(q)] == files[p := v][q]
    {
      assert q in files && q != p;
      assert PrivateTwin(q) != p;
    }
  }

  /** A private file other than the published key and descriptor never has a
      public copy. */
  lemma NoPublicCopy(files: Files, p: FilePath)
    requires PublicMirrorsPrivate(files)
    requires p.name != JsonKeyName && p.name != ProtInfoName
    ensures p.(area := Public) !in files
  {
  }

  /** Copying a private file into its public place keeps the invariants. */
  lemma PublicCopyKeepsStore(files: Files, dirs: set<DirPath>, p: FilePath)
    requires StoreOk(files, dirs)
    requires p.area == Public && (p.name == JsonKeyName || p.name == ProtInfoName)
    requires DirOf(p) in dirs && PrivateTwin(p) in files
    ensures StoreOk(files[p := files[PrivateTwin(p)]], dirs)
  {
  }

  /** Creating a session directory with its election directory keeps the invariants. */
  lemma MkdirKeepsStore(files: Files, dirs: set<DirPath>, area: Area, election: string, session: string)
    requires StoreOk(files, dirs)
    ensures StoreOk(files, dirs + {ElectionDir(area, election), SessionDir(area, election, session)})
  {
  }

  /** Updating a key after a union is updating the right operand. */
  lemma UpdateAfterUnion(a: Files, b: Files, p: FilePath, v: string)
    ensures (a + b)[p := v] == a + b[p := v]
  {
  }

  // ---------------------------------------------------------------------------
  // Rows of the Store (`models.Election`, `models.Authority`, `models.Session`)

  datatype ElectionRow = ElectionRow(
    id: string, title: string, url: string, description: string,
    questionsData: Value, votingStartDate: Value, votingEndDate: Value,
    isRecurring: bool, numParties: Value, thresholdParties: Value)

  datatype AuthorityRow = AuthorityRow(
    name: string, sslCert: string, orchestraUrl: string, electionId: string)

  datatype SessionRow = SessionRow(
    id: string, electionId: string, status: string, publicKey: string, questionNumber: nat)

  const DefaultStatus := "default"

  // ---------------------------------------------------------------------------
  // Configuration and the children a task queues

  /** The question limit used when MAX_NUM_QUESTIONS_PER_ELECTION is not set. */
  const DefaultMaxQuestions := 10

  /** The node's settings: ROOT_URL, SSL_CERT_STRING, AUTOACCEPT_REQUESTS
      (its truth value), MAX_NUM_QUESTIONS_PER_ELECTION (`None` when unset),
      and the two addresses handed to the crypto engine. */
  datatype Config = Config(
    rootUrl: string, sslCert: string, autoAccept: bool, maxQuestionsSetting: Option<int>,
    serverUrl: string, hintServerUrl: string)
  {
    /** `app.config.get('MAX_NUM_QUESTIONS_PER_ELECTION', 10)` */
    function MaxQuestions(): int {
      match maxQuestionsSetting
      case Some(n) => n
      case None => DefaultMaxQuestions
    }
  }

  /** A child task added to the running task: an external (human) task with a
      label, or a task sent to a node to run an action on a queue. */
  datatype ChildTask =
    | External(title: string)
    | Simple(receiverUrl: string, action: string, queue: string)

  const ApproveLabel := "approve_election"
  const VerificatumAction := "generate_private_info_verificatum"
  const PerformerQueue := "orchestra_performer"

  /** The children `generate_private_info` queues: the approval checkpoint only
      when auto-accept is off, then always the phase-1 task sent to this node. */
  function QueuedChildren(cfg: Config): (c: seq<ChildTask>)
    ensures |c| == (if cfg.autoAccept then 1 else 2)
    ensures c[|c| - 1] == Simple(cfg.rootUrl, VerificatumAction, PerformerQueue)
    ensures !cfg.autoAccept <==> External(ApproveLabel) in c
  {
    (if cfg.autoAccept then [] else [External(ApproveLabel)])
    + [Simple(cfg.rootUrl, VerificatumAction, PerformerQueue)]
  }
}
