# election-orchestra: the key-ceremony steps of `performer_jobs.py`

This project models the ceremony-coordination core of election-orchestra. That
core is the module `create_election/performer_jobs.py`. It has four parts:

- **the submission validator `check_election_data`**, with its helper
  `unique_by_keys`. It is a chain of guard clauses. Each guard ends
  validation with a fixed reason string (`Validation.CheckElectionData`).
- **the bootstrap step `generate_private_info`**. It parses the session list
  and finds this node among the authorities by `orchestra_url`, keeping the
  last match. It refuses a replay once any session's `localProtInfo.xml`
  exists. It then takes one of two paths:
  - the performer path creates the Election, Authority and Session rows, the
    private session directories and the `stub.xml` files;
  - the director path creates nothing.

  Finally it queues the approval checkpoint and the phase-1 task
  (`Ceremony.Node.GeneratePrivateInfo`).
- **the approval gate and phase 1, `generate_private_info_verificatum`**. It
  runs the crypto engine once per session, in order. It reports the local
  descriptors as the parent task's output
  (`Ceremony.Node.GeneratePrivateInfoVerificatum`).
- **phase 2, `generate_public_key`**. It applies the write-once guards and
  writes the merged descriptor only when it is absent. It then generates and
  converts the key and publishes the key and the descriptor
  (`Ceremony.Node.GeneratePublicKey`, specified by `Phases.PublicKeyStep`).

A node is a `Ceremony.Node` object. Its fields are:

- the private and public file trees: a map from (area, election, session,
  file name) to contents, plus the set of existing directories;
- the Store's three tables, as sets of rows.

A running task is a `Ceremony.Task`. It holds its input, its sender's
certificate, its output and the children it queued.

The steps change these fields in place. Their contracts tie the new state to
specification functions of the old state:

- `Bootstrap.Admit`, `Bootstrap.SessionRows`, `Bootstrap.StubFiles` and the
  other bootstrap functions;
- `Phases.Descriptors` and `Phases.DescriptorFiles` for phase 1;
- `Phases.PublicKeyStep` for phase 2.

Lemmas then prove the promised properties about those functions:

- the validator accepts exactly the valid submissions;
- each guard reports its own reason once the earlier guards pass;
- the uniqueness test means "no two authorities share a certificate or an
  endpoint";
- a replay is refused;
- stubs are stored verbatim;
- a key is generated at most once;
- the published files equal their private originals;
- the invariants of the file trees are kept on every path.

The invariants of the file trees are:

- every session directory is inside its election directory;
- every file is inside an existing directory;
- the public tree holds only `publicKey_json` and `protInfo.xml`, each equal
  to its private twin.

Python behaviour the model keeps:

- `re.match("^[a-zA-Z0-9_-]+$", s)` also accepts `s` with a single trailing
  newline, because `$` matches before a final `\n`. `Validation.MatchesIdPattern`
  keeps that behaviour, and `Validation.IdPatternMeaning` states it.
- The end-date reason is spelled `"invalid voting_send_date parameter"`, as in
  the code.
- `in` on an authority entry that is a list or a string tests element or
  substring membership. On any other non-dictionary it raises. Indexing a
  non-dictionary that "contains" the key raises too.
- An exception that is not a `TaskError` is modelled as `Crash`. This covers a
  `KeyError`, a `TypeError`, a non-zero exit of the engine, and an unreadable
  file. Examples:
  - a missing `election_id` at the top of `generate_private_info`;
  - a session `id` that is not a string, given to `re.match`;
  - a missing `num_parties` or `threshold_parties` on the performer path;
  - a missing authority name handed to the engine in phase 1;
  - a missing Election row when the director builds the approval text with
    auto-accept off (:208-209, :229).
- Phase 2 opens `protInfo.xml` for writing before it reads
  `protInfo_content`. So a missing or non-string content leaves an empty
  `protInfo.xml` behind before the step fails. The descriptor is written only
  when it is absent, so a later retry with the right content keeps the empty
  file and runs the engine on it (`Phases.RetryKeepsEmptyDescriptor`). If the
  engine accepts the empty descriptor, the key is generated from it and the
  empty descriptor is published. If it rejects it, the retry crashes and
  changes nothing, and so does every later retry until the file is removed.
  Either way a retry does not recover from the first failure.

Places where the code departs from what a reader of the system's
documentation would expect; the model follows the code:

- Authority names may repeat. Only `ssl_cert` and `orchestra_url` are checked
  for uniqueness.
- The voting window's start is not compared with its end.
- Session rows keep the status `default`. No step changes the status, so no
  status state machine is modelled.
- Duplicate session identifiers within one request are not rejected. The stub
  of the last occurrence is the one left on disk (`Bootstrap.StubWrittenVerbatim`).
- The duplicate-election lookup runs only in first-submission mode
  (`check_extra`), which `generate_private_info` does not use.
- Running the same bootstrap task a second time before phase 1 does not end
  the same way for both roles (`Ceremony.Node.GeneratePrivateInfoTwice`). A
  performer's second run is refused with "Already existing election id X",
  because the first run made the election directory and the stubs it wrote
  are not local descriptors. A director's second run succeeds again and
  queues the approval and phase-1 tasks a second time.
- Phase 1 runs the engine without checking whether `localProtInfo.xml`
  exists. In the model, every engine run that succeeds replaces the
  session's descriptor, so a second phase-1 run replaces those of the first
  (`Phases.DescriptorOverwritten`). Whether the engine itself refuses an
  existing file is not part of this model.
- On the performer path, directories and stubs are written before the rows
  are committed. They are not part of one atomic unit.

The collaborators appear as parameters:

- `loads` is the JSON decoder (`None` when it raises);
- `certsDiffer` is the certificate comparison;
- `vmni` is the engine's party-descriptor run: the descriptor it writes, or
  `None` when it fails;
- `vmn` is key generation;
- `vmnc` is key conversion.

The node's settings are a `Store.Config` value: ROOT_URL, SSL_CERT_STRING, the
truth value of AUTOACCEPT_REQUESTS, MAX_NUM_QUESTIONS_PER_ELECTION (`None` when
unset, in which case `Store.Config.MaxQuestions` falls back to 10), and the two
engine addresses.

## Model

| member | source | states |
|---|---|---|
| Validation.IdPatternMeaning | create_election/performer_jobs.py:75 | the identifier pattern accepts exactly a non-empty word over `[a-zA-Z0-9_-]`, optionally followed by one newline |
| Validation.MatchesIdPattern | create_election/performer_jobs.py:75 | a non-empty word over `[a-zA-Z0-9_-]` is accepted; an accepted string is non-empty and every character but the last is an identifier character, the last being one too or a newline |
| Validation.IdIsPathComponent | create_election/performer_jobs.py:118-122 | an identifier the pattern accepts is one path component: not empty, not `.` or `..`, with no `/` |
| Validation.FirstUnmet | create_election/performer_jobs.py:62-65 | finds no requirement exactly when all are met; otherwise it finds an unmet one, and every earlier one is met |
| Validation.QuestionsPayload | create_election/performer_jobs.py:49-60 | the payload is always there with `check_extra`; without it, it is there exactly when `questions_data` is a string that decodes |
| Validation.FirstBadFieldReported | create_election/performer_jobs.py:40-65 | when the question payload decodes, the reason names the first required field, in list order, that is missing or mistyped |
| Validation.UndecodableQuestionsReportedFirst | create_election/performer_jobs.py:55-60 | without `check_extra`, a question payload that does not decode is reported as "questions_data is not in json" before any field check |
| Validation.BadWindowReported | create_election/performer_jobs.py:67-73 | once the payload decodes and the fields are in place, a missing or wrongly typed voting start is reported as "invalid voting_start_date parameter", and otherwise a bad end as "invalid voting_send_date parameter" |
| Validation.BadElectionIdReported | create_election/performer_jobs.py:75-76 | then an identifier the pattern refuses is reported as "invalid characters in election_id" |
| Validation.NoAuthoritiesReported | create_election/performer_jobs.py:78-79 | then an empty authority list is reported as "no authorities" |
| Validation.BadQuestionCountReported | create_election/performer_jobs.py:81-83 | then a payload that is not a list of 1 to the maximum number of questions is reported as "Unsupported number of questions in the election" |
| Validation.ValidatorAcceptsExactlyValid | create_election/performer_jobs.py:35-110 | the validator succeeds if and only if every rule holds: payload decodes, fields typed, window present and typed, id matches, authorities non-empty, 1..max questions, id new in `check_extra` mode, each authority typed, no shared certificate or endpoint |
| Validation.ResubmissionRejected | create_election/performer_jobs.py:86-89 | in first-submission mode, a well-shaped submission whose id is already stored fails with "an election with id X already exists" |
| Validation.AuthorityKeyFailure | create_election/performer_jobs.py:98-101 | one key test passes exactly when the entry is a dictionary holding a string under the key; on a dictionary it otherwise fails with "invalid <key> parameter", and any reason it gives is that one |
| Validation.BadAuthorityKeyReported | create_election/performer_jobs.py:98-101 | on a dictionary entry, the first of `name`, `orchestra_url`, `ssl_cert` that is missing or not a string is the one reported |
| Validation.EntryFailureMeaning | create_election/performer_jobs.py:97-101 | an authority entry passes its key checks if and only if it is a dictionary with string `name`, `orchestra_url` and `ssl_cert` |
| Validation.EntriesFailureMeaning | create_election/performer_jobs.py:97-101 | the per-entry loop passes if and only if every entry is well typed |
| Validation.EntriesFailure | create_election/performer_jobs.py:97-101 | the entry loop finds nothing exactly when every entry passes; otherwise it reports the failure of an entry that fails, all earlier entries passing |
| Validation.FirstBadEntry | create_election/performer_jobs.py:97-101 | the entry loop reports the failure of the first entry that is not a well-typed authority |
| Validation.BadAuthorityEntryReported | create_election/performer_jobs.py:97-101 | once the shape and the identifier pass, the validator fails with the failure of the first ill-typed authority entry |
| Validation.Elements | create_election/performer_jobs.py:105 | `set(...)` of a column holds exactly the column's values |
| Validation.SetSizeDetectsDuplicates | create_election/performer_jobs.py:105 | the set of a column is never larger than the column, and equal in size if and only if no value repeats |
| Validation.ColumnMeaning | create_election/performer_jobs.py:105 | one key's size comparison holds if and only if no two authorities share that key's value |
| Validation.UniqueByKeys | create_election/performer_jobs.py:103-107 | holds exactly when, for every key in the list, the set of that key's values is as large as the list |
| Validation.UniqueByKeysMeaning | create_election/performer_jobs.py:103-107 | `unique_by_keys(l, ['ssl_cert', 'orchestra_url'])` holds if and only if no two authorities share a certificate and no two share an endpoint |
| Validation.SharedCertOrEndpointRejected | create_election/performer_jobs.py:109-110 | once every earlier rule holds, the validator fails with "invalid authorities parameters" exactly when two entries share a certificate or an endpoint, and succeeds otherwise |
| Validation.CheckElectionData | create_election/performer_jobs.py:35-110 | an accepted submission has a string identifier the pattern accepts and a non-empty authority list, and in `check_extra` mode an identifier not yet stored |
| Json.Contains | create_election/performer_jobs.py:99 | Python's `in` raises exactly on a value that is not a dictionary, list or string; on a dictionary it is key membership, on a list element membership, on a string true exactly when the key occurs at some position |
| Json.IsSubstringMeaning | create_election/performer_jobs.py:99 | the substring search finds the key exactly when the key occurs at some position of the string |
| Store.QueuedChildren | create_election/performer_jobs.py:211-245 | one child with auto-accept on, two with it off; the approval task is present if and only if auto-accept is off; the phase-1 task, sent to ROOT_URL, always comes last |
| Store.PrivateWriteKeepsStore | create_election/performer_jobs.py:197-202 | writing a private file into an existing session directory keeps the file trees' invariants, when no public copy of it exists |
| Store.PublicCopyKeepsStore | create_election/performer_jobs.py:338-345 | copying a private key or descriptor into its public place keeps the invariants |
| Store.MkdirKeepsStore | create_election/performer_jobs.py:334-336 | creating a session directory with its election directory keeps the invariants |
| Requests.ParseSessions | create_election/performer_jobs.py:131-136 | on success, one entry per input session, each passing the session test; on failure, the failure of the first session that fails, with all earlier ones passing |
| Requests.CheckSession | create_election/performer_jobs.py:132-136 | accepts exactly a dictionary with a string `id` the pattern accepts and a string `stub`, and returns those two strings; a non-dictionary, a missing `id` or `stub`, a non-string `stub`, or a string `id` the pattern refuses is "Invalid session data provided"; a non-string `id` with a string `stub` is an exception, and only such an entry gives one |
| Requests.FirstBadSessionReported | create_election/performer_jobs.py:131-136 | the first session entry that fails its test decides the failure of the whole list |
| Requests.ParsedSessionsTyped | create_election/performer_jobs.py:131-136 | every accepted session is a dictionary whose `id` is a string matching the identifier pattern |
| Requests.AcceptedFieldsTyped | create_election/performer_jobs.py:125 | after the validator accepts, `election_id`, `title`, `url` and `description` are strings, `is_recurring` a bool, and the authorities well typed |
| Requests.ParseInput | create_election/performer_jobs.py:117-136 | an accepted input passed the validator without `check_extra`, has a matching election id, a non-empty session list with matching ids, and the shape phase 1 reads; there is one parsed session per input entry, whose `id` and `stub` are that entry's strings, so a session without a string `stub` is never accepted |
| Requests.ParseInputAccepts | create_election/performer_jobs.py:117-136 | the converse of the refusals: a string `election_id`, a passing validator and a non-empty list of well-formed session entries are accepted |
| Requests.ValidatorFailureReported | create_election/performer_jobs.py:118-125 | with a string `election_id`, a validator failure is the step's failure, unchanged |
| Requests.ParsedFieldsReadBack | create_election/performer_jobs.py:162-173 | the parsed title, url, description, recurrence flag, question payload, voting window and party counts (when present) are the input's own values, the ones the Election row stores |
| Requests.NoSessionsReported | create_election/performer_jobs.py:128-130 | once the election checks pass, a missing, non-list or empty session list is refused with "No sessions provided" |
| Requests.BadSessionEntryReported | create_election/performer_jobs.py:131-136 | once the election checks pass, the first entry that is not a dictionary or lacks `id` or a string `stub` is refused with "Invalid session data provided" |
| Requests.ParsedInputReadsBack | create_election/performer_jobs.py:263-272 | phase 1 reads back the same election id, authorities and session ids the bootstrap step parsed |
| Requests.LastMatchNameMeaning | create_election/performer_jobs.py:140-143 | the lookup finds nothing exactly when no authority has the endpoint; otherwise it finds the name of the last authority that has it |
| Requests.LocalAuthorityName | create_election/performer_jobs.py:140-143 | the lookup loop computes the name of the last authority whose endpoint is ROOT_URL |
| Bootstrap.FirstCreated | create_election/performer_jobs.py:151-155 | finds no session exactly when no session's `localProtInfo.xml` exists; otherwise the first session whose file exists |
| Bootstrap.CheckParsed | create_election/performer_jobs.py:139-155 | passes the request on unchanged; when no authority is at ROOT_URL, or the last one there has an empty name, the request is refused as an external election; an accepted request has no session whose local descriptor exists |
| Bootstrap.Admit | create_election/performer_jobs.py:117-155 | a parse failure is reported as it is; after a successful parse the outcome is that of `CheckParsed` on the parsed request |
| Bootstrap.AdmittedMeansGuardsHeld | create_election/performer_jobs.py:120-155 | an admitted input passed the validator, has sessions, names this node with a non-empty name, and has no session whose local descriptor exists |
| Bootstrap.AdmittedWhenGuardsHold | create_election/performer_jobs.py:120-155 | the converse: a parsed input that names this node under a non-empty name, with no session whose local descriptor exists, is admitted as parsed |
| Bootstrap.CreatedSessionRefused | create_election/performer_jobs.py:147-155 | once any session's local descriptor exists, the request is refused; when this node is listed, the reason names the first such session |
| Bootstrap.ReplayRefused | create_election/performer_jobs.py:151-155 | an input that parses and lists this node under a non-empty name is refused with "session_id X already created", X the first session whose local descriptor exists |
| Bootstrap.StubFilesKeys | create_election/performer_jobs.py:197-202 | the bootstrap writes exactly one `stub.xml` per session directory and nothing else |
| Bootstrap.StubWrittenVerbatim | create_election/performer_jobs.py:199-202 | each session's stub is stored verbatim; with repeated ids the last occurrence's stub is kept |
| Bootstrap.AuthorityRowsMeaning | create_election/performer_jobs.py:176-183 | with distinct certificates, as the validator ensures, there is exactly one Authority row per authority, each tagged with the election |
| Bootstrap.SessionRowsMeaning | create_election/performer_jobs.py:186-195 | exactly one Session row per session entry, with status `default`, an empty public key, the entry's id and its 0-based position as question number |
| Bootstrap.BootstrapDirsMeaning | create_election/performer_jobs.py:197-198 | the directories made are private directories of the election, each session directory with its election directory |
| Bootstrap.PerformerBootstrapStaysAdmitted | create_election/performer_jobs.py:147-161 | after a performer's bootstrap the same input is still admitted (stubs are not local descriptors) and the election directory exists |
| Bootstrap.BootstrapKeepsStore | create_election/performer_jobs.py:185-203 | creating the session directories and stubs keeps the file trees' invariants |
| Phases.Descriptors | create_election/performer_jobs.py:282-295 | succeeds exactly when every session runs; it then holds one descriptor per session, in session order, each the engine's output for that session; any failure is an exception |
| Phases.DescriptorsStopAt | create_election/performer_jobs.py:288-290 | one session that cannot run makes the whole phase fail, so nothing is reported |
| Phases.DescriptorsAll | create_election/performer_jobs.py:282-295 | when every session runs, the report is exactly the engine outputs in order |
| Phases.DescriptorFilesKeys | create_election/performer_jobs.py:285-290 | phase 1 writes exactly the sessions' `localProtInfo.xml` files |
| Phases.DescriptorFilesFrame | create_election/performer_jobs.py:282-295 | phase 1 changes no file other than local descriptors |
| Phases.DescriptorOverwritten | create_election/performer_jobs.py:282-295 | phase 1 has no write-once guard: whatever a session's `localProtInfo.xml` held, the last content written for that session replaces it |
| Phases.StubSurvives | create_election/performer_jobs.py:286-290 | each engine run sees the stub that was there when phase 1 began |
| Phases.DescriptorsKeepStore | create_election/performer_jobs.py:282-295 | writing local descriptors into existing session directories keeps the invariants |
| Phases.PhaseOneWrites | create_election/performer_jobs.py:282-295 | after any number of sessions, the invariants hold and only local descriptors were added or replaced |
| Phases.PublicKeyStep | create_election/performer_jobs.py:300-345 | a non-string session or election id is an exception; a missing private session directory is refused with "invalid session_id / election_id", and an existing `publicKey_raw` or `publicKey_json` with "pubkey already created", both leaving files and directories unchanged; a missing descriptor with no string content is an exception that leaves an empty `protInfo.xml`; success happens exactly when the directory exists, no key exists, a descriptor is there or supplied, and both engine calls succeed; only the session's five key files can change, and directories only grow |
| Phases.PublicKeyKeepsStore | create_election/performer_jobs.py:300-345 | phase 2 keeps the file trees' invariants on every path, including the failures |
| Phases.DescriptorNeverOverwritten | create_election/performer_jobs.py:318-322 | an existing `protInfo.xml` is never overwritten, whatever the outcome; files change only when the session directory exists |
| Phases.PublicKeyOnce | create_election/performer_jobs.py:313-316 | after a successful run, running phase 2 again for the same input fails with "pubkey already created" |
| Phases.PublicKeyPublished | create_election/performer_jobs.py:318-345 | after success, the key comes from the existing or supplied descriptor; the JSON key is its conversion; the public `publicKey_json` and `protInfo.xml` equal their private copies |
| Phases.RetryKeepsEmptyDescriptor | create_election/performer_jobs.py:319-327 | a run without a string `protInfo_content` fails and leaves an empty `protInfo.xml`; a retry then succeeds exactly when the engine accepts the empty descriptor, and publishes it |
| Ceremony.Task.QueueChildren | create_election/performer_jobs.py:211-245 | appends exactly the queued children to the task's child list |
| Ceremony.Node.CheckRequest | create_election/performer_jobs.py:117-155 | runs every check that comes before the role choice, with the outcome of `Bootstrap.Admit` |
| Ceremony.Node.CreateElection | create_election/performer_jobs.py:159-204 | refuses an existing election directory; a missing party count is an exception before anything is added; otherwise adds the Election row, the Authority rows, the Session rows, the directories and the stubs |
| Ceremony.Node.AddAuthorities | create_election/performer_jobs.py:176-183 | adds one Authority row per entry |
| Ceremony.Node.CreateSessions | create_election/performer_jobs.py:185-203 | adds one Session row per session (status `default`, empty key, 0-based position), its directory and its stub |
| Ceremony.Node.GeneratePrivateInfo | create_election/performer_jobs.py:112-245 | the whole step: every failure leaves node and task unchanged; admission failures are reported as they are; the director path changes nothing, and fails only without a stored Election row when auto-accept is off; the performer path adds exactly the bootstrap state; on success the children are queued |
| Ceremony.Node.GeneratePrivateInfoTwice | create_election/performer_jobs.py:112-161 | the same bootstrap task run twice before phase 1: a performer's second run is refused with "Already existing election id X"; a director's second run succeeds again and queues its children a second time |
| Ceremony.Node.GeneratePrivateInfoVerificatum | create_election/performer_jobs.py:247-298 | with auto-accept off and a decision other than `{status: "accepted"}`: "task not accepted", and nothing else changes; otherwise the result is `Descriptors` of the parent's input and the parent's output is set only on success; the files gain the descriptors of the first n sessions, each the engine's output for a session that runs, and on failure session n is the first that cannot run |
| Ceremony.Node.CollectDescriptors | create_election/performer_jobs.py:282-295 | the loop returns `Descriptors` of the initial files; the files become the initial files plus the descriptors of the first n sessions, each the engine's output on the initial stub for a session that runs; on failure session n is the first one that cannot run, so the partial state is exact |
| Ceremony.Node.GeneratePublicKey | create_election/performer_jobs.py:300-345 | the result and the new file trees are exactly `PublicKeyStep` of the old ones, and the invariants are kept |

## Left out

- The crypto engine's subprocesses `vmni`, `vmn` and `vmnc` are oracle parameters. They are external binaries; only "produces this content" or "fails" is modelled.
- The task framework is reduced to a task's input, output and child list. This covers dispatch, `set_output_data` delivery to the sender, `send_update_to_sender` and the decorators, which are transport.
- `certs_differ` and `json.loads` are parameters, and the Store is sets of rows. The Election query in the validator becomes a set of existing ids. A commit is assumed to succeed, so an integrity error (for example a repeated session id) is not modelled.
- The approval text (`info_text`, `str_date`, `dumps`) is not modelled. It is display text for an operator; only its reading of the stored Election row, which can fail, is modelled.
- `get_server_url` and `get_hint_server_url` are fields of the configuration.
- Paths are tuples (area, election, session, name). Path joining, `mkdir_recursive` and byte copying become map and set updates.
- Ceremony.Node.GeneratePublicKey: phase 2 does not validate its ids, so ids such as `..`, `""` or ones holding `/` would alias other paths in the real file system. The tuple paths do not capture that aliasing.
- Races between concurrent invocations on the existence-guarded files are not modelled. The model is sequential.
- AUTOACCEPT_REQUESTS is modelled by its truth value only.
- Ceremony.Node.GeneratePrivateInfoVerificatum: the parent input is required to have the shape `generate_private_info` accepted (`Requests.Phase1Ready`). That shape is established by `Requests.ParseInput`. Other shapes would raise in ways the model does not enumerate.
- The partial `publicKey_raw` that a failing `vmn` might leave is not modelled. A failed engine call writes nothing.
