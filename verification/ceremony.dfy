/** The three ceremony steps a node runs (create_election/performer_jobs.py:112-345),
    as methods on the node's state: its file trees, its Store rows, and the
    task it is running. */
module Ceremony {
  import opened Wrappers
  import opened Json
  import opened Validation
  import opened Store
  import opened Requests
  import opened Bootstrap
  import opened Phases

  /** Whether the node created the election state itself (performer) or found
      it already there because it sent the request to itself (director). */
  datatype Role = Director | Performer

  /** A running task: its input, the certificate of the node that sent it, its
      output, and the children it has queued. */
  class Task {
    const input: Dict
    const senderCert: string
    var output: Value
    var children: seq<ChildTask>

    constructor (input: Dict, senderCert: string)
      ensures this.input == input && this.senderCert == senderCert
      ensures output == Null && children == []
    {
      this.input := input;
      this.senderCert := senderCert;
      output := Null;
      children := [];
    }

    /** Queue the approval checkpoint, unless auto-accept is on, and then the
        phase-1 task addressed to this node (:207-245). */
    method QueueChildren(cfg: Config)
      modifies this
      ensures children == old(children) + QueuedChildren(cfg)
      ensures output == old(output)
    {
      if !cfg.autoAccept {
        children := children + [External(ApproveLabel)];
      }
      children := children + [Simple(cfg.rootUrl, VerificatumAction, PerformerQueue)];
    }
  }

  class Node {
    const cfg: Config
    var files: Files
    var dirs: set<DirPath>
    var elections: set<ElectionRow>
    var authorities: set<AuthorityRow>
    var sessions: set<SessionRow>

    ghost predicate Valid()
      reads this
    {
      StoreOk(files, dirs)
    }

    constructor (cfg: Config)
      ensures Valid() && this.cfg == cfg
      ensures files == map[] && dirs == {}
      ensures elections == {} && authorities == {} && sessions == {}
    {
      this.cfg := cfg;
      files, dirs := map[], {};
      elections, authorities, sessions := {}, {}, {};
    }

    // -------------------------------------------------------------------------
    // generate_private_info (:112-245)

    /** Check the request, then create this node's election state if the
        request came from another node, and queue the approval checkpoint
        (unless auto-accept is on) and the phase-1 task. `loads` is the JSON
        decoder, `certsDiffer` the certificate comparison. Every failure happens
        before anything is changed. */
    method GeneratePrivateInfo(task: Task, loads: string -> Option<Value>,
                               certsDiffer: (string, string) -> bool) returns (r: Result<Role>)
      requires Valid()
      modifies this, task
      ensures Valid()
      ensures r.Err? ==> unchanged(this) && unchanged(task)
      ensures var a := Admit(task.input, cfg, loads, old(files));
              a.Err? ==> r == Err(a.failure)
      ensures r.Ok? ==>
                && Admit(task.input, cfg, loads, old(files)).Ok?
                && r.value == (if certsDiffer(task.senderCert, cfg.sslCert) then Performer else Director)
                && task.children == old(task.children) + QueuedChildren(cfg)
                && task.output == old(task.output)
      ensures var a := Admit(task.input, cfg, loads, old(files));
              a.Ok? && !certsDiffer(task.senderCert, cfg.sslCert) ==>
                r == if cfg.autoAccept || HasElection(old(elections), a.value.electionId) then Ok(Director)
                     else Err(Crash)
      ensures r == Ok(Director) ==>
                && files == old(files) && dirs == old(dirs)
                && elections == old(elections) && authorities == old(authorities) && sessions == old(sessions)
      ensures var a := Admit(task.input, cfg, loads, old(files));
              a.Ok? && certsDiffer(task.senderCert, cfg.sslCert) ==>
                var req := a.value;
                if ElectionDir(Private, req.electionId) in old(dirs) then
                  r == Err(TaskError(ElectionDirExists(req.electionId)))
                else if req.numParties.None? || req.thresholdParties.None? then
                  r == Err(Crash)
                else
                  && r == Ok(Performer)
                  && elections == old(elections) + {ElectionRowOf(req, req.numParties.value, req.thresholdParties.value)}
                  && authorities == old(authorities) + AuthorityRows(req.electionId, req.authorities)
                  && sessions == old(sessions) + SessionRows(req.electionId, req.sessions)
                  && dirs == old(dirs) + BootstrapDirs(req.electionId, req.sessions)
                  && files == old(files) + StubFiles(req.electionId, req.sessions)
    {
      var admitted := CheckRequest(task.input, loads);
      if admitted.Err? {
        return Err(admitted.failure);
      }
      var req := admitted.value;
      var role := if certsDiffer(task.senderCert, cfg.sslCert) then Performer else Director;
      if role == Performer {
        var created := CreateElection(req);
        if created.Err? {
          return Err(created.failure);
        }
      } else if !cfg.autoAccept && !HasElection(elections, req.electionId) {
        // The approval text reads the title of the stored Election row, which
        // the director looks up rather than creates.
        return Err(Crash);
      }
      task.QueueChildren(cfg);
      r := Ok(role);
    }

    /** The task queue running the same bootstrap task a second time before
        phase 1 has written any local descriptor. A performer is then refused
        because its election directory exists; a director is admitted again
        and queues its children a second time. */
    method GeneratePrivateInfoTwice(task: Task, loads: string -> Option<Value>,
                                    certsDiffer: (string, string) -> bool)
      returns (first: Result<Role>, second: Result<Role>)
      requires Valid()
      modifies this, task
      ensures Valid()
      ensures first == Ok(Performer) ==>
                && Get(task.input, "election_id").Str?
                && second == Err(TaskError(ElectionDirExists(Get(task.input, "election_id").s)))
      ensures first == Ok(Director) ==>
                && second == Ok(Director)
                && task.children == old(task.children) + QueuedChildren(cfg) + QueuedChildren(cfg)
    {
      first := GeneratePrivateInfo(task, loads, certsDiffer);
      if first == Ok(Performer) {
        PerformerBootstrapStaysAdmitted(task.input, cfg, loads, old(files), old(dirs));
      }
      second := GeneratePrivateInfo(task, loads, certsDiffer);
    }

    /** The checks of :125-155, in their order: the input checks, this node's
        place among the authorities, and no session created yet. */
    method CheckRequest(input: Dict, loads: string -> Option<Value>) returns (r: Result<Request>)
      ensures r == Admit(input, cfg, loads, files)
    {
      var parsed := ParseInput(input, cfg.MaxQuestions(), loads);
      if parsed.Err? {
        return Err(parsed.failure);
      }
      var req := parsed.value;
      var name := LocalAuthorityName(req.authorities, cfg.rootUrl);
      if name.None? || name.value == "" {
        return Err(TaskError(ExternalElection));
      }
      var created := FirstCreated(files, req.electionId, req.sessions);
      if created.Some? {
        return Err(TaskError(SessionAlreadyCreated(req.sessions[created.value].id)));
      }
      r := Ok(req);
    }

    /** The performer path (:160-204): refuse an election whose private
        directory exists, then add the Election row, the Authority rows, and
        the Session rows with their directories and stubs. Reading the party
        counts fails before anything is added when either key is missing. */
    method CreateElection(req: Request) returns (r: Result<()>)
      requires Valid()
      modifies this
      ensures Valid()
      ensures r.Err? ==> unchanged(this)
      ensures ElectionDir(Private, req.electionId) in old(dirs) ==>
                r == Err(TaskError(ElectionDirExists(req.electionId)))
      ensures ElectionDir(Private, req.electionId) !in old(dirs) ==>
                if req.numParties.None? || req.thresholdParties.None? then r == Err(Crash)
                else
                  && r == Ok(())
                  && elections == old(elections) + {ElectionRowOf(req, req.numParties.value, req.thresholdParties.value)}
                  && authorities == old(authorities) + AuthorityRows(req.electionId, req.authorities)
                  && sessions == old(sessions) + SessionRows(req.electionId, req.sessions)
                  && dirs == old(dirs) + BootstrapDirs(req.electionId, req.sessions)
                  && files == old(files) + StubFiles(req.electionId, req.sessions)
    {
      var eid := req.electionId;
      if ElectionDir(Private, eid) in dirs {
        return Err(TaskError(ElectionDirExists(eid)));
      }
      if req.numParties.None? || req.thresholdParties.None? {
        return Err(Crash);
      }
      elections := elections + {ElectionRowOf(req, req.numParties.value, req.thresholdParties.value)};
      AddAuthorities(eid, req.authorities);
      BootstrapKeepsStore(files, dirs, eid, req.sessions);
      CreateSessions(eid, req.sessions);
      r := Ok(());
    }

    /** One Authority row per entry (:176-183). */
    method AddAuthorities(eid: string, auths: seq<Authority>)
      modifies this`authorities
      ensures authorities == old(authorities) + AuthorityRows(eid, auths)
    {
      for i := 0 to |auths|
        invariant authorities == old(authorities) + AuthorityRows(eid, auths[..i])
      {
        assert AuthorityRows(eid, auths[..i + 1]) == AuthorityRows(eid, auths[..i]) + {AuthorityRowOf(auths[i], eid)} by {
          assert auths[..i + 1] == auths[..i] + [auths[i]];
        }
        authorities := authorities + {AuthorityRowOf(auths[i], eid)};
      }
      assert auths[..|auths|] == auths;
    }

    /** For each session, in order: a Session row numbered by its position,
        its private directory, and its stub written verbatim (:186-203). */
    method CreateSessions(eid: string, entries: seq<SessionEntry>)
      modifies this`sessions, this`dirs, this`files
      ensures sessions == old(sessions) + SessionRows(eid, entries)
      ensures dirs == old(dirs) + BootstrapDirs(eid, entries)
      ensures files == old(files) + StubFiles(eid, entries)
    {
      var i := 0;
      while i < |entries|
        invariant 0 <= i <= |entries|
        invariant sessions == old(sessions) + SessionRows(eid, entries[..i])
        invariant dirs == old(dirs) + BootstrapDirs(eid, entries[..i])
        invariant files == old(files) + StubFiles(eid, entries[..i])
      {
        var session := entries[i];
        BootstrapStep(eid, entries, i);
        UpdateAfterUnion(old(files), StubFiles(eid, entries[..i]), StubFile(eid, session.id), session.stub);
        sessions := sessions + {SessionRow(session.id, eid, DefaultStatus, "", i)};
        dirs := dirs + {ElectionDir(Private, eid), SessionDir(Private, eid, session.id)};
        files := files[StubFile(eid, session.id) := session.stub];
        i := i + 1;
      }
      assert entries[..|entries|] == entries;
    }

    // -------------------------------------------------------------------------
    // generate_private_info_verificatum (:247-298)

    /** Phase 1. With auto-accept off, the approval task's output `decision`
        must be exactly {status: "accepted"}, or the task fails with "task not
        accepted". Otherwise run the engine once per session of the parent's
        input, in order; each run writes the session's `localProtInfo.xml`,
        and the descriptors read back become the parent's output. */
    method GeneratePrivateInfoVerificatum(task: Task, parent: Task, decision: Value,
                                          vmni: VmniCall -> Option<string>)
      returns (r: Result<seq<string>>, ghost n: nat, ghost written: seq<string>)
      requires Valid()
      requires task != parent
      requires Phase1Ready(parent.input)
      modifies this`files, task`output, parent`output
      ensures Valid()
      ensures !cfg.autoAccept && decision != Accepted ==>
                && r == Err(TaskError(NotAccepted))
                && task.output == Str(NotAccepted)
                && files == old(files) && parent.output == old(parent.output)
      ensures cfg.autoAccept || decision == Accepted ==>
                && task.output == old(task.output)
                && r == Descriptors(Get(parent.input, "election_id").s, SessionIds(parent.input),
                                    LastMatchName(ToAuthorities(Get(parent.input, "authorities").items), cfg.rootUrl),
                                    cfg, dirs, old(files), vmni)
      ensures r.Ok? ==>
                && parent.output == StrList(r.value)
                && files == old(files) + DescriptorFiles(Get(parent.input, "election_id").s, SessionIds(parent.input), r.value)
      ensures r.Err? ==> parent.output == old(parent.output)
      ensures cfg.autoAccept || decision == Accepted ==>
                var eid, ids := Get(parent.input, "election_id").s, SessionIds(parent.input);
                var name := LastMatchName(ToAuthorities(Get(parent.input, "authorities").items), cfg.rootUrl);
                && n <= |ids| && |written| == n
                && files == old(files) + DescriptorFiles(eid, ids[..n], written)
                && (forall k | 0 <= k < n ::
                      SessionRuns(eid, ids[k], name, cfg, dirs, old(files), vmni) &&
                      vmni(CallFor(eid, ids[k], name.value, cfg, old(files))) == Some(written[k]))
                && (r.Err? ==> n < |ids| && !SessionRuns(eid, ids[n], name, cfg, dirs, old(files), vmni))
      ensures forall p | p in old(files) && p.name != LocalProtInfoName :: p in files && files[p] == old(files)[p]
      ensures forall p | p in files :: p in old(files) || p.name == LocalProtInfoName
    {
      if !cfg.autoAccept && decision != Accepted {
        task.output := Str(NotAccepted);
        return Err(TaskError(NotAccepted)), 0, [];
      }
      var eid := Get(parent.input, "election_id").s;
      var ids := SessionIds(parent.input);
      var name := LocalAuthorityName(ToAuthorities(Get(parent.input, "authorities").items), cfg.rootUrl);
      r, n, written := CollectDescriptors(eid, ids, name, vmni);
      PhaseOneWrites(old(files), dirs, eid, ids, written, n);
      if r.Ok? {
        assert ids[..n] == ids;
        parent.output := StrList(r.value);
      }
    }

    /** The per-session loop of :282-295: run the engine in the session's
        directory, then read back the `localProtInfo.xml` it wrote. */
    method CollectDescriptors(eid: string, ids: seq<string>, name: Option<string>,
                              vmni: VmniCall -> Option<string>)
      returns (r: Result<seq<string>>, ghost n: nat, ghost written: seq<string>)
      modifies this`files
      ensures r == Descriptors(eid, ids, name, cfg, dirs, old(files), vmni)
      ensures n <= |ids| && |written| == n
      ensures files == old(files) + DescriptorFiles(eid, ids[..n], written)
      ensures forall k | 0 <= k < n :: SessionDir(Private, eid, ids[k]) in dirs
      ensures forall k | 0 <= k < n ::
                SessionRuns(eid, ids[k], name, cfg, dirs, old(files), vmni) &&
                vmni(CallFor(eid, ids[k], name.value, cfg, old(files))) == Some(written[k])
      ensures r.Err? ==> n < |ids| && !SessionRuns(eid, ids[n], name, cfg, dirs, old(files), vmni)
      ensures r.Ok? ==> n == |ids| && r.value == written
    {
      ghost var start := files;
      var protinfos: seq<string> := [];
      var i := 0;
      while i < |ids|
        invariant 0 <= i <= |ids|
        invariant |protinfos| == i
        invariant forall k | 0 <= k < i ::
                    SessionRuns(eid, ids[k], name, cfg, dirs, start, vmni) &&
                    vmni(CallFor(eid, ids[k], name.value, cfg, start)) == Some(protinfos[k])
        invariant files == start + DescriptorFiles(eid, ids[..i], protinfos)
      {
        var sid := ids[i];
        StubSurvives(start, eid, ids, protinfos, i);
        // The engine gets `None` for a missing authority name and fails; it
        // also fails outside an existing session directory.
        var produced: Option<string> := None;
        if name.Some? && SessionDir(Private, eid, sid) in dirs {
          produced := vmni(CallFor(eid, sid, name.value, cfg, files));
        }
        if produced.None? {
          DescriptorsStopAt(eid, ids, name, cfg, dirs, start, vmni, i);
          return Err(Crash), i, protinfos;
        }
        CollectStep(start, eid, ids, protinfos, produced.value, i);
        files := files[LocalProtInfo(eid, sid) := produced.value];
        protinfos := protinfos + [files[LocalProtInfo(eid, sid)]];
        i := i + 1;
      }
      assert ids[..|ids|] == ids;
      DescriptorsAll(eid, ids, name, cfg, dirs, start, vmni, protinfos);
      r, n, written := Ok(protinfos), |ids|, protinfos;
    }

    // -------------------------------------------------------------------------
    // generate_public_key (:300-345)

    /** Phase 2 for one session (see `PublicKeyStep`). */
    method GeneratePublicKey(input: Dict, vmn: KeygenCall -> Option<string>,
                             vmnc: string -> Option<string>) returns (r: Result<()>)
      requires Valid()
      modifies this`files, this`dirs
      ensures Valid()
      ensures KeyOutcome(r, files, dirs) == PublicKeyStep(input, old(files), old(dirs), vmn, vmnc)
    {
      PublicKeyKeepsStore(input, files, dirs, vmn, vmnc);
      var sv, ev := Get(input, "session_id"), Get(input, "election_id");
      if !sv.Str? || !ev.Str? {
        return Err(Crash);
      }
      var eid, sid := ev.s, sv.s;
      if SessionDir(Private, eid, sid) !in dirs {
        return Err(TaskError(InvalidIds));
      }
      var prot, raw, json := PrivateFile(eid, sid, ProtInfoName),
                             PrivateFile(eid, sid, RawKeyName), PrivateFile(eid, sid, JsonKeyName);
      if raw in files || json in files {
        return Err(TaskError(PubkeyExists));
      }
      if prot !in files {
        var content := Get(input, "protInfo_content");
        if !content.Str? {
          files := files[prot := ""];
          return Err(Crash);
        }
        files := files[prot := content.s];
      }
      var rawKey := vmn(KeygenCall(eid, sid, files[prot]));
      if rawKey.None? {
        return Err(Crash);
      }
      files := files[raw := rawKey.value];
      var jsonKey := vmnc(files[raw]);
      if jsonKey.None? {
        return Err(Crash);
      }
      files := files[json := jsonKey.value];
      // Publish: create the public session directory when absent, then copy
      // the JSON key and the descriptor into it.
      if SessionDir(Public, eid, sid) !in dirs {
        dirs := dirs + {ElectionDir(Public, eid), SessionDir(Public, eid, sid)};
      }
      files := files[PublicFile(eid, sid, JsonKeyName) := files[json]];
      files := files[PublicFile(eid, sid, ProtInfoName) := files[prot]];
      r := Ok(());
    }
  }
}
