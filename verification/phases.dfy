/** The two protocol phases as functions: which descriptors phase 1 reports
    (create_election/performer_jobs.py:247-298) and the reasons and engine calls
    of phase 2 (create_election/performer_jobs.py:300-345). */
module Phases {
  import opened Wrappers
  import opened Json
  import opened Store
  import opened Bootstrap

  const NotAccepted := "task not accepted"
  const InvalidIds := "invalid session_id / election_id"
  const PubkeyExists := "pubkey already created"

  /** The only decision that lets phase 1 run when auto-accept is off. */
  const Accepted: Value := Obj(map["status" := Str("accepted")])

  /** The arguments of one `vmni -party` run: the election and session (its
      working directory), this authority's name, the two addresses, and the
      stub it finds there. */
  datatype VmniCall = VmniCall(
    election: string, session: string, name: string, http: string, hint: string,
    stub: Option<string>)

  /** The inputs of `vmn -keygen`: the session and its merged descriptor. */
  datatype KeygenCall = KeygenCall(election: string, session: string, protInfo: string)

  function StubIn(files: Files, election: string, session: string): Option<string> {
    var p := StubFile(election, session);
    if p in files then Some(files[p]) else None
  }

  function CallFor(election: string, session: string, name: string, cfg: Config, files: Files): VmniCall {
    VmniCall(election, session, name, cfg.serverUrl, cfg.hintServerUrl, StubIn(files, election, session))
  }

  /** Whether the engine can be run for one session: the authority name was
      found (a missing one is a `None` in the argument list), the session's
      working directory exists, and the engine succeeds. */
  predicate SessionRuns(election: string, session: string, name: Option<string>, cfg: Config,
                        dirs: set<DirPath>, files: Files, vmni: VmniCall -> Option<string>) {
    && name.Some?
    && SessionDir(Private, election, session) in dirs
    && vmni(CallFor(election, session, name.value, cfg, files)).Some?
  }

  /** The descriptors phase 1 collects: one engine run per session, in session
      order; the first session that cannot run ends the phase with an
      exception and nothing is reported. */
  function Descriptors(election: string, ids: seq<string>, name: Option<string>, cfg: Config,
                       dirs: set<DirPath>, files: Files, vmni: VmniCall -> Option<string>): (r: Result<seq<string>>)
    ensures r.Ok? <==> forall k | 0 <= k < |ids| :: SessionRuns(election, ids[k], name, cfg, dirs, files, vmni)
    ensures r.Ok? ==>
              && |r.value| == |ids|
              && forall k | 0 <= k < |ids| ::
                   vmni(CallFor(election, ids[k], name.value, cfg, files)) == Some(r.value[k])
    ensures r.Err? ==> r.failure == Crash
    decreases |ids|
  {
    if ids == [] then Ok([])
    else if !SessionRuns(election, ids[0], name, cfg, dirs, files, vmni) then Err(Crash)
    else
      var d := vmni(CallFor(election, ids[0], name.value, cfg, files)).value;
      match Descriptors(election, ids[1..], name, cfg, dirs, files, vmni)
      case Err(f) => Err(f)
      case Ok(rest) => Ok([d] + rest)
  }

  /** A session that cannot run makes the whole phase fail. */
  lemma DescriptorsStopAt(election: string, ids: seq<string>, name: Option<string>, cfg: Config,
                          dirs: set<DirPath>, files: Files, vmni: VmniCall -> Option<string>, i: nat)
    requires i < |ids| && !SessionRuns(election, ids[i], name, cfg, dirs, files, vmni)
    ensures Descriptors(election, ids, name, cfg, dirs, files, vmni) == Err(Crash)
  {
  }

  /** When every session runs, the descriptors are exactly the engine's outputs. */
  lemma DescriptorsAll(election: string, ids: seq<string>, name: Option<string>, cfg: Config,
                       dirs: set<DirPath>, files: Files, vmni: VmniCall -> Option<string>, ds: seq<string>)
    requires |ds| == |ids|
    requires forall k | 0 <= k < |ids| ::
               SessionRuns(election, ids[k], name, cfg, dirs, files, vmni) &&
               vmni(CallFor(election, ids[k], name.value, cfg, files)) == Some(ds[k])
    ensures Descriptors(election, ids, name, cfg, dirs, files, vmni) == Ok(ds)
  {
    var r := Descriptors(election, ids, name, cfg, dirs, files, vmni);
    assert r.value == ds;
  }

  /** The `localProtInfo.xml` files phase 1 leaves, one session after the other. */
  function DescriptorFiles(election: string, ids: seq<string>, contents: seq<string>): Files
    requires |ids| == |contents|
    decreases |ids|
  {
    if ids == [] then map[]
    else
      var n := |ids| - 1;
      DescriptorFiles(election, ids[..n], contents[..n])[LocalProtInfo(election, ids[n]) := contents[n]]
  }

  /** Phase 1 writes nothing but local descriptors: one per session directory. */
  lemma {:induction false} DescriptorFilesKeys(election: string, ids: seq<string>, contents: seq<string>)
    requires |ids| == |contents|
    ensures forall p :: p in DescriptorFiles(election, ids, contents) <==>
                        exists k | 0 <= k < |ids| :: p == LocalProtInfo(election, ids[k])
    decreases |ids|
  {
    if ids != [] {
      var n := |ids| - 1;
      DescriptorFilesKeys(election, ids[..n], contents[..n]);
      assert forall k | 0 <= k < n :: ids[..n][k] == ids[k];
    }
  }

  /** Adding local descriptors changes no other file. */
  lemma DescriptorFilesFrame(files: Files, election: string, ids: seq<string>, contents: seq<string>)
    requires |ids| == |contents|
    ensures forall p | p in files && p.name != LocalProtInfoName ::
              p in files + DescriptorFiles(election, ids, contents) &&
              (files + DescriptorFiles(election, ids, contents))[p] == files[p]
    ensures forall p | p in files + DescriptorFiles(election, ids, contents) ::
              p in files || p.name == LocalProtInfoName
  {
    DescriptorFilesKeys(election, ids, contents);
  }

  /** What one more session adds to the local descriptors. */
  lemma DescriptorStep(election: string, ids: seq<string>, contents: seq<string>, c: string, i: nat)
    requires i < |ids| && |contents| == i
    ensures DescriptorFiles(election, ids[..i + 1], contents + [c]) ==
            DescriptorFiles(election, ids[..i], contents)[LocalProtInfo(election, ids[i]) := c]
  {
    assert ids[..i + 1][..i] == ids[..i] && (contents + [c])[..i] == contents;
  }

  /** Writing local descriptors into existing session directories keeps the
      store's invariants: they are private files, and no public copy depends
      on them. */
  lemma DescriptorsKeepStore(files: Files, dirs: set<DirPath>, election: string, ids: seq<string>, contents: seq<string>)
    requires |ids| == |contents|
    requires StoreOk(files, dirs)
    requires forall k | 0 <= k < |ids| :: SessionDir(Private, election, ids[k]) in dirs
    ensures StoreOk(files + DescriptorFiles(election, ids, contents), dirs)
  {
    var written := DescriptorFiles(election, ids, contents);
    DescriptorFilesKeys(election, ids, contents);
    forall p | p in files + written
      ensures DirOf(p) in dirs
    {
      if p in written {
        var k :| 0 <= k < |ids| && p == LocalProtInfo(election, ids[k]);
        assert DirOf(p) == SessionDir(Private, election, ids[k]);
      }
    }
    forall p | p in files + written && p.area == Public
      ensures PrivateTwin(p) in files + written && (files + written)[PrivateTwin(p)] == (files + written)[p]
    {
      assert p !in written;
      assert PrivateTwin(p) !in written;
    }
  }

  /** What phase 1 leaves after its first `n` sessions: the store's
      invariants still hold, and only local descriptors were added or
      replaced. */
  lemma PhaseOneWrites(start: Files, dirs: set<DirPath>, election: string, ids: seq<string>, contents: seq<string>, n: nat)
    requires n <= |ids| && |contents| == n
    requires StoreOk(start, dirs)
    requires forall k | 0 <= k < n :: SessionDir(Private, election, ids[k]) in dirs
    ensures var files := start + DescriptorFiles(election, ids[..n], contents);
            && StoreOk(files, dirs)
            && (forall p | p in start && p.name != LocalProtInfoName :: p in files && files[p] == start[p])
            && (forall p | p in files :: p in start || p.name == LocalProtInfoName)
  {
    DescriptorsKeepStore(start, dirs, election, ids[..n], contents);
    DescriptorFilesFrame(start, election, ids[..n], contents);
  }

  /** Phase 1 has no write-once guard: whatever a session's local descriptor
      held before, the last content written for that session replaces it. */
  lemma {:induction false} DescriptorOverwritten(files: Files, election: string, ids: seq<string>, contents: seq<string>, k: nat)
    requires |ids| == |contents| && k < |ids|
    requires forall j | k < j < |ids| :: ids[j] != ids[k]
    ensures LocalProtInfo(election, ids[k]) in files + DescriptorFiles(election, ids, contents)
    ensures (files + DescriptorFiles(election, ids, contents))[LocalProtInfo(election, ids[k])] == contents[k]
    decreases |ids|
  {
    var n := |ids| - 1;
    if k < n {
      DescriptorOverwritten(files, election, ids[..n], contents[..n], k);
      assert ids[..n][k] == ids[k] && contents[..n][k] == contents[k];
    }
  }

  /** Phase 1 writes no stub: each session's stub is the one phase 1 started
      with. */
  lemma StubSurvives(start: Files, election: string, ids: seq<string>, contents: seq<string>, i: nat)
    requires i < |ids| && |contents| == i
    ensures StubIn(start + DescriptorFiles(election, ids[..i], contents), election, ids[i]) == StubIn(start, election, ids[i])
  {
    DescriptorFilesFrame(start, election, ids[..i], contents);
  }

  /** One step of phase 1: writing the next session's descriptor extends the
      written descriptors by one. */
  lemma CollectStep(start: Files, election: string, ids: seq<string>, contents: seq<string>, c: string, i: nat)
    requires i < |ids| && |contents| == i
    ensures (start + DescriptorFiles(election, ids[..i], contents))[LocalProtInfo(election, ids[i]) := c] ==
            start + DescriptorFiles(election, ids[..i + 1], contents + [c])
  {
    DescriptorStep(election, ids, contents, c, i);
    UpdateAfterUnion(start, DescriptorFiles(election, ids[..i], contents), LocalProtInfo(election, ids[i]), c);
  }

  // ---------------------------------------------------------------------------
  // Phase 2: generate_public_key

  /** What phase 2 leaves behind: its result and the node's two file trees. */
  datatype KeyOutcome = KeyOutcome(result: Result<()>, files: Files, dirs: set<DirPath>)

  /** The five files phase 2 may write for one session. */
  function KeyFiles(election: string, session: string): set<FilePath> {
    {PrivateFile(election, session, ProtInfoName), PrivateFile(election, session, RawKeyName),
     PrivateFile(election, session, JsonKeyName), PublicFile(election, session, ProtInfoName),
     PublicFile(election, session, JsonKeyName)}
  }

  /** Whether phase 2 can run to its end for a session, given the session
      directory, the files already there, the merged descriptor content and
      the two engine tools. */
  predicate KeyGenerated(election: string, session: string, content: Value, files: Files,
                         dirs: set<DirPath>, vmn: KeygenCall -> Option<string>, vmnc: string -> Option<string>)
  {
    var prot := PrivateFile(election, session, ProtInfoName);
    && SessionDir(Private, election, session) in dirs
    && PrivateFile(election, session, RawKeyName) !in files
    && PrivateFile(election, session, JsonKeyName) !in files
    && (prot in files || content.Str?)
    && var descriptor := if prot in files then files[prot] else content.s;
       && vmn(KeygenCall(election, session, descriptor)).Some?
       && vmnc(vmn(KeygenCall(election, session, descriptor)).value).Some?
  }

  /** Phase 2 for the session named in the input, as a function of the node's
      file trees. The session's private directory must exist and hold no key
      yet. The merged descriptor `protInfo_content` is written only when
      `protInfo.xml` is absent; since the file is opened before the content is
      read, a missing or non-string content leaves an empty `protInfo.xml`.
      The engine then generates the raw key (`vmn`), which is converted to
      JSON (`vmnc`), and the JSON key and the descriptor are copied into the
      public tree. */
  function PublicKeyStep(input: Dict, files: Files, dirs: set<DirPath>,
                         vmn: KeygenCall -> Option<string>, vmnc: string -> Option<string>): (o: KeyOutcome)
    ensures dirs <= o.dirs
    ensures o.result.Err? ==> o.dirs == dirs
    ensures Get(input, "session_id").Str? && Get(input, "election_id").Str? ==>
              var election, session := Get(input, "election_id").s, Get(input, "session_id").s;
              && (o.result.Ok? <==> KeyGenerated(election, session, Get(input, "protInfo_content"), files, dirs, vmn, vmnc))
              && (forall p | p in files && p !in KeyFiles(election, session) :: p in o.files && o.files[p] == files[p])
              && (forall p | p in o.files :: p in files || p in KeyFiles(election, session))
    ensures Get(input, "session_id").Str? && Get(input, "election_id").Str? ==>
              var election, session := Get(input, "election_id").s, Get(input, "session_id").s;
              var prot := PrivateFile(election, session, ProtInfoName);
              && (SessionDir(Private, election, session) !in dirs ==>
                    o == KeyOutcome(Err(TaskError(InvalidIds)), files, dirs))
              && (SessionDir(Private, election, session) in dirs &&
                  (PrivateFile(election, session, RawKeyName) in files || PrivateFile(election, session, JsonKeyName) in files) ==>
                    o == KeyOutcome(Err(TaskError(PubkeyExists)), files, dirs))
              && (&& SessionDir(Private, election, session) in dirs
                  && PrivateFile(election, session, RawKeyName) !in files
                  && PrivateFile(election, session, JsonKeyName) !in files
                  && prot !in files && !Get(input, "protInfo_content").Str? ==>
                    o == KeyOutcome(Err(Crash), files[prot := ""], dirs))
    ensures !Get(input, "session_id").Str? || !Get(input, "election_id").Str? ==>
              o == KeyOutcome(Err(Crash), files, dirs)
  {
    var sv, ev := Get(input, "session_id"), Get(input, "election_id");
    if !sv.Str? || !ev.Str? then KeyOutcome(Err(Crash), files, dirs)
    else
      var election, session := ev.s, sv.s;
      var prot, raw, json := PrivateFile(election, session, ProtInfoName),
                             PrivateFile(election, session, RawKeyName), PrivateFile(election, session, JsonKeyName);
      var content := Get(input, "protInfo_content");
      if SessionDir(Private, election, session) !in dirs then KeyOutcome(Err(TaskError(InvalidIds)), files, dirs)
      else if raw in files || json in files then KeyOutcome(Err(TaskError(PubkeyExists)), files, dirs)
      else if prot !in files && !content.Str? then KeyOutcome(Err(Crash), files[prot := ""], dirs)
      else
        var merged := if prot in files then files else files[prot := content.s];
        var rawKey := vmn(KeygenCall(election, session, merged[prot]));
        if rawKey.None? then KeyOutcome(Err(Crash), merged, dirs)
        else
          var jsonKey := vmnc(rawKey.value);
          if jsonKey.None? then KeyOutcome(Err(Crash), merged[raw := rawKey.value], dirs)
          else
            var written := merged[raw := rawKey.value][json := jsonKey.value];
            var withJson := written[PublicFile(election, session, JsonKeyName) := written[json]];
            var published := withJson[PublicFile(election, session, ProtInfoName) := withJson[prot]];
            var publicDirs := if SessionDir(Public, election, session) in dirs then dirs
                              else dirs + {ElectionDir(Public, election), SessionDir(Public, election, session)};
            KeyOutcome(Ok(()), published, publicDirs)
  }

  /** Phase 2 keeps the file trees' invariants, on every path. */
  lemma PublicKeyKeepsStore(input: Dict, files: Files, dirs: set<DirPath>,
                            vmn: KeygenCall -> Option<string>, vmnc: string -> Option<string>)
    requires StoreOk(files, dirs)
    ensures var o := PublicKeyStep(input, files, dirs, vmn, vmnc);
            StoreOk(o.files, o.dirs)
  {
    var sv, ev := Get(input, "session_id"), Get(input, "election_id");
    if sv.Str? && ev.Str? && SessionDir(Private, ev.s, sv.s) in dirs {
      var election, session := ev.s, sv.s;
      var prot, raw, json := PrivateFile(election, session, ProtInfoName),
                             PrivateFile(election, session, RawKeyName), PrivateFile(election, session, JsonKeyName);
      var content := Get(input, "protInfo_content");
      if raw !in files && json !in files {
        if prot !in files {
          PrivateWriteKeepsStore(files, dirs, prot, if content.Str? then content.s else "");
        }
        if prot in files || content.Str? {
          var merged := if prot in files then files else files[prot := content.s];
          var rawKey := vmn(KeygenCall(election, session, merged[prot]));
          if rawKey.Some? {
            NoPublicCopy(merged, raw);
            PrivateWriteKeepsStore(merged, dirs, raw, rawKey.value);
            var jsonKey := vmnc(rawKey.value);
            if jsonKey.Some? {
              var written := merged[raw := rawKey.value][json := jsonKey.value];
              PrivateWriteKeepsStore(merged[raw := rawKey.value], dirs, json, jsonKey.value);
              var d := if SessionDir(Public, election, session) in dirs then dirs
                       else dirs + {ElectionDir(Public, election), SessionDir(Public, election, session)};
              MkdirKeepsStore(written, dirs, Public, election, session);
              var pubJson, pubProt := PublicFile(election, session, JsonKeyName), PublicFile(election, session, ProtInfoName);
              PublicCopyKeepsStore(written, d, pubJson);
              PublicCopyKeepsStore(written[pubJson := written[PrivateTwin(pubJson)]], d, pubProt);
            }
          }
        }
      }
    }
  }

  /** Phase 2 never overwrites a merged descriptor that is already there,
      whatever the outcome; and it writes the session's key files only into
      an existing session directory. */
  lemma DescriptorNeverOverwritten(input: Dict, files: Files, dirs: set<DirPath>,
                                   vmn: KeygenCall -> Option<string>, vmnc: string -> Option<string>)
    requires Get(input, "session_id").Str? && Get(input, "election_id").Str?
    ensures var o := PublicKeyStep(input, files, dirs, vmn, vmnc);
            var election, session := Get(input, "election_id").s, Get(input, "session_id").s;
            var prot := PrivateFile(election, session, ProtInfoName);
            && (prot in files ==> prot in o.files && o.files[prot] == files[prot])
            && (o.files != files ==> SessionDir(Private, election, session) in dirs)
  {
  }

  /** A session gets its key at most once: after a successful run, running
      phase 2 again for the same input fails with "pubkey already created". */
  lemma PublicKeyOnce(input: Dict, files: Files, dirs: set<DirPath>,
                      vmn: KeygenCall -> Option<string>, vmnc: string -> Option<string>)
    requires PublicKeyStep(input, files, dirs, vmn, vmnc).result.Ok?
    ensures var o := PublicKeyStep(input, files, dirs, vmn, vmnc);
            PublicKeyStep(input, o.files, o.dirs, vmn, vmnc).result == Err(TaskError(PubkeyExists))
  {
  }

  /** After a successful run the published key is the JSON conversion of the
      generated key, generated from the descriptor that was already there or
      else from the one in the input, and both published files equal their
      private copies. */
  lemma PublicKeyPublished(input: Dict, files: Files, dirs: set<DirPath>,
                           vmn: KeygenCall -> Option<string>, vmnc: string -> Option<string>)
    requires PublicKeyStep(input, files, dirs, vmn, vmnc).result.Ok?
    ensures var o := PublicKeyStep(input, files, dirs, vmn, vmnc);
            var election, session := Get(input, "election_id").s, Get(input, "session_id").s;
            var prot := PrivateFile(election, session, ProtInfoName);
            var descriptor := if prot in files then files[prot] else Get(input, "protInfo_content").s;
            var rawKey := vmn(KeygenCall(election, session, descriptor)).value;
            && SessionDir(Public, election, session) in o.dirs
            && o.files[prot] == descriptor
            && o.files[PrivateFile(election, session, RawKeyName)] == rawKey
            && o.files[PrivateFile(election, session, JsonKeyName)] == vmnc(rawKey).value
            && o.files[PublicFile(election, session, JsonKeyName)] == vmnc(rawKey).value
            && o.files[PublicFile(election, session, ProtInfoName)] == descriptor
  {
  }

  /** A first run without a string `protInfo_content` fails but leaves an empty
      `protInfo.xml` behind. Since the descriptor is written only when it is
      absent, a retry with the right content keeps the empty one: the key is
      generated from "" and "" is the descriptor that gets published. */
  lemma RetryKeepsEmptyDescriptor(input: Dict, retry: Dict, files: Files, dirs: set<DirPath>,
                                  vmn: KeygenCall -> Option<string>, vmnc: string -> Option<string>)
    requires Get(input, "session_id").Str? && Get(input, "election_id").Str?
    requires Get(retry, "session_id") == Get(input, "session_id")
    requires Get(retry, "election_id") == Get(input, "election_id")
    requires var election, session := Get(input, "election_id").s, Get(input, "session_id").s;
             && SessionDir(Private, election, session) in dirs
             && PrivateFile(election, session, ProtInfoName) !in files
             && PrivateFile(election, session, RawKeyName) !in files
             && PrivateFile(election, session, JsonKeyName) !in files
             && !Get(input, "protInfo_content").Str?
    ensures var first := PublicKeyStep(input, files, dirs, vmn, vmnc);
            var second := PublicKeyStep(retry, first.files, first.dirs, vmn, vmnc);
            var election, session := Get(input, "election_id").s, Get(input, "session_id").s;
            && first.result == Err(Crash)
            && (second.result.Ok? <==>
                  && vmn(KeygenCall(election, session, "")).Some?
                  && vmnc(vmn(KeygenCall(election, session, "")).value).Some?)
            && (second.result.Ok? ==>
                  && second.files[PrivateFile(election, session, RawKeyName)] == vmn(KeygenCall(election, session, "")).value
                  && second.files[PublicFile(election, session, ProtInfoName)] == "")
  {
    var first := PublicKeyStep(input, files, dirs, vmn, vmnc);
    if PublicKeyStep(retry, first.files, first.dirs, vmn, vmnc).result.Ok? {
      PublicKeyPublished(retry, first.files, first.dirs, vmn, vmnc);
    }
  }

  /** As List(Str(...)) values: the output phase 1 sets on its parent. */
  function StrList(xs: seq<string>): Value {
    List(seq(|xs|, k requires 0 <= k < |xs| => Str(xs[k])))
  }
}
