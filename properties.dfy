/** What each check of the validator promises, stated about the functions that say what it appends,
    and what the whole run promises. */
module ValidationProperties {
  import opened Text
  import opened Entries
  import opened ConfigValidation

  // ---------------------------------------------------------------------------
  // validate_file_structure
  // ---------------------------------------------------------------------------

  /** The loop over any list of paths: one error per position holding a missing path. */
  lemma MissingFilesCounted(fs: FileSystem, paths: seq<string>)
    ensures |Collect(paths, MissingFileError(fs))| == |set i | 0 <= i < |paths| && paths[i] !in fs|
  {
    var f := MissingFileError(fs);
    CollectLength(paths, f);
    assert Positions(paths, f) == (set i | 0 <= i < |paths| && paths[i] !in fs);
  }

  /** The loop over any list of paths reports a path exactly when it is listed and missing. */
  lemma MissingFileNamed(fs: FileSystem, paths: seq<string>, path: string)
    ensures ErrorEntry("Missing required file: " + path) in Collect(paths, MissingFileError(fs))
            <==> path in paths && path !in fs
  {
    var f := MissingFileError(fs);
    var e := ErrorEntry("Missing required file: " + path);
    CollectMembership(paths, f, e);
    if exists i :: 0 <= i < |paths| && e in f(paths[i]) {
      var i :| 0 <= i < |paths| && e in f(paths[i]);
      ConcatInjective(ErrorPrefix, "Missing required file: " + path, "Missing required file: " + paths[i]);
      ConcatInjective("Missing required file: ", path, paths[i]);
    }
    if path in paths && path !in fs {
      var i :| 0 <= i < |paths| && paths[i] == path;
      assert e in f(paths[i]);
    }
  }

  /** One error per required path that is missing, none for the present ones, and no warnings. */
  lemma StructureErrorPerMissingFile(fs: FileSystem)
    ensures |StructureFindings(fs).errs| == |set i | 0 <= i < |RequiredFiles| && RequiredFiles[i] !in fs|
    ensures StructureFindings(fs).warns == []
  {
    MissingFilesCounted(fs, RequiredFiles);
  }

  /** The error naming a path is recorded exactly when that path is required and missing. */
  lemma StructureErrorNamesMissingFile(fs: FileSystem, path: string)
    ensures ErrorEntry("Missing required file: " + path) in StructureFindings(fs).errs
            <==> path in RequiredFiles && path !in fs
  {
    MissingFileNamed(fs, RequiredFiles, path);
  }

  /** No path is required twice. */
  lemma RequiredFilesDistinct()
    ensures forall i, j :: 0 <= i < j < |RequiredFiles| ==> RequiredFiles[i] != RequiredFiles[j]
  {
  }

  /** Over a list without repetitions, a single missing path gives that path's error alone. */
  lemma SingleMissingFile(fs: FileSystem, paths: seq<string>, path: string)
    requires forall i, j :: 0 <= i < j < |paths| ==> paths[i] != paths[j]
    requires path in paths && path !in fs
    requires forall other :: other in paths && other != path ==> other in fs
    ensures Collect(paths, MissingFileError(fs)) == [ErrorEntry("Missing required file: " + path)]
  {
    var f := MissingFileError(fs);
    var k :| 0 <= k < |paths| && paths[k] == path;
    var before := paths[..k];
    forall i | 0 <= i < |before|
      ensures f(before[i]) == []
    {
      assert before[i] == paths[i] && paths[i] != paths[k];
    }
    CollectSilentTail(before, 0, f);
    assert before[..0] == [];
    CollectStep(paths, k, f);
    forall i | k + 1 <= i < |paths|
      ensures f(paths[i]) == []
    {
      assert paths[k] != paths[i];
    }
    CollectSilentTail(paths, k + 1, f);
  }

  /** A tree missing exactly one required file gets exactly one error, naming that file. */
  lemma OneMissingFile(fs: FileSystem, path: string)
    requires path in RequiredFiles && path !in fs
    requires forall other :: other in RequiredFiles && other != path ==> other in fs
    ensures StructureFindings(fs).errs == [ErrorEntry("Missing required file: " + path)]
  {
    RequiredFilesDistinct();
    SingleMissingFile(fs, RequiredFiles, path);
  }

  /** A tree holding every required file gets no error from this check. */
  lemma NoMissingFile(fs: FileSystem)
    requires forall path :: path in RequiredFiles ==> path in fs
    ensures StructureFindings(fs) == NoFindings
  {
    StructureErrorPerMissingFile(fs);
    assert (set i | 0 <= i < |RequiredFiles| && RequiredFiles[i] !in fs) == {};
  }

  // ---------------------------------------------------------------------------
  // validate_nix_syntax
  // ---------------------------------------------------------------------------

  /** An empty file list records nothing. */
  lemma SyntaxNoFiles()
    ensures SyntaxFindings([]) == NoFindings
  {
  }

  /** The executable missing at the first file: one warning and nothing else, however many files. */
  lemma SyntaxToolAbsentAtFirst(runs: seq<SyntaxRun>)
    requires |runs| > 0 && runs[0].outcome.ToolNotFound?
    ensures SyntaxFindings(runs) == Findings([], [WarningEntry(SyntaxToolMissing)])
  {
  }

  /** At most one warning, and one exactly when some invocation found the executable missing. */
  lemma SyntaxWarnsOnceOnAbsence(runs: seq<SyntaxRun>)
    ensures |SyntaxFindings(runs).warns| <= 1
    ensures |SyntaxFindings(runs).warns| == 1 <==> exists j :: 0 <= j < |runs| && runs[j].outcome.ToolNotFound?
    ensures forall w :: w in SyntaxFindings(runs).warns ==> w == WarningEntry(SyntaxToolMissing)
  {
    var k := FirstAbsence(runs);
    if exists j :: 0 <= j < |runs| && runs[j].outcome.ToolNotFound? {
      var j :| 0 <= j < |runs| && runs[j].outcome.ToolNotFound?;
      assert k <= j;
    }
  }

  /** One error per invocation with a non-zero exit before the first absence of the executable,
      counted by position: a file listed twice is checked, and reported, twice. */
  lemma SyntaxErrorPerFailure(runs: seq<SyntaxRun>)
    ensures |SyntaxFindings(runs).errs|
            == |set j | 0 <= j < FirstAbsence(runs) && ParseFailed(runs[j].outcome)|
  {
    var k := FirstAbsence(runs);
    var done := runs[..k];
    CollectLength(done, SyntaxError);
    assert Positions(done, SyntaxError)
        == (set j | 0 <= j < k && ParseFailed(runs[j].outcome));
  }

  /** The error entries are exactly those of the runs before the first absence of the executable
      that exited non-zero, each naming its file and carrying its standard error. */
  lemma SyntaxErrorNamed(runs: seq<SyntaxRun>, e: string)
    ensures e in SyntaxFindings(runs).errs <==>
            exists j :: 0 <= j < FirstAbsence(runs) && ParseFailed(runs[j].outcome) &&
                        e == ErrorEntry("Syntax error in " + runs[j].file + ": " + runs[j].outcome.stderr)
  {
    var xs := runs[..FirstAbsence(runs)];
    CollectMembership(xs, SyntaxError, e);
    if e in SyntaxFindings(runs).errs {
      var j :| 0 <= j < |xs| && e in SyntaxError(xs[j]);
      assert xs[j] == runs[j];
    }
    if exists j :: 0 <= j < FirstAbsence(runs) && ParseFailed(runs[j].outcome) &&
                   e == ErrorEntry("Syntax error in " + runs[j].file + ": " + runs[j].outcome.stderr) {
      var j :| 0 <= j < FirstAbsence(runs) && ParseFailed(runs[j].outcome) &&
               e == ErrorEntry("Syntax error in " + runs[j].file + ": " + runs[j].outcome.stderr);
      assert xs[j] == runs[j];
      assert e in SyntaxError(xs[j]);
    }
  }

  /** With the executable present for every file: one error per failing file and no warning. */
  lemma SyntaxToolAvailable(runs: seq<SyntaxRun>)
    requires forall j :: 0 <= j < |runs| ==> runs[j].outcome.Exited?
    ensures SyntaxFindings(runs).warns == []
    ensures |SyntaxFindings(runs).errs| == |set j | 0 <= j < |runs| && ParseFailed(runs[j].outcome)|
  {
    SyntaxErrorPerFailure(runs);
    SyntaxWarnsOnceOnAbsence(runs);
    assert FirstAbsence(runs) == |runs|;
  }

  /** No invocation that ran rejected its file: no error from this check. */
  lemma SyntaxAllAccepted(runs: seq<SyntaxRun>)
    requires forall j :: 0 <= j < |runs| ==> !ParseFailed(runs[j].outcome)
    ensures SyntaxFindings(runs).errs == []
  {
    SyntaxErrorPerFailure(runs);
    assert (set j | 0 <= j < FirstAbsence(runs) && ParseFailed(runs[j].outcome)) == {};
  }

  /** The file list is not deduplicated: a failing file visited twice before the loop stops (a
      top-level file both globs yield, say, wherever the two visits sit in the list) gives its
      error at two distinct positions of the error list. */
  lemma SyntaxDuplicateReportedTwice(runs: seq<SyntaxRun>, i: nat, j: nat)
    requires i < j < FirstAbsence(runs)
    requires runs[i] == runs[j] && ParseFailed(runs[i].outcome)
    ensures var e := ErrorEntry("Syntax error in " + runs[i].file + ": " + runs[i].outcome.stderr);
            exists p, q :: 0 <= p < q < |SyntaxFindings(runs).errs| &&
                            SyntaxFindings(runs).errs[p] == e && SyntaxFindings(runs).errs[q] == e
  {
    var e := ErrorEntry("Syntax error in " + runs[i].file + ": " + runs[i].outcome.stderr);
    var xs := runs[..FirstAbsence(runs)];
    assert SyntaxError(xs[i]) == [e] && SyntaxError(xs[j]) == [e];
    CollectTwice(xs, i, j, SyntaxError, e);
    var errs := SyntaxFindings(runs).errs;
    assert errs == Collect(xs, SyntaxError);
    var p, q :| 0 <= p < q < |errs| && errs[p] == e && errs[q] == e;
  }

  // ---------------------------------------------------------------------------
  // validate_flake_outputs
  // ---------------------------------------------------------------------------

  /** A failing `nix flake show` gives one error carrying its standard error, and nothing more. */
  lemma FlakeCommandFailed(exitCode: int, stdout: JsonParse, stderr: string)
    requires exitCode != 0
    ensures FlakeErrors(FlakeExited(exitCode, stdout, stderr)) == Some([ErrorEntry("Flake validation failed: " + stderr)])
  {
  }

  /** Output that does not decode gives one error carrying the decoder's message. */
  lemma FlakeOutputMalformed(reason: string, stderr: string)
    ensures FlakeErrors(FlakeExited(0, Malformed(reason), stderr)) == Some([ErrorEntry("Failed to validate flake outputs: " + reason)])
  {
  }

  /** The loop over any list of host names: one error per position holding a name `in` rejects. */
  lemma MissingHostsCounted(configs: Json, hosts: seq<string>)
    ensures |Collect(hosts, MissingHostError(configs))| == |set i | 0 <= i < |hosts| && !PyIn(hosts[i], configs)|
  {
    var f := MissingHostError(configs);
    CollectLength(hosts, f);
    assert Positions(hosts, f) == (set i | 0 <= i < |hosts| && !PyIn(hosts[i], configs));
  }

  /** The loop over any list of host names reports a name exactly when it is listed and absent. */
  lemma MissingHostNamed(configs: Json, hosts: seq<string>, host: string)
    ensures ErrorEntry("Missing nixosConfiguration: " + host) in Collect(hosts, MissingHostError(configs))
            <==> host in hosts && !PyIn(host, configs)
  {
    var f := MissingHostError(configs);
    var e := ErrorEntry("Missing nixosConfiguration: " + host);
    CollectMembership(hosts, f, e);
    if exists i :: 0 <= i < |hosts| && e in f(hosts[i]) {
      var i :| 0 <= i < |hosts| && e in f(hosts[i]);
      ConcatInjective(ErrorPrefix, "Missing nixosConfiguration: " + host, "Missing nixosConfiguration: " + hosts[i]);
      ConcatInjective("Missing nixosConfiguration: ", host, hosts[i]);
    }
    if host in hosts && !PyIn(host, configs) {
      var i :| 0 <= i < |hosts| && hosts[i] == host;
      assert e in f(hosts[i]);
    }
  }

  /** Decoded output: one error per expected host that `nixosConfigurations` lacks, naming it. */
  lemma FlakeErrorPerMissingHost(outputs: map<string, Json>, stderr: string, host: string)
    requires IsContainer(NixosConfigurations(outputs))
    ensures FlakeErrors(FlakeExited(0, Parsed(JObject(outputs)), stderr)).Some?
    ensures |FlakeErrors(FlakeExited(0, Parsed(JObject(outputs)), stderr)).value|
            == |set i | 0 <= i < |RequiredHosts| && !PyIn(RequiredHosts[i], NixosConfigurations(outputs))|
    ensures ErrorEntry("Missing nixosConfiguration: " + host) in FlakeErrors(FlakeExited(0, Parsed(JObject(outputs)), stderr)).value
            <==> host in RequiredHosts && !PyIn(host, NixosConfigurations(outputs))
  {
    MissingHostsCounted(NixosConfigurations(outputs), RequiredHosts);
    MissingHostNamed(NixosConfigurations(outputs), RequiredHosts, host);
  }

  /** Decoded output declaring every expected host: no error from this check. */
  lemma FlakeAllHostsDeclared(outputs: map<string, Json>, stderr: string)
    requires IsContainer(NixosConfigurations(outputs))
    requires forall host :: host in RequiredHosts ==> PyIn(host, NixosConfigurations(outputs))
    ensures FlakeErrors(FlakeExited(0, Parsed(JObject(outputs)), stderr)) == Some([])
  {
    FlakeErrorPerMissingHost(outputs, stderr, "");
    assert (set i | 0 <= i < |RequiredHosts| && !PyIn(RequiredHosts[i], NixosConfigurations(outputs))) == {};
  }

  /** Without a `nixosConfigurations` key all three expected hosts are reported missing, in order. */
  lemma FlakeWithoutConfigurations(outputs: map<string, Json>, stderr: string)
    requires "nixosConfigurations" !in outputs
    ensures FlakeErrors(FlakeExited(0, Parsed(JObject(outputs)), stderr))
            == Some([ErrorEntry("Missing nixosConfiguration: " + RequiredHosts[0]),
                     ErrorEntry("Missing nixosConfiguration: " + RequiredHosts[1]),
                     ErrorEntry("Missing nixosConfiguration: " + RequiredHosts[2])])
  {
    assert NixosConfigurations(outputs) == JObject(map[]);
    var f := MissingHostError(NixosConfigurations(outputs));
    assert RequiredHosts[..0] == [];
    CollectStep(RequiredHosts, 0, f);
    CollectStep(RequiredHosts, 1, f);
    CollectStep(RequiredHosts, 2, f);
    assert RequiredHosts[..3] == RequiredHosts;
    assert forall i :: 0 <= i < 3 ==> f(RequiredHosts[i]) == [ErrorEntry("Missing nixosConfiguration: " + RequiredHosts[i])];
    assert Collect(RequiredHosts, f) == [ErrorEntry("Missing nixosConfiguration: " + RequiredHosts[0]),
                     ErrorEntry("Missing nixosConfiguration: " + RequiredHosts[1]),
                     ErrorEntry("Missing nixosConfiguration: " + RequiredHosts[2])];
    assert FlakeErrorsAsWritten(FlakeExited(0, Parsed(JObject(outputs)), stderr)) == Some(Collect(RequiredHosts, f));
  }

  // ---------------------------------------------------------------------------
  // validate_gaming_separation
  // ---------------------------------------------------------------------------

  /** Without a work-wsl configuration the check records nothing. */
  lemma GamingWithoutWorkConfig(fs: FileSystem)
    requires WorkConfig !in fs
    ensures GamingFindings(fs) == NoFindings
  {
  }

  /** The positions in `packages` of the names that `content` mentions. */
  function PackagesMentioned(content: string, packages: seq<string>): set<int>
  {
    set i | 0 <= i < |packages| && Contains(content, packages[i])
  }

  /** The loop over any list of package names: one warning per position holding a name the
      content mentions. */
  lemma PackageWarningsCounted(content: string, packages: seq<string>)
    ensures |Collect(packages, GamingWarning(content))| == |PackagesMentioned(content, packages)|
  {
    var f := GamingWarning(content);
    CollectLength(packages, f);
    assert Positions(packages, f) == PackagesMentioned(content, packages);
  }

  /** The loop over any list of package names warns about a name exactly when it is listed and
      mentioned. */
  lemma PackageWarningNamed(content: string, packages: seq<string>, pkg: string)
    ensures WarningEntry("Gaming package '" + pkg + "' found in work-wsl config") in Collect(packages, GamingWarning(content))
            <==> pkg in packages && Contains(content, pkg)
  {
    var f := GamingWarning(content);
    var tail := "' found in work-wsl config";
    var w := WarningEntry("Gaming package '" + pkg + tail);
    CollectMembership(packages, f, w);
    if exists i :: 0 <= i < |packages| && w in f(packages[i]) {
      var i :| 0 <= i < |packages| && w in f(packages[i]);
      var other := packages[i];
      ConcatInjective(WarningPrefix, "Gaming package '" + pkg + tail, "Gaming package '" + other + tail);
      SuffixInjective("Gaming package '" + pkg, "Gaming package '" + other, tail);
      ConcatInjective("Gaming package '", pkg, other);
    }
    if pkg in packages && Contains(content, pkg) {
      var i :| 0 <= i < |packages| && packages[i] == pkg;
      assert w in f(packages[i]);
    }
  }

  /** One warning per gaming package named in the work-wsl configuration. */
  lemma GamingWarningPerPackage(fs: FileSystem)
    requires WorkConfig in fs
    ensures |GamingFindings(fs).warns| == |PackagesMentioned(fs[WorkConfig].content, GamingPackages)|
  {
    PackageWarningsCounted(fs[WorkConfig].content, GamingPackages);
  }

  /** The warning naming a package is recorded exactly when it is a gaming package named there. */
  lemma GamingWarningNamesPackage(fs: FileSystem, pkg: string)
    requires WorkConfig in fs
    ensures WarningEntry("Gaming package '" + pkg + "' found in work-wsl config") in GamingFindings(fs).warns
            <==> pkg in GamingPackages && Contains(fs[WorkConfig].content, pkg)
  {
    PackageWarningNamed(fs[WorkConfig].content, GamingPackages, pkg);
  }

  /** At most one error, recorded exactly when the work-wsl configuration mentions gaming.nix. */
  lemma GamingModuleIsError(fs: FileSystem)
    requires WorkConfig in fs
    ensures |GamingFindings(fs).errs| <= 1
    ensures |GamingFindings(fs).errs| == 1 <==> Contains(fs[WorkConfig].content, GamingModule)
  {
  }

  /** A work-wsl configuration naming a gaming package (steam, say) but not gaming.nix: a warning
      about that package and no error. */
  lemma GamingPackageWithoutModule(fs: FileSystem, pkg: string)
    requires WorkConfig in fs && pkg in GamingPackages
    requires Contains(fs[WorkConfig].content, pkg) && !Contains(fs[WorkConfig].content, GamingModule)
    ensures GamingFindings(fs).errs == []
    ensures WarningEntry("Gaming package '" + pkg + "' found in work-wsl config") in GamingFindings(fs).warns
  {
    GamingWarningNamesPackage(fs, pkg);
  }

  // ---------------------------------------------------------------------------
  // validate_common_imports
  // ---------------------------------------------------------------------------

  /** The positions in `paths` of existing files that do not mention the base module's import. */
  function LackingBaseImport(fs: FileSystem, paths: seq<string>): set<int>
  {
    set i | 0 <= i < |paths| && paths[i] in fs && !Contains(fs[paths[i]].content, BaseImport)
  }

  /** The loop over any list of paths: one error per position holding an existing file that lacks
      the base import. */
  lemma MissingImportsCounted(fs: FileSystem, paths: seq<string>)
    ensures |Collect(paths, MissingImportError(fs))| == |LackingBaseImport(fs, paths)|
  {
    var f := MissingImportError(fs);
    CollectLength(paths, f);
    assert Positions(paths, f) == LackingBaseImport(fs, paths);
  }

  /** The loop over any list of paths reports a path exactly when it is listed, exists and lacks
      the base import. */
  lemma MissingImportNamed(fs: FileSystem, paths: seq<string>, path: string)
    ensures ErrorEntry(path + " missing base module import") in Collect(paths, MissingImportError(fs))
            <==> path in paths && path in fs && !Contains(fs[path].content, BaseImport)
  {
    var f := MissingImportError(fs);
    var tail := " missing base module import";
    var e := ErrorEntry(path + tail);
    CollectMembership(paths, f, e);
    if exists i :: 0 <= i < |paths| && e in f(paths[i]) {
      var i :| 0 <= i < |paths| && e in f(paths[i]);
      var other := paths[i];
      ConcatInjective(ErrorPrefix, path + tail, other + tail);
      SuffixInjective(path, other, tail);
    }
    if path in paths && path in fs && !Contains(fs[path].content, BaseImport) {
      var i :| 0 <= i < |paths| && paths[i] == path;
      assert e in f(paths[i]);
    }
  }

  /** One error per existing host configuration lacking the base import; no warnings. */
  lemma ImportErrorPerHost(fs: FileSystem)
    ensures |ImportFindings(fs).errs| == |LackingBaseImport(fs, HostConfigs)|
    ensures ImportFindings(fs).warns == []
  {
    MissingImportsCounted(fs, HostConfigs);
  }

  /** The error naming a host configuration is recorded exactly when it exists and lacks the import;
      a host configuration that does not exist is skipped. */
  lemma ImportErrorNamesHost(fs: FileSystem, path: string)
    ensures ErrorEntry(path + " missing base module import") in ImportFindings(fs).errs
            <==> path in HostConfigs && path in fs && !Contains(fs[path].content, BaseImport)
  {
    MissingImportNamed(fs, HostConfigs, path);
  }

  /** Every host configuration present and importing the base module: no error from this check. */
  lemma AllHostsImportBase(fs: FileSystem)
    requires forall path :: path in HostConfigs ==> path in fs && Contains(fs[path].content, BaseImport)
    ensures ImportFindings(fs) == NoFindings
  {
    ImportErrorPerHost(fs);
    assert LackingBaseImport(fs, HostConfigs) == {};
  }

  // ---------------------------------------------------------------------------
  // validate_rebuild_script
  // ---------------------------------------------------------------------------

  /** A missing script gives one error and nothing else; a present one a warning exactly when it is
      not executable and an error exactly when it lacks detect_host(). */
  lemma RebuildScriptOutcome(fs: FileSystem)
    ensures |RebuildFindings(fs).errs| <= 1 && |RebuildFindings(fs).warns| <= 1
    ensures RebuildScript !in fs ==> RebuildFindings(fs) == Findings([ErrorEntry("rebuild.sh not found")], [])
    ensures RebuildScript in fs ==>
              (|RebuildFindings(fs).warns| == 1 <==> !fs[RebuildScript].executable) &&
              (|RebuildFindings(fs).errs| == 1 <==> !Contains(fs[RebuildScript].content, DetectHost))
  {
  }

  // ---------------------------------------------------------------------------
  // run_all_validations
  // ---------------------------------------------------------------------------

  /** A completed run fails exactly when one of the six checks recorded an error. */
  lemma RunFailsIffSomeCheckErrs(fs: FileSystem, runs: seq<SyntaxRun>, flake: FlakeRun)
    requires Validation(fs, runs, FlakeErrors(flake)).completed
    ensures var r := Validation(fs, runs, FlakeErrors(flake)).findings;
            ExitCode(r.errs, r.warns) == 1 <==>
              StructureFindings(fs).errs != [] || SyntaxFindings(runs).errs != [] ||
              FlakeErrors(flake).value != [] || GamingFindings(fs).errs != [] ||
              ImportFindings(fs).errs != [] || RebuildFindings(fs).errs != []
  {
  }

  /** The same holds for the code as written: a completed run's flake outcome is the corrected one. */
  lemma RunFailsIffSomeCheckErrsAsWritten(fs: FileSystem, runs: seq<SyntaxRun>, flake: FlakeRun)
    requires Validation(fs, runs, FlakeErrorsAsWritten(flake)).completed
    ensures var r := Validation(fs, runs, FlakeErrorsAsWritten(flake)).findings;
            ExitCode(r.errs, r.warns) == 1 <==>
              StructureFindings(fs).errs != [] || SyntaxFindings(runs).errs != [] ||
              FlakeErrorsAsWritten(flake).value != [] || GamingFindings(fs).errs != [] ||
              ImportFindings(fs).errs != [] || RebuildFindings(fs).errs != []
  {
    RunFailsIffSomeCheckErrs(fs, runs, flake);
  }

  /** A repository that satisfies every rule, with the syntax checker passing or absent and the flake
      declaring the three hosts: the run completes with no error and status 0. */
  lemma HealthyRepositoryPasses(fs: FileSystem, runs: seq<SyntaxRun>, outputs: map<string, Json>, stderr: string)
    requires forall path :: path in RequiredFiles ==> path in fs
    requires forall path :: path in HostConfigs ==> Contains(fs[path].content, BaseImport)
    requires !Contains(fs[WorkConfig].content, GamingModule)
    requires Contains(fs[RebuildScript].content, DetectHost)
    requires forall j :: 0 <= j < |runs| ==> !ParseFailed(runs[j].outcome)
    requires IsContainer(NixosConfigurations(outputs))
    requires forall host :: host in RequiredHosts ==> PyIn(host, NixosConfigurations(outputs))
    ensures Validation(fs, runs, FlakeErrors(FlakeExited(0, Parsed(JObject(outputs)), stderr))).completed
    ensures Validation(fs, runs, FlakeErrors(FlakeExited(0, Parsed(JObject(outputs)), stderr))).findings.errs == []
    ensures var r := Validation(fs, runs, FlakeErrors(FlakeExited(0, Parsed(JObject(outputs)), stderr))).findings;
            ExitCode(r.errs, r.warns) == 0
  {
    NoMissingFile(fs);
    SyntaxAllAccepted(runs);
    FlakeAllHostsDeclared(outputs, stderr);
    AllHostsImportBase(fs);
  }

  /** As written, a machine without `nix` ends the run with an exception from the flake check:
      what the policy checks would find is never recorded and no status is returned. */
  lemma NixAbsenceAbortsRun(fs: FileSystem, runs: seq<SyntaxRun>)
    ensures FlakeErrorsAsWritten(NixNotFound).None?
    ensures Validation(fs, runs, FlakeErrorsAsWritten(NixNotFound))
            == Report(StructureFindings(fs).Then(SyntaxFindings(runs)), false)
  {
  }

  /** Corrected, the absence of `nix` is one recorded error, the remaining checks still run, and
      the run completes with status 1. */
  lemma NixAbsenceRecorded(fs: FileSystem, runs: seq<SyntaxRun>)
    ensures Validation(fs, runs, FlakeErrors(NixNotFound)).completed
    ensures ErrorEntry("Failed to validate flake outputs: " + NixNotFoundReason)
            in Validation(fs, runs, FlakeErrors(NixNotFound)).findings.errs
    ensures var r := Validation(fs, runs, FlakeErrors(NixNotFound)).findings;
            ExitCode(r.errs, r.warns) == 1
  {
  }
}
