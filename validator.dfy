/** The configuration-repository validator: six checks that append to an error list and a
    warning list, and a summary that turns the two lists into an exit status.
    The project tree and the results of the external tools are inputs. */
module ConfigValidation {
  import opened Text
  import opened Entries

  // ---------------------------------------------------------------------------
  // Inputs: the project tree and the outcomes of the external tools
  // ---------------------------------------------------------------------------

  /** A regular file under the project root: its text and whether its executable bit is set. */
  datatype FileEntry = FileEntry(content: string, executable: bool)

  /** The project tree, keyed by path relative to the root; a path exists when it is a key. */
  type FileSystem = map<string, FileEntry>

  /** What one `nix-instantiate --parse <file>` invocation gave. */
  datatype ParseOutcome =
    | ToolNotFound                              // the executable could not be started
    | Exited(exitCode: int, stderr: string)

  /** One invocation of the syntax checker: the file, as listed, and its outcome. */
  datatype SyntaxRun = SyntaxRun(file: string, outcome: ParseOutcome)

  /** A JSON value as the standard decoder yields it; number and boolean payloads play no part here. */
  datatype Json =
    | JObject(fields: map<string, Json>)
    | JArray(items: seq<Json>)
    | JString(text: string)
    | JNumber
    | JBool
    | JNull

  /** Decoding the standard output of `nix flake show --json`. */
  datatype JsonParse = Malformed(reason: string) | Parsed(value: Json)

  /** What `nix flake show --json` gave. */
  datatype FlakeRun =
    | NixNotFound                               // the `nix` executable could not be started
    | FlakeExited(exitCode: int, stdout: JsonParse, stderr: string)

  // ---------------------------------------------------------------------------
  // The fixed lists the checks walk
  // ---------------------------------------------------------------------------

  const RequiredFiles: seq<string> := [
    "flake.nix",
    "rebuild.sh",
    "hosts/thinker/configuration.nix",
    "hosts/1337book/configuration.nix",
    "hosts/work-wsl/configuration.nix",
    "modules/base.nix",
    "modules/gaming.nix",
    "homely-man.nix",
    "python-dev.nix"
  ]

  const RequiredHosts: seq<string> := ["thinker", "1337book", "work-wsl"]

  const GamingPackages: seq<string> := ["steam", "blender", "krita", "aseprite", "dwarf-fortress", "flatpak"]

  const WorkConfig: string := "hosts/work-wsl/configuration.nix"

  const HostConfigs: seq<string> := [
    "hosts/thinker/configuration.nix",
    "hosts/1337book/configuration.nix",
    "hosts/work-wsl/configuration.nix"
  ]

  const BaseImport: string := "../../modules/base.nix"
  const GamingModule: string := "gaming.nix"
  const RebuildScript: string := "rebuild.sh"
  const DetectHost: string := "detect_host()"

  const SyntaxToolMissing: string := "nix-instantiate not found, skipping syntax validation"
  /** The text of the error that a missing `nix` executable raises. */
  const NixNotFoundReason: string := "[Errno 2] No such file or directory: 'nix'"

  // ---------------------------------------------------------------------------
  // What each check appends, as functions of its inputs
  // ---------------------------------------------------------------------------

  /** validate_file_structure: the contribution of one required path. */
  function MissingFileError(fs: FileSystem): string -> seq<string>
  {
    path => if path in fs then [] else [ErrorEntry("Missing required file: " + path)]
  }

  /** validate_file_structure: no warning, and at most one error per required path. */
  function StructureFindings(fs: FileSystem): (r: Findings)
    ensures r.warns == [] && |r.errs| <= |RequiredFiles|
  {
    CollectBound(RequiredFiles, MissingFileError(fs));
    Findings(Collect(RequiredFiles, MissingFileError(fs)), [])
  }

  /** The checker ran and rejected the file. */
  predicate ParseFailed(outcome: ParseOutcome)
  {
    outcome.Exited? && outcome.exitCode != 0
  }

  /** validate_nix_syntax: the contribution of one invocation. */
  const SyntaxError: SyntaxRun -> seq<string> :=
    (run: SyntaxRun) => if ParseFailed(run.outcome)
           then [ErrorEntry("Syntax error in " + run.file + ": " + run.outcome.stderr)]
           else []

  /** The position of the first invocation whose executable was missing, or |runs| if none was. */
  function FirstAbsence(runs: seq<SyntaxRun>): (k: nat)
    ensures k <= |runs|
    ensures forall j :: 0 <= j < k ==> runs[j].outcome.Exited?
    ensures k < |runs| ==> runs[k].outcome.ToolNotFound?
  {
    if runs == [] then 0
    else if runs[0].outcome.ToolNotFound? then 0
    else 1 + FirstAbsence(runs[1..])
  }

  /** The loop reports the invocations before the first absence, then warns once and stops. */
  function SyntaxFindings(runs: seq<SyntaxRun>): (r: Findings)
    ensures |r.errs| <= FirstAbsence(runs)
    ensures r.warns == [] <==> FirstAbsence(runs) == |runs|
    ensures r.warns != [] ==> r.warns == [WarningEntry(SyntaxToolMissing)]
  {
    var k := FirstAbsence(runs);
    CollectBound(runs[..k], SyntaxError);
    Findings(Collect(runs[..k], SyntaxError),
             if k < |runs| then [WarningEntry(SyntaxToolMissing)] else [])
  }

  /** Python's `key in container` for the containers JSON decodes to; false for the others,
      on which Python raises instead (see FlakeErrorsAsWritten). */
  function PyIn(key: string, container: Json): (b: bool)
    ensures b ==> IsContainer(container)
    ensures container.JObject? ==> (b <==> key in container.fields)
    ensures container.JArray? ==>
              (b <==> exists i :: 0 <= i < |container.items| && container.items[i] == JString(key))
    ensures container.JString? ==> (b <==> exists i :: OccursAt(container.text, key, i))
  {
    match container
    case JObject(fields) => key in fields
    case JArray(items) => JString(key) in items
    case JString(text) => ContainsIffOccurs(text, key); Contains(text, key)
    case _ => false
  }

  /** The values on which Python's `in` is defined. */
  predicate IsContainer(j: Json)
  {
    j.JObject? || j.JArray? || j.JString?
  }

  /** `outputs.get("nixosConfigurations", {})`. */
  function NixosConfigurations(outputs: map<string, Json>): (c: Json)
    ensures "nixosConfigurations" in outputs ==> c == outputs["nixosConfigurations"]
    ensures "nixosConfigurations" !in outputs ==> c.JObject? && forall key :: !PyIn(key, c)
  {
    if "nixosConfigurations" in outputs then outputs["nixosConfigurations"] else JObject(map[])
  }

  /** validate_flake_outputs: the contribution of one expected host. */
  function MissingHostError(configs: Json): string -> seq<string>
  {
    host => if PyIn(host, configs) then [] else [ErrorEntry("Missing nixosConfiguration: " + host)]
  }

  /** validate_flake_outputs as written: the errors it appends, or None when an exception escapes it.
      Only SubprocessError and JSONDecodeError are caught, so a missing `nix` executable
      (FileNotFoundError), a decoded value without `.get` (AttributeError) and a
      `nixosConfigurations` value that `in` rejects (TypeError) all escape, before anything is appended. */
  function FlakeErrorsAsWritten(run: FlakeRun): (r: Option<seq<string>>)
    ensures r.None? <==> run.NixNotFound? || RaisesOnShape(run)
    ensures r.Some? ==> |r.value| <= |RequiredHosts|
  {
    match run
    case NixNotFound => None
    case FlakeExited(exitCode, stdout, stderr) =>
      if exitCode != 0 then Some([ErrorEntry("Flake validation failed: " + stderr)])
      else match stdout
        case Malformed(reason) => Some([ErrorEntry("Failed to validate flake outputs: " + reason)])
        case Parsed(outputs) =>
          if !outputs.JObject? then None
          else
            var configs := NixosConfigurations(outputs.fields);
            if !IsContainer(configs) then None
            else
              CollectBound(RequiredHosts, MissingHostError(configs));
              Some(Collect(RequiredHosts, MissingHostError(configs)))
  }

  /** `nix flake show --json` succeeded and decoded, but to a value on which the check raises: a
      top level that is not an object (no `.get`), or a `nixosConfigurations` entry that `in`
      rejects, a number, a boolean or null. */
  predicate RaisesOnShape(run: FlakeRun)
  {
    run.FlakeExited? && run.exitCode == 0 && run.stdout.Parsed? &&
    (!run.stdout.value.JObject? || !IsContainer(NixosConfigurations(run.stdout.value.fields)))
  }

  /** validate_flake_outputs with the missing `nix` executable handled like the other failures of
      the tool: one error, and the run goes on. */
  function FlakeErrors(run: FlakeRun): (r: Option<seq<string>>)
    ensures r.None? <==> RaisesOnShape(run)
    ensures run.NixNotFound? ==> r == Some([ErrorEntry("Failed to validate flake outputs: " + NixNotFoundReason)])
    ensures !run.NixNotFound? ==> r == FlakeErrorsAsWritten(run)
  {
    if run.NixNotFound? then Some([ErrorEntry("Failed to validate flake outputs: " + NixNotFoundReason)])
    else FlakeErrorsAsWritten(run)
  }

  /** What a check that may raise appends: nothing when it raised. */
  function ErrorsOf(outcome: Option<seq<string>>): Findings
  {
    if outcome.Some? then Findings(outcome.value, []) else NoFindings
  }

  /** validate_gaming_separation: the contribution of one gaming package. */
  function GamingWarning(content: string): string -> seq<string>
  {
    pkg => if Contains(content, pkg)
           then [WarningEntry("Gaming package '" + pkg + "' found in work-wsl config")]
           else []
  }

  /** validate_gaming_separation: at most one error and at most one warning per gaming package. */
  function GamingFindings(fs: FileSystem): (r: Findings)
    ensures |r.errs| <= 1 && |r.warns| <= |GamingPackages|
  {
    if WorkConfig !in fs then NoFindings
    else
      var content := fs[WorkConfig].content;
      CollectBound(GamingPackages, GamingWarning(content));
      Findings(if Contains(content, GamingModule)
               then [ErrorEntry("work-wsl config imports gaming.nix - this defeats the purpose!")]
               else [],
               Collect(GamingPackages, GamingWarning(content)))
  }

  /** validate_common_imports: the contribution of one host configuration. */
  function MissingImportError(fs: FileSystem): string -> seq<string>
  {
    path => if path in fs && !Contains(fs[path].content, BaseImport)
            then [ErrorEntry(path + " missing base module import")]
            else []
  }

  /** validate_common_imports: no warning, and at most one error per host configuration. */
  function ImportFindings(fs: FileSystem): (r: Findings)
    ensures r.warns == [] && |r.errs| <= |HostConfigs|
  {
    CollectBound(HostConfigs, MissingImportError(fs));
    Findings(Collect(HostConfigs, MissingImportError(fs)), [])
  }

  /** validate_rebuild_script: at most one error and one warning; a missing script gets no warning. */
  function RebuildFindings(fs: FileSystem): (r: Findings)
    ensures |r.errs| <= 1 && |r.warns| <= 1
    ensures RebuildScript !in fs ==> r.warns == [] && r.errs != []
  {
    if RebuildScript !in fs then Findings([ErrorEntry("rebuild.sh not found")], [])
    else
      var script := fs[RebuildScript];
      Findings(if Contains(script.content, DetectHost) then [] else [ErrorEntry("rebuild.sh missing detect_host function")],
               if script.executable then [] else [WarningEntry("rebuild.sh is not executable")])
  }

  // ---------------------------------------------------------------------------
  // The whole run
  // ---------------------------------------------------------------------------

  /** What run_all_validations appends, and whether it got past the flake check. `flake` is that
      check's outcome, None when an exception escaped it (then nothing after it runs). */
  datatype Report = Report(findings: Findings, completed: bool)

  function Validation(fs: FileSystem, runs: seq<SyntaxRun>, flake: Option<seq<string>>): (r: Report)
    ensures r.completed <==> flake.Some?
    ensures StructureFindings(fs).errs + SyntaxFindings(runs).errs <= r.findings.errs
    ensures StructureFindings(fs).warns + SyntaxFindings(runs).warns <= r.findings.warns
    ensures !r.completed ==> r.findings == StructureFindings(fs).Then(SyntaxFindings(runs))
  {
    var before := StructureFindings(fs).Then(SyntaxFindings(runs));
    match flake
    case None => Report(before, false)
    case Some(flakeErrs) =>
      Report(before.Then(ErrorsOf(flake).Then(PolicyFindings(fs))), true)
  }

  /** The three policy checks that follow the flake check, in order. */
  function PolicyFindings(fs: FileSystem): Findings
  {
    GamingFindings(fs).Then(ImportFindings(fs)).Then(RebuildFindings(fs))
  }

  /** The summary's verdict: 1 exactly when some error was recorded, warnings notwithstanding. */
  function ExitCode(errors: seq<string>, warnings: seq<string>): (code: int)
    ensures code == 0 || code == 1
    ensures code == 1 <==> errors != []
  {
    if errors == [] && warnings == [] then 0
    else if errors == [] then 0
    else 1
  }

  /** How run_all_validations ends: with a status, or by an exception escaping it. */
  datatype RunStatus = Returned(code: int) | Raised

  // ---------------------------------------------------------------------------
  // The validator object
  // ---------------------------------------------------------------------------

  class ConfigValidator {
    /** The tree under the root the validator was constructed for. */
    const fs: FileSystem
    var errors: seq<string>
    var warnings: seq<string>

    /** The two lists, as one value. */
    function Recorded(): Findings
      reads this
    {
      Findings(errors, warnings)
    }

    constructor (fs: FileSystem)
      ensures this.fs == fs && Recorded() == NoFindings
    {
      this.fs := fs;
      errors := [];
      warnings := [];
    }

    method Error(msg: string)
      modifies this
      ensures errors == old(errors) + [ErrorEntry(msg)]
      ensures warnings == old(warnings)
    {
      errors := errors + [ErrorEntry(msg)];
    }

    method Warning(msg: string)
      modifies this
      ensures warnings == old(warnings) + [WarningEntry(msg)]
      ensures errors == old(errors)
    {
      warnings := warnings + [WarningEntry(msg)];
    }

    /** Informational output only; the console is not modelled, and neither list changes. */
    method Success(msg: string)
      ensures errors == old(errors) && warnings == old(warnings)
    {
    }

    method ValidateFileStructure()
      modifies this
      ensures Recorded() == old(Recorded()).Then(StructureFindings(fs))
    {
      ReportMissingFiles(RequiredFiles);
    }

    /** The loop of validate_file_structure, over the list it walks. */
    method ReportMissingFiles(paths: seq<string>)
      modifies this
      ensures errors == old(errors) + Collect(paths, MissingFileError(fs))
      ensures warnings == old(warnings)
    {
      var i := 0;
      while i < |paths|
        invariant i <= |paths|
        invariant errors == old(errors) + Collect(paths[..i], MissingFileError(fs))
        invariant warnings == old(warnings)
      {
        var path := paths[i];
        if path !in fs {
          Error("Missing required file: " + path);
        } else {
          Success("Found " + path);
        }
        CollectStep(paths, i, MissingFileError(fs));
        i := i + 1;
      }
      assert paths[..i] == paths;
    }

    /** `runs` lists the files in the order the two glob patterns produced them, duplicates included. */
    method ValidateNixSyntax(runs: seq<SyntaxRun>)
      modifies this
      ensures Recorded() == old(Recorded()).Then(SyntaxFindings(runs))
    {
      var i := 0;
      while i < |runs|
        invariant i <= |runs|
        invariant i <= FirstAbsence(runs)
        invariant errors == old(errors) + Collect(runs[..i], SyntaxError)
        invariant warnings == old(warnings)
      {
        var run := runs[i];
        match run.outcome {
          case ToolNotFound =>
            Warning(SyntaxToolMissing);
            assert FirstAbsence(runs) == i;
            return;
          case Exited(exitCode, stderr) =>
            if exitCode != 0 {
              Error("Syntax error in " + run.file + ": " + stderr);
            } else {
              Success("Valid syntax: " + run.file);
            }
        }
        CollectStep(runs, i, SyntaxError);
        i := i + 1;
      }
      assert runs[..i] == runs;
    }

    /** As written: returns true when an exception escapes, having appended nothing. */
    method ValidateFlakeOutputsAsWritten(run: FlakeRun) returns (raised: bool)
      modifies this
      ensures raised <==> FlakeErrorsAsWritten(run).None?
      ensures Recorded() == old(Recorded()).Then(ErrorsOf(FlakeErrorsAsWritten(run)))
    {
      match run {
        case NixNotFound =>
          return true;
        case FlakeExited(exitCode, stdout, stderr) =>
          if exitCode != 0 {
            Error("Flake validation failed: " + stderr);
            return false;
          }
          match stdout {
            case Malformed(reason) =>
              Error("Failed to validate flake outputs: " + reason);
              return false;
            case Parsed(outputs) =>
              if !outputs.JObject? {
                return true;
              }
              var configs := NixosConfigurations(outputs.fields);
              if !IsContainer(configs) {
                return true;
              }
              ReportMissingHosts(RequiredHosts, configs);
              return false;
          }
      }
    }

    /** The loop of validate_flake_outputs, over the host names it looks up. */
    method ReportMissingHosts(hosts: seq<string>, configs: Json)
      modifies this
      ensures errors == old(errors) + Collect(hosts, MissingHostError(configs))
      ensures warnings == old(warnings)
    {
      var i := 0;
      while i < |hosts|
        invariant i <= |hosts|
        invariant errors == old(errors) + Collect(hosts[..i], MissingHostError(configs))
        invariant warnings == old(warnings)
      {
        var host := hosts[i];
        if PyIn(host, configs) {
          Success("Found nixosConfiguration: " + host);
        } else {
          Error("Missing nixosConfiguration: " + host);
        }
        CollectStep(hosts, i, MissingHostError(configs));
        i := i + 1;
      }
      assert hosts[..i] == hosts;
    }

    /** With the missing `nix` executable caught as well. */
    method ValidateFlakeOutputs(run: FlakeRun) returns (raised: bool)
      modifies this
      ensures raised <==> FlakeErrors(run).None?
      ensures Recorded() == old(Recorded()).Then(ErrorsOf(FlakeErrors(run)))
    {
      if run.NixNotFound? {
        Error("Failed to validate flake outputs: " + NixNotFoundReason);
        raised := false;
      } else {
        raised := ValidateFlakeOutputsAsWritten(run);
      }
    }

    method ValidateGamingSeparation()
      modifies this
      ensures Recorded() == old(Recorded()).Then(GamingFindings(fs))
    {
      if WorkConfig in fs {
        var content := fs[WorkConfig].content;
        WarnGamingPackages(GamingPackages, content);
        if Contains(content, GamingModule) {
          Error("work-wsl config imports gaming.nix - this defeats the purpose!");
        } else {
          Success("work-wsl properly excludes gaming module");
        }
      }
    }

    /** The loop of validate_gaming_separation, over the package names it searches for. */
    method WarnGamingPackages(packages: seq<string>, content: string)
      modifies this
      ensures warnings == old(warnings) + Collect(packages, GamingWarning(content))
      ensures errors == old(errors)
    {
      var i := 0;
      while i < |packages|
        invariant i <= |packages|
        invariant warnings == old(warnings) + Collect(packages[..i], GamingWarning(content))
        invariant errors == old(errors)
      {
        var pkg := packages[i];
        if Contains(content, pkg) {
          Warning("Gaming package '" + pkg + "' found in work-wsl config");
        }
        CollectStep(packages, i, GamingWarning(content));
        i := i + 1;
      }
      assert packages[..i] == packages;
    }

    method ValidateCommonImports()
      modifies this
      ensures Recorded() == old(Recorded()).Then(ImportFindings(fs))
    {
      ReportMissingImports(HostConfigs);
    }

    /** The loop of validate_common_imports, over the host configurations it reads. */
    method ReportMissingImports(paths: seq<string>)
      modifies this
      ensures errors == old(errors) + Collect(paths, MissingImportError(fs))
      ensures warnings == old(warnings)
    {
      var i := 0;
      while i < |paths|
        invariant i <= |paths|
        invariant errors == old(errors) + Collect(paths[..i], MissingImportError(fs))
        invariant warnings == old(warnings)
      {
        CheckImport(paths[i]);
        CollectStep(paths, i, MissingImportError(fs));
        i := i + 1;
      }
      assert paths[..i] == paths;
    }

    /** One iteration of validate_common_imports: a host configuration that exists must import the
        base module; one that does not exist is skipped. */
    method CheckImport(path: string)
      modifies this
      ensures errors == old(errors) + MissingImportError(fs)(path)
      ensures warnings == old(warnings)
    {
      if path in fs {
        var content := fs[path].content;
        if Contains(content, BaseImport) {
          Success(path + " imports base module");
        } else {
          Error(path + " missing base module import");
        }
      }
    }

    method ValidateRebuildScript()
      modifies this
      ensures Recorded() == old(Recorded()).Then(RebuildFindings(fs))
    {
      if RebuildScript !in fs {
        Error("rebuild.sh not found");
        return;
      }
      var script := fs[RebuildScript];
      if !script.executable {
        Warning("rebuild.sh is not executable");
      }
      if Contains(script.content, DetectHost) {
        Success("rebuild.sh has detect_host function");
      } else {
        Error("rebuild.sh missing detect_host function");
      }
    }

    /** The three policy checks that follow the flake check: gaming separation, common imports
        and the rebuild script, in that order. */
    method ValidatePolicies()
      modifies this
      ensures Recorded() == old(Recorded()).Then(PolicyFindings(fs))
    {
      ghost var start := Recorded();
      ValidateGamingSeparation();
      ValidateCommonImports();
      ThenAssoc(start, GamingFindings(fs), ImportFindings(fs));
      ValidateRebuildScript();
      ThenAssoc(start, GamingFindings(fs).Then(ImportFindings(fs)), RebuildFindings(fs));
    }

    /** run_all_validations as written: the six checks in order, then the summary's verdict on the
        two lists. An exception escaping the flake check (a missing `nix` among them) ends the run
        there, with the summary never reached. */
    method RunAllValidationsAsWritten(runs: seq<SyntaxRun>, flake: FlakeRun) returns (status: RunStatus)
      modifies this
      ensures Recorded() == old(Recorded()).Then(Validation(fs, runs, FlakeErrorsAsWritten(flake)).findings)
      ensures status == if Validation(fs, runs, FlakeErrorsAsWritten(flake)).completed
                        then Returned(ExitCode(errors, warnings)) else Raised
    {
      ghost var start := Recorded();
      ValidateFileStructure();
      ValidateNixSyntax(runs);
      ThenAssoc(start, StructureFindings(fs), SyntaxFindings(runs));
      ghost var before := StructureFindings(fs).Then(SyntaxFindings(runs));
      var raised := ValidateFlakeOutputsAsWritten(flake);
      if raised {
        return Raised;
      }
      ValidatePolicies();
      ThenAssoc(start.Then(before), ErrorsOf(FlakeErrorsAsWritten(flake)), PolicyFindings(fs));
      ThenAssoc(start, before, ErrorsOf(FlakeErrorsAsWritten(flake)).Then(PolicyFindings(fs)));
      status := Returned(ExitCode(errors, warnings));
    }

    /** run_all_validations with the corrected flake check: a missing `nix` is recorded as one
        error and the run goes on to the policy checks and the summary. */
    method RunAllValidations(runs: seq<SyntaxRun>, flake: FlakeRun) returns (status: RunStatus)
      modifies this
      ensures Recorded() == old(Recorded()).Then(Validation(fs, runs, FlakeErrors(flake)).findings)
      ensures status == if Validation(fs, runs, FlakeErrors(flake)).completed
                        then Returned(ExitCode(errors, warnings)) else Raised
    {
      ghost var start := Recorded();
      ValidateFileStructure();
      ValidateNixSyntax(runs);
      ThenAssoc(start, StructureFindings(fs), SyntaxFindings(runs));
      ghost var before := StructureFindings(fs).Then(SyntaxFindings(runs));
      var raised := ValidateFlakeOutputs(flake);
      if raised {
        return Raised;
      }
      ValidatePolicies();
      ThenAssoc(start.Then(before), ErrorsOf(FlakeErrors(flake)), PolicyFindings(fs));
      ThenAssoc(start, before, ErrorsOf(FlakeErrors(flake)).Then(PolicyFindings(fs)));
      status := Returned(ExitCode(errors, warnings));
    }
  }
}
