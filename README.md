# calnix configuration validator, modelled in Dafny

calnix is a NixOS configuration repository for three hosts: `thinker`, `1337book` and `work-wsl`.
Its `tests/validate_config.py` defines `ConfigValidator`. That object runs six checks over the
repository tree, in a fixed order:

1. the required files exist;
2. every `.nix` file parses under `nix-instantiate --parse`;
3. `nix flake show --json` declares the three hosts;
4. the work-wsl host is kept free of gaming packages and of the gaming module;
5. every host configuration imports the base module;
6. `rebuild.sh` exists, is executable and defines `detect_host()`.

Each check appends prefixed messages to two lists, `errors` and `warnings`. The run returns exit
status 1 exactly when the error list is non-empty.

The model has these parts:

- **`Text`** (`text.dfy`): Python's `needle in haystack` on strings, as `Contains`. A lemma shows it
  is equivalent to "the needle occurs at some index".
- **`Entries`** (`entries.dfy`): the two message prefixes (`❌ ERROR: ` and `⚠️  WARNING: `, the
  latter with two spaces). It also defines `Findings`, a pair of error and warning lists that a
  check appends, with `Then` for "this check, then that one". Finally it has `Collect`, the list of
  messages one `for` loop appends when it visits a list in order, and general lemmas that count the
  entries of a `Collect` and say which entries are in it.
- **`ConfigValidation`** (`validator.dfy`): the inputs and one pure specification function per
  check. It also has the class `ConfigValidator`, whose `errors` and `warnings` fields the methods
  update in place, each with its loop, as the source does. Every check method is proved to append
  exactly its specification function's findings to the state:
  `Recorded() == old(Recorded()).Then(...)`.
  There are two entry points. `RunAllValidationsAsWritten` is run_all_validations as the code
  stands. `RunAllValidations` is the same run with the corrected flake check (see Findings).
- **`ValidationProperties`** (`properties.dfy`): what each check promises. This covers one error
  per missing file, host or import, naming it; at most one warning when the parser is absent; a
  run that fails exactly when some check erred; and a repository that follows every rule passing.

The model replaces the outside world with inputs:

- **The repository tree** is a `FileSystem`, a map from root-relative paths to file contents and an
  executable bit. Existence (`Path.exists`), `read_text` and `os.access(..., X_OK)` are lookups in
  it.
- **The syntax check** takes the list of files it visits, already expanded from the globs. Each
  entry comes with that file's `nix-instantiate` outcome: the executable is missing, or it exited
  with a code and a standard error.
- **The flake check** takes the outcome of `nix flake show --json`: `nix` is missing, or it exited
  with a code, a decoded (or undecodable) standard output and a standard error. The decoded value
  is a small JSON datatype, and `in` on it follows Python:
  - a key of an object;
  - a string element of an array;
  - a substring of a string;
  - a `TypeError` for numbers, booleans and null.

   A top-level value that is not an object fails at `.get` with `AttributeError`. Neither of these
   exceptions is caught by the `except` clause.

Facts about the code that the model keeps:

- **Required files:** there are nine (`tests/validate_config.py:48-58`).
- **Duplicate files:** the syntax check does not deduplicate the two glob results (70-72), so a
  top-level `.nix` file is visited twice, and a failing one is reported twice
  (`SyntaxDuplicateReportedTwice`).
- **Parser absence:** the syntax loop stops at whichever file `nix-instantiate` is first found
  missing for (90-92), not only at the first file.
- **No `nix`:** without the `nix` executable the flake check raises, and the run ends with no
  summary (see Findings). Corrected, the absence is one recorded error, so the run returns
  status 1 (`NixAbsenceRecorded`).

## Model

| member | source | states |
|---|---|---|
| Text.ContainsIffOccurs | tests/validate_config.py:135 | Python's substring test `needle in haystack` holds exactly when the needle occurs in the haystack at some index. |
| Entries.ErrorEntry | tests/validate_config.py:37-38 | An error entry is the message after the `❌ ERROR: ` prefix: it carries the prefix, its tail is the message, and its length is the sum of the two. |
| Entries.WarningEntry | tests/validate_config.py:40-41 | A warning entry is the message after the `⚠️  WARNING: ` prefix: it carries the prefix, its tail is the message, and its length is the sum of the two. |
| Entries.ThenAssoc | tests/validate_config.py:178-198 | Helper: regrouping the findings of consecutive checks leaves the combined findings unchanged. The run proofs use it to compose the six checks. |
| Entries.CollectStep | tests/validate_config.py:60 | One more iteration of an in-order loop appends exactly that element's messages to those of the earlier elements. |
| Entries.CollectLength | tests/validate_config.py:60-65 | A loop appending at most one message per element appends exactly one per element that yields a message. |
| Entries.CollectMembership | tests/validate_config.py:114-118 | A message is appended by an in-order loop exactly when some element of the list yields it. |
| ConfigValidation.FirstAbsence | tests/validate_config.py:77-92 | The syntax loop runs the parser on every file before the returned position. If that position is inside the list, the parser is absent there. |
| ConfigValidation.StructureFindings | tests/validate_config.py:46-65 | What validate_file_structure appends: the missing-file errors of the required paths, in list order. It gives no warning and at most one error per required path. |
| ConfigValidation.SyntaxFindings | tests/validate_config.py:67-92 | What validate_nix_syntax appends: the errors of the files visited before the parser was first found missing, at most one each. There is a warning exactly when the parser was missing for some file, and then it is the single skipping warning. |
| ConfigValidation.PyIn | tests/validate_config.py:115 | Python's `key in container` on decoded JSON: true only on an object, an array or a string. On an object (the usual `nixosConfigurations`) it means the key is one of its keys; on an array, some element is that string; on a string, the key occurs at some index. On other values Python raises `TypeError`, handled by the caller. |
| ConfigValidation.NixosConfigurations | tests/validate_config.py:112 | `outputs.get("nixosConfigurations", {})`: the stored value when the key is present, and otherwise an empty object in which no host name is found. |
| ConfigValidation.FlakeErrorsAsWritten | tests/validate_config.py:94-121 | validate_flake_outputs as written. An exception escapes exactly when `nix` is missing or the decoded output has a shape the check raises on (`RaisesOnShape`). Otherwise it gives the errors appended, at most one per expected host. |
| ConfigValidation.FlakeErrors | tests/validate_config.py:94-121 | validate_flake_outputs with a missing `nix` caught: it raises only on `RaisesOnShape`. A missing `nix` gives the single "Failed to validate flake outputs" error; every other outcome equals the code as written. |
| ConfigValidation.GamingFindings | tests/validate_config.py:123-141 | What validate_gaming_separation appends: at most one error, and at most one warning per gaming package. |
| ConfigValidation.ImportFindings | tests/validate_config.py:143-158 | What validate_common_imports appends: no warning, and at most one error per host configuration. |
| ConfigValidation.RebuildFindings | tests/validate_config.py:160-176 | What validate_rebuild_script appends: at most one error and one warning. A missing script gets an error and no warning. |
| ConfigValidation.Validation | tests/validate_config.py:178-198 | What run_all_validations appends, given the flake check's outcome. The run completes exactly when the flake check did not raise. The first two checks' entries always begin both lists, and they are all that is recorded when it raised. |
| ConfigValidation.ExitCode | tests/validate_config.py:215-223 | The status is 0 or 1, and it is 1 exactly when some error was recorded; warnings alone never fail the run. |
| ConfigValidation.ConfigValidator.constructor | tests/validate_config.py:16-35 | A new validator over the repository tree starts with empty error and warning lists. |
| ConfigValidation.ConfigValidator.Error | tests/validate_config.py:37-38 | Appends the prefixed message to the errors and leaves the warnings unchanged. |
| ConfigValidation.ConfigValidator.Warning | tests/validate_config.py:40-41 | Appends the prefixed message to the warnings and leaves the errors unchanged. |
| ConfigValidation.ConfigValidator.Success | tests/validate_config.py:43-44 | Reporting success records nothing. |
| ConfigValidation.ConfigValidator.ValidateFileStructure | tests/validate_config.py:46-65 | Appends exactly the structure check's findings: one error per missing required file, in list order. |
| ConfigValidation.ConfigValidator.ReportMissingFiles | tests/validate_config.py:60-65 | The loop over a list of paths appends one missing-file error per absent path, in order, and no warning. |
| ConfigValidation.ConfigValidator.ValidateNixSyntax | tests/validate_config.py:67-92 | Appends the syntax errors of the files visited before the parser was first found absent. If it was absent at some file, exactly one warning follows and the loop stops there. |
| ConfigValidation.ConfigValidator.ValidateFlakeOutputsAsWritten | tests/validate_config.py:94-121 | As written: raises exactly when `FlakeErrorsAsWritten` has an exception escaping, including when `nix` is missing. Otherwise it appends the errors that function gives. |
| ConfigValidation.ConfigValidator.ReportMissingHosts | tests/validate_config.py:114-118 | The loop over the host names appends one missing-configuration error per name that `in` rejects, in order. |
| ConfigValidation.ConfigValidator.ValidateFlakeOutputs | tests/validate_config.py:94-121 | Corrected: a missing `nix` is recorded as one caught error. Every other outcome behaves exactly as written. |
| ConfigValidation.ConfigValidator.ValidateGamingSeparation | tests/validate_config.py:123-141 | Appends exactly the gaming check's findings: a warning per gaming package named in the work-wsl configuration, then an error if it names gaming.nix. It records nothing when that file is absent. |
| ConfigValidation.ConfigValidator.WarnGamingPackages | tests/validate_config.py:134-136 | The loop over the package names appends one warning per name that occurs in the content, in order, and no error. |
| ConfigValidation.ConfigValidator.ValidateCommonImports | tests/validate_config.py:143-158 | Appends exactly the import check's findings: one error per existing host configuration without the base-module import. |
| ConfigValidation.ConfigValidator.ReportMissingImports | tests/validate_config.py:151-158 | The loop over the host configuration paths appends, in order, an error for each existing file lacking the import. |
| ConfigValidation.ConfigValidator.CheckImport | tests/validate_config.py:152-158 | A missing file is skipped. An existing one gets an error exactly when it lacks the base-module import. |
| ConfigValidation.ConfigValidator.ValidateRebuildScript | tests/validate_config.py:160-176 | Appends exactly the rebuild-script check's findings. |
| ConfigValidation.ConfigValidator.ValidatePolicies | tests/validate_config.py:191-197 | The gaming, import and rebuild checks in order append exactly their three findings. |
| ConfigValidation.ConfigValidator.RunAllValidationsAsWritten | tests/validate_config.py:178-223 | run_all_validations as written: the six checks in order with the flake check as written. A missing `nix`, or an output shape the check raises on (`RaisesOnShape`), ends the run there with `Raised`. Otherwise it appends the combined findings and returns the exit status of the final lists. |
| ConfigValidation.ConfigValidator.RunAllValidations | tests/validate_config.py:178-223 | Corrected run_all_validations: the same, but with the corrected flake check. A missing `nix` is one error, and the run goes on to the policy checks and the summary. It raises only on an unexpected output shape. |
| ValidationProperties.MissingFilesCounted | tests/validate_config.py:60-63 | Over any list of paths: as many errors as positions holding an absent path. |
| ValidationProperties.MissingFileNamed | tests/validate_config.py:60-63 | Over any list of paths: the error naming a path is present exactly when the path is listed and absent. |
| ValidationProperties.StructureErrorPerMissingFile | tests/validate_config.py:46-65 | One error per missing required file and no warning. |
| ValidationProperties.StructureErrorNamesMissingFile | tests/validate_config.py:46-65 | The error naming a path is recorded exactly when the path is one of the nine required files and is missing. |
| ValidationProperties.RequiredFilesDistinct | tests/validate_config.py:48-58 | No required path is listed twice. |
| ValidationProperties.SingleMissingFile | tests/validate_config.py:60-63 | Over a list without repetitions where only one listed path is absent: exactly that path's error. |
| ValidationProperties.OneMissingFile | tests/validate_config.py:46-65 | A tree missing exactly one required file gets exactly one error, naming that file. |
| ValidationProperties.NoMissingFile | tests/validate_config.py:46-65 | A tree with every required file gets nothing from this check. |
| ValidationProperties.SyntaxNoFiles | tests/validate_config.py:67-92 | No `.nix` file: nothing recorded. |
| ValidationProperties.SyntaxToolAbsentAtFirst | tests/validate_config.py:90-92 | With the parser absent at the first file: one warning and nothing else, however many files there are. |
| ValidationProperties.SyntaxWarnsOnceOnAbsence | tests/validate_config.py:90-92 | At most one warning, and one exactly when the parser is absent for some file. The warning is the fixed skipping message. |
| ValidationProperties.SyntaxErrorPerFailure | tests/validate_config.py:77-89 | One error per file with a non-zero parser exit before the parser was first found absent. |
| ValidationProperties.SyntaxErrorNamed | tests/validate_config.py:77-92 | An entry is a syntax error exactly when some file visited before the parser was first found missing exited non-zero, and the entry is "Syntax error in <file>: <stderr>" for that file. |
| ValidationProperties.SyntaxToolAvailable | tests/validate_config.py:77-89 | With the parser present for every file: no warning, and one error per file that fails to parse. |
| ValidationProperties.SyntaxAllAccepted | tests/validate_config.py:86-89 | No run in the list failed (including any after the parser went missing): no error. |
| ValidationProperties.SyntaxDuplicateReportedTwice | tests/validate_config.py:70-87 | A failed run of a file visited at two positions before the loop stops, wherever they sit in the list, puts its error at two distinct positions of the error list. |
| ValidationProperties.FlakeCommandFailed | tests/validate_config.py:104-106 | A non-zero exit of `nix flake show` gives one error carrying its standard error, whatever its output. |
| ValidationProperties.FlakeOutputMalformed | tests/validate_config.py:108-121 | Output that does not decode gives one error carrying the decoder's message. |
| ValidationProperties.MissingHostsCounted | tests/validate_config.py:114-118 | Over any list of host names: as many errors as positions holding a name that `in` rejects. |
| ValidationProperties.MissingHostNamed | tests/validate_config.py:114-118 | Over any list of host names: the error naming a host is present exactly when it is listed and rejected. |
| ValidationProperties.FlakeErrorPerMissingHost | tests/validate_config.py:108-118 | Decoded output that is an object whose `nixosConfigurations` (or the `{}` default) is an object, array or string: the check completes, with one error per expected host that `in` rejects, naming exactly those hosts. |
| ValidationProperties.FlakeAllHostsDeclared | tests/validate_config.py:111-118 | Decoded output declaring all three hosts: no error. |
| ValidationProperties.FlakeWithoutConfigurations | tests/validate_config.py:112 | Without a `nixosConfigurations` key, the default `{}` makes all three hosts missing, reported in order. |
| ValidationProperties.GamingWithoutWorkConfig | tests/validate_config.py:131-132 | Without a work-wsl configuration the gaming check records nothing. |
| ValidationProperties.PackageWarningsCounted | tests/validate_config.py:134-136 | Over any list of package names: as many warnings as positions holding a name the content mentions. |
| ValidationProperties.PackageWarningNamed | tests/validate_config.py:134-136 | Over any list of package names: the warning naming a package is present exactly when the name is listed and mentioned. |
| ValidationProperties.GamingWarningPerPackage | tests/validate_config.py:125-136 | One warning per gaming package named in the work-wsl configuration. |
| ValidationProperties.GamingWarningNamesPackage | tests/validate_config.py:125-136 | The warning naming a package is recorded exactly when it is one of the six gaming packages and the configuration names it. |
| ValidationProperties.GamingModuleIsError | tests/validate_config.py:138-141 | At most one gaming error, recorded exactly when the work-wsl configuration mentions gaming.nix. |
| ValidationProperties.GamingPackageWithoutModule | tests/validate_config.py:134-141 | Naming a gaming package such as steam without importing gaming.nix gives that package's warning and no error. |
| ValidationProperties.MissingImportsCounted | tests/validate_config.py:151-158 | Over any list of paths: as many errors as positions holding an existing file without the base-module import. |
| ValidationProperties.MissingImportNamed | tests/validate_config.py:151-158 | Over any list of paths: the error naming a path is present exactly when it is listed, exists and lacks the import. |
| ValidationProperties.ImportErrorPerHost | tests/validate_config.py:143-158 | One error per existing host configuration lacking the import; no warning. |
| ValidationProperties.ImportErrorNamesHost | tests/validate_config.py:143-158 | The error naming a path is recorded exactly when it is a host configuration that exists and lacks the import. A missing one is silently skipped. |
| ValidationProperties.AllHostsImportBase | tests/validate_config.py:143-158 | Every host configuration present and importing the base module: nothing recorded. |
| ValidationProperties.RebuildScriptOutcome | tests/validate_config.py:160-176 | A missing script gives only "rebuild.sh not found". A present one gets a warning exactly when it is not executable and an error exactly when it lacks `detect_host()`. |
| ValidationProperties.RunFailsIffSomeCheckErrs | tests/validate_config.py:178-223 | A completed run returns 1 exactly when one of the six checks recorded an error. |
| ValidationProperties.RunFailsIffSomeCheckErrsAsWritten | tests/validate_config.py:178-223 | For the code as written too, a completed run returns 1 exactly when one of the six checks recorded an error. |
| ValidationProperties.HealthyRepositoryPasses | tests/validate_config.py:178-223 | A repository that follows every rule, with a passing or absent parser and a flake declaring all hosts, completes with no error and status 0. |
| ValidationProperties.NixAbsenceAbortsRun | tests/validate_config.py:94-198 | As written, a missing `nix` raises out of the flake check. The run does not complete, and only the first two checks' findings are recorded. |
| ValidationProperties.NixAbsenceRecorded | tests/validate_config.py:120-223 | Corrected, a missing `nix` is one recorded error, the later checks still run, and the run completes with status 1. |

## Left out

- **Root detection:** finding the repository root (`tests/validate_config.py:16-31`) depends on the
  location of the script and the working directory. The model takes the tree itself as the input.
- **Console output:** the console lines (`print`, the `✅` messages, the summary at 200-213) are
  output only. `Success` records nothing.
- **Subprocesses:** `nix-instantiate` and `nix flake show` are not run. Their outcomes are inputs:
  a missing executable, or the exit code with the output and standard error.
- **JSON decoding:** this is an input, decoded or malformed with the decoder's message. `Json`
  numbers and booleans carry no payload, because `in` only distinguishes their kind.
- **Glob expansion and filtering:** `*.nix` and `**/*.nix`, and the `parents` filter (70-75), depend
  on the real directory tree. The syntax check takes the expanded list, as root-relative paths.
- **Directories:** a path that exists as a directory, which `exists()` accepts, is not modelled.
  Neither is a file that cannot be read or decoded by `read_text`; that would raise.
- **Other operating-system failures:** errors other than a missing executable, such as permission
  errors from `subprocess.run` or `os.access`, are not modelled.
- **Program exit:** the `__main__` block and `sys.exit` (225-227) only turn the returned status
  into the exit code. An escaped exception is `Raised`, which ends the interpreter with status 1.

## Findings

| source | as written | input that shows it | evidently intended | confidence | as-written member | corrected member |
|---|---|---|---|---|---|---|
| tests/validate_config.py:96-121 | `subprocess.run(["nix", ...])` raises `FileNotFoundError` when `nix` is not installed. That is neither `SubprocessError` nor `JSONDecodeError`, so it escapes `validate_flake_outputs` and `run_all_validations`. The gaming, import and rebuild checks and the summary never run. | the flake run `NixNotFound` (no `nix` on the PATH) | The failure is caught like other flake failures, as the syntax check does for `nix-instantiate`, and recorded as "Failed to validate flake outputs: [Errno 2] No such file or directory: 'nix'" while the later checks still run | high, not executed | ConfigValidation.FlakeErrorsAsWritten, ConfigValidation.ConfigValidator.ValidateFlakeOutputsAsWritten, ConfigValidation.ConfigValidator.RunAllValidationsAsWritten, ValidationProperties.NixAbsenceAbortsRun | ConfigValidation.FlakeErrors, ConfigValidation.ConfigValidator.ValidateFlakeOutputs, ConfigValidation.ConfigValidator.RunAllValidations, ValidationProperties.NixAbsenceRecorded |
