# protolake in Dafny

protolake manages *lakes* of Protocol Buffer definitions. A lake is a directory with a `lake.yaml`. It holds *bundles*, each a directory with a `bundle.yaml` and its `.proto` files. The server side, written in Java, does the following:

- **Resource names.** It turns resource names (`lakes/<lake>`, `lakes/<lake>/bundles/<bundle>`) into ids and back.
- **Validation.** Validators check names, paths and configurations.
- **Storage and discovery.** It keeps lakes and bundles in storage and discovers them on disk.
- **Builds.** It runs Bazel builds target by target, and records each build as a long-running operation.
- **Scaffolding.** Initializers scaffold new lakes, bundles and workspaces.

The tooling, written in Python, does the following:

- **Bundlers.** They package the built languages: JAR, wheel, npm and proto-loader packages.
- **Publishers.** They publish those packages to Maven, PyPI and npm registries.
- **Editing and checks.** `pkg_editor.py` edits a workspace's `package.json` and `.gitignore`, and `check_lockfile_generated.py` checks that a lockfile is current.

This project models that core. Its parts take the source's own form:

- **Pure logic** is datatypes and functions with lemmas. This covers id extraction, validation rules, build summaries, version strings, manifests and index files.
- **State the source updates in place** is classes with `modifies` clauses. This covers the operation manager, storage, the build runner's tables and the publishers' repositories.
- **Loops** are methods with invariants, proved against the functions that specify them.

The file system, the external tools (`bazel`, `buf`, `git`, `npm`, `twine`, `java`, `pip`), the clock and the environment are parameters: a map from paths to contents, tool exit codes and outputs, and time values.

## Model

| member | source | states |
|---|---|---|
| LakeUtil.ExtractLakeId | src/main/java/io/vdp/protolake/util/LakeUtil.java:62-67 | a name starting with `lakes/` is that prefix followed by the id; any other name is its own id |
| LakeUtil.ExtractLakeIdOfResourceName | src/main/java/io/vdp/protolake/util/LakeUtil.java:62-74 | every id comes back from its resource name `lakes/<id>` |
| LakeUtil.ResourceNameOfExtractedId | src/main/java/io/vdp/protolake/util/LakeUtil.java:62-74 | every `lakes/…` name is rebuilt from the id extracted from it |
| LakeUtil.RelativeAndLocalPathAgree | src/main/java/io/vdp/protolake/util/LakeUtil.java:25-57 | for a plain prefix and id, the relative path is `prefix/id`, and the local path is that path resolved against the base |
| LakeUtil.ConvertToLakeRelativePath | src/main/java/io/vdp/protolake/util/LakeUtil.java:108-125 | fails exactly when the target is neither the lake's relative path nor below it |
| LakeUtil.ConvertBelowLake | src/main/java/io/vdp/protolake/util/LakeUtil.java:116-119 | a target below the lake converts to the part below the lake |
| LakeUtil.ConvertInverse | src/main/java/io/vdp/protolake/util/LakeUtil.java:108-119 | a converted path put back under the lake gives the original target (`.` stands for the lake itself) |
| LakeUtil.FromProtoTimestamp | src/main/java/io/vdp/protolake/util/LakeUtil.java:89-91 | a successful conversion gives a valid instant with the same total nanoseconds as the timestamp |
| LakeUtil.InstantRoundTrip | src/main/java/io/vdp/protolake/util/LakeUtil.java:79-91 | an instant survives the trip through its timestamp |
| LakeUtil.TimestampRoundTrip | src/main/java/io/vdp/protolake/util/LakeUtil.java:79-91 | a normalised timestamp within Instant's range converts, and comes back unchanged |
| BundleUtil.ExtractBundleIdAsWritten | src/main/java/io/vdp/protolake/util/BundleUtil.java:67-82 | without a `/bundles/` the id is empty; otherwise it is the text between the first and the second `/bundles/` (the second part of the split), wherever the first one lies |
| BundleUtil.ExtractBundleId | src/main/java/io/vdp/protolake/util/BundleUtil.java:64-82 | the evidently intended extractor: it agrees with the extractor as written on every name that does not start with `lakes/` |
| BundleUtil.ExtractLakeIdFromBundle | src/main/java/io/vdp/protolake/util/BundleUtil.java:87-95 | for a `lakes/` name, the text after `lakes/` up to the first `/bundles/`; for any other name, empty |
| BundleUtil.BundleIdRoundTrip | src/main/java/io/vdp/protolake/util/BundleUtil.java:67-102 | the intended extractor inverts `toResourceName` for every lake id without `/` and every bundle id |
| BundleUtil.LakeIdRoundTrip | src/main/java/io/vdp/protolake/util/BundleUtil.java:87-102 | `extractLakeIdFromBundle` inverts `toResourceName` for every lake id without `/` |
| BundleUtil.BundleIdRoundTripOnce | src/main/java/io/vdp/protolake/util/BundleUtil.java:67-102 | when the composed name holds `/bundles/` exactly once, the extractor as written returns the bundle id |
| BundleUtil.LakeIdRoundTripOnce | src/main/java/io/vdp/protolake/util/BundleUtil.java:87-102 | when the composed name holds `/bundles/` exactly once, the lake id comes back |
| BundleUtil.LakeNamedBundles | src/main/java/io/vdp/protolake/util/BundleUtil.java:67-102 | for the valid lake name `bundles`, the extractor as written returns `bundles/<id>` instead of the id |
| BundleUtil.AsWrittenAfterFreeHead | src/main/java/io/vdp/protolake/util/BundleUtil.java:72-75 | when the text before the first `/bundles/` holds none and none follows, the id as written is all of the text after it |
| BundleUtil.LakePartFree | src/main/java/io/vdp/protolake/util/BundleUtil.java:100-102 | `lakes/<lake>` followed by `/bundles` holds no `/bundles/` unless the lake is called `bundles` |
| BundleUtil.BundleIdRoundTripAsWritten | src/main/java/io/vdp/protolake/util/BundleUtil.java:67-102 | as written, the extractor inverts `toResourceName` for every lake id without `/` other than `bundles`, and every bundle id without `/bundles/` |
| BundleUtil.PrefixDirs | src/main/java/io/vdp/protolake/util/BundleUtil.java:29-32 | a plain dotted prefix with `.` replaced by `/` is the relative path of its package directories |
| BundleUtil.ProtoPackageMirrorsPath | src/main/java/io/vdp/protolake/util/BundleUtil.java:119-157 | the full proto package, read as a path, names the prefix's directories followed by the bundle id |
| BundleUtil.BundlePathFromLayout | src/main/java/io/vdp/protolake/util/BundleUtil.java:47-55 | with plain names, the bundle lies in the prefix's directories and then the id, below the given lake path |
| BundleUtil.BundlePathLayout | src/main/java/io/vdp/protolake/util/BundleUtil.java:25-55 | both `calculateBundlePath` overloads give the same directory; with plain names it is the lake path, then the prefix's directories, then the id, so it lies inside the lake |
| BundleUtil.GetBundleYamlPath | src/main/java/io/vdp/protolake/util/BundleUtil.java:60-62 | `bundle.yaml` sits directly in the bundle's directory |
| BundleUtil.GetWorkspaceRelativeTarget | src/main/java/io/vdp/protolake/util/BundleUtil.java:139-141 | the target is `//`, then the workspace path, then `/...` |
| BundleUtil.WorkspacePathLayout | src/main/java/io/vdp/protolake/util/BundleUtil.java:112-129 | with plain names, the workspace path is the lake's names, the prefix's parts and the id, joined by `/` |
| PathValidation.PackagePrefixToPath | src/main/java/io/vdp/protolake/util/PathValidationUtil.java:22-27 | the path has the prefix's length and holds no dot |
| PathValidation.PathToPackagePrefix | src/main/java/io/vdp/protolake/util/PathValidationUtil.java:36-42 | the prefix has the path's length and holds no slash and no backslash |
| PathValidation.PrefixRoundTrip | src/main/java/io/vdp/protolake/util/PathValidationUtil.java:22-42 | a prefix without separators survives the trip through its path |
| PathValidation.PathRoundTrip | src/main/java/io/vdp/protolake/util/PathValidationUtil.java:22-42 | a path without dots and backslashes survives the trip through its prefix |
| PathValidation.StripJoinedName | src/main/java/io/vdp/protolake/util/PathValidationUtil.java:103-106 | removing `/<name>` from the end of joined names leaves the other names joined |
| PathValidation.BundlePrefixOfLayout | src/main/java/io/vdp/protolake/util/PathValidationUtil.java:75-87 | a bundle placed below its lake by its prefix gets that prefix back from `calculateBundlePrefix`, and `validateBundlePrefix` accepts it |
| PathValidation.ExpectedLakeLayout | src/main/java/io/vdp/protolake/util/PathValidationUtil.java:56-60 | a plain lake prefix puts the lake its names, then the lake name, below the base |
| PathValidation.LakePrefixOfLayout | src/main/java/io/vdp/protolake/util/PathValidationUtil.java:53-117 | a lake placed below the base by its prefix gets that prefix back from `calculateLakePrefix`, and `validateLakePrefix` accepts it |
| BranchVersion.StripBranchPrefix | src/main/java/io/vdp/protolake/util/git/BranchVersionManager.java:113-120 | the result is a suffix of the branch; a branch that starts with none of the prefixes is unchanged |
| BranchVersion.FirstPrefixStripped | src/main/java/io/vdp/protolake/util/git/BranchVersionManager.java:22-24 | a branch behind one of `feature/`, `bugfix/`, `hotfix/`, `release/`, `develop/` loses exactly that prefix, even when another prefix follows |
| BranchVersion.ReplaceInvalid | src/main/java/io/vdp/protolake/util/git/BranchVersionManager.java:122-123 | same length; each character outside `[a-zA-Z0-9._-]` becomes `-` and every other one stays |
| BranchVersion.CollapseHyphens | src/main/java/io/vdp/protolake/util/git/BranchVersionManager.java:128-129 | no longer than the input; keeps the first and the last character |
| BranchVersion.CollapseNoDouble | src/main/java/io/vdp/protolake/util/git/BranchVersionManager.java:128-129 | no two hyphens in a row are left |
| BranchVersion.CollapseKeepsOthers | src/main/java/io/vdp/protolake/util/git/BranchVersionManager.java:128-129 | only hyphens are removed: the other characters stay, in order |
| BranchVersion.CollapseVersionChars | src/main/java/io/vdp/protolake/util/git/BranchVersionManager.java:128-129 | no character outside `[a-zA-Z0-9._-]` appears |
| BranchVersion.CollapseSingle | src/main/java/io/vdp/protolake/util/git/BranchVersionManager.java:128-129 | a text without runs of hyphens is unchanged |
| BranchVersion.Truncate | src/main/java/io/vdp/protolake/util/git/BranchVersionManager.java:131-136 | a prefix of at most 30 characters; a short text is unchanged; a cut text loses a trailing hyphen; the alphabet and the absence of hyphen runs are kept |
| BranchVersion.TrimLeadingHyphens | src/main/java/io/vdp/protolake/util/git/BranchVersionManager.java:125-126 | a suffix of the input that does not start with a hyphen |
| BranchVersion.TrimTrailingHyphens | src/main/java/io/vdp/protolake/util/git/BranchVersionManager.java:125-126 | a prefix of the input that does not end with a hyphen |
| BranchVersion.LowerSuffix | src/main/java/io/vdp/protolake/util/git/BranchVersionManager.java:143 | lower-casing a shaped text gives the output alphabet `[a-z0-9._-]` |
| BranchVersion.ShapeSteps | src/main/java/io/vdp/protolake/util/git/BranchVersionManager.java:122-136 | trimming, collapsing and cutting a text in the version alphabet leaves either nothing or 1 to 30 characters of `[a-z0-9._-]`, with no hyphen at either end and no two hyphens in a row (before lower-casing) |
| BranchVersion.ShapeSuffix | src/main/java/io/vdp/protolake/util/git/BranchVersionManager.java:125-141 | after the default `unknown`, the text is always 1 to 30 characters of `[a-z0-9._-]`, with no hyphen at either end and no two hyphens in a row (before lower-casing) |
| BranchVersion.SanitizeShortened | src/main/java/io/vdp/protolake/util/git/BranchVersionManager.java:122-143 | the passes after the prefix removal always give 1 to 30 characters of `[a-z0-9._-]`, with no hyphen at either end and no two hyphens in a row |
| BranchVersion.SanitizeBranchName | src/main/java/io/vdp/protolake/util/git/BranchVersionManager.java:108-144 | every branch, the empty one included, sanitises to 1 to 30 characters of `[a-z0-9._-]`, with no hyphen at either end and no two hyphens in a row |
| BranchVersion.NoBranchPrefix | src/main/java/io/vdp/protolake/util/git/BranchVersionManager.java:113-120 | no branch prefix starts a text without slashes |
| BranchVersion.ShapeKeepsSuffix | src/main/java/io/vdp/protolake/util/git/BranchVersionManager.java:125-141 | the shaping passes leave a shaped text alone |
| BranchVersion.SanitizeSuffix | src/main/java/io/vdp/protolake/util/git/BranchVersionManager.java:108-144 | a sanitised branch is its own sanitisation |
| BranchVersion.SuffixKeptByPasses | src/main/java/io/vdp/protolake/util/git/BranchVersionManager.java:122-143 | replacing invalid characters and lower-casing leave a sanitised branch alone |
| BranchVersion.SanitizeIdempotent | src/main/java/io/vdp/protolake/util/git/BranchVersionManager.java:108-144 | sanitising twice gives the same as sanitising once |
| BranchVersion.BranchSuffix | src/main/java/io/vdp/protolake/util/git/BranchVersionManager.java:38-43 | the suffix, with an empty branch counted as `main`, is 1 to 30 characters of `[a-z0-9._-]`, with no hyphen at either end and no two hyphens in a row |
| BranchVersion.GetVersionWithBranch | src/main/java/io/vdp/protolake/util/git/BranchVersionManager.java:33-52 | fails exactly for an empty base version; otherwise the result is the base, a hyphen, and a sanitised suffix |
| BranchVersion.ExtractBaseVersion | src/main/java/io/vdp/protolake/util/git/BranchVersionManager.java:60-77 | when the result differs from the input, it holds a dot and is followed in the input by a hyphen and a text without hyphens |
| BranchVersion.ExtractBranch | src/main/java/io/vdp/protolake/util/git/BranchVersionManager.java:85-100 | a returned branch is non-empty and has no hyphen, and the base, a hyphen and the branch rebuild the input |
| BranchVersion.ExtractLastSegment | src/main/java/io/vdp/protolake/util/git/BranchVersionManager.java:60-154 | a version `head-tail` whose head holds a dot and whose non-empty tail has no hyphen splits back into head and tail, and so has a branch suffix |
| BranchVersion.BranchRoundTrip | src/main/java/io/vdp/protolake/util/git/BranchVersionManager.java:33-100 | for a plain `X.Y.Z` base and a suffix without hyphens, both the base and the suffix come back |
| BranchVersion.BranchLastSegment | src/main/java/io/vdp/protolake/util/git/BranchVersionManager.java:33-100 | when the suffix holds hyphens, only its last segment comes back as the branch, and the rest stays with the base |
| BranchVersion.SuffixLastSegment | src/main/java/io/vdp/protolake/util/git/BranchVersionManager.java:60-100 | a version with a hyphenated suffix splits at the suffix's last hyphen |
| BranchVersion.ValidVersionOfParts | src/main/java/io/vdp/protolake/util/git/BranchVersionManager.java:162-174 | a plain version is valid, and a plain version with a suffix is valid exactly when the suffix is a non-empty run of version characters |
| BranchVersion.VersionWithBranchIsValid | src/main/java/io/vdp/protolake/util/git/BranchVersionManager.java:33-174 | every version built on a plain base is valid for package managers |
| ValidationExceptions.NewValidationException | src/main/java/io/vdp/protolake/storage/ValidationException.java:12-15 | the exception keeps the errors as given, and its message starts with the summary and `": "` |
| ValidationExceptions.SingleError | src/main/java/io/vdp/protolake/storage/ValidationException.java:17-19 | a single error gives the list holding just it, and the message summary, `": "`, error |
| ValidationExceptions.MessageListsErrors | src/main/java/io/vdp/protolake/storage/ValidationException.java:12-28 | errors without commas are read back in order from the message after the summary, by splitting at `", "` |
| ValidationModel.ErrorBuilder.constructor | src/main/java/io/vdp/protolake/model/ValidationError.java:66-72 | a new builder has no file or message, line and column 0, type LINT and severity WARNING |
| ValidationModel.ErrorBuilder.SetFile | src/main/java/io/vdp/protolake/model/ValidationError.java:74-77 | sets the file and leaves every other field as it was |
| ValidationModel.ErrorBuilder.SetLine | src/main/java/io/vdp/protolake/model/ValidationError.java:79-82 | sets the line and leaves every other field as it was |
| ValidationModel.ErrorBuilder.SetColumn | src/main/java/io/vdp/protolake/model/ValidationError.java:84-87 | sets the column and leaves every other field as it was |
| ValidationModel.ErrorBuilder.SetMessage | src/main/java/io/vdp/protolake/model/ValidationError.java:89-92 | sets the message and leaves every other field as it was |
| ValidationModel.ErrorBuilder.SetType | src/main/java/io/vdp/protolake/model/ValidationError.java:94-97 | sets the type and leaves every other field as it was |
| ValidationModel.ErrorBuilder.SetSeverity | src/main/java/io/vdp/protolake/model/ValidationError.java:99-102 | sets the severity and leaves every other field as it was |
| ValidationModel.ErrorBuilder.Build | src/main/java/io/vdp/protolake/model/ValidationError.java:29-36 | the error carries all six fields as the builder holds them |
| ValidationModel.ErrorCount | src/main/java/io/vdp/protolake/model/ValidationErrors.java:23-29 | the count is zero exactly when the list has no errors |
| ValidationModel.ErrorsBuilder.constructor | src/main/java/io/vdp/protolake/model/ValidationErrors.java:36 | a new builder holds no errors |
| ValidationModel.ErrorsBuilder.AddError | src/main/java/io/vdp/protolake/model/ValidationErrors.java:38-41 | appends the error at the end |
| ValidationModel.ErrorsBuilder.AddAllErrors | src/main/java/io/vdp/protolake/model/ValidationErrors.java:43-46 | appends the errors at the end, in order |
| ValidationModel.ErrorsBuilder.Build | src/main/java/io/vdp/protolake/model/ValidationErrors.java:15-17 | the built list holds the builder's errors as they are now |
| ValidationModel.BuildTwice | src/main/java/io/vdp/protolake/model/ValidationErrors.java:15-50 | a list built from one batch holds that batch; building again after more additions gives both batches and leaves the first list as it was (a copy, not a view) |
| ValidationModel.ResultBuilder.constructor | src/main/java/io/vdp/protolake/model/ValidationResult.java:37-40 | a new builder has success false and no errors or metadata |
| ValidationModel.ResultBuilder.SetSuccess | src/main/java/io/vdp/protolake/model/ValidationResult.java:42-45 | sets success and leaves the rest as it was |
| ValidationModel.ResultBuilder.SetErrors | src/main/java/io/vdp/protolake/model/ValidationResult.java:47-50 | sets the errors and leaves the rest as it was |
| ValidationModel.ResultBuilder.SetMetadata | src/main/java/io/vdp/protolake/model/ValidationResult.java:52-55 | sets the metadata and leaves the rest as it was |
| ValidationModel.ResultBuilder.Build | src/main/java/io/vdp/protolake/model/ValidationResult.java:15-19 | success and metadata pass through; unset errors become an empty list |
| BundleValidator.NameErrors | src/main/java/io/vdp/protolake/validator/BundleValidator.java:57-65 | an empty id gives exactly "Bundle name is required"; a non-empty id gives no error exactly when it matches `[a-zA-Z0-9_]+`, and at most one error |
| BundleValidator.PrefixErrors | src/main/java/io/vdp/protolake/validator/BundleValidator.java:80-86 | no error exactly when the prefix is blank after trimming or is dotted identifiers (`[a-zA-Z][a-zA-Z0-9_]*` separated by single dots); at most one error |
| BundleValidator.VersionErrors | src/main/java/io/vdp/protolake/validator/BundleValidator.java:88-91 | no error exactly when the version is empty or is `digits.digits.digits`; at most one error |
| BundleValidator.JavaErrors | src/main/java/io/vdp/protolake/validator/BundleValidator.java:143-153 | no error exactly when a disabled Java config, or an enabled one with a non-blank group id and artifact id; at most two errors |
| BundleValidator.PythonErrors | src/main/java/io/vdp/protolake/validator/BundleValidator.java:155-162 | no error exactly when Python is disabled or names a non-blank package |
| BundleValidator.JavaScriptErrors | src/main/java/io/vdp/protolake/validator/BundleValidator.java:164-170 | no error exactly when JavaScript is disabled or names a non-blank package |
| BundleValidator.ConfigErrors | src/main/java/io/vdp/protolake/validator/BundleValidator.java:136-172 | no error exactly when every configured language that is enabled names its package (an absent config or language set is not read); at most four errors |
| BundleValidator.ValidateBundlePath | src/main/java/io/vdp/protolake/validator/BundleValidator.java:101-134 | appends the path errors to the caller's list, and nothing else |
| BundleValidator.ValidateConfig | src/main/java/io/vdp/protolake/validator/BundleValidator.java:136-172 | appends the config errors to the caller's list, and nothing else |
| BundleValidator.Validate | src/main/java/io/vdp/protolake/validator/BundleValidator.java:48-99 | throws nothing exactly when the rules (id, lake, prefix, version, config, in that order) find no error; otherwise throws "Bundle validation failed" carrying every error in rule order |
| BundleValidator.PrefixConsistencyNeverFires | src/main/java/io/vdp/protolake/validator/BundleValidator.java:178-190 | the prefix-consistency rule never adds an error, because the path it checks is built from the prefix it checks against |
| BundleValidator.PathErrorsIffOutside | src/main/java/io/vdp/protolake/validator/BundleValidator.java:101-134 | the path rules add exactly one error when the bundle lies outside its lake, and none otherwise |
| BundleValidator.WellFormedBundleAccepted | src/main/java/io/vdp/protolake/validator/BundleValidator.java:48-99 | a bundle `lakes/<lake>/bundles/<id>` is accepted when it has a word id, a stored lake without `/` not called `bundles`, an empty or dotted-identifier prefix, an empty or `X.Y.Z` version and named packages for its enabled languages |
| BundleValidator.LakeNamedBundlesRejected | src/main/java/io/vdp/protolake/validator/BundleValidator.java:52-65 | a bundle of a lake called `bundles` is refused whatever its id, with the invalid-name error |
| BundleValidator.LakeNamedBundleIdInvalid | src/main/java/io/vdp/protolake/validator/BundleValidator.java:52-65 | the id read back from `lakes/bundles/bundles/<id>` fails the name rule |
| BundleValidator.AcceptedBundleWellFormed | src/main/java/io/vdp/protolake/validator/BundleValidator.java:48-99 | a bundle that passes every rule has a word id, a stored lake it lies inside, an acceptable prefix and version, and named packages for its enabled languages |
| LakeValidator.NameErrors | src/main/java/io/vdp/protolake/validator/LakeValidator.java:44-50 | an empty id gives exactly "Lake name is required"; a non-empty id gives no error exactly when it matches `[a-zA-Z0-9_]+`, and at most one error |
| LakeValidator.ScanFrom | src/main/java/io/vdp/protolake/validator/LakeValidator.java:85-93 | walking up from an ancestor to the root finds the deepest ancestor that holds a `lake.yaml`, and finds nothing when none of them does |
| LakeValidator.NestedLakeScan | src/main/java/io/vdp/protolake/validator/LakeValidator.java:85-93 | the walk from the lake's parent reports the closest ancestor below the root that holds a `lake.yaml`; it reports nothing exactly when no directory strictly between the root and the lake holds one |
| LakeValidator.LocalPathErrors | src/main/java/io/vdp/protolake/validator/LakeValidator.java:71-99 | the path rules as evidently intended, applied to the lake's own directory: at most one error (the first failing rule returns) |
| LakeValidator.LocalPathAccepted | src/main/java/io/vdp/protolake/validator/LakeValidator.java:71-99 | intended path rules: a lake below the root passes exactly when it lies inside the root, no directory between them holds a `lake.yaml`, and its own path is free or a directory |
| LakeValidator.CheckedPathAsWritten | src/main/java/io/vdp/protolake/validator/LakeValidator.java:72-77 | the path checked is absolute or lies under the workspace root |
| LakeValidator.LocalPathErrorsAsWritten | src/main/java/io/vdp/protolake/validator/LakeValidator.java:71-99 | the path rules as written, applied to the re-resolved path: at most one error |
| LakeValidator.ValidateLocalPath | src/main/java/io/vdp/protolake/validator/LakeValidator.java:71-99 | appends the as-written path errors to the caller's list, and nothing else |
| LakeValidator.AbsoluteBaseAgrees | src/main/java/io/vdp/protolake/validator/LakeValidator.java:74-77 | under an absolute base path, the extra resolution changes nothing: the rules as written and as intended report the same |
| LakeValidator.RelativeBaseDoubled | src/main/java/io/vdp/protolake/validator/LakeValidator.java:53-77 | under a relative base path and prefix, the path checked holds the base's names twice |
| LakeValidator.NestedLakeMissedAsWritten | src/main/java/io/vdp/protolake/validator/LakeValidator.java:71-93 | lake `ws/p/l` below the lake `ws/p` passes the rules as written, while the intended rules report the nested lake `ws/p` |
| LakeValidator.PrefixConsistencyNeverFires | src/main/java/io/vdp/protolake/validator/LakeValidator.java:118-130 | the prefix-consistency rule never adds an error, because the path it checks is built from the prefix it checks against |
| LakeValidator.ModuleBazelErrors | src/main/java/io/vdp/protolake/validator/LakeValidator.java:101-112 | no error exactly when `module_bazel` is absent or names non-blank protobuf and gRPC versions; each message appears exactly when its version is blank |
| LakeValidator.ConfigErrors | src/main/java/io/vdp/protolake/validator/LakeValidator.java:59-64 | a missing config gives exactly "Lake configuration is required"; a present one gives its `module_bazel` errors |
| LakeValidator.ValidateConfig | src/main/java/io/vdp/protolake/validator/LakeValidator.java:101-112 | appends the `module_bazel` errors to the caller's list, and nothing else |
| LakeValidator.Validate | src/main/java/io/vdp/protolake/validator/LakeValidator.java:41-69 | throws nothing exactly when the rules (name, path, prefix, config, in that order) find no error; otherwise throws "Lake validation failed" carrying every error in rule order |
| LakeValidator.WellFormedLakeAccepted | src/main/java/io/vdp/protolake/validator/LakeValidator.java:41-69 | a lake `lakes/<id>` is accepted when it has a word id and a relative prefix, no `lake.yaml` lies between the base and the checked path, that path is not a regular file, and the config names its `module_bazel` versions |
| LakeValidator.CheckedUnderBase | src/main/java/io/vdp/protolake/validator/LakeValidator.java:74-83 | the path checked for a lake below the base lies below the base too |
| LakeValidator.LakeUnderBase | src/main/java/io/vdp/protolake/util/LakeUtil.java:25-37 | a lake with a relative prefix and a plain id lies strictly below the base |
| LakeValidator.AcceptedLakeWellFormed | src/main/java/io/vdp/protolake/validator/LakeValidator.java:41-69 | a lake that passes every rule has a word id; its checked path lies inside the root with no lake between; it has a config naming its `module_bazel` versions |
| Storage.DropLakeBundles | src/main/java/io/vdp/protolake/storage/SqliteStorageService.java:95-101 | after deleting a lake, exactly the bundles of other lakes remain, unchanged (the cascading foreign key) |
| Storage.KeepListed | src/test/java/io/vdp/protolake/storage/SqliteStorageServiceTest.java:451-468 | after removing stale bundles, the lake keeps exactly its listed bundles, and other lakes keep all of theirs, unchanged |
| Storage.Store.constructor | src/main/java/io/vdp/protolake/storage/SqliteStorageService.java:77-128 | a new store has empty lakes and bundles tables |
| Storage.Store.GetLake | src/main/java/io/vdp/protolake/storage/SqliteStorageService.java:178-198 | a lake is found exactly when its id is stored, and it is the stored lake |
| Storage.Store.GetBundle | src/main/java/io/vdp/protolake/storage/SqliteStorageService.java:315-336 | a bundle is found exactly when its lake id and bundle id are stored, and it is the stored bundle |
| Storage.Store.CreateLake | src/main/java/io/vdp/protolake/storage/SqliteStorageService.java:141-175 | a lake the validator refuses gives the validation error and changes nothing; an id already stored gives "Lake already exists: <id>" and changes nothing; otherwise the lake is stored under its id and returned; the bundles are untouched |
| Storage.Store.DeleteLake | src/main/java/io/vdp/protolake/storage/SqliteStorageService.java:256-276 | reports whether the lake was stored, removes it, and removes its bundles by the cascade |
| Storage.Store.CreateBundle | src/main/java/io/vdp/protolake/storage/SqliteStorageService.java:281-312 | a bundle the validator refuses against the stored lakes gives the validation error and changes nothing; a key already stored fails the insert with "Failed to create bundle: <name>"; otherwise the bundle is stored under its lake id and its id as written |
| Storage.Store.DeleteBundle | src/main/java/io/vdp/protolake/storage/SqliteStorageService.java:399-419 | reports whether the bundle was stored and removes exactly that key |
| Storage.Store.RemoveStaleBundles | src/main/java/io/vdp/protolake/storage/BundleDiscoveryService.java:330-334 | the lake keeps only the bundles whose ids are listed; the lakes table is untouched |
| LakeDiscovery.ParseModuleBazel | src/main/java/io/vdp/protolake/storage/LakeDiscoveryService.java:170-185 | a module block is set exactly when `versions.bazel_deps` holds one of `protobuf`, `grpc`, `rules_proto_grpc`; each field is the key's value, or empty when the key is absent |
| LakeDiscovery.ParseLakeConfig | src/main/java/io/vdp/protolake/storage/LakeDiscoveryService.java:160-188 | the config's module versions are those of `bazel_deps`; no language defaults and no validation block are read |
| LakeDiscovery.OrganizationCopied | src/main/java/io/vdp/protolake/storage/LakeDiscoveryService.java:164-167 | the organization reads as the YAML value, or as empty when it is absent |
| LakeDiscovery.ParsedConfigValidates | src/main/java/io/vdp/protolake/storage/LakeDiscoveryService.java:160-188 | a discovered config passes the lake validator exactly when it names no module version, or names non-blank protobuf and gRPC versions |
| LakeDiscovery.ParseLake | src/main/java/io/vdp/protolake/storage/LakeDiscoveryService.java:98-106 | a lake comes out exactly when the file parsed and names a non-empty lake |
| LakeDiscovery.ParsedLake | src/main/java/io/vdp/protolake/storage/LakeDiscoveryService.java:131-148 | the parsed lake's id and display name are the YAML name; the description is empty; creation and update time are one reading; the config is always present, so "configuration is required" never fires |
| LakeDiscovery.DiscoveredLakePrefixOfLayout | src/main/java/io/vdp/protolake/storage/LakeDiscoveryService.java:109-128 | a lake found where its plain prefix puts it gets that prefix, whether the YAML states it or leaves it out, and the prefix validates |
| LakeDiscovery.ParseEachLake | src/main/java/io/vdp/protolake/storage/LakeDiscoveryService.java:69-80 | one parse result per `lake.yaml` file, in walk order |
| LakeDiscovery.SkippedLakeFileIgnored | src/main/java/io/vdp/protolake/storage/LakeDiscoveryService.java:71-79 | a file that fails to parse or names no lake is passed over; a named one contributes its lake in its place |
| LakeDiscovery.DiscoverLakes | src/main/java/io/vdp/protolake/storage/LakeDiscoveryService.java:59-88 | nothing when the search path does not exist; otherwise the lakes parsed from the walk's `lake.yaml` files, in order |
| LakeDiscovery.LakeIds | src/main/java/io/vdp/protolake/storage/LakeDiscoveryService.java:221-223 | one id per lake, read from its name |
| LakeDiscovery.KeepLakes | src/main/java/io/vdp/protolake/storage/LakeDiscoveryService.java:266-280 | after removing stale entries, exactly the stored lakes whose ids were discovered remain, unchanged |
| LakeDiscovery.KeepLakeBundles | src/main/java/io/vdp/protolake/storage/LakeDiscoveryService.java:266-280 | the bundles of the removed lakes go with them, and the others stay unchanged |
| LakeDiscovery.Remaining | src/main/java/io/vdp/protolake/storage/LakeDiscoveryService.java:270-276 | while stale lakes are deleted, the listed lakes and the stale ones not yet deleted stay |
| LakeDiscovery.RemainingBundles | src/main/java/io/vdp/protolake/storage/LakeDiscoveryService.java:270-276 | while stale lakes are deleted, the bundles of the remaining lakes stay |
| LakeDiscovery.DeleteStale | src/main/java/io/vdp/protolake/storage/LakeDiscoveryService.java:272-275 | deleting one stale lake takes it, and its bundles, out of what remains |
| LakeDiscovery.RemoveStaleEntries | src/main/java/io/vdp/protolake/storage/LakeDiscoveryService.java:266-280 | every stored lake whose id was not discovered is deleted with its bundles; the others stay |
| LakeDiscovery.RefreshLake | src/main/java/io/vdp/protolake/storage/LakeDiscoveryService.java:229-251 | one turn: delete the stored lake if any, create the discovered one, and on success refresh its bundles; reports whether the lake passed validation |
| LakeDiscovery.RefreshLakes | src/main/java/io/vdp/protolake/storage/LakeDiscoveryService.java:213-261 | the tables are those of removing the stale lakes and then refreshing each discovered lake in order; the count is the number of discovered lakes that were created |
| LakeDiscovery.LakesOutcome | src/main/java/io/vdp/protolake/storage/LakeDiscoveryService.java:229-252 | with distinct ids, the refresh loop leaves every other lake alone and stores each discovered lake exactly when it passes, as discovered |
| LakeDiscovery.PassedLakeIdsHas | src/main/java/io/vdp/protolake/storage/LakeDiscoveryService.java:242-244 | the id of a passed lake is among the ids counted |
| LakeDiscovery.PassedLakeIdsFrom | src/main/java/io/vdp/protolake/storage/LakeDiscoveryService.java:242-244 | each id counted is that of a passed lake |
| LakeDiscovery.RefreshedLakes | src/main/java/io/vdp/protolake/storage/LakeDiscoveryService.java:213-261 | after a refresh the store holds exactly the discovered lakes that pass, each as discovered; stale lakes are gone; the count equals the number of lakes stored |
| LakeDiscovery.PassedLakeIdsDistinct | src/main/java/io/vdp/protolake/storage/LakeDiscoveryService.java:228-244 | the ids counted are distinct when the discovered ids are |
| BundleDiscovery.EpochMilliValid | src/main/java/io/vdp/protolake/storage/BundleDiscoveryService.java:184-186 | every `long` modification time in milliseconds makes a valid instant (and so a valid timestamp), and the instant gives the milliseconds back |
| BundleDiscovery.GetOrDefault | src/main/java/io/vdp/protolake/storage/BundleDiscoveryService.java:178-181 | `getOrDefault`: the stored value when the key is present, the default otherwise |
| BundleDiscovery.CalculatedPrefixAgrees | src/main/java/io/vdp/protolake/storage/BundleDiscoveryService.java:211-232 | discovery's prefix from the directory is the path utility's prefix, with the search root in place of the lake root |
| BundleDiscovery.CalculatedPrefixOfLayout | src/main/java/io/vdp/protolake/storage/BundleDiscoveryService.java:211-232 | a bundle directory laid out below the search root by a plain prefix and id gives that prefix back |
| BundleDiscovery.YamlPrefix | src/main/java/io/vdp/protolake/storage/BundleDiscoveryService.java:142-145 | `bundle_prefix` when present, else `package_prefix` when present, else nothing |
| BundleDiscovery.ChoosePrefix | src/main/java/io/vdp/protolake/storage/BundleDiscoveryService.java:151-163 | a non-empty YAML prefix wins even when the layout suggests another; a missing or empty one gives the layout's prefix |
| BundleDiscovery.ParseBundle | src/main/java/io/vdp/protolake/storage/BundleDiscoveryService.java:126-139 | a bundle results exactly when the file has a `bundle` section with a non-empty `name` |
| BundleDiscovery.ParsedBundle | src/main/java/io/vdp/protolake/storage/BundleDiscoveryService.java:166-189 | a parsed bundle is named under the lake (its id read back unless the lake is `bundles` or the id holds `/bundles/`), takes display name, description and version from the YAML or their defaults (the id, empty, `1.0.0`), the chosen prefix, one time for creation and update, and the file's config |
| BundleDiscovery.DiscoveredPrefixOfLayout | src/main/java/io/vdp/protolake/storage/BundleDiscoveryService.java:148-163 | a bundle found where its plain prefix puts it gets that prefix, whether the YAML leaves it out, leaves it empty or states it |
| BundleDiscovery.ParseEach | src/main/java/io/vdp/protolake/storage/BundleDiscoveryService.java:96-107 | each walked file is parsed on its own, in walk order |
| BundleDiscovery.FoundConcat | src/main/java/io/vdp/protolake/storage/BundleDiscoveryService.java:99-103 | keeping the parsed bundles distributes over concatenation of the walk |
| BundleDiscovery.FoundOne | src/main/java/io/vdp/protolake/storage/BundleDiscoveryService.java:100-103 | one file contributes its bundle when it parsed to one, nothing otherwise |
| BundleDiscovery.ParseAllConcat | src/main/java/io/vdp/protolake/storage/BundleDiscoveryService.java:96-107 | discovery over two walks is the discovery of each, one after the other |
| BundleDiscovery.SkippedFileIgnored | src/main/java/io/vdp/protolake/storage/BundleDiscoveryService.java:99-106 | a file without a named bundle section is passed over and the walk goes on with the rest; a named one contributes its bundle in its place |
| BundleDiscovery.DiscoverBundles | src/main/java/io/vdp/protolake/storage/BundleDiscoveryService.java:86-115 | nothing when the search path does not exist; otherwise the parsed bundles of the walk, in walk order |
| BundleDiscovery.Ids | src/main/java/io/vdp/protolake/storage/BundleDiscoveryService.java:328-330 | the ids of the discovered bundles, each read from its name with `extractBundleId` |
| BundleDiscovery.RefreshBundlesForLake | src/main/java/io/vdp/protolake/storage/BundleDiscoveryService.java:319-364 | the lakes table is untouched; the bundles become those left after removing stale ones, then each discovered bundle deleted and recreated in turn, and the count is the number of creates that succeeded |
| BundleDiscovery.RefreshOne | src/main/java/io/vdp/protolake/storage/BundleDiscoveryService.java:337-354 | one turn: the stored bundle, if any, is deleted, then the discovered one is created; `created` says whether the create succeeded |
| BundleDiscovery.PassedIdsHas | src/main/java/io/vdp/protolake/storage/BundleDiscoveryService.java:336-355 | the id of every bundle that passed creation is among the counted ids |
| BundleDiscovery.PassedIdsFrom | src/main/java/io/vdp/protolake/storage/BundleDiscoveryService.java:336-355 | every counted id is the id of a bundle that passed creation |
| BundleDiscovery.RefreshOutcome | src/main/java/io/vdp/protolake/storage/BundleDiscoveryService.java:336-355 | with distinct ids named in the lake, the loop leaves every other entry alone, holds each bundle exactly when it passed creation, and counts the bundles that passed |
| BundleDiscovery.RefreshedLake | src/main/java/io/vdp/protolake/storage/BundleDiscoveryService.java:319-364 | after a refresh the lake holds exactly the discovered bundles that passed, each as discovered; other lakes keep their bundles unchanged; the count is the number that passed |
| BuildRunner.NonEmptyImagesMembers | src/main/java/io/vdp/protolake/pipeline/BazelBuildRunner.java:394-400 | a text is kept exactly when it is non-empty and the image of some part |
| BuildRunner.NonBlankTrimmedMembers | src/main/java/io/vdp/protolake/pipeline/BazelBuildRunner.java:76-80 | a line is kept exactly when it is non-empty and the trimmed form of some output line |
| BuildRunner.DroppedIffBlank | src/main/java/io/vdp/protolake/pipeline/BazelBuildRunner.java:77 | a line contributes nothing exactly when it is blank after Java's trim |
| BuildRunner.AppendNonEmptyImages | src/main/java/io/vdp/protolake/pipeline/BazelBuildRunner.java:76-80 | the loop over the parts appends, in order, exactly their non-empty images to what was there |
| BuildRunner.Query | src/main/java/io/vdp/protolake/pipeline/BazelBuildRunner.java:69-86 | a failing `bazel query` gives "Bazel query failed: " and its message; a succeeding one gives the trimmed non-blank lines of its output, in order |
| BuildRunner.BazelArgsLayout | src/main/java/io/vdp/protolake/pipeline/BazelBuildRunner.java:388-418 | the command and the target come first, then the configured options, and the two progress flags last, with one keep-going flag and two remote-cache flags between when those are on |
| BuildRunner.BazelArgsFlags | src/main/java/io/vdp/protolake/pipeline/BazelBuildRunner.java:403-411 | the argument after the options is `--keep_going` exactly when keep-going is asked for, and the next begins `--remote_cache=` exactly when the cache is on, followed by the upload flag |
| BuildRunner.BuildBazelArgs | src/main/java/io/vdp/protolake/pipeline/BazelBuildRunner.java:388-418 | the argument list built one argument at a time is the specified list |
| BuildRunner.BazelTarget | src/main/java/io/vdp/protolake/pipeline/BazelBuildRunner.java:264-267 | the target is the bundle path between `//` and `/...` |
| BuildRunner.BazelTargetInverse | src/main/java/io/vdp/protolake/pipeline/BazelBuildRunner.java:264-267 | the bundle path can be read back from its target |
| BuildRunner.BazelTargetInjective | src/main/java/io/vdp/protolake/pipeline/BazelBuildRunner.java:264-267 | different bundle paths give different targets |
| BuildRunner.InsertBy | src/main/java/io/vdp/protolake/pipeline/BazelBuildRunner.java:187-191 | inserting into a deeper-first list keeps it ordered and adds exactly the element |
| BuildRunner.SortBy | src/main/java/io/vdp/protolake/pipeline/BazelBuildRunner.java:187-191 | the sort's result is ordered by descending key and a permutation of the input |
| BuildRunner.SortByStable | src/main/java/io/vdp/protolake/pipeline/BazelBuildRunner.java:187-191 | the sort is stable: paths of each depth keep their relative order |
| BuildRunner.SortByDepth | src/main/java/io/vdp/protolake/pipeline/BazelBuildRunner.java:187-191 | `bundleTargets.sort`: deeper paths first, a permutation of the input, paths of equal depth in their original order |
| BuildRunner.CreateTargetBuildInfo | src/main/java/io/vdp/protolake/pipeline/BazelBuildRunner.java:428-442 | a new record has the target, version and status, a start time exactly when it is building, and nothing else set |
| BuildRunner.UpdateTargetBuildInfo | src/main/java/io/vdp/protolake/pipeline/BazelBuildRunner.java:451-472 | the status is replaced; a start time is added only for building and an end time only for a terminal status, each only when missing; nothing else changes |
| BuildRunner.TimesSetOnce | src/main/java/io/vdp/protolake/pipeline/BazelBuildRunner.java:451-472 | once set, a record's start and end times and its target and version never change again |
| BuildRunner.PendingLifecycle | src/main/java/io/vdp/protolake/pipeline/BazelBuildRunner.java:200-241 | a pending target that is built and then settled carries the clock reading of each step as its start and end time |
| BuildRunner.Settle | src/main/java/io/vdp/protolake/pipeline/BazelBuildRunner.java:227-241 | the record a build outcome leaves: published with the build log on success, failed with the error message on failure; target, version and start time kept |
| BuildRunner.LoopLinesAt | src/main/java/io/vdp/protolake/pipeline/BazelBuildRunner.java:212-245 | log line 2i announces target i and line 2i+1 reports its success or its failure with the message and "(continuing)" |
| BuildRunner.RelativePaths | src/main/java/io/vdp/protolake/pipeline/BazelBuildRunner.java:283-288 | each discovered bundle's workspace-relative path, in discovery order |
| BuildRunner.GetBundleTargetPaths | src/main/java/io/vdp/protolake/pipeline/BazelBuildRunner.java:269-289 | a metadata without a lake is the error "Lake not set in build metadata"; otherwise the relative paths of the bundles discovered below the resolved target path |
| BuildRunner.RelativePathsOf | src/main/java/io/vdp/protolake/pipeline/BazelBuildRunner.java:283-288 | the loop computes exactly the relative paths of the bundles, in order |
| BuildRunner.Targets | src/main/java/io/vdp/protolake/pipeline/BazelBuildRunner.java:198-200 | the bundle targets of the paths, in order |
| BuildRunner.InitPending | src/main/java/io/vdp/protolake/pipeline/BazelBuildRunner.java:197-201 | every target is put in the table as a new pending record of the branch; other entries are kept; the keys stay distinct |
| BuildRunner.BuildOne | src/main/java/io/vdp/protolake/pipeline/BazelBuildRunner.java:208-241 | one pass marks the target building, builds it and settles it by the outcome; no other record changes and the key set stays the same |
| BuildRunner.BuildStep | src/main/java/io/vdp/protolake/pipeline/BazelBuildRunner.java:208-258 | pass i extends the table's progress by target i, appends its two log lines, and sets the sub-phase to "Building" and the target |
| BuildRunner.BuildLoop | src/main/java/io/vdp/protolake/pipeline/BazelBuildRunner.java:208-259 | the loop stops at the end, or right after the first failure when not keeping going; the targets before it all succeeded |
| BuildRunner.BuildEach | src/main/java/io/vdp/protolake/pipeline/BazelBuildRunner.java:208-259 | no failure is returned exactly when keeping going or every build succeeds; a failure returned is the first failing target's; on success every target is settled by its outcome and the log holds two lines per target, other entries untouched |
| BuildRunner.PutAllSettled | src/main/java/io/vdp/protolake/pipeline/BazelBuildRunner.java:256-258 | putting the loop's table over the metadata's keeps the loop's lookups and so its settled targets |
| BuildRunner.BuildKeys | src/main/java/io/vdp/protolake/pipeline/BazelBuildRunner.java:194-261 | the bundle build succeeds exactly when keeping going or every target builds; on success each target is settled by its outcome and the log is the count line then two lines per target |
| BuildRunner.BuildBundlesIndividually | src/main/java/io/vdp/protolake/pipeline/BazelBuildRunner.java:177-262 | a metadata without a lake is an error; otherwise the discovered bundles, ordered deeper first, are built in turn, with success exactly when keeping going or every build succeeds |
| BuildRunner.BuildTargetDirectly | src/main/java/io/vdp/protolake/pipeline/BazelBuildRunner.java:302-343 | succeeds exactly when the one build succeeds, with its error otherwise; on success the target's record is a fresh building record settled by the outcome and the "Successfully built" line is logged |
| BuildRunner.DirectTable | src/main/java/io/vdp/protolake/pipeline/BazelBuildRunner.java:309-342 | the direct build's table is the metadata's with only the target's entry replaced by its settled record |
| BuildRunner.RunBuildPhase | src/main/java/io/vdp/protolake/pipeline/BazelBuildRunner.java:113-130 | the optional clean and then the individual or direct build succeed together or not at all; on success the table, the log and the sub-phase are those the build left |
| BuildRunner.BuildTarget | src/main/java/io/vdp/protolake/pipeline/BazelBuildRunner.java:98-164 | a disabled build returns the metadata untouched; any failure is "Build failed"; on success only the table and the build phase change, the phase succeeded at the clock reading with the build's log lines and sub-phase |
| BuildModel.Keys | src/main/java/io/vdp/protolake/pipeline/BazelBuildRunner.java:197 | the keys of a target table, in iteration order |
| BuildModel.Lookup | src/main/java/io/vdp/protolake/pipeline/BazelBuildRunner.java:216 | `getTargetBuildsMap().get(key)` finds a record exactly when the key is in the table |
| BuildModel.LookupEntry | src/main/java/io/vdp/protolake/pipeline/BazelBuildRunner.java:216 | in a table with distinct keys, each entry is what its key looks up |
| BuildModel.Put | src/main/java/io/vdp/protolake/pipeline/BazelBuildRunner.java:200 | `put` adds the key when it is new and keeps the other keys |
| BuildModel.PutLookup | src/main/java/io/vdp/protolake/pipeline/BazelBuildRunner.java:200 | after `put` the key looks up the new record and every other key what it looked up before |
| BuildModel.PutLookupAll | src/main/java/io/vdp/protolake/pipeline/BazelBuildRunner.java:217 | the same for every key at once |
| BuildModel.PutExistingKeys | src/main/java/io/vdp/protolake/pipeline/BazelBuildRunner.java:217 | putting an existing key keeps the keys and their order |
| BuildModel.PutDistinct | src/main/java/io/vdp/protolake/pipeline/BazelBuildRunner.java:200 | `put` keeps the keys distinct |
| BuildModel.PutAll | src/main/java/io/vdp/protolake/pipeline/BazelBuildRunner.java:203-205 | `putAllTargetBuilds`: the keys afterwards are those of either table |
| BuildModel.PutAllLookup | src/main/java/io/vdp/protolake/pipeline/BazelBuildRunner.java:203-205 | after `putAll` a key looks up the new table's record when it has one, the old record otherwise |
| BuildModel.PutAllOverCopy | src/main/java/io/vdp/protolake/pipeline/BazelBuildRunner.java:219-221 | putting all of a copy that holds every old key leaves exactly the copy's records |
| BuildModel.PutAllDistinct | src/main/java/io/vdp/protolake/pipeline/BazelBuildRunner.java:203-205 | `putAll` keeps the keys distinct |
| BuildModel.FirstFailureAtUnique | src/main/java/io/vdp/protolake/pipeline/BuildOrchestrator.java:257-259 | at most one entry is the first that failed with a message |
| BuildModel.FirstFailure | src/main/java/io/vdp/protolake/operation/InMemoryOperationManager.java:315-319 | no message exactly when no target failed with a message; otherwise the message of the first such target in iteration order |
| Orchestrator.ClassesPartition | src/main/java/io/vdp/protolake/pipeline/BuildOrchestrator.java:247-264 | every target status is counted as successful, failed, skipped or not at all, exactly one of these |
| Orchestrator.CountsPartition | src/main/java/io/vdp/protolake/pipeline/BuildOrchestrator.java:239-264 | the successful, failed, skipped and uncounted targets add up to the number of entries |
| Orchestrator.CountZero | src/main/java/io/vdp/protolake/pipeline/BuildOrchestrator.java:246-264 | a class counts zero exactly when no entry has a status of that class |
| Orchestrator.MavenCoordinatesRecovered | src/main/java/io/vdp/protolake/pipeline/BuildOrchestrator.java:301-303 | Maven coordinates whose ids hold no `:` split back into group, artifact and version at the colons |
| Orchestrator.PythonCoordinatesRecovered | src/main/java/io/vdp/protolake/pipeline/BuildOrchestrator.java:304-306 | a Python package name and version split back at the first `==` |
| Orchestrator.NpmCoordinatesRecovered | src/main/java/io/vdp/protolake/pipeline/BuildOrchestrator.java:307-309 | an npm package name, scoped or not, and a version split back at the last `@` |
| Orchestrator.FormatAll | src/main/java/io/vdp/protolake/pipeline/BuildOrchestrator.java:251-253 | each artifact of a target formatted in turn |
| Orchestrator.PublishedFromSuccessful | src/main/java/io/vdp/protolake/pipeline/BuildOrchestrator.java:248-253 | every published coordinate comes from an artifact of a PUBLISHED or BUILT target |
| Orchestrator.FirstFailureSnoc | src/main/java/io/vdp/protolake/pipeline/BuildOrchestrator.java:257-259 | a later entry sets the first error only when none was set yet and it failed with a message |
| Orchestrator.SummaryStep | src/main/java/io/vdp/protolake/pipeline/BuildOrchestrator.java:246-265 | each pass of the summary loop changes each count, the published list and the first error only by what its entry contributes |
| Orchestrator.AppendFormatted | src/main/java/io/vdp/protolake/pipeline/BuildOrchestrator.java:251-253 | the artifact loop appends exactly the formatted artifacts, in order |
| Orchestrator.SummaryCountsBounded | src/main/java/io/vdp/protolake/pipeline/BuildOrchestrator.java:238-275 | successful, failed and skipped targets never exceed the total; PENDING, BUILDING and unspecified ones make up the difference |
| Orchestrator.CreateBuildSummary | src/main/java/io/vdp/protolake/pipeline/BuildOrchestrator.java:238-275 | the one-pass loop computes the specified summary: counts per class, published coordinates of successful targets, first error of a failed target |
| Orchestrator.OverallStatusOf | src/main/java/io/vdp/protolake/pipeline/BuildOrchestrator.java:277-298 | CANCELLED exactly for a cancelled operation; PARTIAL_SUCCESS exactly when no gazelle, validation or publish phase failed and targets both failed and succeeded; SUCCEEDED exactly when nothing blocks and no target failed; never unspecified |
| Orchestrator.BuildPhaseNotConsulted | src/main/java/io/vdp/protolake/pipeline/BuildOrchestrator.java:282-287 | the build phase's own status never changes the overall status |
| Orchestrator.SucceededMeansNoFailedTarget | src/main/java/io/vdp/protolake/pipeline/BuildOrchestrator.java:238-298 | for the metadata's own summary, SUCCEEDED means no target failed, and FAILED without a blocking phase means no target succeeded |
| Orchestrator.CreateBuildResponse | src/main/java/io/vdp/protolake/pipeline/BuildOrchestrator.java:224-236 | the response holds the metadata, its summary, its overall status and the completion time |
| Orchestrator.PhaseSequence | src/main/java/io/vdp/protolake/pipeline/BuildOrchestrator.java:147-217 | a build that runs to the end passes RUNNING_GAZELLE first and COMPLETED last, with PUBLISHING exactly when installing locally |
| Orchestrator.PhasePrefixes | src/main/java/io/vdp/protolake/pipeline/BuildOrchestrator.java:147-217 | the prefixes of the phase sequence a build can stop after |
| Orchestrator.CheckCancelled | src/main/java/io/vdp/protolake/pipeline/BuildOrchestrator.java:153 | stops exactly when a token is given and is cancelled |
| Orchestrator.GazelleAndValidation | src/main/java/io/vdp/protolake/pipeline/BuildOrchestrator.java:147-176 | gazelle then validation; a cancelled token stops the build after RUNNING_GAZELLE is entered; a failed validation stops it after VALIDATING; otherwise the last update is the metadata validation left |
| Orchestrator.LakeTarget | src/main/java/io/vdp/protolake/pipeline/BuildOrchestrator.java:189-190 | the lake's root directory and the target made relative to the lake |
| Orchestrator.PublishAndComplete | src/main/java/io/vdp/protolake/pipeline/BuildOrchestrator.java:199-221 | the publishing phase runs exactly when installing locally, and can be cancelled; a finished build ends with COMPLETED as its last update |
| Orchestrator.BuildAndPublish | src/main/java/io/vdp/protolake/pipeline/BuildOrchestrator.java:179-221 | building, then publishing when asked, then completion; a cancelled token stops it when building is entered |
| Orchestrator.BuildTargetSync | src/main/java/io/vdp/protolake/pipeline/BuildOrchestrator.java:133-222 | the phases entered are a prefix of RUNNING_GAZELLE, VALIDATING, BUILDING, PUBLISHING (only when installing locally), COMPLETED; only a failed workspace initialisation enters none; a finished build enters them all; a failed validation stops after VALIDATING; a cancelled token stops after RUNNING_GAZELLE |
| Orchestrator.Notify | src/main/java/io/vdp/protolake/pipeline/BuildOrchestrator.java:110-112 | the listener's updates store each metadata in turn, so the last one remains; nothing else changes |
| Orchestrator.BuildTargetAsync | src/main/java/io/vdp/protolake/pipeline/BuildOrchestrator.java:70-125 | an unknown operation is left alone; a finished build completes the operation with its response; a failed validation or any exception fails it; a cancelled build is left in a running phase |
| Orchestrator.CancelBeforeBuildAsWritten | src/main/java/io/vdp/protolake/pipeline/BuildOrchestrator.java:148-153 | a cancellation that comes before the build thread's first update is overwritten: the operation stays active and is reported not done, with no error |
| Orchestrator.NotifyUnlessDone | src/main/java/io/vdp/protolake/pipeline/BuildOrchestrator.java:110-112 | the listener's updates leave a finished operation alone and otherwise store the last one |
| Orchestrator.BuildTargetAsyncCorrected | src/main/java/io/vdp/protolake/pipeline/BuildOrchestrator.java:70-125 | as `BuildTargetAsync`, but a cancelled operation stays CANCELLED |
| Orchestrator.CancelBeforeBuildCorrected | src/main/java/io/vdp/protolake/pipeline/BuildOrchestrator.java:148-153 | with the corrected listener the same cancellation leaves the operation CANCELLED, and it is reported done with the CANCELLED error |
| Orchestrator.CurrentBranch | src/main/java/io/vdp/protolake/pipeline/BuildOrchestrator.java:314-325 | the lake's git branch, or `main` when the lake is not stored or git fails |
| Operations.CancellationToken.constructor | src/main/java/io/vdp/protolake/operation/CancellationToken.java:26 | a new token is not cancelled |
| Operations.CancellationToken.Cancel | src/main/java/io/vdp/protolake/operation/CancellationToken.java:33-35 | afterwards the token is cancelled, whatever it was before |
| Operations.CancellationToken.ThrowIfCancelled | src/main/java/io/vdp/protolake/operation/CancellationToken.java:53-57 | throws "Operation cancelled" exactly when the token is cancelled |
| Operations.OperationError | src/main/java/io/vdp/protolake/operation/InMemoryOperationManager.java:301-322 | the message of the first failed phase in the order gazelle, validation, build; else of the first target that failed with a message; else "Build failed" |
| Operations.OperationErrorSource | src/main/java/io/vdp/protolake/operation/InMemoryOperationManager.java:301-322 | a reported failure comes from a failed phase, from a target that failed with that message, or is "Build failed" only when no target failed with a message |
| Operations.PhaseFailureMasksTargets | src/main/java/io/vdp/protolake/operation/InMemoryOperationManager.java:303-313 | a failed phase masks the targets: the message is the phase's whatever the targets hold |
| Operations.View | src/main/java/io/vdp/protolake/operation/InMemoryOperationManager.java:126-162 | the reported operation carries the metadata; it is done exactly for COMPLETED, FAILED and CANCELLED; FAILED gives INTERNAL with the operation error, CANCELLED gives CANCELLED with "Operation cancelled by user", and only COMPLETED gives the stored response |
| Operations.ViewResultExclusive | src/main/java/io/vdp/protolake/operation/InMemoryOperationManager.java:139-159 | an operation never carries both an error and a response, and one that is not done carries neither |
| Operations.ExtractResourceName | src/main/java/io/vdp/protolake/operation/InMemoryOperationManager.java:326-345 | the derived resource is `lakes/unknown`, `unknown` or `lakes/unknown/bundles/` and a non-empty name without `:` |
| Operations.BundleTargetResource | src/main/java/io/vdp/protolake/operation/InMemoryOperationManager.java:335-342 | a target `//bundles/<name>:<rest>` names the resource `lakes/unknown/bundles/<name>` |
| Operations.RemoveIfMapped | src/main/java/io/vdp/protolake/operation/InMemoryOperationManager.java:349 | `remove(key, value)` removes the entry only when it maps the key to that value |
| Operations.StaleIndexEntry | src/main/java/io/vdp/protolake/operation/InMemoryOperationManager.java:326-350 | finishing or deleting an operation leaves behind an index entry made for any resource other than the `unknown` ones |
| Operations.PageLimit | src/main/java/io/vdp/protolake/operation/InMemoryOperationManager.java:178 | a positive page size limits the listing; otherwise there is no limit |
| Operations.OperationManager.constructor | src/main/java/io/vdp/protolake/operation/InMemoryOperationManager.java:41-53 | a new manager holds no operations, tokens, completion times, responses or index entries |
| Operations.OperationManager.CreateOperation | src/main/java/io/vdp/protolake/operation/InMemoryOperationManager.java:78-108 | while the resource's indexed operation is active, the request is refused with ABORTED and the message naming it, and nothing changes; otherwise the metadata, the token and the index entry are recorded and the operation is reported not done |
| Operations.OperationManager.UpdateMetadata | src/main/java/io/vdp/protolake/operation/InMemoryOperationManager.java:116-118 | the metadata is stored whatever its phase, even over a finished operation; nothing else changes |
| Operations.OperationManager.UpdateMetadataUnlessDone | src/main/java/io/vdp/protolake/operation/InMemoryOperationManager.java:116-118 | the corrected update: a finished operation keeps its final metadata; otherwise the metadata is stored |
| Operations.OperationManager.Stored | src/main/java/io/vdp/protolake/operation/InMemoryOperationManager.java:154-157 | the stored response, when there is one |
| Operations.OperationManager.GetOperation | src/main/java/io/vdp/protolake/operation/InMemoryOperationManager.java:126-162 | an operation is reported exactly when metadata is stored for it, as `View` describes |
| Operations.OperationManager.Listed | src/main/java/io/vdp/protolake/operation/InMemoryOperationManager.java:174-177 | each listed operation is the one `getOperation` reports, in iteration order |
| Operations.OperationManager.ListOperations | src/main/java/io/vdp/protolake/operation/InMemoryOperationManager.java:172-180 | at most the page size of the stored operations, each as reported, in iteration order |
| Operations.OperationManager.CancelOperation | src/main/java/io/vdp/protolake/operation/InMemoryOperationManager.java:188-209 | cancels exactly a stored operation that has a token and is not done: its token is set, its phase becomes CANCELLED, its completion time is recorded and its index entry is removed by the derived name; anything else changes nothing |
| Operations.OperationManager.CompleteOperation | src/main/java/io/vdp/protolake/operation/InMemoryOperationManager.java:217-232 | any stored operation, even a cancelled or failed one, becomes COMPLETED with the response stored; an unknown name changes nothing |
| Operations.OperationManager.FailOperation | src/main/java/io/vdp/protolake/operation/InMemoryOperationManager.java:240-252 | any stored operation becomes FAILED; the error text is not kept; an unknown name changes nothing |
| Operations.OperationManager.Get | src/main/java/io/vdp/protolake/operation/InMemoryOperationManager.java:262-264 | the stored metadata, when there is some |
| Operations.OperationManager.DeleteOperation | src/main/java/io/vdp/protolake/operation/InMemoryOperationManager.java:272-285 | the name leaves all four name-keyed tables; true and the index entry removed exactly when metadata was stored |
| Operations.OperationManager.CancelAll | src/main/java/io/vdp/protolake/operation/InMemoryOperationManager.java:373-382 | every operation that is not done and has a token goes through `cancelOperation`: its phase becomes CANCELLED, its token is set, its completion time is `now`, and its index entry is removed under its derived resource name; operations without a token and finished ones keep their phase and completion time; a token already set stays set, and a token no cancelled operation holds keeps its state; afterwards every operation with a token is done |
| Operations.OperationManager.CancelStep | src/main/java/io/vdp/protolake/operation/InMemoryOperationManager.java:377-381 | one turn of the shutdown loop: `cancelOperation` on a running operation with a token adds it to the cancelled names, with its token set and tokens set before kept set |
| Operations.OperationManager.CancelledAll | src/main/java/io/vdp/protolake/operation/InMemoryOperationManager.java:373-382 | once every running operation with a token is cancelled, no operation with a token is left running |
| Operations.Unindexed | src/main/java/io/vdp/protolake/operation/InMemoryOperationManager.java:347-350 | an index entry goes exactly when it maps its key to one of the cancelled names whose derived resource is that key; the others stay as they were |
| Operations.UnindexedStep | src/main/java/io/vdp/protolake/operation/InMemoryOperationManager.java:347-350 | one more `remove(resource, name)` removes the same entries as adding the name to the cancelled set, so the order in which `shutdown` cancels does not matter |
| ValidationRunner.DigitsEnd | src/main/java/io/vdp/protolake/pipeline/ValidationRunner.java:38-40 | the end of the run of ASCII digits that starts at the position: every character before it is a digit and the one at it is not |
| ValidationRunner.DigitField | src/main/java/io/vdp/protolake/pipeline/ValidationRunner.java:38-40 | `(\\d+):` at the start of the text: a non-empty digit run, and the text is the run, a colon and the rest |
| ValidationRunner.DigitFieldOf | src/main/java/io/vdp/protolake/pipeline/ValidationRunner.java:38-40 | digits followed by a colon read back as those digits and the rest |
| ValidationRunner.MatchAfterFile | src/main/java/io/vdp/protolake/pipeline/ValidationRunner.java:38-40 | once the file part is fixed, a match splits the rest into non-empty digit line and column fields and a non-empty message that join back to the line |
| ValidationRunner.MatchFrom | src/main/java/io/vdp/protolake/pipeline/ValidationRunner.java:38-40 | the reluctant file group: a match joins back to the line, and no shorter file part admits a match |
| ValidationRunner.MatchLintOf | src/main/java/io/vdp/protolake/pipeline/ValidationRunner.java:38-40 | a line whose file part has no colon is split at its first three colons |
| ValidationRunner.MatchFromSkips | src/main/java/io/vdp/protolake/pipeline/ValidationRunner.java:38-40 | the search moves past every file part that admits no match |
| ValidationRunner.ParseBufLintLine | src/main/java/io/vdp/protolake/pipeline/ValidationRunner.java:289-312 | nothing exactly for a blank line; every issue is a LINT warning; a line that does not match becomes an issue whose message is the whole line |
| ValidationRunner.ParseLintLineOf | src/main/java/io/vdp/protolake/pipeline/ValidationRunner.java:289-304 | a `file:line:column:message` line reads back as its parts, the numbers parsed and the message trimmed |
| ValidationRunner.BuildErrorLines | src/main/java/io/vdp/protolake/pipeline/ValidationRunner.java:198-215 | compiler output gives one SYNTAX error of severity ERROR, whose message splits back into the output lines |
| ValidationRunner.LintErrorsWarn | src/main/java/io/vdp/protolake/pipeline/ValidationRunner.java:220-236 | each lint issue is a warning, one per non-blank line |
| ValidationRunner.BreakingErrorsLines | src/main/java/io/vdp/protolake/pipeline/ValidationRunner.java:241-261 | the breaking-change errors carry the non-blank lines, in order |
| ValidationRunner.ValidationRun.constructor | src/main/java/io/vdp/protolake/pipeline/ValidationRunner.java:110 | a run starts with no log lines |
| ValidationRunner.ValidationRun.RunBufBuild | src/main/java/io/vdp/protolake/pipeline/ValidationRunner.java:198-215 | the compilation errors, with the "Compilation errors found" log line appended when there are any |
| ValidationRunner.ValidationRun.RunBufLint | src/main/java/io/vdp/protolake/pipeline/ValidationRunner.java:220-236 | the lint issues with the count line appended when there are any; a line number too large for `Integer.parseInt` throws, the log untouched |
| ValidationRunner.ValidationRun.RunBufBreaking | src/main/java/io/vdp/protolake/pipeline/ValidationRunner.java:241-261 | one ERROR per non-blank line of the breaking-change output, with the count line appended when there are any |
| ValidationRunner.ValidationRun.RunBufFormat | src/main/java/io/vdp/protolake/pipeline/ValidationRunner.java:266-284 | one formatting warning and its log line exactly when the format output is not empty |
| ValidationRunner.LintErrorsStuck | src/main/java/io/vdp/protolake/pipeline/ValidationRunner.java:224-229 | once a line overflows, the lint run throws whatever follows |
| ValidationRunner.ErrorSeverityCount | src/main/java/io/vdp/protolake/pipeline/ValidationRunner.java:159-160 | the number of ERROR-severity items, zero exactly when there is none |
| ValidationRunner.ErrorSeverityCountAppend | src/main/java/io/vdp/protolake/pipeline/ValidationRunner.java:159-160 | the count distributes over concatenation |
| ValidationRunner.BuildValidationResult | src/main/java/io/vdp/protolake/pipeline/ValidationRunner.java:331-344 | success exactly when no item has severity ERROR; all items, in order; the metadata as given |
| ValidationRunner.Finished | src/main/java/io/vdp/protolake/pipeline/ValidationRunner.java:144-164 | the phase SUCCEEDED exactly without an ERROR-severity item, otherwise FAILED with "Validation failed with N errors" counting those items only; the sub-phase, the times and the log lines as given |
| ValidationRunner.WithValidation | src/main/java/io/vdp/protolake/pipeline/ValidationRunner.java:167-171 | only the validation phase of the metadata is replaced |
| ValidationRunner.RunStep | src/main/java/io/vdp/protolake/pipeline/ValidationRunner.java:116-141 | one check, if it runs: its findings, with its log lines appended |
| ValidationRunner.RunChecks | src/main/java/io/vdp/protolake/pipeline/ValidationRunner.java:114-141 | each enabled check in turn (breaking changes only with git history), the sub-phase set as each starts; nothing once one throws |
| ValidationRunner.ValidateLake | src/main/java/io/vdp/protolake/pipeline/ValidationRunner.java:65-193 | disabled or without buf.yaml, a successful result with the validation phase SKIPPED; a check that throws makes it "Validation failed"; otherwise the result of the collected items with the finished validation phase in the metadata |
| ValidationRunner.BreakingChangeFails | src/main/java/io/vdp/protolake/pipeline/ValidationRunner.java:130-160 | a breaking change found always fails the validation |
| ValidationRunner.NonBlankHas | src/main/java/io/vdp/protolake/pipeline/ValidationRunner.java:245-253 | a non-blank line survives the filter |
| ValidationRunner.WarningsOnlySucceed | src/main/java/io/vdp/protolake/pipeline/ValidationRunner.java:116-147 | lint and format findings are warnings only: with compilation and breaking checks off, a validation that does not throw succeeds |
| ValidationRunner.FailedMessageIgnoresWarnings | src/main/java/io/vdp/protolake/pipeline/ValidationRunner.java:159-161 | the failure message counts ERROR-severity items only: warnings added leave it unchanged |
| InitCommon.ScanName | src/main/java/io/vdp/protolake/initializer/BundleInitializer.java:215 | `^[a-zA-Z0-9_-]+$` matches exactly a non-empty name of letters, digits, `_` and `-` |
| InitCommon.CheckName | src/main/java/io/vdp/protolake/initializer/BundleInitializer.java:209-219 | a missing or empty name is refused with "... name cannot be null or empty", one with another character with the "can only contain" message and the name; any other name passes unchanged |
| InitCommon.CheckedNamePlain | src/main/java/io/vdp/protolake/initializer/BundleInitializer.java:215 | a name that passes holds no `/`, `.` or backslash: it is one path name and one proto package component |
| BundleInitializer.ToPascalCase | src/main/java/io/vdp/protolake/initializer/BundleInitializer.java:225-243 | the loop over the hyphen-separated parts builds the specified Pascal-case text |
| BundleInitializer.ToLowerCapitalize | src/main/java/io/vdp/protolake/initializer/BundleInitializer.java:235-238 | case aside, capitalizing a part changes nothing |
| BundleInitializer.PascalPartsLower | src/main/java/io/vdp/protolake/initializer/BundleInitializer.java:233-240 | case aside, the capitalized parts are the parts run together |
| BundleInitializer.GluedSplit | src/main/java/io/vdp/protolake/initializer/BundleInitializer.java:230-240 | splitting at a character and running the parts together drops that character |
| BundleInitializer.PascalCaseLetters | src/main/java/io/vdp/protolake/initializer/BundleInitializer.java:225-243 | case aside, `toPascalCase` only drops the hyphens |
| BundleInitializer.PascalCaseNoHyphen | src/main/java/io/vdp/protolake/initializer/BundleInitializer.java:225-243 | the result holds no hyphen |
| BundleInitializer.InitializeBundle | src/main/java/io/vdp/protolake/initializer/BundleInitializer.java:45-96 | an invalid name is refused with its message; otherwise the bundle is named under the lake with its defaults, and it is created exactly when no `bundle.yaml` exists at its path, else "Bundle already exists at: " and the path |
| BundleInitializer.NewBundleIds | src/main/java/io/vdp/protolake/initializer/BundleInitializer.java:55-56 | a new bundle's name gives its id and its lake's id back, unless the lake is called `bundles` |
| BundleInitializer.LanguageSetting | src/main/java/io/vdp/protolake/initializer/BundleInitializer.java:123-144 | a language is enabled as configured, or by default; its id is the configured one when not empty, else empty |
| BundleInitializer.HeaderContext | src/main/java/io/vdp/protolake/initializer/BundleInitializer.java:103-110 | the bundle id, display name, description, prefix and version, each under its own variable |
| BundleInitializer.LanguageEntries | src/main/java/io/vdp/protolake/initializer/BundleInitializer.java:147-154 | the six language entries describe the bundle once each comes from its language's setting |
| BundleInitializer.LanguageContext | src/main/java/io/vdp/protolake/initializer/BundleInitializer.java:115-154 | the language part of the context describes the bundle's settings |
| BundleInitializer.BundleYamlContext | src/main/java/io/vdp/protolake/initializer/BundleInitializer.java:101-161 | `bundle.yaml`'s context: the bundle's fields and language settings under eleven distinct variables, each describing the bundle |
| BundleInitializer.BundleYamlDefaults | src/main/java/io/vdp/protolake/initializer/BundleInitializer.java:115-145 | without a config every language is enabled with an empty id; a configured Java setting gives its flag and artifact id |
| BundleInitializer.ProtoEntries | src/main/java/io/vdp/protolake/initializer/BundleInitializer.java:174-185 | the three `example.proto` entries describe the bundle once the Pascal-case name is the id's |
| BundleInitializer.ProtoContext | src/main/java/io/vdp/protolake/initializer/BundleInitializer.java:170-188 | `example.proto`'s context: the formatted package, the bundle id and its Pascal-case form |
| BundleInitializer.ReadmeContext | src/main/java/io/vdp/protolake/initializer/BundleInitializer.java:191-199 | the README's context: display name, description, prefix, bundle id and formatted package |
| BundleInitializer.NewBundleProtoPackage | src/main/java/io/vdp/protolake/initializer/BundleInitializer.java:174-176 | a new bundle's formatted package is the prefix, a dot and the name, hyphens turned into underscores, with no hyphen left |
| LakeInitializer.InitializeLake | src/main/java/io/vdp/protolake/initializer/LakeInitializer.java:57-127 | an invalid name is refused with its message; an existing `lake.yaml` gives "Lake already initialized at: " and the lake's path; a failure while setting up gives "Failed to initialize lake: " and its message; otherwise the new lake |
| LakeInitializer.NewLakeIds | src/main/java/io/vdp/protolake/initializer/LakeInitializer.java:66-83 | a new lake's id is the name it was created with, and its config is the given one or the empty one |
| LakeInitializer.DescribesUnion | src/main/java/io/vdp/protolake/initializer/LakeInitializer.java:132-222 | two context blocks that each describe the lake describe it together |
| LakeInitializer.LanguageEntries | src/main/java/io/vdp/protolake/initializer/LakeInitializer.java:157-215 | each language block comes from the configured message when it is set and from the defaults when it is not |
| LakeInitializer.HeaderBlock | src/main/java/io/vdp/protolake/initializer/LakeInitializer.java:137-140 | the header block sets exactly the lake id, display name, description and prefix, each to the lake's field |
| LakeInitializer.ModuleBlock | src/main/java/io/vdp/protolake/initializer/LakeInitializer.java:145-154 | the module block sets exactly the three versions, from the config when it sets them and the pinned defaults otherwise |
| LakeInitializer.JavaBlock | src/main/java/io/vdp/protolake/initializer/LakeInitializer.java:159-171 | the Java block sets exactly its eight variables, from the configured message or the defaults |
| LakeInitializer.PythonBlock | src/main/java/io/vdp/protolake/initializer/LakeInitializer.java:174-184 | the Python block sets exactly its six variables, from the configured message or the defaults |
| LakeInitializer.JavascriptBlock | src/main/java/io/vdp/protolake/initializer/LakeInitializer.java:187-198 | the JavaScript block sets exactly its seven variables, from the configured message or the defaults |
| LakeInitializer.GoBlock | src/main/java/io/vdp/protolake/initializer/LakeInitializer.java:201-208 | the Go block sets exactly its three variables, from the configured message or the defaults |
| LakeInitializer.LanguagesDescribe | src/main/java/io/vdp/protolake/initializer/LakeInitializer.java:157-215 | the language blocks together set exactly the language variables, each as the lake's config asks |
| LakeInitializer.GenerateLakeYaml | src/main/java/io/vdp/protolake/initializer/LakeInitializer.java:132-227 | every variable of `lake.yaml` is set, each to the value the lake's fields, its config or the defaults give |
| LakeInitializer.LakeYamlDefaults | src/main/java/io/vdp/protolake/initializer/LakeInitializer.java:151-262 | a lake with the empty config gets every default: the pinned module versions, Java, Python and JavaScript on, Go off, and `./buf.yaml` |
| LakeInitializer.ConfiguredJavaKept | src/main/java/io/vdp/protolake/initializer/LakeInitializer.java:159-168 | a configured Java block is taken whole: each field as set, an empty one included, and no default mixed in |
| LakeInitializer.ModuleVersionsAgree | src/main/java/io/vdp/protolake/initializer/LakeInitializer.java:145-154 | `lake.yaml` and the workspace's `MODULE.bazel` agree on the protobuf, gRPC and rules_proto_grpc versions, configured or not |
| LakeInitializer.JavaDefaultsDiffer | src/main/java/io/vdp/protolake/initializer/LakeInitializer.java:234-235 | by default `lake.yaml` and `MODULE.bazel` name different protobuf-java and grpc-java versions |
| WorkspaceInitializer.FilledWithoutModule | src/main/java/io/vdp/protolake/initializer/WorkspaceInitializer.java:249-283 | without a `module_bazel` block, the defaults fill every version after the lake name and organization are put |
| WorkspaceInitializer.FilledWithModule | src/main/java/io/vdp/protolake/initializer/WorkspaceInitializer.java:258-279 | with a `module_bazel` block, its versions are kept (the gRPC Java version taken from gRPC) and the defaults fill only the rest |
| WorkspaceInitializer.BuildTemplateContext | src/main/java/io/vdp/protolake/initializer/WorkspaceInitializer.java:249-283 | every template variable is set, each to the lake's value when it gives one and to the default otherwise |
| WorkspaceInitializer.GazelleSourceOf | src/main/java/io/vdp/protolake/initializer/WorkspaceInitializer.java:71-89 | the git repository exactly when both its URL and commit are set and non-empty; otherwise the local path from the environment when set, else `../../../protolake-gazelle` |
| WorkspaceInitializer.ModuleBazelContext | src/main/java/io/vdp/protolake/initializer/WorkspaceInitializer.java:66-90 | `MODULE.bazel`'s context: the template context plus the URL and commit of a git source, or the one path variable of a local source |
| WorkspaceInitializer.BufContext | src/main/java/io/vdp/protolake/initializer/WorkspaceInitializer.java:167-182 | `buf.yaml`'s context: the template context plus the fixed rule lists FILE, DEFAULT and PACKAGE_VERSION_SUFFIX; a `validation` block changes nothing |
| WorkspaceInitializer.ModuleVersionsChosen | src/main/java/io/vdp/protolake/initializer/WorkspaceInitializer.java:258-278 | with a `module_bazel` block each of its versions reaches the template, even an empty one, and the gRPC Java version is the gRPC version; without one the defaults do |
| NpmBundler.ScopedDirName | src/main/resources/templates/tools/bundler/npm_bundler.py:254-259 | a scoped name `@scope/pkg` gives the directory `scope-pkg`; an unscoped name is kept as it is |
| NpmBundler.ClassesPartition | src/main/resources/templates/tools/bundler/npm_bundler.py:92-104 | each argument lands in exactly one of node files, web files and missing files, once; node files exist and do not name gRPC-Web, web files exist and do |
| NpmBundler.OrganizeJsFiles | src/main/resources/templates/tools/bundler/npm_bundler.py:92-117 | the loop yields the node files and the web files in argument order, and each flag is true exactly when some existing argument falls in that class |
| NpmBundler.MjsWrapper | src/main/resources/templates/tools/bundler/npm_bundler.py:137-154 | the `.mjs` text ends with the source; it differs from the source exactly when the source holds `require(`, and then only by the ESM banner in front |
| NpmBundler.Suffix | src/main/resources/templates/tools/bundler/npm_bundler.py:143-148 | the suffix is empty or starts with `.`, ends the name and is shorter than it |
| NpmBundler.WrapperNames | src/main/resources/templates/tools/bundler/npm_bundler.py:143-148 | the `.cjs` and `.mjs` wrappers of `stem.js` are `stem.cjs` and `stem.mjs` |
| NpmBundler.IndexLinesShape | src/main/resources/templates/tools/bundler/npm_bundler.py:157-186 | an index starts with its header, holds the node line exactly when there are node files and the web line exactly when there are web files, node before web |
| NpmBundler.IndexTextLines | src/main/resources/templates/tools/bundler/npm_bundler.py:157-186 | an index text, split into lines, gives back exactly its header and export lines |
| NpmBundler.RootIndexesShape | src/main/resources/templates/tools/bundler/npm_bundler.py:157-186 | `index.cjs`, `index.mjs` and `index.d.ts` each hold the node line exactly when there are node files and the web line exactly when there are web files |
| NpmBundler.RootIndexFilesLines | src/main/resources/templates/tools/bundler/npm_bundler.py:157-186 | each written root index, read back line by line, is its header then the lines for the classes present |
| NpmBundler.ExportName | src/main/resources/templates/tools/bundler/npm_bundler.py:204-206 | the export name has the path's length and holds no `/` and no `\\` |
| NpmBundler.ExportNameInverse | src/main/resources/templates/tools/bundler/npm_bundler.py:204-206 | a path with no `_` and no `\\` is recovered from its export name |
| NpmBundler.ModulePath | src/main/resources/templates/tools/bundler/npm_bundler.py:204-205 | the module path starts with `./` and holds only forward slashes after it |
| NpmBundler.SubdirExports | src/main/resources/templates/tools/bundler/npm_bundler.py:196-207 | one export line per JavaScript file of the walk, in walk order |
| NpmBundler.SubdirIndexLines | src/main/resources/templates/tools/bundler/npm_bundler.py:196-216 | the subdirectory `index.js` split at newlines gives back the export lines, and `index.d.ts` is the same text |
| NpmPackageJson.DualLayout | src/main/resources/templates/tools/bundler/npm_bundler.py:14-58 | the dual `package.json` is the base object followed by its dual entries |
| NpmPackageJson.DualEntry | src/main/resources/templates/tools/bundler/npm_bundler.py:27-58 | past the base keys, the dual object reads as its dual entries |
| NpmPackageJson.DualEntries | src/main/resources/templates/tools/bundler/npm_bundler.py:29-50 | dual: `main` is `./index.cjs`, `module` `./index.mjs`, `types` `./index.d.ts`, no `type`, and `exports` has exactly `.`, `./node`, `./web` in that order |
| NpmPackageJson.PackageJsonBase | src/main/resources/templates/tools/bundler/npm_bundler.py:16-25 | in every format, `name` and `version` are the arguments and `dependencies` the three fixed ones |
| NpmPackageJson.SingleKeepsBase | src/main/resources/templates/tools/bundler/npm_bundler.py:58-63 | a single-format object changes only `main`, `types` and `type` of the base object |
| NpmPackageJson.SingleEntryPoints | src/main/resources/templates/tools/bundler/npm_bundler.py:58-61 | single format: `main` is `./index.js` and `types` is `./index.d.ts` |
| NpmPackageJson.SingleModuleType | src/main/resources/templates/tools/bundler/npm_bundler.py:62-63 | `"type": "module"` is present exactly in the ESM layout, and absent in CommonJS |
| NpmPackageJson.SingleNoDualEntries | src/main/resources/templates/tools/bundler/npm_bundler.py:58-63 | single-format objects have no `module` and no `exports` entry |
| JarBundler.ManifestIsFiveLines | src/main/resources/templates/tools/bundler/jar_bundler_generated.py:15-22 | with coordinates and version free of line breaks, the manifest is exactly its five header lines, each ended by a newline |
| JarBundler.ExtractEntries | src/main/resources/templates/tools/bundler/jar_bundler_generated.py:62-69 | extracting one JAR adds exactly its entries that are not `META-INF/` signature files, each overwriting what had that name; everything else is kept |
| JarBundler.ExtractJarListSpec | src/main/resources/templates/tools/bundler/jar_bundler_generated.py:58-69 | extraction adds exactly the non-signature entries of the JARs that exist, each from a JAR that lists it; a missing JAR adds nothing; no signature file is ever added |
| JarBundler.ParseJarSpec | src/main/resources/templates/tools/bundler/jar_bundler_generated.py:80-102 | an entry with `=` splits at its first `=`; one without takes the source as written, and its destination drops `bazel-out/<dir>/`, then `external/<dir>/`, then everything through the directory after `_virtual_imports/` |
| JarBundler.WrittenByEntry | src/main/resources/templates/tools/bundler/jar_bundler_generated.py:80-108 | every entry whose source exists has its destination written |
| JarBundler.WrittenByOnlyEntries | src/main/resources/templates/tools/bundler/jar_bundler_generated.py:80-108 | every written destination is that of an entry whose source exists |
| JarBundler.CopyProtoListKeys | src/main/resources/templates/tools/bundler/jar_bundler_generated.py:80-108 | the proto loop adds exactly the destinations of the entries whose source exists, each holding a copy of an existing source |
| JarBundler.CopyProtoListKeeps | src/main/resources/templates/tools/bundler/jar_bundler_generated.py:80-108 | a path no entry names keeps what it held |
| JarBundler.FatJar.constructor | src/main/resources/templates/tools/bundler/jar_bundler_generated.py:54 | the staging directory starts empty |
| JarBundler.FatJar.ExtractJar | src/main/resources/templates/tools/bundler/jar_bundler_generated.py:62-69 | the staging tree becomes the extraction of that JAR's entries over the old tree |
| JarBundler.FatJar.ExtractJars | src/main/resources/templates/tools/bundler/jar_bundler_generated.py:58-69 | the staging tree becomes the extraction of every existing JAR, in argument order |
| JarBundler.FatJar.CopyProtos | src/main/resources/templates/tools/bundler/jar_bundler_generated.py:78-108 | the staging tree becomes the old tree with each existing proto copied to its destination, in argument order |
| JarBundler.JarContents | src/main/resources/templates/tools/bundler/jar_bundler_generated.py:115-122 | the JAR written from the staging tree holds exactly its non-directory names, each with what the tree holds there, and no name ending in `/` |
| JarBundler.StageJar | src/main/resources/templates/tools/bundler/jar_bundler_generated.py:38-122 | the staging tree holds the extracted entries, then the manifest of the resolved version over any extracted one, then the protos over both; the JAR is that tree's files, with no directory entry |
| JarBundler.JarHoldsManifest | src/main/resources/templates/tools/bundler/jar_bundler_generated.py:71-122 | when no proto entry is copied to `META-INF/MANIFEST.MF`, the JAR holds the fresh manifest there |
| JarBundler.Index | src/main/resources/templates/tools/bundler/jar_bundler_generated.py:124-131 | with a non-empty indexer path, a non-zero exit fails the run and a zero exit adds `META-INF/jandex.idx`; without one the JAR is left as it is; a JAR without directory entries stays without them |
| JarBundler.ExtractedEntriesAreNotSignatures | src/main/resources/templates/tools/bundler/jar_bundler_generated.py:62-69 | every entry of the fat JAR taken from a dependency is a non-signature entry listed by one of the given JARs |
| JarBundler.CopyProtoExtractedKept | src/main/resources/templates/tools/bundler/jar_bundler_generated.py:104-108 | an extracted entry in the final tree was there, unchanged, before the proto loop |
| WheelBuilder.SetupPyFieldsRecoverable | src/main/resources/templates/tools/bundler/wheel_builder.py:13-41 | `setup.py`'s quoted `name=` and `version=` fields read back as the package name and version given, when neither holds a quote |
| WheelBuilder.ParseProtoSpec | src/main/resources/templates/tools/bundler/wheel_builder.py:152-157 | an entry with `=` splits at its first `=`; one without takes the source as written and its stripped path as destination |
| WheelBuilder.LastProtoCopyKeys | src/main/resources/templates/tools/bundler/wheel_builder.py:152-164 | a path has a last proto copy exactly when the proto loop writes it |
| WheelBuilder.ProtoResultKeys | src/main/resources/templates/tools/bundler/wheel_builder.py:152-164 | after the proto loop the staging directory holds what it held plus the destinations of the existing sources |
| WheelBuilder.ProtoResultAt | src/main/resources/templates/tools/bundler/wheel_builder.py:152-164 | each path holds the last proto copied there, or else what it held before |
| WheelBuilder.ProtoResultStaged | src/main/resources/templates/tools/bundler/wheel_builder.py:152-164 | every staged proto lands at its destination with the last copy made there, and every other file is left alone |
| WheelBuilder.CountCopiedBound | src/main/resources/templates/tools/bundler/wheel_builder.py:151-164 | the proto count is at most the number of entries; it is all of them when every source exists and none when none does |
| WheelBuilder.InitFilesShape | src/main/resources/templates/tools/bundler/wheel_builder.py:139-145 | the parent walk never puts an `__init__.py` at the staging root, and puts one in every directory strictly between the root and the file |
| WheelBuilder.Staging.constructor | src/main/resources/templates/tools/bundler/wheel_builder.py:125 | the staging directory starts empty |
| WheelBuilder.Staging.AddInitFiles | src/main/resources/templates/tools/bundler/wheel_builder.py:139-145 | the parent walk adds an empty `__init__.py` to every directory up to the root that lacks one, and changes no existing file |
| WheelBuilder.Staging.StagePyFile | src/main/resources/templates/tools/bundler/wheel_builder.py:133-145 | one Python file is copied to its stripped destination and its parents get `__init__.py` files; nothing else changes |
| WheelBuilder.Staging.StagePythonFiles | src/main/resources/templates/tools/bundler/wheel_builder.py:130-147 | each existing Python file is staged in order and a missing one is skipped |
| WheelBuilder.Staging.StageProtos | src/main/resources/templates/tools/bundler/wheel_builder.py:151-166 | the proto loop copies each existing source to its destination, in order, and counts the copies |
| WheelBuilder.StagedWheelContents | src/main/resources/templates/tools/bundler/wheel_builder.py:130-176 | the loops' results with `setup.py` and `MANIFEST.in` written over them give the wheel's contents |
| WheelBuilder.StageWheel | src/main/resources/templates/tools/bundler/wheel_builder.py:125-176 | the wheel directory holds the staged Python files and their `__init__.py` files, the protos, `setup.py` and `MANIFEST.in`; the count is the number of protos copied |
| PkgEditor.WithGlob | src/main/resources/templates/tools/pkg_editor.py:39-50 | the list afterwards holds the glob and everything it held |
| PkgEditor.AddThenCheck | src/main/resources/templates/tools/pkg_editor.py:14-62 | after a successful add, the workspace check finds the glob |
| PkgEditor.AddIdempotent | src/main/resources/templates/tools/pkg_editor.py:14-62 | adding the same glob to the file an add wrote writes the same file again |
| PkgEditor.AddedWorkspacesStable | src/main/resources/templates/tools/pkg_editor.py:34-56 | the `workspaces` value an add produces is kept unchanged by the next add |
| PkgEditor.AddKeepsOtherKeys | src/main/resources/templates/tools/pkg_editor.py:34-60 | an add changes no key but `workspaces` |
| PkgEditor.AddRefusedIff | src/main/resources/templates/tools/pkg_editor.py:34-56 | a parsed object is refused exactly when `workspaces` is a string, number or boolean, or an object whose `packages` is neither absent, `null` nor a list |
| PkgEditor.GitignoreBlankLine | src/main/resources/templates/tools/pkg_editor.py:73-87 | as written, a file holding one line and its newline gets a blank line before the entry; the intended append adds the entry directly |
| PkgEditor.GitignoreAppendLines | src/main/resources/templates/tools/pkg_editor.py:65-89 | intended: the lines afterwards are the lines before, plus the entry when it was missing, and the old text is kept as a prefix |
| PkgEditor.GitignoreAppendIdempotent | src/main/resources/templates/tools/pkg_editor.py:65-89 | intended: ensuring the entry twice is ensuring it once |
| PkgEditor.GitignoreAgreesOffNewline | src/main/resources/templates/tools/pkg_editor.py:83-87 | the code as written and the intended append agree on every file that is empty or does not end in a newline |
| PkgEditor.FlatName | src/main/resources/templates/tools/pkg_editor.py:106 | the directory name under `protolake/` holds no `@` and no `/` |
| PkgEditor.TargetProject.constructor | src/main/resources/templates/tools/pkg_editor.py:92-108 | a project holds its `package.json`, its `.gitignore` and no installed packages |
| PkgEditor.TargetProject.AddWorkspace | src/main/resources/templates/tools/pkg_editor.py:14-62 | the result is the add's outcome on the old file; the file is rewritten only when the entry is written; `.gitignore` and installed copies are unchanged |
| PkgEditor.TargetProject.EnsureGitignore | src/main/resources/templates/tools/pkg_editor.py:65-89 | `.gitignore` becomes the code-as-written append of the entry to the old text (created when missing); nothing else changes |
| PkgEditor.TargetProject.InstallPackage | src/main/resources/templates/tools/pkg_editor.py:92-123 | the package copy under its flat name replaces any earlier one; the add runs with `protolake/*`; `.gitignore` gets `protolake/` only when the add succeeds, else both files are unchanged |
| NpmPublisher.ParseCoordsRoundTrip | src/main/resources/templates/tools/publish/npm_publisher_generated.py:37-40 | coordinates `name@version` read back as that name and version; the version is what follows the last `@`, so a scoped name keeps its leading `@` |
| NpmPublisher.ModeNamedInverse | src/main/resources/templates/tools/publish/npm_publisher_generated.py:63-220 | mode names and modes correspond one to one |
| NpmPublisher.SelectMode | src/main/resources/templates/tools/publish/npm_publisher_generated.py:63 | a mode is chosen exactly when the script supports one named by `NPM_PUBLISH_MODE` (or the script's default), and it is that mode; otherwise the run fails as an unknown mode |
| NpmPublisher.DefaultModes | src/main/resources/templates/tools/publish/npm_publisher_generated.py:63 | without `NPM_PUBLISH_MODE` both npm scripts link and the proto-loader script copies files |
| NpmPublisher.Flatten | src/main/resources/templates/tools/publish/npm_publisher_generated.py:117 | the flattened name has the name's length and no `/` |
| NpmPublisher.FileDestDetermines | src/main/resources/templates/tools/publish/npm_publisher_generated.py:112-117 | two packages share a file-mode destination exactly when their flattened names and versions agree |
| NpmPublisher.FlattenMergesScopes | src/main/resources/templates/tools/publish/npm_publisher_generated.py:117 | `@a/b` and `@a-b` get the same destination |
| NpmPublisher.CleanTargets | src/main/resources/templates/tools/publish/npm_publisher_generated.py:146 | the targets kept are non-empty, and there are no more of them than parts |
| NpmPublisher.ParseTargetsRoundTrip | src/main/resources/templates/tools/publish/npm_publisher_generated.py:146 | comma-joined targets without commas, newlines or surrounding blanks read back as themselves |
| NpmPublisher.RunInstallsOkIff | src/main/resources/templates/tools/publish/npm_publisher_generated.py:148-177 | the workspace loop succeeds exactly when no target with a `package.json` fails its install; every target installed has a `package.json` |
| NpmPublisher.FirstOf | src/main/resources/templates/tools/publish/npm_publisher_generated.py:194-196 | the scan stops at the first character of the stop set, or at the end |
| NpmPublisher.RegistryHostOf | src/main/resources/templates/tools/publish/npm_publisher_generated.py:194-198 | for `scheme://host/path` the `.npmrc` key is `//host/path` |
| NpmPublisher.Installs | src/main/resources/templates/tools/publish/npm_publisher_generated.py:155 | one install effect per target, in order |
| NpmPublisher.EarlyFailures | src/main/resources/templates/tools/publish/npm_publisher_generated.py:37-60 | unreadable coordinates, a bundle that fails to extract or an unknown mode fail the run with no effect |
| NpmPublisher.PublishByMode | src/main/resources/templates/tools/publish/npm_publisher_generated.py:34-222 | once the coordinates parse and the bundle extracts, the outcome is the chosen mode's outcome |
| NpmPublisher.SkipDoesNothing | src/main/resources/templates/tools/publish/npm_publisher_generated.py:65-69 | `skip` succeeds and does nothing |
| NpmPublisher.FileCopyReplacesTree | src/main/resources/templates/tools/publish/npm_publisher_generated.py:112-124 | `file` succeeds after replacing the destination tree |
| NpmPublisher.RegistryNeedsUrlAndToken | src/main/resources/templates/tools/publish/npm_publisher_generated.py:179-215 | `registry` fails with no effect unless both the URL and a token are set; then it writes the `.npmrc` line and publishes to that URL, and succeeds exactly when npm does |
| NpmPublisher.WorkspaceOkIff | src/main/resources/templates/tools/publish/npm_publisher_generated.py:137-177 | `workspace` succeeds exactly when no listed target with a `package.json` fails its install (no targets at all is success) |
| NpmPublisher.LegacyIsGeneratedRestricted | src/main/resources/templates/tools/publish/npm_publisher.py:59-131 | given an absolute bundle path, the older script behaves as the generated one for the modes it knows; it fails for the others |
| NpmPublisher.LegacyRelativeBundleFails | src/main/resources/templates/tools/publish/npm_publisher.py:41-51 | the older script runs `tar` on the bundle path as given inside the empty temporary directory, so a relative path fails the run with no effect |
| NpmPublisher.RelativeBundleAsAbsolute | src/main/resources/templates/tools/publish/npm_publisher_generated.py:42-53 | the generated scripts make the bundle path absolute first, so a relative path publishes as its absolute form does |
| NpmPublisher.RelativeBundleDiverges | src/main/resources/templates/tools/publish/npm_publisher.py:41-51 | a relative path to a good bundle with no mode set: the generated script links and succeeds, the older one fails |
| NpmPublisher.InstallAll | src/main/resources/templates/tools/publish/npm_publisher_generated.py:147-177 | the install loop's result is the workspace outcome specified above |
| NpmPublisher.RaisedStays | src/main/resources/templates/tools/publish/npm_publisher_generated.py:147-177 | once an install raises, the later targets change nothing |
| NpmPublisher.RunMode | src/main/resources/templates/tools/publish/npm_publisher_generated.py:63-220 | running a mode gives that mode's outcome |
| NpmPublisher.Publish | src/main/resources/templates/tools/publish/npm_publisher_generated.py:34-222 | a run gives its specified outcome |
| ProtoLoaderPublisher.LoaderSpec | src/main/resources/templates/tools/publish/proto_loader_publisher_generated.py:38-42 | an entry with `=` splits at its first `=`; one without is used as both source and destination |
| ProtoLoaderPublisher.JoinPath | src/main/resources/templates/tools/publish/proto_loader_publisher_generated.py:44 | `os.path.join`: an absolute name replaces the directory, a relative one is appended after `/` |
| ProtoLoaderPublisher.ParseSpecs | src/main/resources/templates/tools/publish/proto_loader_publisher_generated.py:37-42 | one parsed entry per argument, in order |
| ProtoLoaderPublisher.CopyProtosFails | src/main/resources/templates/tools/publish/proto_loader_publisher_generated.py:37-46 | the copy loop fails exactly when some entry's source does not exist |
| ProtoLoaderPublisher.CopyProtosPaths | src/main/resources/templates/tools/publish/proto_loader_publisher_generated.py:37-46 | when it succeeds, the package holds exactly the entries' destinations under `package/proto/` |
| ProtoLoaderPublisher.CopyProtosLastWins | src/main/resources/templates/tools/publish/proto_loader_publisher_generated.py:37-46 | a destination holds the copy of the last entry written there |
| ProtoLoaderPublisher.LoaderPackageJsonNames | src/main/resources/templates/tools/publish/proto_loader_publisher_generated.py:49-51 | `package.json` names the package and its version |
| ProtoLoaderPublisher.LoaderPackageJsonMain | src/main/resources/templates/tools/publish/proto_loader_publisher_generated.py:53 | `main` is `index.js` |
| ProtoLoaderPublisher.LoaderPackageJsonTypes | src/main/resources/templates/tools/publish/proto_loader_publisher_generated.py:54 | `types` is `index.d.ts` |
| ProtoLoaderPublisher.LoaderPackageJsonFiles | src/main/resources/templates/tools/publish/proto_loader_publisher_generated.py:55-59 | `files` lists `proto/`, `index.js` and `index.d.ts`, and the peer dependencies are gRPC-js 1.8 and proto-loader 0.7 or later |
| ProtoLoaderPublisher.LoaderPackageJsonUnique | src/main/resources/templates/tools/publish/proto_loader_publisher_generated.py:49-61 | no key of `package.json` appears twice |
| ProtoLoaderPublisher.IndexJsRequiresPackage | src/main/resources/templates/tools/publish/proto_loader_publisher_generated.py:68-100 | `index.js` shows `require("<package>")` for the package it is built for |
| ProtoLoaderPublisher.IndexJsInjective | src/main/resources/templates/tools/publish/proto_loader_publisher_generated.py:68-100 | different packages get different `index.js` texts |
| ProtoLoaderPublisher.PackageTreeContents | src/main/resources/templates/tools/publish/proto_loader_publisher_generated.py:31-121 | with every source present, the package holds `package.json`, `index.js`, `index.d.ts` and every proto destination |
| ProtoLoaderPublisher.PlainEntryKeepsPath | src/main/resources/templates/tools/publish/proto_loader_publisher_generated.py:41-44 | a relative entry without `=` lands at `package/proto/<entry>` |
| ProtoLoaderPublisher.StagingDir.constructor | src/main/resources/templates/tools/publish/proto_loader_publisher_generated.py:31 | the staging directory starts empty |
| ProtoLoaderPublisher.StagingDir.Create | src/main/resources/templates/tools/publish/proto_loader_publisher_generated.py:31-121 | creation succeeds exactly when every source exists and then leaves the full package; on failure the protos copied before the missing one stay |
| ProtoLoaderPublisher.CopyFailureStays | src/main/resources/templates/tools/publish/proto_loader_publisher_generated.py:37-46 | once a copy fails, the later entries change nothing |
| ProtoLoaderPublisher.PublishAsNpm | src/main/resources/templates/tools/publish/proto_loader_publisher_generated.py:156-240 | with `NPM_PUBLISH_MODE` set to a mode the script knows, it publishes as the npm script does |
| ProtoLoaderPublisher.DefaultCopiesFile | src/main/resources/templates/tools/publish/proto_loader_publisher_generated.py:156-170 | without `NPM_PUBLISH_MODE` it copies the package tree to the file destination and succeeds |
| ProtoLoaderPublisher.NpmOnlyModesFail | src/main/resources/templates/tools/publish/proto_loader_publisher_generated.py:237-240 | `local-registry` and `pack` are unknown here and fail |
| ProtoLoaderPublisher.SelectAction | src/main/resources/templates/tools/publish/proto_loader_publisher_generated.py:257-275 | a non-empty `--output` builds; otherwise two remaining arguments give the bundle and the coordinates |
| ProtoLoaderPublisher.MissingCoordsIsUsage | src/main/resources/templates/tools/publish/proto_loader_publisher_generated.py:266-275 | without `--output` and with fewer than two remaining arguments the script prints its usage |
| ProtoLoaderPublisher.BuildVersion | src/main/resources/templates/tools/publish/proto_loader_publisher_generated.py:258 | the build uses `VERSION` from the environment when set, else the `--version` argument |
| ProtoLoaderPublisher.ExitStatus | src/main/resources/templates/tools/publish/proto_loader_publisher_generated.py:256-277 | the exit status is 0 or 1: 1 for the usage case, 0 for a build exactly when the package is created, and 0 for a publish exactly when the publish succeeds |
| PypiPublisher.NormalizeName | src/main/resources/templates/tools/publish/pypi_publisher_generated.py:21 | the normalised name has the name's length, every `_` turned into `-` and every capital into lower case, and every other character kept |
| PypiPublisher.NormalizeNameIdempotent | src/main/resources/templates/tools/publish/pypi_publisher_generated.py:21 | normalising twice is normalising once |
| PypiPublisher.TargetWheelLayout | src/main/resources/templates/tools/publish/pypi_publisher_generated.py:24-29 | the wheel lands inside its package directory under its own file name, and packages whose names normalise alike share it |
| PypiPublisher.EntriesExactly | src/main/resources/templates/tools/publish/pypi_publisher_generated.py:45 | a directory listing holds exactly the non-empty single-segment names of the files and directories below it |
| PypiPublisher.EntriesGrow | src/main/resources/templates/tools/publish/pypi_publisher_generated.py:25-30 | adding files and directories never removes a listed name |
| PypiPublisher.SortedListing | src/main/resources/templates/tools/publish/pypi_publisher_generated.py:45 | a listing sorted as `sorted` does is the ascending sequence of the names listed |
| PypiPublisher.AnchorInjective | src/main/resources/templates/tools/publish/pypi_publisher_generated.py:50 | different names get different link lines |
| PypiPublisher.Anchors | src/main/resources/templates/tools/publish/pypi_publisher_generated.py:49-50 | one link line per name, in order |
| PypiPublisher.PageLinesAt | src/main/resources/templates/tools/publish/pypi_publisher_generated.py:48-51 | an index page is three header lines, one link per name in order, then two footer lines |
| PypiPublisher.IndexListsExactly | src/main/resources/templates/tools/publish/pypi_publisher_generated.py:42-74 | a page links a name exactly when the name is in the set it lists |
| PypiPublisher.IndexOrder | src/main/resources/templates/tools/publish/pypi_publisher_generated.py:45-51 | names appear on a page in ascending order |
| PypiPublisher.IndexPageReadBack | src/main/resources/templates/tools/publish/pypi_publisher_generated.py:54 | a page joined with newlines splits back into its lines |
| PypiPublisher.WheelFiles | src/main/resources/templates/tools/publish/pypi_publisher_generated.py:45 | exactly the listed names ending in `.whl` are kept |
| PypiPublisher.IndexesListExactly | src/main/resources/templates/tools/publish/pypi_publisher_generated.py:42-74 | the package page links exactly the wheels in its directory; the root page links exactly the directories of the repository whose names do not start with `.` |
| PypiPublisher.ListDir | src/main/resources/templates/tools/publish/pypi_publisher_generated.py:45 | `os.listdir` succeeds exactly when the directory exists, and then lists its entries |
| PypiPublisher.RenderIndex | src/main/resources/templates/tools/publish/pypi_publisher_generated.py:48-54 | the page text is the page lines joined with newlines |
| PypiPublisher.UpdatePackageIndex | src/main/resources/templates/tools/publish/pypi_publisher_generated.py:42-55 | with the package directory present, `index.html` becomes the page of its wheels; otherwise the listing raises and nothing changes |
| PypiPublisher.UpdateRootIndex | src/main/resources/templates/tools/publish/pypi_publisher_generated.py:58-75 | with the repository present, `index.html` becomes the page of its package directories; otherwise nothing changes |
| PypiPublisher.PublishToLocalRepo | src/main/resources/templates/tools/publish/pypi_publisher_generated.py:17-39 | the package directory is made, the wheel copied into it, and both index pages rewritten; the result is the local-publish outcome |
| PypiPublisher.PublishedIsListed | src/main/resources/templates/tools/publish/pypi_publisher_generated.py:17-39 | after a local publish the package page links the new wheel and every wheel listed before |
| PypiPublisher.PublishedPackageIsListed | src/main/resources/templates/tools/publish/pypi_publisher_generated.py:17-39 | after a local publish the root page links the package's normalised name |
| PypiPublisher.StripSlashes | src/main/resources/templates/tools/publish/pypi_publisher_generated.py:80 | `rstrip('/')` removes every trailing `/` and nothing else |
| PypiPublisher.StripSlashesTrailing | src/main/resources/templates/tools/publish/pypi_publisher_generated.py:80 | a URL with one more trailing `/` strips to the same URL |
| PypiPublisher.RemoteUpload | src/main/resources/templates/tools/publish/pypi_publisher_generated.py:78-161 | twine uploads to the URL without trailing slashes; the fallback posts to that URL plus one `/`; the wheel and the token are those given |
| PypiPublisher.DestinationOf | src/main/resources/templates/tools/publish/pypi_publisher_generated.py:183-220 | an `http://` or `https://` repository is the remote target; otherwise a non-empty `--index-url` is; otherwise the local repository |
| PypiPublisher.MainLegacy | src/main/resources/templates/tools/publish/pypi_publisher.py:76-118 | a missing wheel or a non-empty `--index-url` exits 1 with nothing changed; otherwise the wheel is published locally and the exit status follows the outcome |
| PypiPublisher.MainGenerated | src/main/resources/templates/tools/publish/pypi_publisher_generated.py:164-231 | a missing wheel exits 1; a remote target with no token exits 1, else uploads and exits 0 exactly when the upload is accepted, changing no local file; a local target publishes locally |
| PublisherUtils.ParentDir | src/main/resources/templates/tools/publish/publisher_utils_generated.py:12 | a parent is a shorter, non-empty path |
| PublisherUtils.MakeDirs | src/main/resources/templates/tools/publish/publisher_utils_generated.py:10-12 | `mkdir(parents=True, exist_ok=True)`: the directory exists afterwards, every existing one stays, and a tree closed under parents stays closed |
| PublisherUtils.MakeDirsExisting | src/main/resources/templates/tools/publish/publisher_utils_generated.py:10-12 | making a directory that exists changes nothing |
| PublisherUtils.MakeDirsIdempotent | src/main/resources/templates/tools/publish/publisher_utils_generated.py:10-12 | making a directory twice is making it once |
| PublisherUtils.VersionElements | src/main/resources/templates/tools/publish/publisher_utils_generated.py:49 | one `<version>` element per version, in order |
| PublisherUtils.VersioningReadBack | src/main/resources/templates/tools/publish/publisher_utils_generated.py:47-64 | the `<version>` texts of the metadata read back as the sorted distinct versions |
| PublisherUtils.MetadataVersioning | src/main/resources/templates/tools/publish/publisher_utils_generated.py:51-63 | the metadata's `versioning` child is the block it was built with |
| PublisherUtils.MetadataLatest | src/main/resources/templates/tools/publish/publisher_utils_generated.py:56-57 | `latest` and `release` are both the version just published |
| PublisherUtils.LatestIsNewestPublish | src/main/resources/templates/tools/publish/publisher_utils_generated.py:49-57 | `latest` is the version just published even when it sorts before an older one, so it need not be the last version listed |
| PublisherUtils.LocalLedgerLayout | src/main/resources/templates/tools/publish/publisher_utils_generated.py:76-78 | the ledger sits at `<repo>/<group path>/<artifact>/maven-metadata-local.xml`, the group's dots made slashes |
| PublisherUtils.KnownVersions | src/main/resources/templates/tools/publish/publisher_utils_generated.py:89-96 | the versions read are usable exactly when none is missing its text, and then are exactly the texts read |
| PublisherUtils.KnownVersionsSomes | src/main/resources/templates/tools/publish/publisher_utils_generated.py:89-93 | versions read back from written metadata are the versions written |
| PublisherUtils.ReadBackLedger | src/main/resources/templates/tools/publish/publisher_utils_generated.py:82-90 | a ledger this code wrote reads back as its sorted distinct versions |
| PublisherUtils.LocalMetadataVersionSet | src/main/resources/templates/tools/publish/publisher_utils_generated.py:73-100 | after an update the ledger lists exactly the new version and the versions it listed before |
| PublisherUtils.LocalMetadataRepeat | src/main/resources/templates/tools/publish/publisher_utils_generated.py:73-100 | updating with the same version twice is updating once (the second timestamp wins) |
| PublisherUtils.CollectedVersions | src/main/resources/templates/tools/publish/publisher_utils_generated.py:80-100 | the rewritten ledger is the metadata of the versions read plus the new one, with its checksums |
| PublisherUtils.Disk.constructor | src/main/resources/templates/tools/publish/publisher_utils_generated.py:10 | a disk holds the given files and directories |
| PublisherUtils.Disk.EnsureDirectoryExists | src/main/resources/templates/tools/publish/publisher_utils_generated.py:10-12 | the directory and its parents exist afterwards; files are unchanged |
| PublisherUtils.Disk.GenerateChecksums | src/main/resources/templates/tools/publish/publisher_utils_generated.py:26-44 | with the file present, its `.md5` and `.sha1` files are written; otherwise the read raises and nothing changes |
| PublisherUtils.Disk.UpdateLocalMavenMetadata | src/main/resources/templates/tools/publish/publisher_utils_generated.py:73-100 | the files become the updated ledger and its checksums when the update can run, and are unchanged when it raises |
| MavenPublisher.PomCoordinates | src/main/resources/templates/tools/publish/maven_publisher.py:26-39 | the POM is a `project` with model version 4.0.0, the given group id, artifact id and version, and packaging `jar` |
| MavenPublisher.PomDescription | src/main/resources/templates/tools/publish/maven_publisher.py:41-42 | the POM has a `description` exactly when a non-empty one is given, and it is that one |
| MavenPublisher.PomDependency | src/main/resources/templates/tools/publish/maven_publisher.py:44-49 | the POM depends on exactly one artifact, `com.google.protobuf:protobuf-java:3.25.3` |
| MavenPublisher.ArtifactPathsDistinct | src/main/resources/templates/tools/publish/maven_publisher.py:80-102 | the JAR, the POM and their four checksum files are six different paths |
| MavenPublisher.VersionDirsDisjoint | src/main/resources/templates/tools/publish/maven_publisher.py:76 | two versions without `/` have disjoint directories |
| MavenPublisher.GroupPathSplit | src/main/resources/templates/tools/publish/maven_publisher.py:73 | the group path of `a.b` is the path of `a`, then `/`, then `b` |
| MavenPublisher.SetText | src/main/resources/templates/tools/publish/maven_publisher.py:132-141 | setting a child's text changes only children with that tag and leaves that text readable |
| MavenPublisher.SetTextFixed | src/main/resources/templates/tools/publish/maven_publisher.py:132-141 | setting the text a child already has changes nothing |
| MavenPublisher.AddVersion | src/main/resources/templates/tools/publish/maven_publisher.py:149-151 | the `<version>` texts are kept, with the version appended exactly when it was missing |
| MavenPublisher.AddToVersions | src/main/resources/templates/tools/publish/maven_publisher.py:144-151 | `<versions>` is found or created and gets the version appended exactly when it was missing; no other child changes |
| MavenPublisher.AddToVersionsFixed | src/main/resources/templates/tools/publish/maven_publisher.py:149-151 | adding a listed version changes nothing |
| MavenPublisher.UpdateLedger | src/main/resources/templates/tools/publish/maven_publisher.py:127-151 | only `<versioning>` changes, and it becomes the updated block, created when it was missing |
| MavenPublisher.UpdateVersioningLatest | src/main/resources/templates/tools/publish/maven_publisher.py:131-141 | the updated `latest` and `release` are both the version published |
| MavenPublisher.UpdateVersioningVersions | src/main/resources/templates/tools/publish/maven_publisher.py:143-151 | the updated `<versions>` are the old ones, plus the version when it was missing |
| MavenPublisher.UpdateLedgerLatest | src/main/resources/templates/tools/publish/maven_publisher.py:131-141 | after an update, `latest` and `release` are the version published, whatever its order among the others |
| MavenPublisher.UpdateLedgerVersions | src/main/resources/templates/tools/publish/maven_publisher.py:143-151 | after an update the versions listed are the old ones, never removed or reordered, plus the version when missing |
| MavenPublisher.UpdateVersioningFixed | src/main/resources/templates/tools/publish/maven_publisher.py:127-151 | an updated block is left as it is by the same update |
| MavenPublisher.UpdateLedgerIdempotent | src/main/resources/templates/tools/publish/maven_publisher.py:112-160 | recording a version twice is recording it once |
| MavenPublisher.UpdateLedgerFixed | src/main/resources/templates/tools/publish/maven_publisher.py:127-151 | a ledger whose block the update leaves alone is left alone |
| MavenPublisher.UpdateLedgerKeeps | src/main/resources/templates/tools/publish/maven_publisher.py:127-151 | an update never changes a child other than `<versioning>`, so `groupId` and `artifactId` stay |
| MavenPublisher.FreshLedgerVersions | src/main/resources/templates/tools/publish/maven_publisher.py:120-151 | a fresh ledger lists only the version being published |
| MavenPublisher.ParentNameDotted | src/main/resources/templates/tools/publish/maven_publisher.py:107-123 | as written, a fresh ledger's group id is the last segment of a dotted group id |
| MavenPublisher.GroupIdAsWrittenIsLastSegment | src/main/resources/templates/tools/publish/maven_publisher.py:107-123 | as written, the recorded group id is the text after the group id's last `.`, or the whole id when it has none |
| MavenPublisher.GroupIdAsWrittenExample | src/main/resources/templates/tools/publish/maven_publisher.py:107-123 | as written, group `com.example` is recorded as `example` |
| MavenPublisher.WriteLedgerSteps | src/main/resources/templates/tools/publish/maven_publisher.py:153-160 | the ledger write and its two checksum writes, one at a time, give the ledger with its checksums |
| MavenPublisher.WithLedgerIdempotent | src/main/resources/templates/tools/publish/maven_publisher.py:112-160 | updating a ledger twice with the same version leaves the files as one update does |
| MavenPublisher.FreshLedgerRecorded | src/main/resources/templates/tools/publish/maven_publisher.py:120-124 | a fresh ledger records the group text it was created with and the artifact id |
| MavenPublisher.IntendedLedgerGroupId | src/main/resources/templates/tools/publish/maven_publisher.py:120-124 | intended: a fresh ledger created with the full group id records it in full |
| MavenPublisher.LedgerGroupIdAsWritten | src/main/resources/templates/tools/publish/maven_publisher.py:107-123 | as written, the fresh ledger for `com.example:protos` records group id `example` |
| MavenPublisher.WithArtifactsContents | src/main/resources/templates/tools/publish/maven_publisher.py:70-102 | a publish writes exactly the JAR, the POM with description `Proto definitions for <artifact>`, and the MD5 and SHA-1 digests of each |
| MavenPublisher.ArtifactFilesUnder | src/main/resources/templates/tools/publish/maven_publisher.py:76-102 | every file a publish writes lies below the version's directory |
| MavenPublisher.WithArtifactsOutside | src/main/resources/templates/tools/publish/maven_publisher.py:76-102 | a file outside the version's directory is left as it was |
| MavenPublisher.WithArtifactsKeepsOtherVersions | src/main/resources/templates/tools/publish/maven_publisher.py:76-102 | files of another version are left alone |
| MavenPublisher.LocalRepository.constructor | src/main/resources/templates/tools/publish/maven_publisher.py:172 | the repository holds the given files |
| MavenPublisher.LocalRepository.UpdateMavenMetadata | src/main/resources/templates/tools/publish/maven_publisher.py:112-160 | the ledger is updated with its checksums when it parses or is missing; a ledger that does not parse raises and nothing changes |
| MavenPublisher.LocalRepository.PublishToLocalRepo | src/main/resources/templates/tools/publish/maven_publisher.py:70-109 | a missing JAR, or a JAR copied onto itself, fails with nothing changed; otherwise the artifacts are written and then the ledger, and a ledger that does not parse fails after the artifacts are in |
| MavenPublisher.LocalRepository.PublishCommand | src/main/resources/templates/tools/publish/maven_publisher.py:163-201 | exit 1 with nothing changed for a missing JAR; otherwise the publish runs with the default repository and version, and the exit status is 0 exactly when the ledger update succeeds |
| LockfileCheck.ResolvedIsFilePath | src/main/resources/templates/tools/check_lockfile_generated.py:70-75 | a resolved value points into `protolake` exactly when it is `file:` followed by a protolake path |
| LockfileCheck.SegmentIsCaught | src/main/resources/templates/tools/check_lockfile_generated.py:65-75 | any path with a `/protolake/` segment is caught, as a key and as a `file:` value |
| LockfileCheck.NeedsProtolake | src/main/resources/templates/tools/check_lockfile_generated.py:65-75 | a text without `protolake` is never caught |
| LockfileCheck.FirstWordIsSplit | src/main/resources/templates/tools/check_lockfile_generated.py:54 | the first word of a finding is `f.split(' ')[0]` |
| LockfileCheck.ResolvedHit | src/main/resources/templates/tools/check_lockfile_generated.py:51-53 | a hit is reported only for a string `resolved` value that points into `protolake` |
| LockfileCheck.PackagesScanRaises | src/main/resources/templates/tools/check_lockfile_generated.py:47-50 | the `packages` scan raises exactly when some protolake key's value is not an object |
| LockfileCheck.PackagesScanReports | src/main/resources/templates/tools/check_lockfile_generated.py:47-55 | every protolake key is reported with its link note, and every key whose `resolved` points into `protolake` has a finding that starts with the key |
| LockfileCheck.PackagesScanOnce | src/main/resources/templates/tools/check_lockfile_generated.py:47-55 | with distinct keys free of spaces, each key is reported at most once |
| LockfileCheck.FieldHit | src/main/resources/templates/tools/check_lockfile_generated.py:85-90 | one field gives at most one finding |
| LockfileCheck.DepFindingsUnderPrefix | src/main/resources/templates/tools/check_lockfile_generated.py:78-94 | every finding of a nested dependency starts with its parents' path |
| LockfileCheck.DepFindingsReport | src/main/resources/templates/tools/check_lockfile_generated.py:82-94 | a `version` or `resolved` string pointing into `protolake` is reported under its path, and the findings of nested dependencies are kept |
| LockfileCheck.CheckReport | src/main/resources/templates/tools/check_lockfile_generated.py:19-62 | the lockfile is clean exactly when there are no findings; a missing one is clean except in CI mode; one that does not parse gives one finding |
| LockfileCheck.ExitStatus | src/main/resources/templates/tools/check_lockfile_generated.py:115-137 | exit 0 exactly when the check ran and was clean, otherwise 1 |
| LockfileCheck.CleanPackages | src/main/resources/templates/tools/check_lockfile_generated.py:47-55 | a `packages` map with no protolake key and no protolake `resolved` gives no finding |
| LockfileCheck.FailsIffFindings | src/main/resources/templates/tools/check_lockfile_generated.py:115-137 | a checked lockfile fails exactly when there are findings |
| LockfileCheck.CheckDependencies | src/main/resources/templates/tools/check_lockfile_generated.py:78-94 | the recursive walk appends the findings of the dependencies, in order |
| LockfileCheck.CheckEntry | src/main/resources/templates/tools/check_lockfile_generated.py:82-94 | one entry appends its `version` and `resolved` findings, then those of its nested dependencies |
| LockfileCheck.CheckField | src/main/resources/templates/tools/check_lockfile_generated.py:85-90 | one field appends its finding, if any |
| LockfileCheck.CheckLockfile | src/main/resources/templates/tools/check_lockfile_generated.py:19-62 | the check's result is the report specified above |
| LockfileCheck.PackagesScanRaised | src/main/resources/templates/tools/check_lockfile_generated.py:47-55 | once the scan raises, the later entries change nothing |
| RepoFiles.ChecksumPathInjective | src/main/resources/templates/tools/publish/maven_publisher.py:97-101 | checksum paths of different files or algorithms differ, and none is the file itself |
| RepoFiles.WithChecksums | src/main/resources/templates/tools/publish/publisher_utils_generated.py:26-44 | the `.md5` and `.sha1` files of a file are written with its digests, and nothing else changes |
| RepoFiles.WriteWithChecksums | src/main/resources/templates/tools/publish/maven_publisher.py:153-160 | the written file holds its content and the only new paths are it and its two checksum files |
| RepoFiles.WriteWithChecksumsAgain | src/main/resources/templates/tools/publish/maven_publisher.py:153-160 | writing a file twice with checksums is writing the second content once |
| RepoFiles.WriteWithChecksumsSame | src/main/resources/templates/tools/publish/maven_publisher.py:153-160 | writing the same content again changes nothing |
| BazelPaths.SplitExplicit | src/main/resources/templates/tools/bundler/jar_bundler_generated.py:81-82 | a spec with `=` splits at its first `=` into a source without `=` and the rest |
| BazelPaths.SplitExplicitRoundTrip | src/main/resources/templates/tools/bundler/jar_bundler_generated.py:81-82 | `src=dest` with no `=` in the source splits back into that source and destination |
| BazelPaths.StripBazelPathWheel | src/main/resources/templates/tools/bundler/wheel_builder.py:60-92 | the wheel builder's path cleaning, step by step, gives the wheel rule |
| BazelPaths.StripBazelPathNpm | src/main/resources/templates/tools/bundler/npm_bundler.py:68-89 | the npm bundler's path cleaning gives the npm rule, and the result never starts with `../` |
| BazelPaths.DeriveJarDest | src/main/resources/templates/tools/bundler/jar_bundler_generated.py:86-102 | the JAR bundlers' destination loop gives the JAR rule |
| BazelPaths.BazelOutCutAtBin | src/main/resources/templates/tools/bundler/wheel_builder.py:65-69 | a `bazel-out/` path is cut after its first `/bin/`, and kept whole when it has none |
| BazelPaths.ExternalDropsNine | src/main/resources/templates/tools/bundler/wheel_builder.py:72-74 | an `external/` path loses exactly those nine characters |
| BazelPaths.StripParentRefsSpec | src/main/resources/templates/tools/bundler/wheel_builder.py:77-78 | the loop removes a run of leading `../` and no more, leaving no leading `../` |
| BazelPaths.VirtualImportRule | src/main/resources/templates/tools/bundler/wheel_builder.py:81-89 | after `_virtual_imports/`, the first directory and its slash are dropped along with everything before; a path without a slash there, or an empty directory name, is kept |
| BazelPaths.WheelUnmarkedUnchanged | src/main/resources/templates/tools/bundler/wheel_builder.py:60-92 | a path with none of the four markers is kept as it is |
| BazelPaths.NpmIsWheelWithoutVirtualImports | src/main/resources/templates/tools/bundler/npm_bundler.py:68-89 | the npm rule is the wheel rule without the `_virtual_imports/` step |
| BazelPaths.VirtualImportFlattened | src/main/resources/templates/tools/bundler/wheel_builder.py:81-89 | `<pre>_virtual_imports/<dir>/<file>` becomes `<file>` in a wheel and stays whole in an npm package |
| BazelPaths.JarKeepsBin | src/main/resources/templates/tools/bundler/jar_bundler_generated.py:87-92 | `bazel-out/<cfg>/bin/<rest>` becomes `bin/<rest>` in a JAR but `<rest>` in a wheel |
| BazelPaths.WheelCutsAtConfigNamedBin | src/main/resources/templates/tools/bundler/wheel_builder.py:65-69 | a configuration directory named `bin` is where the wheel rule cuts |
| BazelPaths.JarKeepsParentRefs | src/main/resources/templates/tools/bundler/jar_bundler_generated.py:86-102 | a leading `../` stays in a JAR destination and goes in a wheel |
| BazelPaths.JarDropsDir | src/main/resources/templates/tools/bundler/jar_bundler_generated.py:87-92 | a matched prefix loses its first directory too |
| BazelPaths.JarPrefixesChain | src/main/resources/templates/tools/bundler/jar_bundler_generated.py:87-92 | `bazel-out/<cfg>/external/<repo>/<file>` loses both prefixes in turn, leaving `<file>` |
| VersionPlaceholder.ResolveVersion | src/main/resources/templates/tools/bundler/jar_bundler_generated.py:38-53 | the resolved version never holds `${`; it is the expansion of the argument or, when that still holds `${`, `1.0.0` |
| VersionPlaceholder.WithDefault | src/main/resources/templates/tools/bundler/jar_bundler_generated.py:40-52 | `${NAME:-fallback}` gives the environment's value for NAME, else the fallback, unless that holds `${` |
| VersionPlaceholder.WithoutDefault | src/main/resources/templates/tools/bundler/jar_bundler_generated.py:45-52 | `${NAME}` gives the environment's value for NAME, else `1.0.0`, unless that holds `${` |
| VersionPlaceholder.DefaultKeepsLaterSeparators | src/main/resources/templates/tools/bundler/jar_bundler_generated.py:43 | the split is at the first `:-`, so `${V:-1:-2}` without V gives `1:-2` |
| VersionPlaceholder.LiteralUnchanged | src/main/resources/templates/tools/bundler/jar_bundler_generated.py:38-53 | a version without `${` is kept |
| VersionPlaceholder.UnwrappedPlaceholderFallsBack | src/main/resources/templates/tools/bundler/jar_bundler_generated.py:39-52 | a version holding `${` but not ending in `}` becomes `1.0.0` |
| Sorting.SortDistinct | src/main/resources/templates/tools/publish/publisher_utils_generated.py:49 | `sorted` of a set of versions: ascending, holding exactly the versions given |
| Sorting.SortDistinctSameElements | src/main/resources/templates/tools/publish/publisher_utils_generated.py:81-96 | sequences with the same versions sort to the same list, so the order the set was filled in does not matter |
| XmlTree.FindChild | src/main/resources/templates/tools/publish/maven_publisher.py:127 | `find(tag)` gives the first child with that tag, or none when no child has it |
| XmlTree.FindOrCreate | src/main/resources/templates/tools/publish/maven_publisher.py:127-129 | a missing child is appended as a new element and found there; an existing one is found and nothing changes |

## Left out

- BuildModel: Java `HashMap` iteration order (BazelBuildRunner.java:197-204, 309-315) is not modelled. New bundle keys enter the proto map in the order the targets were built, whereas the source puts them in hash order. That order decides the summary's first error and its artifact order.
- Text.SplitLines: splits on "\n" only. Python's `splitlines` also breaks on \v, \f, \x1c-\x1e, \x85, U+2028 and U+2029. CRLF and CR do not arise: the text-mode `open` in pkg_editor.py has already folded them to "\n".
- PypiPublisher.NormalizeName: lower-cases ASCII letters only. Python's `.lower()` folds all of Unicode.
- NpmPublisher.Extracts: in the older script, a relative bundle path is taken to name nothing inside the fresh temporary directory. A path that climbs out with `..` to the archive is not modelled.
- NpmPublisher.HostPath: does not split `urlparse`'s `;params` off the last path segment.
- Json: a document is the value `json.load` returns, given as a datatype. A duplicate key, which Python resolves in favour of the last one, is not represented, and lookup takes the first match.
- BundleDiscovery.ParseBundle: a `bundle.yaml` value that is not a string, which the source skips after a `ClassCastException`, is not modelled.
- BundleInitializer.ToPascalCase: the character classes are ASCII only, whereas Java's `Character` methods are Unicode aware.
- NpmBundler: only the npm package's index files are modelled. Staging the package is not modelled: copying the `node/` and `web/` trees, writing the README, the `exports` map and the tarball.
- The initializers' file I/O is not modelled: template rendering, file copies, `chmod`/`makeExecutable`, `git init`, directory creation, and the clean-up in `deleteDirectory`, `deleteLakeDirectory` and `deleteProtolakeFiles`. The model computes the template contexts and the decisions that choose what gets written.
- WorkspaceInitializer: the empty validation block in `createBufConfiguration` has no effect and is not modelled.
- The workspace configuration is taken as never null, and the `com.example` organization default is a constant.
- Clock readings (operation timestamps, build durations) are parameters.
- The process environment is a map given as a parameter.
- The external programs `buf`, `git`, `bazel`, `npm`, `twine`, `java` and `pip` are replaced by their exit codes and outputs, given as parameters. Wheel building by `pip` and every tarball creation are left out.
- ValidationRunner: when validation throws, the source builds a failed-phase metadata and never uses it (ValidationRunner.java:185-191). The model leaves it out and keeps only the thrown failure.
- Operations: `cleanupExpiredOperations` and the executor's shutdown are not modelled. They are time-driven and concurrent.
- Orchestrator: the notification loop and concurrent access to the operation table are not modelled. Each step runs alone.
- BazelPaths.Segments: splits a destination at every `/` and keeps empty and `.` segments. Python's `Path(root) / dest` drops them, and an absolute `dest` replaces the root. So `a//b.proto` and `a/./b.proto` are staged by the model at other keys than `a/b.proto`, where Python writes one file. The wheel staging members (`WheelBuilder.Staging`) inherit this.
- JarBundler.CopyProtoList: keys the staging tree by the destination text itself, whereas `Path(tmpdir) / dest` lets an absolute destination replace the staging directory and treats `a//b` and `a/./b` as `a/b`.
- PypiPublisher.PackageDir, PypiPublisher.TargetWheel: join the repository and the names with a literal `/`. For a repository written with a trailing `/`, such as `/srv/simple/`, the model's paths hold `//` where pathlib's do not. The root index then lists only entries stored under the `//` form.
- PublisherUtils.LocalArtifactBase: joins the repository and the group segments with a literal `/`, without pathlib's removal of empty and `.` segments.
- NpmPublisher.FileDest, NpmPublisher.PackDest: build the destination under the home directory by concatenation, as above. An empty or `.` segment in a package name or version is kept.
- Java path normalisation is modelled on `/`-separated strings, with `.` and `..` segments resolved. Symbolic links and platform separators are not modelled.
- MavenPublisher: `parse_jar_name` (maven_publisher.py:14-23) is never called and always returns `None`, so it is not modelled. The `--skip-checksums` flag (maven_publisher.py:174) is parsed but never read.
- Printing and logging are not modelled.
- PypiPublisher: the fallback upload's multipart body is not modelled byte for byte. The model keeps its fields and the outcome.

## Findings

| source | as written | input that shows it | evidently intended | confidence | as-written member | corrected member |
|---|---|---|---|---|---|---|
| src/main/java/io/vdp/protolake/pipeline/BuildOrchestrator.java:148-153 | the running phase is written before `throwIfCancelled`, and `updateMetadata` overwrites whatever it finds (InMemoryOperationManager.java:116-118) | cancel an operation before its build thread starts: the thread's first update replaces the cancelled metadata with a running phase, then it sees the cancelled token and stops, so the operation stays not done for good | an operation that is already done keeps its terminal state | not executed | Orchestrator.CancelBeforeBuildAsWritten | Orchestrator.CancelBeforeBuildCorrected |
| src/main/resources/templates/tools/publish/maven_publisher.py:107-123 | a fresh `maven-metadata.xml` records `artifact_dir.parent.name` as its groupId, which is the last segment of the group path | publish `com.example:protos` into `/m2` with no ledger yet: the ledger says `<groupId>example</groupId>` | the ledger records the full groupId `com.example` | not executed | MavenPublisher.LedgerGroupIdAsWritten | MavenPublisher.IntendedLedgerGroupId |
| src/main/java/io/vdp/protolake/util/BundleUtil.java:67-75 | the bundle id is the text after the first `/bundles/` in the resource name | `lakes/bundles/bundles/x` (lake `bundles`) yields the id `bundles/x`, which the validator then refuses | the id after the lake's own `bundles/` segment, `x` | not executed | BundleUtil.ExtractBundleIdAsWritten | BundleUtil.BundleIdRoundTrip |
| src/main/java/io/vdp/protolake/validator/LakeValidator.java:75-76 | a relative lake path is resolved against the workspace root a second time before the nesting check | lake `l` with prefix `p` under the relative base `ws`, where `ws/p` holds a `lake.yaml`: the check walks `ws/ws/p` and `ws/ws` instead and reports nothing | the path is resolved once, and a lake inside another lake is reported | not executed | LakeValidator.NestedLakeMissedAsWritten | LakeValidator.LocalPathAccepted |
| src/main/resources/templates/tools/pkg_editor.py:83-87 | the separating newline depends on the last of the `splitlines()` lines being non-empty | a `.gitignore` holding `a\n` becomes `a\n\nprotolake/\n`, with a blank line | `a\nprotolake/\n`: a newline is added only when the text lacks one | not executed | PkgEditor.GitignoreBlankLine | PkgEditor.GitignoreAppendLines |
| src/main/resources/templates/tools/publish/npm_publisher.py:41-51 | `tar xzf` gets the bundle path as given, but runs inside the fresh temporary directory | a relative bundle path such as `bazel-out/pkg.tgz`: `tar` looks for it inside the empty temporary directory, fails, and the script exits 1 | the path is made absolute before `tar` runs, as npm_publisher_generated.py:42-43 does | not executed | NpmPublisher.LegacyRelativeBundleFails | NpmPublisher.RelativeBundleAsAbsolute |
