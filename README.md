# cbrew build engine, modelled in Dafny

cbrew is a single-header C build system (`cbrew.h`). A build script registers projects
(name, type, source wildcards, include directories, defines, flags, links) and their
configurations (name, target directory, object directory, defines, flags), then calls
`cbrew_build`. That call:

- finds each project's sources by matching a recursive listing of `.` against its
  wildcards;
- compiles every source whose object file is stale, using a `gcc -MM` dependency
  listing and modification times;
- links, archives or builds a shared library from the objects found in the object
  directory.

The `CBREW_AUTO_REBUILD` macro makes the build script rebuild and relaunch itself when
its own source `cbrew/cbrew.c` is newer than the running executable.

This project models that engine with the host made explicit:

- a file system map from paths to `(isDir, mtime)`;
- a log of issued commands (`system()` runs and `popen()` pipes);
- a `World` that answers, at each log position, what the file system is, what a
  listing returns, whether a command exits with status 0, and which first line a
  piped command prints.

Both platforms of the header are modelled through a `Platform` value that fixes the
path separator, the library prefix and the library extensions. The modules are:

- `Text`: strchr, strrchr and the strtok tokenizer.
- `Paths`: cbrew_path, basenames, the two object-name derivations, cbrew_wildcard_directory and cbrew_executable_filepath.
- `Wildcard`: the glob matcher.
- `Arguments`: the flags, defines, include-dirs and links strings.
- `Registry`: projects and configs, as a class over a sequence of entries.
- `Host`: the file system, rename, delete, the age comparison and the World.
- `Sources`: source selection and the object-file list.
- `Staleness`: the already-compiled check.
- `Orchestrator`: trace functions that specify cbrew_build and its helpers, and the `Shell` class whose methods run the C loops and are proved to issue exactly those traces.
- `Bootstrap`: `CBREW_AUTO_REBUILD`, as a function and as a `Launcher` class.

Where the documentation and the code disagree, the model follows the code:

- Include directories become `-I` options. The doc comment of `cbrew_create_include_dirs_str` says `-L`.
- A non-final `*` crosses separators, so `src/sub/a.c` matches `src/*.c`.
- The recursive listing of `.` yields `./`-prefixed entries, so `src/*.c` selects nothing from it while `*.c` selects every `.c` file at any depth.
- A missing executable is never rebuilt, because "older" needs both files to exist.
- The relaunch runs the executable path without the original arguments.

## Model

| member | source | states |
|---|---|---|
| Text.IndexOf | cbrew.h:1439 | strchr: None iff the element is absent; otherwise the position of its first occurrence |
| Text.LastIndexOf | cbrew.h:1406 | strrchr: None iff the character is absent; otherwise the position of its last occurrence |
| Text.LastIndexOfAppend | cbrew.h:925 | strrchr over a + b, when b holds the character, finds b's last occurrence shifted by abs(a) |
| Text.WordEnd | cbrew.h:967-968 | the leading run of non-space characters ends at a space or at the end of the string |
| Text.TokensAreWords | cbrew.h:967-968 | strtok with " " never yields an empty token or a token holding a space |
| Text.TokensOfWord | cbrew.h:967-968 | tokenizing a word followed by a space yields that word, then the tokens of the rest |
| Paths.Path | cbrew.h:1221-1232 | cbrew_path: every '/' becomes the platform separator and nothing else changes; PathIdempotent, PathAppend and PathInPlace state what it guarantees |
| Paths.PathIdempotent | cbrew.h:1221-1232 | normalising a normalised path changes nothing |
| Paths.PathAppend | cbrew.h:1221-1232 | normalisation distributes over concatenation |
| Paths.PathOnLinux | cbrew.h:1221-1232 | with '/' as the separator, normalisation is the identity |
| Paths.PathInPlace | cbrew.h:1225-1229 | the in-place loop leaves the buffer equal to the normalised original |
| Paths.Basename | cbrew.h:919-920 | the file name is a separator-free suffix of the path, and the whole path when there is no separator |
| Paths.WithObjectExtension | cbrew.h:925-936 | the result ends in ".o" and keeps everything up to and including the last '.', or appends ".o" when there is none |
| Paths.CompileObjectPath | cbrew.h:1007-1029 | the object the compile writes: the extension rewrite applied to the basename, then joined under the object directory; ObjectPathsAgree and ObjectPathsDisagree relate it to the checked object |
| Paths.StalenessObjectPath | cbrew.h:919-937 | the object the staleness check opens: the basename joined under the object directory, then the extension rewrite applied to the whole path |
| Paths.ObjectPathsAgree | cbrew.h:919-937 | when the basename holds a '.', the staleness check looks at the object file the compile step writes |
| Paths.ObjectPathsDisagree | cbrew.h:1012-1027 | when the basename has no '.' but the object directory has one, the staleness check looks at a different file from the one compiled |
| Paths.ExecutableFilepath | cbrew.h:1494-1504 | the result extends argv[0], and on Windows always contains a '.' |
| Paths.ExecutableFilepathIdempotent | cbrew.h:1494-1504 | deriving the executable path twice is deriving it once |
| Paths.FirstMeta | cbrew.h:1397-1404 | the cut position is the first '?', '*' or '[', or the end of the string |
| Paths.WildcardDirectory | cbrew.h:1390-1412 | with the normalised wildcard cut at its first '?', '*' or '[': "." when no separator is left before that cut; otherwise the prefix ending just before the last separator before the cut, so no separator lies between the directory and the cut |
| Paths.WildcardDirectoryCut | cbrew.h:1397-1411 | the two truncations, stopped at the first wildcard character n and at the separator before position k, leave exactly the directory (or "." when k reaches 0) |
| Paths.WildcardDirectoryExamples | cbrew.h:1390-1412 | a wildcard below src/sub is listed from "src/sub", and "*.c" from "." |
| Paths.GetWildcardDirectory | cbrew.h:1390-1412 | the copy, normalise, truncate-at-meta and truncate-at-separator steps compute WildcardDirectory |
| Wildcard.MatchFromAsWritten | cbrew.h:1428-1490 | the matcher as the code runs it, with each early return, the literal and '?' step, the class with its swapped recursion, '**' and '*'; Undefined where '?' faces an exhausted path (QuestionMarkPastEnd); AsWrittenAgrees ties it to MatchFrom |
| Wildcard.MatchFrom | cbrew.h:1428-1490 | the corrected matcher that the rest of the model uses; its behaviour is stated case by case by PlainPattern, SharedPrefix, InnerStar, FinalStar, InnerDoubleStar, FinalDoubleStar, UnclosedClass and ClassThenSwapped |
| Wildcard.SomeSuffix | cbrew.h:1466-1486 | the split-point loop over offsets below strlen(fp), stated by SomeSuffixExists |
| Wildcard.Matches | cbrew.h:1414-1426 | cbrew_file_matches_wildcard: both strings normalised, then matched; PlainWildcard and EmptyWildcard state it at the entry point |
| Wildcard.AsWrittenAgrees | cbrew.h:1414-1490 | wherever the matcher as written is defined, the corrected matcher gives the same verdict |
| Wildcard.SuffixAgrees | cbrew.h:1466-1486 | the same agreement for the split-point loops |
| Wildcard.QuestionMarkPastEnd | cbrew.h:1434-1435 | for "a" against "a?", the code as written reads past the terminator, and the corrected matcher refuses |
| Wildcard.PlainPattern | cbrew.h:1428-1435 | a pattern without '?', '*' or '[' matches exactly the equal path |
| Wildcard.PlainWildcard | cbrew.h:1422-1435 | at the entry point, a wildcard without wildcard characters matches iff both normalised strings are equal |
| Wildcard.EmptyWildcard | cbrew.h:1428-1429 | the empty wildcard matches only the empty path |
| Wildcard.SharedPrefix | cbrew.h:1434-1435 | literal equality is tried first, so a shared prefix is consumed whatever characters it holds |
| Wildcard.SomeSuffixExists | cbrew.h:1466-1470 | the split-point loop succeeds iff the rest of the pattern matches the suffix at some offset below the path length |
| Wildcard.FinalStar | cbrew.h:1475-1480 | a final single '*' matches the remainder iff the remainder holds no separator, the empty remainder included |
| Wildcard.FinalDoubleStar | cbrew.h:1459-1464 | a final '**' matches exactly the non-empty remainders |
| Wildcard.LiteralMismatch | cbrew.h:1434-1435 | a literal pattern character that differs from the path character, or faces its end, fails the match |
| Wildcard.StarNeedsInput | cbrew.h:1431-1432 | a star followed by more pattern never matches an exhausted path |
| Wildcard.InnerStar | cbrew.h:1475-1486 | a non-final '*' matches iff the rest matches the suffix at some offset 0..len-1, even past a separator |
| Wildcard.InnerDoubleStar | cbrew.h:1459-1472 | a non-final '**' matches iff the rest matches the suffix at some offset 0..len-1 |
| Wildcard.StarTakenLiterally | cbrew.h:1434-1435 | the path "*x" is not matched by the pattern "*", because the '*' is consumed as a literal |
| Wildcard.UnclosedClass | cbrew.h:1437-1441 | a '[' with no later ']' fails unless the path holds a literal '[' at that point |
| Wildcard.ClassThenSwapped | cbrew.h:1437-1457 | a closed class matches iff the path character is in the class and the rest of the PATTERN matches the rest of the path taken as the pattern |
| Wildcard.RangeExamples | cbrew.h:1443-1452 | "[a-c]" accepts "b" and refuses "d" |
| Wildcard.ClassSwapExample | cbrew.h:1453-1454 | "[ab].c" matches "b.c", but because of the swap "[ab]*.c" does not |
| Wildcard.StarExamples | cbrew.h:1475-1486 | "src/*.c" matches both "src/a.c" and "src/sub/a.c" |
| Wildcard.DoubleStarExample | cbrew.h:1459-1470 | "src/**/a.c" matches "src/sub/a.c" |
| Wildcard.QuestionExample | cbrew.h:1434-1435 | "a?c" matches "abc" |
| Arguments.SplitLink | cbrew.h:1300-1311 | the name after the last separator has no separator; dir, separator and name rebuild the link; without a separator the directory is "." |
| Arguments.Render | cbrew.h:1243-1246 | writing the pieces at strlen of a zeroed buffer of sufficient size yields their concatenation |
| Arguments.CreatePrefixedStr | cbrew.h:1234-1283 | the count pass sizes the buffer and the fill pass writes prefix+item+" " per item in order; no items give "" |
| Arguments.CreateFlagsStr | cbrew.h:1234-1249 | the flags string is "flag " per flag, in order |
| Arguments.CreateDefinesStr | cbrew.h:1251-1266 | the defines string is "-Ddefine " per define, in order |
| Arguments.CreateIncludeDirsStr | cbrew.h:1268-1283 | the include-dirs string is "-Idir " per directory, in order |
| Arguments.CreateLinksStr | cbrew.h:1285-1317 | the links string is "-L<dir> -l<name> " per link, in order, written into the buffer sized beforehand |
| Arguments.LinkArgLength | cbrew.h:1290-1313 | a link's piece has length abs(link)+5 with a separator and abs(link)+7 without |
| Arguments.LinksFit | cbrew.h:1290-1294 | the links string never exceeds the buffer length computed first |
| Arguments.PrefixedTokens | cbrew.h:1245-1246 | split on spaces, the flags, defines or include-dirs string yields exactly one argument per item, in order, when items hold no space |
| Arguments.LinkArgTokens | cbrew.h:1300-1313 | a link without spaces reaches the compiler as exactly "-L<dir>" and "-l<name>" |
| Registry.WithProject | cbrew.h:655-680 | the projects after a create: unchanged when the name exists, else one zeroed entry appended; WithProjectProperties states the invariant it keeps |
| Registry.WithConfig | cbrew.h:1118-1146 | a project's configs after a create: unchanged when the name exists, else one config with normalised directories appended; WithConfigProperties states the invariant it keeps |
| Registry.WithProjectProperties | cbrew.h:655-680 | creating a project keeps names unique and stored paths normalised, keeps existing entries, adds at most one, and a repeated create under that name (any type) changes nothing |
| Registry.WithConfigProperties | cbrew.h:1118-1146 | the same for configs within a project, whatever directories the repeated create passes |
| Registry.Registry.CreateProject | cbrew.h:655-680 | returns the index of the entry named name (the existing one, or the appended zeroed one) and keeps the registry invariant |
| Registry.Registry.AddFiles | cbrew.h:682-690 | appends the normalised wildcard to that project only |
| Registry.Registry.AddFlag | cbrew.h:692-700 | appends the flag verbatim to that project only |
| Registry.Registry.AddDefine | cbrew.h:702-710 | appends the define verbatim to that project only |
| Registry.Registry.AddIncludeDir | cbrew.h:712-720 | appends the normalised directory to that project only |
| Registry.Registry.AddLink | cbrew.h:722-730 | appends the normalised link to that project only |
| Registry.Registry.CreateConfig | cbrew.h:1118-1146 | returns the index of the config named name in that project, appending a zeroed config with normalised directories only when there is none |
| Registry.Registry.AddConfigFlag | cbrew.h:1148-1156 | appends the flag verbatim to that config only |
| Registry.Registry.AddConfigDefine | cbrew.h:1158-1166 | appends the define verbatim to that config only |
| Host.FileExists | cbrew.h:1369-1380 | fopen for reading succeeds on a present regular file, and on a present directory only on Linux; Staleness.DirectoryObject states the difference it makes |
| Host.FirstFileIsOlder | cbrew.h:1736-1751 | both paths stat to regular files and the second was modified strictly later; the Windows version (1506-1542) normalises both paths first; OlderNeedsTwoFiles, OlderIsStrict and TouchedIsNotOlder state it |
| Host.OlderNeedsTwoFiles | cbrew.h:1736-1751 | "older" implies both paths stat to regular files |
| Host.OlderIsStrict | cbrew.h:1750 | "older" is irreflexive, asymmetric and transitive; equal times are neither older nor newer |
| Host.TouchedIsNotOlder | cbrew.h:1736-1751 | a file written no earlier than another is not older than it |
| Host.Rename | cbrew.h:1753-1759 | a rename succeeds iff it is allowed and the source exists; the target then holds the source's entry, an existing target is replaced, nothing else changes |
| Host.RenameRoundTrip | cbrew.h:1544-1558 | renaming there and back restores the file system when the target did not exist |
| Host.Delete | cbrew.h:1881-1884 | a delete succeeds iff it is allowed and the file exists, and it removes exactly that file |
| Sources.AnyWildcard | cbrew.h:732-744 | the file is selected iff some wildcard of the project matches it |
| Sources.SourceFiles | cbrew.h:746-788 | the listed entries some wildcard selects, without repeats when the listing has none; SourceFilesMembers, SourceFilesSubsequence and SourceFilesDistinct state it |
| Sources.SourceFilesMembers | cbrew.h:746-788 | a file is a source iff it is listed and some wildcard matches it |
| Sources.SourceFilesSubsequence | cbrew.h:773-781 | the selection is no longer than the listing, and no wildcards select nothing |
| Sources.SourceFilesDistinct | cbrew.h:773-781 | a listing without duplicates yields a selection without duplicates |
| Sources.FindSourceFiles | cbrew.h:746-788 | the count pass and the fill pass return the matching entries in listing order |
| Sources.DotListingNeedsDotWildcard | cbrew.h:751 | an entry starting with "./" is never matched by a wildcard whose first character is a literal other than '.' |
| Sources.DotListingExamples | cbrew.h:751 | "*.c" matches "./a.c" and also "./sub/a.c" |
| Sources.ObjFilesStr | cbrew.h:1187-1214 | the quoted names, each followed by a space, with the last character cut; "" when nothing matched; ObjFilesStrAppend, ObjFilesStrShape and ObjFilesStrTokens state it |
| Sources.ObjFilesStrAppend | cbrew.h:1201-1214 | the object list is one quoted name, or the list so far, a single space and the next quoted name |
| Sources.ObjFilesStrShape | cbrew.h:1187-1214 | the list is "" iff nothing matched, and otherwise ends with a quote rather than a space |
| Sources.ObjFilesStrTokens | cbrew.h:1201-1214 | split on spaces, the list gives one quoted argument per matched entry, in order |
| Sources.StarDotO | cbrew.h:1475-1486 | "*.o" matches exactly the names ending in ".o", for names that do not start with '*' |
| Sources.ObjectEntryMatches | cbrew.h:1173-1181 | an entry of the object directory's listing is matched by "<obj_dir><sep>*.o" iff its name ends in ".o" |
| Sources.CreateObjFilesStr | cbrew.h:1168-1217 | the sizing pass, the quoted writes and the final cut give the space-joined quoted list of the matching entries |
| Staleness.DependencyCommand | cbrew.h:948-950 | the listing command `gcc <includes>-MM <file>`, its include part built as for the compile command |
| Staleness.IsAlreadyCompiled | cbrew.h:917-983 | the verdict with the C function's early returns in order; AlreadyCompiledIff states it |
| Staleness.StripLast | cbrew.h:965 | the line loses exactly its last character, and the empty line stays empty |
| Staleness.NewerDependency | cbrew.h:967-977 | None iff no dependency is newer than the object; otherwise the first newer dependency |
| Staleness.DependenciesUpToDate | cbrew.h:967-982 | the strtok loop returns true iff no dependency after the target is newer than the object |
| Staleness.AlreadyCompiledIff | cbrew.h:917-983 | up to date iff the object opens for reading (a directory only on Linux), is not older than the executable, a listing line was read, and no listed dependency is newer |
| Staleness.DirectoryObject | cbrew.h:939-983 | a directory where the object should be forces a recompile on Windows, and on Linux counts as up to date as soon as the listing prints a line |
| Staleness.NewerDependencyForcesRecompile | cbrew.h:971-976 | one strictly newer dependency forces a recompile |
| Staleness.NoListingForcesRecompile | cbrew.h:953-963 | when popen or fgets fails, the file is always recompiled |
| Staleness.UnstattableDependenciesIgnored | cbrew.h:967-982 | dependencies that are missing or are directories never force a recompile by themselves |
| Staleness.FreshObjectIsUpToDate | cbrew.h:917-983 | an object rewritten no earlier than every file it is compared with is up to date once a listing line is printed |
| Orchestrator.CompileCommand | cbrew.h:1007-1029 | `gcc <includes><project flags><config flags><project defines><config defines>-c -o "<obj_dir><sep><obj>" "<file>"` |
| Orchestrator.LinkCommand | cbrew.h:1085-1102 | `gcc <includes><project flags><config flags>-o "<target_dir><sep><name>" <objs> <links>` |
| Orchestrator.StaticLibCommand | cbrew.h:1045-1055 | `ar rcs "<target_dir><sep><lib prefix><name>.<static ext>" <objs>` |
| Orchestrator.DynamicLibCommand | cbrew.h:1062-1075 | `gcc -shared <project flags><config flags>-o "<target_dir><sep><name>.<dynamic ext>" <objs>`, without the lib prefix |
| Orchestrator.CheckTrace | cbrew.h:917-983 | the staleness check from a log position: no command when the object is missing or older than the executable, else one pipe and its verdict |
| Orchestrator.FileStep | cbrew.h:1007-1030 | one iteration of the compile loop: the check, then the compile unless the file is up to date; FileStepMeaning states it |
| Orchestrator.CompileTrace | cbrew.h:985-1043 | the compile loop over the files in order, stopping at the first failed compile; CompileOkIff, CompileFailFast, CompileTraceShape and CompileTraceStops state it |
| Orchestrator.ConfigTrace | cbrew.h:830-877 | one config: the compile phase, then only after its success the step chosen by type; ConfigOkIff and ConfigEndsWithPostStep state it |
| Orchestrator.ConfigsTrace | cbrew.h:826-892 | every config in order, whatever the earlier ones did; ConfigsTraceAppend and ConfigsOkIff state it |
| Orchestrator.ProjectTrace | cbrew.h:790-915 | the early returns for no configs, no sources and an out-of-range type, then the configs; ProjectOkIff states it |
| Orchestrator.BuildTrace | cbrew.h:626-651 | every project in order, the verdict the conjunction; BuildTraceAppend and BuildOkIff state it |
| Orchestrator.CompileTraceStops | cbrew.h:1029-1030 | after a failed compile, the remaining files add nothing to the trace |
| Orchestrator.FileStepMeaning | cbrew.h:1007-1030 | one file issues at most a listing and a compile, the compile last; the step fails iff the compile was issued and failed |
| Orchestrator.CompileOkIff | cbrew.h:985-1043 | the compile phase succeeds iff every command it ran through system() succeeded |
| Orchestrator.CompileFailFast | cbrew.h:1029-1030 | a failed compile phase ends with the compile that failed |
| Orchestrator.CompileTraceShape | cbrew.h:1003-1033 | at most two commands per file, each the listing or the compile of one of the files |
| Orchestrator.CleanBuildCompilesAll | cbrew.h:1003-1033 | when each source's object is missing at the moment that source is checked and every compile succeeds, exactly the compile commands are issued, one per source, in order |
| Orchestrator.MissingObjectCompiled | cbrew.h:939-941 | a file whose object is missing is compiled at once, without a dependency listing |
| Orchestrator.UpToDateSkipped | cbrew.h:1010-1011 | a file found up to date issues only its dependency listing and is skipped |
| Orchestrator.SameBasenameSameObject | cbrew.h:919-937 | sources with one basename (holding a '.') are checked against, and compiled to, the same object file |
| Orchestrator.SharedObjectSkipsSecond | cbrew.h:1003-1033 | in a clean build, of two sources with one basename, the second is judged by the object the first just wrote and is never compiled |
| Orchestrator.UpToDateCompilesNothing | cbrew.h:1010-1011 | with every source up to date, only the dependency listings are issued, one per source, in order, and the phase succeeds |
| Orchestrator.ConfigOkIff | cbrew.h:830-877 | a config fails iff one of its commands failed, and that command is then its last |
| Orchestrator.ConfigEndsWithPostStep | cbrew.h:836-870 | a successful config ends with the link, archive or shared-library command chosen by type, over the objects listed at that point |
| Orchestrator.ConfigsTraceAppend | cbrew.h:826-892 | configs are built independently: the trace of a + b is a's trace followed by b's trace, and the verdict is the conjunction |
| Orchestrator.ConfigsOkIff | cbrew.h:826-911 | the configs of a project succeed iff every command they ran succeeded |
| Orchestrator.ProjectOkIff | cbrew.h:790-915 | a project succeeds iff all its commands succeeded and its type is in range, unless it has no configs or no sources |
| Orchestrator.BuildTraceAppend | cbrew.h:636-641 | projects are built independently, whatever earlier projects did: the trace of a + b is a's trace then b's trace |
| Orchestrator.BuildOkIff | cbrew.h:626-651 | with every type in range, the build succeeds iff every command it ran succeeded |
| Orchestrator.Shell.System | cbrew.h:1351-1367 | logs the command as a run; the result is the world's exit status at that log position |
| Orchestrator.Shell.Popen | cbrew.h:953-963 | logs the command as a pipe; the result is the first line the world prints for it |
| Orchestrator.Shell.FileIsAlreadyCompiled | cbrew.h:917-983 | issues exactly the staleness trace and returns its verdict |
| Orchestrator.Shell.CompileFile | cbrew.h:1007-1030 | one loop iteration issues exactly the file's step trace and returns its verdict |
| Orchestrator.Shell.ConfigCompile | cbrew.h:985-1043 | the compile loop, with its break, issues exactly the compile trace and returns its verdict |
| Orchestrator.Shell.ObjFiles | cbrew.h:1168-1217 | the object list read from the object directory's current listing |
| Orchestrator.Shell.Link | cbrew.h:1085-1114 | issues the link command `gcc <includes><flags>-o "<target>/<name>" <objs> <links>` and returns its status |
| Orchestrator.Shell.StaticLib | cbrew.h:1045-1060 | issues `ar rcs "<target>/<prefix><name>.<ext>" <objs>` and returns its status |
| Orchestrator.Shell.DynamicLib | cbrew.h:1062-1083 | issues `gcc -shared <flags>-o "<target>/<name>.<ext>" <objs>` and returns its status |
| Orchestrator.Shell.BuildConfig | cbrew.h:826-877 | one pass of the configs loop issues exactly the config trace and returns its verdict |
| Orchestrator.Shell.ProjectBuild | cbrew.h:790-915 | issues exactly the project trace (early returns included) and returns its verdict |
| Orchestrator.Shell.Build | cbrew.h:626-651 | issues exactly the build trace, project by project, and returns the conjunction |
| Bootstrap.AutoRebuild | cbrew.h:217-260 | the macro step by step: carry on unless stale, exit on a failed move aside, restore and exit on a failed compile, otherwise delete cbrew.old and relaunch; ContinueIffFresh through RebuildConverges state it |
| Bootstrap.AfterDelete | cbrew.h:1881-1884 | cbrew_self_destruct: cbrew.old removed when the delete is allowed, the file system unchanged otherwise |
| Bootstrap.Launcher.Run | cbrew.h:217-260 | the macro's breaks and exits leave the file system, log and ending given by AutoRebuild |
| Bootstrap.ContinueIffFresh | cbrew.h:219-231 | the program carries on iff the source is missing or the executable is not strictly older, and then nothing changes |
| Bootstrap.MissingExecutableNotRebuilt | cbrew.h:228-231 | a missing executable is not rebuilt |
| Bootstrap.RenameFailureExits | cbrew.h:235-239 | a failed move aside exits with failure before any command and without changes |
| Bootstrap.CompileFailureRestores | cbrew.h:241-246 | a failed compile moves the executable back, restoring the file system when no cbrew.old existed, and exits with failure |
| Bootstrap.CompileFailureLosesOldCopy | cbrew.h:235-246 | an earlier cbrew.old is overwritten by the move aside and is gone after a failed compile, while the executable is back in place, unchanged |
| Bootstrap.RelaunchDecides | cbrew.h:248-259 | after a successful compile the commands are the compile and the argument-less relaunch; the ending depends on the relaunch alone, not on the delete |
| Bootstrap.RebuildConverges | cbrew.h:241-252 | a successful rebuild leaves the new executable and no cbrew.old, and the new executable is not rebuilt again |
| Bootstrap.NamesAreNormalised | cbrew.h:98-99 | the source and old names, and the compiler's output, are already normalised |
| Bootstrap.DistinctNames | cbrew.h:98-99 | the source, the old name and the compiler's output are three different files |

## Left out

- Directory enumeration (`cbrew_find_files`, `cbrew_find_files_recursive`) is not modelled. The listings are World inputs, in any order.
- `cbrew_dir_exists` and `cbrew_dir_create` are not modelled, because their callers ignore the result.
- `cbrew_file_copy` is not modelled, because no core operation calls it.
- `system()`, `popen()` and `fgets()` are World answers indexed by log position. The empty line from `fgets` is modelled (StripLast keeps it empty), although the C code would then write before the buffer.
- Bootstrap.Launcher.Run: the relaunch passes the executable path to `cbrew_command` as a format string. A '%' in that path is undefined behaviour and is not modelled; the path is taken verbatim.
- Bootstrap.AfterDelete: on Windows `cbrew_self_destruct` starts a batch file that deletes cbrew.old later, and reports success unless the current directory cannot be read. The model treats the delete as immediate, with its success an input.
- Bootstrap.RebuildConverges: assumes the compiler writes its output at a time no earlier than the source's. That is a property of the host, not of cbrew.
- Timing with `clock()`, the double-precision milliseconds, console colours and log messages are not modelled. They only affect output.
- `CBREW_ASSERT` is not modelled. Where assertions are enabled it exits on a null argument or an out-of-range type, but C null pointers have no counterpart here and the registry stores any `u8` type.
- Fixed buffer sizes (`CBREW_FILEPATH_MAX`, `CBREW_FILENAME_MAX`, the dependency buffer) and realloc pointer invalidation are not modelled. Strings are unbounded, and entries are designated by indices rather than pointers.
- `isalnum` is taken in the C locale, and character ranges in classes compare code points. The signedness of `char` for non-ASCII bytes is not modelled.
- Platform selection by `#if` is a `Platform` value. The compiler name is always "gcc", because clang also defines `__GNUC__`.
- `src/main.c` (the launcher that reads `CBREW_CC`) is not modelled. Its one decision is the "older" comparison that `Host.FirstFileIsOlder` models.
- `cbrew_project_create` and `cbrew_project_config_create` store the caller's name pointer without copying it, while wildcards, directories, links, flags and defines are copied with `strdup`. The model stores names by value, so a build script that later changes or frees the string it passed as a name is not modelled.
- Orchestrator.Shell.Build: `cbrew_build` only logs its verdict and returns nothing. The model returns the verdict so it can be stated.

## Findings

| source | as written | input that shows it | evidently intended | confidence | as-written member | corrected member |
|---|---|---|---|---|---|---|
| cbrew.h:1434-1435 | a '?' in the wildcard facing the end of the path recurses with `fp + 1`, past the terminator, so the match reads memory after the string | path "a", wildcard "a?" | a '?' needs one path character, so the match fails | high, not executed | Wildcard.QuestionMarkPastEnd | Wildcard.AsWrittenAgrees |
