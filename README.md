# GisTPI dump importer — Dafny model

`import.py` restores one spatial-database file (`GisTPI`, next to the script)
into a PostGIS database. It classifies the file by its header as a pg_dump
custom-format archive, a GeoPackage, an SQL script or unknown; it enables the
`postgis` and `postgis_topology` extensions with psql; and it runs pg_restore,
psql or ogr2ogr with fixed arguments. When the extension files are missing
it tries to start PostgreSQL's Application Stack Builder, or it opens the
PostGIS download page, and then exits with status 1.

This project models the decisions behind that plumbing as Dafny functions
and methods. File reads, tool lookups and process runs become inputs. Process
starts and the browser page become a list of `Effect`s, in the order the
script performs them. A `LaunchInstaller` effect records an attempted
`Popen`; whether it raised is kept in the recovery's `launched` flag.

- `Text`: substring search (`str.find`, `in`), prefix test, ASCII
  upper-casing and `strip`.
- `TextFile`: what text-mode `open(..., encoding='utf-8', errors='ignore')`
  followed by `read(100)` returns. This covers UTF-8 decoding that drops
  ill-formed bytes, universal-newline translation and the 100-character
  window.
- `FileType`: `detect_file_type`.
- `Installer`: `launch_stackbuilder_from_error`. It derives the base path
  from the error message, picks an installer or falls back to the browser.
- `Extension`: `force_enable_postgis`, the two-statement loop with its fatal
  and non-fatal failures.
- `Importer`: the argument vectors, the dispatch `RouteFor`, the three
  importers and the main block (`RunScript`).
- `Config`, `Environment`, `Wrappers`: constants, the simulated world and
  `Option`.

Three behaviours of the code are easy to misread, and the model keeps them as written:

- Only 15 header bytes are read. So GeoPackage means "the first 15 bytes
  are `SQLite format 3`", not "the magic occurs somewhere near the start".
- A failing psql script import (`check=True`) is caught and printed. The
  script then ends normally with status 0, not with a non-zero status.
- A missing ogr2ogr is not reported as "tool not found". `None` goes into the
  command line and `subprocess.run` raises an uncaught `TypeError`: the run
  is `Crashed`, with exit status 1.

## Model

| member | source | states |
|---|---|---|
| Text.Find | import.py:51-56 | `s.find(pat, from)`: returns -1 exactly when `pat` does not occur at or after `from`; otherwise returns the least such index |
| Text.Contains | import.py:123 | `pat in s` holds exactly when `pat` occurs at some index of `s` |
| Text.StartsWith | import.py:137 | `s.startswith(p)` holds exactly when `p` occurs at index 0 |
| Text.Upper | import.py:142 | keeps the length, turns each lower-case ASCII letter into its capital (code point minus 32), leaves no lower-case ASCII letter, and changes no other character |
| Text.TrimLeft | import.py:58 | removes a prefix made only of the given characters; the result is empty or starts with a kept character |
| Text.TrimRight | import.py:58 | removes a suffix made only of the given characters; the result is a prefix of the input that is empty or ends with a kept character |
| Text.Strip | import.py:58 | the result is a slice of the input; everything before and after the slice is a stripped character, and the result is empty or neither starts nor ends with one |
| TextFile.DecodeIgnore | import.py:141-142 | UTF-8 decoding with `errors='ignore'` yields at most one character per byte |
| TextFile.TranslateNewlines | import.py:141-142 | text-mode newline translation leaves no carriage return and never lengthens the text; `TranslateLineEnds` and `TranslateConcat` fix its result on every text |
| TextFile.TranslateLineEnds | import.py:141-142 | `\r\n`, a lone `\r` and `\n` each read as a single `\n` |
| TextFile.TranslateConcat | import.py:141-142 | a text cut anywhere except inside a `\r\n` translates piece by piece, so with the line-end cases the result is fixed for any mix of line ends |
| TextFile.CrBeforeCrLf | import.py:141-142 | `\r\r\n` reads as two line ends |
| TextFile.ReadText | import.py:141-142 | `f.read(n)` in text mode returns at most `n` characters |
| TextFile.DecodeAscii | import.py:141-142 | ASCII text encoded as bytes decodes back to the same text |
| TextFile.TranslateWithoutCarriageReturn | import.py:141-142 | text without carriage returns is unchanged by newline translation |
| TextFile.TranslateCrLf | import.py:141-142 | text whose line ends are all `\r\n` reads back with each of them as a single `\n` |
| TextFile.TranslateLoneCr | import.py:141-142 | text whose line ends are all a lone `\r` reads back with each of them as `\n` |
| TextFile.ReadCrLfText | import.py:141-142 | for ASCII text saved with `\r\n` line ends, `read(n)` yields the first `n` characters of the `\n` version |
| TextFile.ReadLoneCrText | import.py:141-142 | for ASCII text saved with lone `\r` line ends, `read(n)` yields the first `n` characters of the `\n` version |
| TextFile.ReadAsciiText | import.py:141-142 | for ASCII text without carriage returns, `read(n)` yields its first `n` characters |
| FileType.Header | import.py:136 | the binary header is the file's first 15 bytes, or the whole file when it is shorter |
| FileType.TextWindow | import.py:141-142 | the text window has at most 100 characters and no lower-case ASCII letter |
| FileType.HasSqlMarker | import.py:143 | holds exactly when `CREATE`, `SET` or `--` occurs somewhere in the window |
| FileType.Detect | import.py:133-146 | a file that cannot be read is UNKNOWN |
| FileType.PgDumpIffMagicPrefix | import.py:136-137 | PG_DUMP_BINARY exactly when the file starts with `PGDMP` |
| FileType.PgdmpPayload | import.py:137 | `PGDMP` followed by any payload is PG_DUMP_BINARY |
| FileType.GeoPackageIffExactHeader | import.py:136-138 | GEOPACKAGE exactly when the file has at least 15 bytes and the first 15 are `SQLite format 3`; the PGDMP test cannot take such a file |
| FileType.SqlScriptOrUnknown | import.py:137-146 | SQL_SCRIPT exactly when neither binary marker matched and the upper-cased window contains CREATE, SET or `--`; UNKNOWN exactly when nothing matched |
| FileType.AsciiTextWindow | import.py:141-142 | for an ASCII file without carriage returns the text window is its first 100 characters, upper-cased |
| FileType.AsciiCrLfTextWindow | import.py:141-142 | for an ASCII file with `\r\n` line ends the window is the first 100 characters of its `\n` version, upper-cased |
| FileType.LoneCrSplitsComment | import.py:141-146 | the file `-\r-` is UNKNOWN: its carriage return reads as a line end, so it holds no `--` |
| FileType.OffsetIsMarker | import.py:143 | the marker test is a plain substring test, so text containing `OFFSET` is a script |
| FileType.LowerCaseSetIsMarker | import.py:142-143 | the test is case-insensitive: a lower-case `set` matches after upper-casing |
| Installer.PathStart | import.py:51-52 | returns the first `C:/`; only when there is none, the first `C:\`; -1 when neither occurs |
| Installer.BasePath | import.py:46-58 | a base path exists exactly when the message contains `PostgreSQL`, has a path start, and has `share` at or after it |
| Installer.BasePathSlice | import.py:54-58 | the base path is a prefix of the text from the path start up to the first `share`, and only `/`, `\` and spaces lie between its end and that `share` |
| Installer.BasePathEnds | import.py:50-58 | the base path is non-empty, starts with the drive `C:` and ends in neither a separator nor a space |
| Installer.InstallerPath | import.py:66 | Windows `os.path.join(base, "bin", "stackbuilder.exe")` extends the base, with no separator after a bare drive `C:` |
| Installer.Recover | import.py:62-96 | prefers the installer derived from the message, then the last globbed match; an installer is always an existing path and counts as launched iff `Popen` does not raise; exactly when neither exists the download page is opened |
| Installer.LaunchStackbuilderFromError | import.py:62-96 | choosing a candidate first and checking that it exists afterwards ends with the recovery `Recover` describes |
| Installer.RecoveryEffect | import.py:86-94 | an installer recovery records the attempted start of that installer's path; a browser recovery opens its URL |
| Config.PsqlArgv | import.py:115 | a psql command is the tool, the configured connection flags, then one option and its argument: `-c sql` for each activation statement here, `-f file` for the script import (import.py:195) |
| Extension.IsMissingExtensionError | import.py:123 | holds exactly when both `No such file or directory` and `postgis.control` occur in the error text |
| Extension.IsFatal | import.py:118-123 | an outcome is fatal exactly when the run returned a non-zero code and its stderr contains both missing-extension texts; an exception is never fatal |
| Extension.FirstFatal | import.py:114-126 | the index of the first outcome that fails with both missing-extension texts, or the number of outcomes if there is none |
| Extension.ActivationRuns | import.py:114-119 | the runs of the first `n` statements, in order |
| Extension.ActivationTrace | import.py:101-126 | nothing runs without psql; a fatal failure is the last statement run; otherwise both statements run |
| Extension.ForceEnablePostgis | import.py:98-131 | returns early without psql; stops the script exactly when a statement fails fatally, after the statements up to it and the effect of the recovery `Recover` chooses for that statement's stderr; otherwise runs every statement |
| Extension.MissingPsqlIssuesNothing | import.py:101-104 | without psql no statement is issued and nothing is fatal |
| Extension.FatalIsLastRun | import.py:123-126 | the last statement issued is the first fatal one, and no earlier outcome was fatal |
| Extension.WarningsDoNotStop | import.py:127-131 | when no outcome is fatal both statements run, in order |
| Importer.PgRestoreArgv | import.py:162-174 | the pg_restore command is the tool, the connection flags, `-v -c --if-exists --no-owner --no-acl`, and the file path last |
| Importer.Ogr2ogrArgv | import.py:206-207 | the ogr2ogr command writes to the PostgreSQL DSN and ends with `-overwrite -nln GisTPI_import` |
| Importer.CommandArgv | import.py:162-207 | every command starts with the tool path; pg_restore and psql commands connect to the configured database and end with the file; ogr2ogr's ends with `-overwrite -nln GisTPI_import` |
| Importer.RouteFor | import.py:229-237 | activation precedes every route except GeoPackage's; GeoPackage uses ogr2ogr and only SQL scripts use psql; only pg_restore's run is wrapped in a catch-all handler; psql catches only a non-zero return code, which it reports; ogr2ogr catches nothing |
| Importer.UnknownFallsBackToPgRestore | import.py:235-237 | UNKNOWN has the same route as PG_DUMP_BINARY |
| Importer.ExitStatus | import.py:217-237 | the script exits with 0 exactly when it completes, reports a psql failure, or calls `sys.exit(0)`; an uncaught exception exits with 1 |
| Importer.CheckedRun | import.py:197-201 | `check=True`: a zero return code completes, a non-zero one is reported with its value, and exactly an exception from the run crashes the script |
| Importer.Ending | import.py:154-208 | pg_restore always ends normally; psql ends as `CheckedRun` says when found and normally when missing; ogr2ogr crashes exactly when it is missing or its run raises, and otherwise completes |
| Importer.FatalActivationSkipsImport | import.py:123-126 | after a fatal activation the exit status is 1 and every command run is a CREATE EXTENSION statement |
| Importer.MissingPsqlStillImports | import.py:152-157 | a missing psql skips activation, and the effects and the ending are exactly the importer's own: the pg_restore importer still runs pg_restore if found, and the psql importer then also ends without a run |
| Importer.GeoPackageRunsOnlyOgr2ogr | import.py:233-234 | a GeoPackage run has at most one effect, the ogr2ogr command, and never runs an activation statement |
| Importer.OgrRunIsNoActivation | import.py:203-208 | the ogr2ogr command is never an activation statement |
| Importer.ImportWithPgRestore | import.py:148-181 | activation first; when it is not fatal, pg_restore runs if found and the run always completes |
| Importer.ImportWithPsql | import.py:183-201 | activation first; when it is not fatal, the script runs if psql was found and its return code decides completion or a report |
| Importer.ImportWithOgr2ogr | import.py:203-208 | no activation; a missing tool or a raising run crashes; otherwise ogr2ogr runs once and completes |
| Importer.RunScript | import.py:217-237 | a missing input exits with 1 and runs nothing; otherwise the run follows the detected format's route: activation first when the route asks for it, then the route's tool if it was found, ending as the route's policy says |

## Left out

- Executable and input lookup (`find_executable`, `resolve_input_file`): PATH search, globbing and existence checks are filesystem queries. Their results are inputs (`Tools`, `World.inputPath`).
- Process execution, the `PGPASSWORD` environment copy, `Popen` of the installer and `webbrowser.open` are foreign side effects. Their outcomes are inputs (`RunOutcome`, `InstallerWorld`) and what they start is recorded as `Effect`s.
- Console output (progress lines, emoji, Spanish messages) carries no behaviour and is not modelled.
- The order of `glob.glob` results is unspecified. The model takes the list as given and picks its last element, as the code does.
- `DB_SSLMODE` is never used by the code.
- Text.Upper: only ASCII letters are upper-cased. Python's full Unicode case mapping is not modelled; there, for example, U+017F becomes `S` and U+FB06 becomes `ST`, so a non-ASCII window can contain a marker after upper-casing.
- FileType.Detect: the binary read and the text read are modelled on the same bytes. A file that changes or becomes unreadable between the two opens is not modelled.
- Installer.InstallerPath: follows Windows path-joining rules (`ntpath`) only. The POSIX join is not modelled.
- Installer.LaunchStackbuilderFromError: an exception raised by `webbrowser.open` or by the path checks is not modelled. In the code, such an exception would be caught by the activation loop's handler.
- Extension.ForceEnablePostgis: the environment supplies exactly one outcome per statement.
