# yoyo test-support fixtures, modelled in Dafny

This project models the deterministic core of `yoyo/tests/__init__.py`,
the test-support module of the yoyo schema-migration tool. It covers three
parts:

- **Backend selection.** `get_test_dburis` filters the `(name, uri)`
  entries of the test configuration's DEFAULT section by an `only` set and
  an `exclude` set. `get_test_backends` opens one backend per selected URI.
  These are the pure functions of module `Backends` (`backends.dfy`).
- **Migration files.** `MigrationsContextManager` (exported as
  `migrations_dir`) takes migration snippets. Positional snippets get the
  ids `0`, `1`, … and keyword snippets use their key as id. `add_migration`
  derives a filename from each id: the id is kept if `os.path.splitext`
  finds a `.py` or `.sql` extension, and gets `.py` appended otherwise.
  `__enter__` writes the snippets in declaration order. This part is
  modelled in `decimal.dfy` (`str` of an index), `paths.dfy` (`splitext`
  and the filename rule) and `migrations.dfy` (declaration order and the
  resulting directory contents).
- **Fixture lifecycle.** The context manager creates a temporary directory,
  fills it, hands it to the test body and removes it on exit. Its decorator
  form appends the directory to the wrapped function's positional
  arguments. The `tempdir` generator does the same for a bare directory.
  `fixtures.dfy` models these as classes over an abstract filesystem:
  `FileSystem.dirs` maps each existing directory path to its files. A
  directory counts as "removed" when its path is no longer a key of that
  map.

External pieces become parameters:

- `dedent(code).strip()` is the function `clean`.
- `get_backend` is a function from a URI to a backend or an error.
- The unique name that `mkdtemp` picks is an argument, with the
  precondition that no directory of that name exists yet.
- The wrapped test function is a function from arguments to an `Outcome`:
  it either returns a value or raises.

The module's only comment, the docstring of `MigrationsContextManager`,
disagrees with its code in one place, and the model follows the code:

- The decorator passes the directory as the *last* positional argument
  (`args + (self.tmpdir,)`), not the first one its docstring mentions.
  `Fixtures.MigrationsContextManager.Call` states this.

The model also keeps these behaviours of the code:

- `rmtree` on a directory that no longer exists raises. `FileSystem.RemoveTree`
  and `MigrationsContextManager.Exit` report this through `ok == false`
  instead of treating removal as idempotent.
- A failed write inside `__enter__` leaves the directory behind, because
  `__exit__` only runs after `__enter__` returns. Writes cannot fail in
  this model, so it claims no cleanup on that path.
- Duplicate filenames are not detected. A later write silently replaces an
  earlier one (`Migrations.WrittenLastWins`,
  `Migrations.KeywordOverwritesPositional`).

The filename rule is idempotent only for ids whose final path component
contains a character other than `.`. For example, the id `""` becomes
`.py`, which `splitext` reads as having no extension, so normalising it
again gives `.py.py`. `Paths.FilenameIdempotent` proves the exact condition
in both directions. Positional ids always satisfy it
(`Paths.PositionalHasStem`), and so does any keyword id that is a Python
identifier.

## Model

| member | source | states |
|---|---|---|
| `Backends.Selected` | yoyo/tests/__init__.py:38 | a name in `only` is always kept; a non-empty `only` drops every other name; with an empty `only` a name is kept iff it is not excluded |
| `Backends.TestDbUris` | yoyo/tests/__init__.py:34-39 | the selected URIs are never more than the configured entries |
| `Backends.TestDbUrisMembership` | yoyo/tests/__init__.py:34-39 | a URI is returned iff some entry carrying it passes the rule (a non-empty `only` decides alone; otherwise the name must not be excluded), both directions |
| `Backends.OnlyIgnoresExclude` | yoyo/tests/__init__.py:38 | once `only` is non-empty, any two `exclude` sets give the same result |
| `Backends.TestDbUrisSubsequence` | yoyo/tests/__init__.py:35-39 | the result is a subsequence of the configured URIs, in configuration order |
| `Backends.NoFilterSelectsAll` | yoyo/tests/__init__.py:34-39 | with both sets empty, every configured URI is returned in order |
| `Backends.AllSelected` | yoyo/tests/__init__.py:35-39 | when every entry passes the rule, the result is all configured URIs in order |
| `Backends.NoneSelected` | yoyo/tests/__init__.py:35-39 | when no entry passes the rule, the result is empty |
| `Backends.TestDbUrisAppend` | yoyo/tests/__init__.py:35-39 | selection over a concatenated configuration is the concatenation of the selections |
| `Backends.OnlyWinsOverExclude` | yoyo/tests/__init__.py:38 | with unique names, `only={a}, exclude={a}` returns exactly the URI of the entry named `a` |
| `Backends.ExcludeOne` | yoyo/tests/__init__.py:38 | with unique names, `exclude={a}` alone returns every configured URI except that of `a`, in order |
| `Backends.ConnectAll` | yoyo/tests/__init__.py:43 | succeeds iff every URI connects, giving one backend per URI in order; otherwise fails with the error of the first failing URI, all earlier ones having connected |
| `Backends.TestBackends` | yoyo/tests/__init__.py:42-43 | succeeds iff every selected URI connects, and then returns one backend per selected URI in the same order |
| `Decimal.NatToString` | yoyo/tests/__init__.py:80 | `str` of an index is a non-empty string of decimal digits with a leading `0` only for zero |
| `Decimal.NatToStringRoundTrip` | yoyo/tests/__init__.py:80 | reading the digits back gives the index (`int(str(n)) == n`) |
| `Decimal.NatToStringInjective` | yoyo/tests/__init__.py:77-80 | distinct indices get distinct ids |
| `Paths.LastIndexOf` | yoyo/tests/__init__.py:66 | the `rfind` used by `splitext`: -1 or an index holding the character, with none after it |
| `Paths.SplitExt` | yoyo/tests/__init__.py:66 | root and extension concatenate to the path; a non-empty extension is one dot followed by neither dots nor separators |
| `Paths.MigrationFilename` | yoyo/tests/__init__.py:65-70 | the filename is the id or the id plus `.py`, and always ends in `.py` or `.sql` |
| `Paths.AppendedExtension` | yoyo/tests/__init__.py:66-70 | appending `.py` (or any one-dot suffix) gives that extension iff the final component has a non-dot character, and no extension otherwise |
| `Paths.FilenameHasRecognisedExtension` | yoyo/tests/__init__.py:66-70 | `splitext` of the filename gives `.py` or `.sql` iff the id's final component has a non-dot character |
| `Paths.FilenameIdempotent` | yoyo/tests/__init__.py:65-70 | normalising a filename again leaves it unchanged iff the id's final component has a non-dot character |
| `Paths.RecognisedExamples` | yoyo/tests/__init__.py:66-68 | `0001_init.sql` and `step.py` are kept as they are |
| `Paths.OtherExtensionExample` | yoyo/tests/__init__.py:69-70 | `a.b` becomes `a.b.py` |
| `Paths.LeadingDotExample` | yoyo/tests/__init__.py:66-70 | `.sql` has no extension by `splitext`'s leading-dot rule and becomes `.sql.py` |
| `Paths.PositionalFilename` | yoyo/tests/__init__.py:65-70 | a positional id `str(k)` always becomes `str(k) + ".py"` |
| `Paths.PositionalHasStem` | yoyo/tests/__init__.py:65-70 | every positional id has a stem, so by `Paths.FilenameIdempotent` its filename is a fixed point of the rule |
| `Migrations.Enumerate` | yoyo/tests/__init__.py:78 | `enumerate` pairs the i-th snippet with index `start + i`, keeping length and order |
| `Migrations.IdString` | yoyo/tests/__init__.py:80 | a positional id is a non-empty digit string that reads back as its index; a keyword id is the keyword itself |
| `Migrations.FileOf` | yoyo/tests/__init__.py:65-70 | a migration's file is its id or its id plus `.py`; for a positional index `k` it is always `str(k) + ".py"` |
| `Migrations.Declared` | yoyo/tests/__init__.py:77-79 | entry `i` of the first part is positional migration `i` with the i-th snippet; after it, entry `j` of the keyword part is the j-th mapping item as a keyword migration |
| `Migrations.DeclaredOrder` | yoyo/tests/__init__.py:77-80 | the loop visits ids "0" … "n-1" with the positional snippets in argument order, then the keyword ids with their snippets in mapping order |
| `Migrations.AfterWrites` | yoyo/tests/__init__.py:71-73 | the directory after a sequence of writes has at most one file per write, and every file holds the text of some write to its name |
| `Migrations.AfterWritesStep` | yoyo/tests/__init__.py:71-73 | one more write creates or replaces exactly one file |
| `Migrations.AfterWritesKeys` | yoyo/tests/__init__.py:71-73 | after a sequence of writes, a file exists iff some write went to its name |
| `Migrations.AfterWritesLastWins` | yoyo/tests/__init__.py:71-73 | a file holds the text of the last write to its name |
| `Migrations.AfterWritesSize` | yoyo/tests/__init__.py:71-73 | writes to distinct names leave exactly one file per write |
| `Migrations.WritePlan` | yoyo/tests/__init__.py:77-80 | one write per declared migration |
| `Migrations.Written` | yoyo/tests/__init__.py:71-80 | the directory `__enter__` fills has at most one file per declared migration (its exact keys and contents are `Migrations.WrittenKeys` and `Migrations.WrittenLastWins`) |
| `Migrations.WrittenKeys` | yoyo/tests/__init__.py:77-80 | after `__enter__` the directory's files are exactly the normalised filenames of the declared migrations |
| `Migrations.WrittenLastWins` | yoyo/tests/__init__.py:71-80 | each file holds `clean(code)` of the last migration in write order that maps to its name |
| `Migrations.WrittenDistinct` | yoyo/tests/__init__.py:77-80 | without filename collisions there is one file per migration, holding that migration's cleaned code |
| `Migrations.PositionalDistinct` | yoyo/tests/__init__.py:77-80 | positional migrations never collide with one another |
| `Migrations.PositionalFilenames` | yoyo/tests/__init__.py:65-70 | the first two positional files are `0.py` and `1.py` |
| `Migrations.TwoPositional` | yoyo/tests/__init__.py:75-81 | two positional snippets yield exactly `0.py` and `1.py` with their cleaned code |
| `Migrations.OneKeyword` | yoyo/tests/__init__.py:75-81 | `first=code` yields exactly `first.py` |
| `Migrations.KeywordOverwritesPositional` | yoyo/tests/__init__.py:75-81 | a keyword id `1` replaces the second positional snippet's `1.py`, because it is written later |
| `Fixtures.FileSystem.MakeTempDir` | yoyo/tests/__init__.py:76 | creates one new empty directory and changes nothing else |
| `Fixtures.FileSystem.WriteFile` | yoyo/tests/__init__.py:72-73 | creates or replaces one file in one directory and changes nothing else |
| `Fixtures.FileSystem.RemoveTree` | yoyo/tests/__init__.py:84 | removes the directory with all its files; reports failure iff it did not exist |
| `Fixtures.MigrationsContextManager.constructor` | yoyo/tests/__init__.py:61-63 | stores the positional and keyword snippets; no directory exists yet |
| `Fixtures.MigrationsContextManager.AddMigration` | yoyo/tests/__init__.py:65-73 | writes `clean(code)` to the normalised filename in the current directory and changes nothing else |
| `Fixtures.MigrationsContextManager.WriteAll` | yoyo/tests/__init__.py:77-80 | the loop leaves the empty directory holding `Written` of the migrations; other directories are unchanged |
| `Fixtures.MigrationsContextManager.Enter` | yoyo/tests/__init__.py:75-81 | creates the new directory, records it, fills it with `Written(Declared(...))`, returns its path, and changes no other directory |
| `Fixtures.MigrationsContextManager.Exit` | yoyo/tests/__init__.py:83-84 | removes the recorded directory and nothing else; fails iff no directory was recorded or it no longer exists |
| `Fixtures.MigrationsContextManager.Call` | yoyo/tests/__init__.py:86-91 | the wrapped function gets the caller's arguments plus the directory path last and the keyword arguments unchanged, and the files it sees in that directory are exactly `Written(Declared(...))`; its result or exception is returned; afterwards the filesystem is exactly as before |
| `Fixtures.TempDir` | yoyo/tests/__init__.py:94-100 | the body gets the path of a new directory whose contents it sees as empty; its result or exception is returned; afterwards the filesystem is exactly as before |

## Left out

- Configuration loading (yoyo/tests/__init__.py:27-31): building the path of `test_databases.ini` and reading it with `get_configparser` is file I/O through a foreign library. The DEFAULT section's items are an input sequence.
- `clear_database` (yoyo/tests/__init__.py:46-49): listing and dropping tables inside a backend transaction consists entirely of calls into a live database connection.
- `get_backend` (yoyo/tests/__init__.py:23): opening a connection is a foreign call. It is the parameter `getBackend`, which returns a backend or an error.
- The `dburi_sqlite3` constant (yoyo/tests/__init__.py:25) states nothing to verify.
- `textwrap.dedent` and `str.strip` (yoyo/tests/__init__.py:73) are library text processing. They are the uninterpreted parameter `clean`.
- `mkdtemp`'s choice of a unique name is the caller-supplied `newDir`, with the precondition that no such directory exists. File encoding, permissions and other OS errors in `open`, `write` and `rmtree` are not modelled, so a failing write inside `__enter__` is not modelled either.
- Ids that contain a path: for a relative id with a directory part, such as `sub/x`, `os.path.join` names a file in a subdirectory that `mkdtemp` never created, so `open` raises, `__enter__` aborts and the temporary directory is left behind. An absolute id, or one that climbs out with `..`, writes outside the temporary directory. The model does neither: it writes every filename, `/` included, as a key of the one directory. `splitext` is modelled with the POSIX separator `/` only, not Windows' `\`.
- Fixtures.MigrationsContextManager.Call: the wrapped function is modelled as a pure function of its arguments and of the directory's files as it finds them. A body that itself changes the filesystem (for example, one that deletes the directory so that `rmtree` raises and that error replaces its outcome) is not modelled. `Exit` covers that failure on its own.
- Fixtures.TempDir: the body is a pure function of the path and of the (empty) directory's files, as for `Call`.
- Python's dynamic typing: arguments and results are `PyValue` (a string or an opaque object). Keyword migrations are a sequence of `(key, code)` pairs in mapping order.
