/**
 * The fixture lifecycle: `MigrationsContextManager` creates a temporary
 * directory, writes the declared migrations into it, exposes it to the test
 * body and removes it on exit; `tempdir` does the same for a bare
 * directory. The filesystem is an abstract map from directory paths to
 * their files.
 */
module Fixtures {
  import opened Paths
  import opened Migrations

  datatype Option<T> = None | Some(value: T)

  /** A Python object handed to or returned by a test function. */
  datatype PyValue = Str(s: string) | Object(handle: nat)

  /** How a call ends: with a return value or by raising an exception. */
  datatype Outcome = Returned(value: PyValue) | Raised(exception: PyValue)

  /** The directories that exist, each with its files (name to text). */
  class FileSystem {
    var dirs: map<string, map<string, string>>

    constructor (dirs: map<string, map<string, string>>)
      ensures this.dirs == dirs
    {
      this.dirs := dirs;
    }

    /**
     * `mkdtemp()`: creates the empty directory `path`. The platform picks a
     * name that does not exist yet; here the caller supplies it.
     */
    method MakeTempDir(path: string)
      requires path !in dirs
      modifies this
      ensures dirs == old(dirs)[path := map[]]
    {
      dirs := dirs[path := map[]];
    }

    /** `open(os.path.join(dir, name), "w").write(text)`: creates or replaces one file. */
    method WriteFile(dir: string, name: string, text: string)
      requires dir in dirs
      modifies this
      ensures dirs == old(dirs)[dir := old(dirs)[dir][name := text]]
    {
      dirs := dirs[dir := dirs[dir][name := text]];
    }

    /**
     * `rmtree(path)`: removes the directory and everything in it; fails
     * (`ok` false, nothing changed) when there is no such directory.
     */
    method RemoveTree(path: string) returns (ok: bool)
      modifies this
      ensures ok == (path in old(dirs))
      ensures dirs == old(dirs) - {path}
    {
      ok := path in dirs;
      dirs := dirs - {path};
    }
  }

  /**
   * `migrations_dir(*migrations, **kwmigrations)`: a context manager and
   * decorator; `clean` stands for `dedent(code).strip()`.
   */
  class MigrationsContextManager {
    const migrations: seq<string>
    const kwmigrations: seq<(string, string)>
    const clean: string -> string
    /** The directory of the latest `__enter__`; None before the first. */
    var tmpdir: Option<string>

    constructor (migrations: seq<string>, kwmigrations: seq<(string, string)>, clean: string -> string)
      ensures this.migrations == migrations && this.kwmigrations == kwmigrations && this.clean == clean
      ensures tmpdir == None
    {
      this.migrations := migrations;
      this.kwmigrations := kwmigrations;
      this.clean := clean;
      tmpdir := None;
    }

    /** Writes the cleaned `code` to the normalised filename of `id` in the directory. */
    method AddMigration(fs: FileSystem, id: string, code: string)
      requires tmpdir.Some? && tmpdir.value in fs.dirs
      modifies fs
      ensures fs.dirs == old(fs.dirs)[tmpdir.value := old(fs.dirs)[tmpdir.value][MigrationFilename(id) := clean(code)]]
    {
      var filename := MigrationFilename(id);
      fs.WriteFile(tmpdir.value, filename, clean(code));
    }

    /**
     * `__enter__`: creates the directory `newDir`, writes every declared
     * migration into it in declaration order and returns its path. No other
     * directory changes.
     */
    method Enter(fs: FileSystem, newDir: string) returns (path: string)
      requires newDir !in fs.dirs
      modifies this, fs
      ensures path == newDir && tmpdir == Some(newDir)
      ensures fs.dirs == old(fs.dirs)[newDir := Written(Declared(migrations, kwmigrations), clean)]
    {
      ghost var before := fs.dirs;
      fs.MakeTempDir(newDir);
      tmpdir := Some(newDir);
      var pending := Declared(migrations, kwmigrations);
      WriteAll(fs, pending);
      assert fs.dirs == before[newDir := map[]][newDir := Written(pending, clean)];
      path := newDir;
    }

    /** The loop of `__enter__`: `add_migration` for each migration in turn, into the empty directory. */
    method WriteAll(fs: FileSystem, pending: seq<Migration>)
      requires tmpdir.Some? && tmpdir.value in fs.dirs && fs.dirs[tmpdir.value] == map[]
      modifies fs
      ensures fs.dirs == old(fs.dirs)[tmpdir.value := Written(pending, clean)]
    {
      ghost var writes := WritePlan(pending, clean);
      ghost var dir := tmpdir.value;
      var i := 0;
      assert old(fs.dirs) == old(fs.dirs)[dir := AfterWrites(writes[..0])];
      while i < |pending|
        invariant 0 <= i <= |pending|
        invariant fs.dirs == old(fs.dirs)[dir := AfterWrites(writes[..i])]
      {
        AddMigration(fs, IdString(pending[i].id), pending[i].code);
        assert writes[i] == (MigrationFilename(IdString(pending[i].id)), clean(pending[i].code));
        AfterWritesStep(writes, i);
        i := i + 1;
      }
      assert writes[..i] == writes;
    }

    /**
     * `__exit__`: removes the directory of the latest `__enter__`, whatever
     * the body did. `ok` is false when `rmtree` raises because the directory
     * is already gone, or when no directory was ever created.
     */
    method Exit(fs: FileSystem) returns (ok: bool)
      modifies fs
      ensures ok == (tmpdir.Some? && tmpdir.value in old(fs.dirs))
      ensures fs.dirs == if tmpdir.Some? then old(fs.dirs) - {tmpdir.value} else old(fs.dirs)
    {
      if tmpdir.None? {
        ok := false;
      } else {
        ok := fs.RemoveTree(tmpdir.value);
      }
    }

    /**
     * A call of the decorated function: inside `with self`, `func` gets the
     * caller's positional arguments followed by the directory path, and the
     * keyword arguments unchanged, and it sees the directory's files as they
     * are while it runs. Its return value or exception is the call's, and
     * afterwards the directory is gone and every other directory is as before.
     */
    method Call(fs: FileSystem, newDir: string,
                func: (seq<PyValue>, map<string, PyValue>, map<string, string>) -> Outcome,
                args: seq<PyValue>, kwargs: map<string, PyValue>)
      returns (out: Outcome)
      requires newDir !in fs.dirs
      modifies this, fs
      ensures out == func(args + [Str(newDir)], kwargs, Written(Declared(migrations, kwmigrations), clean))
      ensures fs.dirs == old(fs.dirs)
      ensures tmpdir == Some(newDir)
    {
      var _ := Enter(fs, newDir);
      out := func(args + [Str(tmpdir.value)], kwargs, fs.dirs[tmpdir.value]);
      var ok := Exit(fs);
      assert ok;
    }
  }

  /**
   * `tempdir()`: runs `body` on a new directory `newDir`, which it sees empty,
   * and removes that directory afterwards, whether `body` returned or raised.
   */
  method TempDir(fs: FileSystem, newDir: string, body: (string, map<string, string>) -> Outcome)
    returns (out: Outcome)
    requires newDir !in fs.dirs
    modifies fs
    ensures out == body(newDir, map[])
    ensures fs.dirs == old(fs.dirs)
  {
    fs.MakeTempDir(newDir);
    out := body(newDir, fs.dirs[newDir]);
    var ok := fs.RemoveTree(newDir);
    assert ok;
  }
}
