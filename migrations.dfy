/**
 * What `MigrationsContextManager.__enter__` writes: positional migrations
 * get the ids 0, 1, 2, ... in argument order, keyword migrations follow in
 * mapping order with their key as id, and each is written in that order to
 * its normalised filename, so a later write to the same name replaces an
 * earlier one.
 */
module Migrations {
  import opened Decimal
  import opened Paths

  /** The id a migration is declared under: its position, or its keyword. */
  datatype MigrationId = Positional(index: nat) | Keyword(name: string)

  datatype Migration = Migration(id: MigrationId, code: string)

  /** `str(mig_id)`: the decimal digits of a position, or the keyword itself. */
  function IdString(id: MigrationId): (s: string)
    ensures id.Positional? ==> |s| >= 1 && AllDigits(s) && DigitsValue(s) == id.index
    ensures id.Keyword? ==> s == id.name
  {
    match id
    case Positional(i) =>
      NatToStringRoundTrip(i);
      NatToString(i)
    case Keyword(name) => name
  }

  /** The file a migration is written to: its id, with `.py` appended unless already recognised. */
  function FileOf(m: Migration): (f: string)
    ensures f == IdString(m.id) || f == IdString(m.id) + DefaultExtension
    ensures m.id.Positional? ==> f == NatToString(m.id.index) + DefaultExtension
  {
    if m.id.Positional? then
      PositionalFilename(m.id.index);
      MigrationFilename(IdString(m.id))
    else
      MigrationFilename(IdString(m.id))
  }

  /** `enumerate(codes, start)`, each pair made a positional migration. */
  function Enumerate(codes: seq<string>, start: nat): (ms: seq<Migration>)
    ensures |ms| == |codes|
    ensures forall i :: 0 <= i < |codes| ==> ms[i] == Migration(Positional(start + i), codes[i])
  {
    if codes == [] then [] else [Migration(Positional(start), codes[0])] + Enumerate(codes[1..], start + 1)
  }

  /** `kwmigrations.items()` as keyword migrations. */
  function KeywordMigrations(kwmigrations: seq<(string, string)>): seq<Migration> {
    seq(|kwmigrations|, j requires 0 <= j < |kwmigrations| => Migration(Keyword(kwmigrations[j].0), kwmigrations[j].1))
  }

  /** `chain(enumerate(migrations), kwmigrations.items())`. */
  function Declared(migrations: seq<string>, kwmigrations: seq<(string, string)>): (ms: seq<Migration>)
    ensures |ms| == |migrations| + |kwmigrations|
    ensures forall i :: 0 <= i < |migrations| ==> ms[i] == Migration(Positional(i), migrations[i])
    ensures forall j :: 0 <= j < |kwmigrations| ==>
              ms[|migrations| + j] == Migration(Keyword(kwmigrations[j].0), kwmigrations[j].1)
  {
    Enumerate(migrations, 0) + KeywordMigrations(kwmigrations)
  }

  /**
   * The order of the write loop: the ids "0" .. "n-1" for the positional
   * snippets in argument order, then the keyword ids in mapping order.
   */
  lemma DeclaredOrder(migrations: seq<string>, kwmigrations: seq<(string, string)>)
    ensures var ms := Declared(migrations, kwmigrations);
            && |ms| == |migrations| + |kwmigrations|
            && (forall i :: 0 <= i < |migrations| ==>
                  ms[i].code == migrations[i] && IdString(ms[i].id) == NatToString(i))
            && (forall j :: 0 <= j < |kwmigrations| ==>
                  ms[|migrations| + j].code == kwmigrations[j].1 && IdString(ms[|migrations| + j].id) == kwmigrations[j].0)
  {
  }

  /** A file write: the file name and the text written to it. */
  type Write = (string, string)

  /**
   * The directory contents after performing `writes` in order in an empty
   * directory: each write creates or replaces one file.
   */
  function AfterWrites(writes: seq<Write>): (dir: map<string, string>)
    ensures |dir| <= |writes|
    ensures forall f :: f in dir ==> (f, dir[f]) in writes
  {
    if writes == [] then map[]
    else AfterWrites(writes[..|writes| - 1])[writes[|writes| - 1].0 := writes[|writes| - 1].1]
  }

  /** One more write updates one file. */
  lemma AfterWritesStep(writes: seq<Write>, i: nat)
    requires i < |writes|
    ensures AfterWrites(writes[..i + 1]) == AfterWrites(writes[..i])[writes[i].0 := writes[i].1]
  {
    assert writes[..i + 1][..i] == writes[..i];
  }

  /** Some write of `writes` goes to `f`. */
  predicate WritesTo(writes: seq<Write>, f: string) {
    exists i :: 0 <= i < |writes| && writes[i].0 == f
  }

  /** The directory holds a file exactly for each name written to. */
  lemma {:induction false} AfterWritesKeys(writes: seq<Write>, f: string)
    ensures f in AfterWrites(writes) <==> WritesTo(writes, f)
  {
    if writes != [] {
      var init := writes[..|writes| - 1];
      AfterWritesKeys(init, f);
      if WritesTo(init, f) {
        var i :| 0 <= i < |init| && init[i].0 == f;
        assert writes[i] == init[i];
      }
      if WritesTo(writes, f) && f != writes[|writes| - 1].0 {
        var i :| 0 <= i < |writes| && writes[i].0 == f;
        assert i < |init| && init[i] == writes[i];
      }
    }
  }

  /** Each name holds the text of the last write to it. */
  lemma {:induction false} AfterWritesLastWins(writes: seq<Write>, i: nat)
    requires i < |writes|
    requires forall j :: i < j < |writes| ==> writes[j].0 != writes[i].0
    ensures writes[i].0 in AfterWrites(writes)
    ensures AfterWrites(writes)[writes[i].0] == writes[i].1
  {
    if i < |writes| - 1 {
      var init := writes[..|writes| - 1];
      assert init[i] == writes[i];
      forall j | i < j < |init| ensures init[j].0 != init[i].0 {
        assert init[j] == writes[j];
      }
      AfterWritesLastWins(init, i);
    }
  }

  /** Writes to pairwise distinct names. */
  predicate DistinctNames(writes: seq<Write>) {
    forall i, j :: 0 <= i < j < |writes| ==> writes[i].0 != writes[j].0
  }

  /** Distinct names leave one file per write. */
  lemma {:induction false} AfterWritesSize(writes: seq<Write>)
    requires DistinctNames(writes)
    ensures |AfterWrites(writes)| == |writes|
  {
    if writes != [] {
      var init := writes[..|writes| - 1];
      var last := writes[|writes| - 1];
      forall i | 0 <= i < |init| ensures init[i].0 != last.0 {
        assert init[i] == writes[i];
      }
      AfterWritesSize(init);
      AfterWritesKeys(init, last.0);
    }
  }

  /** The writes of the loop in `__enter__`: each migration's file and its cleaned code. */
  function WritePlan(ms: seq<Migration>, clean: string -> string): (writes: seq<Write>)
    ensures |writes| == |ms|
  {
    seq(|ms|, i requires 0 <= i < |ms| => (FileOf(ms[i]), clean(ms[i].code)))
  }

  /**
   * The directory `__enter__` leaves behind for the declared migrations,
   * `clean` standing for `dedent(code).strip()`.
   */
  function Written(ms: seq<Migration>, clean: string -> string): (dir: map<string, string>)
    ensures |dir| <= |ms|
  {
    AfterWrites(WritePlan(ms, clean))
  }

  /** The directory holds a file exactly for each filename of a declared migration. */
  lemma WrittenKeys(ms: seq<Migration>, clean: string -> string, f: string)
    ensures f in Written(ms, clean) <==> exists i :: 0 <= i < |ms| && FileOf(ms[i]) == f
  {
    var writes := WritePlan(ms, clean);
    AfterWritesKeys(writes, f);
    if WritesTo(writes, f) {
      var i :| 0 <= i < |writes| && writes[i].0 == f;
      assert FileOf(ms[i]) == f;
    }
    if exists i :: 0 <= i < |ms| && FileOf(ms[i]) == f {
      var i :| 0 <= i < |ms| && FileOf(ms[i]) == f;
      assert writes[i].0 == f;
    }
  }

  /** Each filename holds the cleaned code of the last migration written to it. */
  lemma WrittenLastWins(ms: seq<Migration>, clean: string -> string, i: nat)
    requires i < |ms|
    requires forall j :: i < j < |ms| ==> FileOf(ms[j]) != FileOf(ms[i])
    ensures FileOf(ms[i]) in Written(ms, clean)
    ensures Written(ms, clean)[FileOf(ms[i])] == clean(ms[i].code)
  {
    AfterWritesLastWins(WritePlan(ms, clean), i);
  }

  /** Migration filenames that do not collide. */
  predicate DistinctFiles(ms: seq<Migration>) {
    forall i, j :: 0 <= i < j < |ms| ==> FileOf(ms[i]) != FileOf(ms[j])
  }

  /**
   * Without collisions the directory holds exactly one file per declared
   * migration, each with that migration's cleaned code.
   */
  lemma WrittenDistinct(ms: seq<Migration>, clean: string -> string)
    requires DistinctFiles(ms)
    ensures |Written(ms, clean)| == |ms|
    ensures forall i :: 0 <= i < |ms| ==>
              FileOf(ms[i]) in Written(ms, clean) && Written(ms, clean)[FileOf(ms[i])] == clean(ms[i].code)
  {
    AfterWritesSize(WritePlan(ms, clean));
    forall i | 0 <= i < |ms|
      ensures FileOf(ms[i]) in Written(ms, clean) && Written(ms, clean)[FileOf(ms[i])] == clean(ms[i].code)
    {
      WrittenLastWins(ms, clean, i);
    }
  }

  /** Positional migrations never collide with one another. */
  lemma PositionalDistinct(migrations: seq<string>)
    ensures DistinctFiles(Declared(migrations, []))
  {
    var ms := Declared(migrations, []);
    forall i, j | 0 <= i < j < |ms| ensures FileOf(ms[i]) != FileOf(ms[j]) {
      PositionalFilename(i);
      PositionalFilename(j);
      NatToStringInjective(i, j);
      assert FileOf(ms[i]) == NatToString(i) + DefaultExtension;
      assert FileOf(ms[j]) == NatToString(j) + DefaultExtension;
      assert FileOf(ms[i])[..|FileOf(ms[i])| - 3] == NatToString(i);
      assert FileOf(ms[j])[..|FileOf(ms[j])| - 3] == NatToString(j);
    }
  }

  /** The first two positional files are `0.py` and `1.py`. */
  lemma PositionalFilenames()
    ensures FileOf(Migration(Positional(0), "")) == "0.py"
    ensures FileOf(Migration(Positional(1), "")) == "1.py"
  {
    PositionalFilename(0);
    PositionalFilename(1);
    assert NatToString(0) == "0" && NatToString(1) == "1";
  }

  /** `migrations_dir(create, drop)` writes `0.py` and `1.py`. */
  lemma TwoPositional(create: string, drop: string, clean: string -> string)
    ensures Written(Declared([create, drop], []), clean) == map["0.py" := clean(create), "1.py" := clean(drop)]
  {
    var ms := Declared([create, drop], []);
    assert ms == [Migration(Positional(0), create), Migration(Positional(1), drop)];
    PositionalFilenames();
    var writes := WritePlan(ms, clean);
    assert writes == [("0.py", clean(create)), ("1.py", clean(drop))];
    var w0 := writes[..1];
    assert w0 == [("0.py", clean(create))] && w0[..0] == [];
    assert AfterWrites(w0) == map["0.py" := clean(create)];
    assert AfterWrites(writes) == AfterWrites(w0)["1.py" := clean(drop)];
  }

  /** `migrations_dir(first=code)` writes exactly `first.py`. */
  lemma OneKeyword(code: string, clean: string -> string)
    ensures Written(Declared([], [("first", code)]), clean) == map["first.py" := clean(code)]
  {
    var ms := Declared([], [("first", code)]);
    assert ms == [Migration(Keyword("first"), code)];
    LastIndexOfIs("first", ExtSep, -1);
    assert Ext("first") == [];
    assert FileOf(ms[0]) == "first.py";
    var writes := WritePlan(ms, clean);
    assert writes == [("first.py", clean(code))] && writes[..0] == [];
    assert AfterWrites(writes) == AfterWrites([])["first.py" := clean(code)];
  }

  /**
   * A keyword id "1" collides with the second positional snippet: the
   * keyword snippet is written later and is the one left on disk.
   */
  lemma KeywordOverwritesPositional(a: string, b: string, c: string, clean: string -> string)
    ensures Written(Declared([a, b], [("1", c)]), clean) == map["0.py" := clean(a), "1.py" := clean(c)]
  {
    var ms := Declared([a, b], [("1", c)]);
    PositionalFilenames();
    assert MigrationFilename("1") == "1.py";
    assert ms == [Migration(Positional(0), a), Migration(Positional(1), b), Migration(Keyword("1"), c)];
    var writes := WritePlan(ms, clean);
    assert writes == [("0.py", clean(a)), ("1.py", clean(b)), ("1.py", clean(c))];
    AfterWritesOfThree(writes[0], writes[1], writes[2]);
  }

  /** Three writes in a row, the later ones replacing the earlier ones. */
  lemma AfterWritesOfThree(x: Write, y: Write, z: Write)
    ensures AfterWrites([x, y, z]) == map[x.0 := x.1][y.0 := y.1][z.0 := z.1]
  {
    assert [x][..0] == [];
    assert AfterWrites([x]) == map[x.0 := x.1];
    assert [x, y][..1] == [x];
    assert AfterWrites([x, y]) == map[x.0 := x.1][y.0 := y.1];
    assert [x, y, z][..2] == [x, y];
  }
}
