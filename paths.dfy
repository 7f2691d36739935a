/**
 * The migration filename rule of `MigrationsContextManager.add_migration`:
 * an id whose extension (as `os.path.splitext` on POSIX finds it) is `.py`
 * or `.sql` is used as the filename unchanged; any other id gets `.py`
 * appended.
 */
module Paths {
  import opened Decimal

  const Sep: char := '/'
  const ExtSep: char := '.'
  const DefaultExtension: string := ".py"
  const Recognised: set<string> := {".py", ".sql"}

  /** `s.rfind(c)`: the last index holding `c`, or -1 when there is none. */
  function LastIndexOf(s: string, c: char): (i: int)
    ensures -1 <= i < |s|
    ensures i >= 0 ==> s[i] == c
    ensures forall k :: i < k < |s| ==> s[k] != c
  {
    if s == [] then -1
    else if s[|s| - 1] == c then |s| - 1
    else LastIndexOf(s[..|s| - 1], c)
  }

  /** Some character of `p[lo..hi]` is not a dot. */
  predicate HasNonDot(p: string, lo: int, hi: int)
    requires 0 <= lo <= hi <= |p|
  {
    exists k :: lo <= k < hi && p[k] != ExtSep
  }

  /**
   * `os.path.splitext(p)` with `/` as the only separator: the extension runs
   * from the last dot of the final path component, unless everything before
   * that dot in the component is dots too (so `.sql` has no extension).
   */
  function SplitExt(p: string): (r: (string, string))
    ensures r.0 + r.1 == p
    ensures r.1 != [] ==> r.1[0] == ExtSep
    ensures forall k :: 0 < k < |r.1| ==> r.1[k] != ExtSep && r.1[k] != Sep
  {
    var sepIndex := LastIndexOf(p, Sep);
    var dotIndex := LastIndexOf(p, ExtSep);
    if dotIndex > sepIndex && HasNonDot(p, sepIndex + 1, dotIndex) then
      (p[..dotIndex], p[dotIndex..])
    else
      (p, [])
  }

  function Ext(p: string): string {
    SplitExt(p).1
  }

  /** The final path component of `p` holds a character other than a dot. */
  predicate HasStem(p: string) {
    HasNonDot(p, LastIndexOf(p, Sep) + 1, |p|)
  }

  predicate EndsWith(s: string, suffix: string) {
    |suffix| <= |s| && s[|s| - |suffix|..] == suffix
  }

  lemma EndsWithAppended(s: string, suffix: string)
    ensures EndsWith(s + suffix, suffix)
  {
    assert (s + suffix)[|s|..] == suffix;
  }

  /**
   * The name `add_migration` writes the migration with id `id` to: the id
   * itself or the id with `.py` appended, and always ending in `.py` or `.sql`.
   */
  function MigrationFilename(id: string): (f: string)
    ensures f == id || f == id + DefaultExtension
    ensures EndsWith(f, ".py") || EndsWith(f, ".sql")
  {
    if Ext(id) in Recognised then
      EndsWithAppended(SplitExt(id).0, Ext(id));
      id
    else
      EndsWithAppended(id, DefaultExtension);
      id + DefaultExtension
  }

  /** Characterises `LastIndexOf` by its index. */
  lemma LastIndexOfIs(s: string, c: char, i: int)
    requires -1 <= i < |s|
    requires i >= 0 ==> s[i] == c
    requires forall k :: i < k < |s| ==> s[k] != c
    ensures LastIndexOf(s, c) == i
  {
  }

  /**
   * Appending an extension-shaped suffix `e` (a dot, then neither dots nor
   * separators) yields exactly that extension when the final component of
   * `p` has a stem, and no extension at all otherwise.
   */
  lemma AppendedExtension(p: string, e: string)
    requires |e| >= 1 && e[0] == ExtSep
    requires forall k :: 0 <= k < |e| ==> e[k] != Sep
    requires forall k :: 0 < k < |e| ==> e[k] != ExtSep
    ensures Ext(p + e) == if HasStem(p) then e else []
  {
    var q := p + e;
    var sep := LastIndexOf(p, Sep);
    LastIndexOfIs(q, Sep, sep);
    LastIndexOfIs(q, ExtSep, |p|);
    assert HasNonDot(q, sep + 1, |p|) == HasNonDot(p, sep + 1, |p|) by {
      forall k | sep + 1 <= k < |p| ensures q[k] == p[k] { }
    }
    assert q[|p|..] == e;
  }

  /** An id with a non-empty extension has a stem. */
  lemma ExtensionNeedsStem(p: string)
    requires Ext(p) != []
    ensures HasStem(p)
  {
    var sep := LastIndexOf(p, Sep);
    var dot := LastIndexOf(p, ExtSep);
    var k :| sep + 1 <= k < dot && p[k] != ExtSep;
    assert sep + 1 <= k < |p|;
  }

  /**
   * The filename carries a `.py` or `.sql` extension by splitext's own
   * reading exactly when the id's final component has a stem.
   */
  lemma {:induction false} FilenameHasRecognisedExtension(id: string)
    ensures Ext(MigrationFilename(id)) in Recognised <==> HasStem(id)
  {
    if Ext(id) in Recognised {
      ExtensionNeedsStem(id);
    } else {
      AppendedExtension(id, DefaultExtension);
    }
  }

  /**
   * Normalising a filename again leaves it unchanged exactly when the id's
   * final component has a stem; `""` becomes `.py` and then `.py.py`.
   */
  lemma {:induction false} FilenameIdempotent(id: string)
    ensures MigrationFilename(MigrationFilename(id)) == MigrationFilename(id) <==> HasStem(id)
  {
    FilenameHasRecognisedExtension(id);
    var f := MigrationFilename(id);
    if !HasStem(id) {
      assert Ext(id) == [] by {
        if Ext(id) != [] { ExtensionNeedsStem(id); }
      }
      assert f == id + DefaultExtension;
      assert |MigrationFilename(f)| > |f|;
    }
  }

  /** Ids with a stem and a recognised extension are kept. */
  lemma RecognisedExamples()
    ensures MigrationFilename("0001_init.sql") == "0001_init.sql"
    ensures MigrationFilename("step.py") == "step.py"
  {
    LastIndexOfIs("0001_init", Sep, -1);
    assert HasStem("0001_init") by { assert "0001_init"[0] != ExtSep; }
    AppendedExtension("0001_init", ".sql");
    assert "0001_init" + ".sql" == "0001_init.sql";
    LastIndexOfIs("step", Sep, -1);
    assert HasStem("step") by { assert "step"[0] != ExtSep; }
    AppendedExtension("step", ".py");
    assert "step" + ".py" == "step.py";
  }

  /** An extension other than `.py` or `.sql` gets `.py` appended. */
  lemma OtherExtensionExample()
    ensures MigrationFilename("a.b") == "a.b.py"
  {
    LastIndexOfIs("a", Sep, -1);
    assert HasStem("a") by { assert "a"[0] != ExtSep; }
    AppendedExtension("a", ".b");
    assert "a" + ".b" == "a.b";
  }

  /** A leading dot does not start an extension: `.sql` becomes `.sql.py`. */
  lemma LeadingDotExample()
    ensures MigrationFilename(".sql") == ".sql.py"
  {
    AppendedExtension("", ".sql");
    assert "" + ".sql" == ".sql";
  }

  /** A positional id `str(k)` has no dot, so it always becomes `str(k) + ".py"`. */
  lemma PositionalFilename(k: nat)
    ensures MigrationFilename(NatToString(k)) == NatToString(k) + DefaultExtension
  {
    var s := NatToString(k);
    LastIndexOfIs(s, ExtSep, -1);
  }

  /** A positional id `str(k)` starts with a digit, so its filename is a fixed point of the rule. */
  lemma PositionalHasStem(k: nat)
    ensures HasStem(NatToString(k))
  {
    LastIndexOfIs(NatToString(k), Sep, -1);
    assert NatToString(k)[0] != ExtSep;
  }
}
