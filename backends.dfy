/**
 * Which test databases a test runs against: `get_test_dburis` filters the
 * `(name, uri)` entries of the configuration's DEFAULT section by the `only`
 * and `exclude` name sets, keeping configuration order, and
 * `get_test_backends` opens one backend per selected URI.
 */
module Backends {

  /** A `name = uri` entry of the DEFAULT section. */
  type Entry = (string, string)

  datatype Result<T, E> = Ok(value: T) | Err(error: E)

  /**
   * The per-entry test of `get_test_dburis`: a non-empty `only` decides
   * alone; otherwise the entry is kept unless its name is excluded.
   */
  predicate Selected(name: string, only: set<string>, exclude: set<string>)
    ensures name in only ==> Selected(name, only, exclude)
    ensures only != {} && name !in only ==> !Selected(name, only, exclude)
    ensures only == {} ==> (Selected(name, only, exclude) <==> name !in exclude)
  {
    (only != {} && name in only) || (only == {} && name !in exclude)
  }

  /** All configured URIs, in configuration order. */
  function AllUris(config: seq<Entry>): seq<string> {
    seq(|config|, i requires 0 <= i < |config| => config[i].1)
  }

  /** The URIs `get_test_dburis(only, exclude)` returns. */
  function TestDbUris(config: seq<Entry>, only: set<string>, exclude: set<string>): (uris: seq<string>)
    ensures |uris| <= |config|
  {
    if config == [] then []
    else if Selected(config[0].0, only, exclude) then [config[0].1] + TestDbUris(config[1..], only, exclude)
    else TestDbUris(config[1..], only, exclude)
  }

  predicate FailsWith<B, E(==)>(r: Result<B, E>, e: E) {
    r.Err? && r.error == e
  }

  /** `[get_backend(uri) for uri in uris]`, raising at the first failure. */
  function ConnectAll<B, E(==)>(uris: seq<string>, getBackend: string -> Result<B, E>): (r: Result<seq<B>, E>)
    ensures r.Ok? <==> forall i :: 0 <= i < |uris| ==> getBackend(uris[i]).Ok?
    ensures r.Ok? ==> |r.value| == |uris|
    ensures r.Ok? ==> forall i :: 0 <= i < |uris| ==> r.value[i] == getBackend(uris[i]).value
    ensures r.Err? ==> exists i :: 0 <= i < |uris| && FailsWith(getBackend(uris[i]), r.error)
                          && forall j :: 0 <= j < i ==> getBackend(uris[j]).Ok?
  {
    if uris == [] then Ok([])
    else match getBackend(uris[0])
      case Err(e) => Err(e)
      case Ok(b) =>
        match ConnectAll(uris[1..], getBackend)
        case Err(e) => Err(e)
        case Ok(bs) => Ok([b] + bs)
  }

  /** A URI is selected exactly when some entry carrying it passes the test. */
  lemma {:induction false} TestDbUrisMembership(config: seq<Entry>, only: set<string>, exclude: set<string>, uri: string)
    ensures uri in TestDbUris(config, only, exclude)
        <==> exists i :: 0 <= i < |config| && config[i].1 == uri && Selected(config[i].0, only, exclude)
  {
    if config != [] {
      TestDbUrisMembership(config[1..], only, exclude, uri);
      if exists i :: 0 <= i < |config| && config[i].1 == uri && Selected(config[i].0, only, exclude) {
        var i :| 0 <= i < |config| && config[i].1 == uri && Selected(config[i].0, only, exclude);
        if i > 0 {
          assert config[1..][i - 1] == config[i];
        }
      }
      if exists i :: 0 <= i < |config[1..]| && config[1..][i].1 == uri && Selected(config[1..][i].0, only, exclude) {
        var i :| 0 <= i < |config[1..]| && config[1..][i].1 == uri && Selected(config[1..][i].0, only, exclude);
        assert config[i + 1] == config[1..][i];
      }
    }
  }

  /** Once `only` is non-empty, `exclude` makes no difference. */
  lemma {:induction false} OnlyIgnoresExclude(config: seq<Entry>, only: set<string>, exclude1: set<string>, exclude2: set<string>)
    requires only != {}
    ensures TestDbUris(config, only, exclude1) == TestDbUris(config, only, exclude2)
  {
    if config != [] {
      OnlyIgnoresExclude(config[1..], only, exclude1, exclude2);
    }
  }

  /** `a` can be obtained from `b` by deleting elements. */
  predicate IsSubsequence(a: seq<string>, b: seq<string>)
    decreases |b|
  {
    if a == [] then true
    else if b == [] then false
    else (a[0] == b[0] && IsSubsequence(a[1..], b[1..])) || IsSubsequence(a, b[1..])
  }

  /** The selected URIs keep configuration order. */
  lemma {:induction false} TestDbUrisSubsequence(config: seq<Entry>, only: set<string>, exclude: set<string>)
    ensures IsSubsequence(TestDbUris(config, only, exclude), AllUris(config))
  {
    if config != [] {
      TestDbUrisSubsequence(config[1..], only, exclude);
      assert AllUris(config)[1..] == AllUris(config[1..]);
    }
  }

  /** Selection distributes over concatenated configurations. */
  lemma {:induction false} TestDbUrisAppend(c1: seq<Entry>, c2: seq<Entry>, only: set<string>, exclude: set<string>)
    ensures TestDbUris(c1 + c2, only, exclude) == TestDbUris(c1, only, exclude) + TestDbUris(c2, only, exclude)
  {
    if c1 != [] {
      TestDbUrisAppend(c1[1..], c2, only, exclude);
      assert (c1 + c2)[1..] == c1[1..] + c2;
    } else {
      assert c1 + c2 == c2;
    }
  }

  /** When every entry passes, every configured URI is returned in order. */
  lemma {:induction false} AllSelected(config: seq<Entry>, only: set<string>, exclude: set<string>)
    requires forall i :: 0 <= i < |config| ==> Selected(config[i].0, only, exclude)
    ensures TestDbUris(config, only, exclude) == AllUris(config)
  {
    if config != [] {
      AllSelected(config[1..], only, exclude);
      assert AllUris(config) == [config[0].1] + AllUris(config[1..]);
    }
  }

  /** When no entry passes, nothing is returned. */
  lemma {:induction false} NoneSelected(config: seq<Entry>, only: set<string>, exclude: set<string>)
    requires forall i :: 0 <= i < |config| ==> !Selected(config[i].0, only, exclude)
    ensures TestDbUris(config, only, exclude) == []
  {
    if config != [] {
      NoneSelected(config[1..], only, exclude);
    }
  }

  /** With neither `only` nor `exclude`, every configured URI is returned. */
  lemma NoFilterSelectsAll(config: seq<Entry>)
    ensures TestDbUris(config, {}, {}) == AllUris(config)
  {
    AllSelected(config, {}, {});
  }

  /** The DEFAULT section has one entry per name. */
  predicate UniqueNames(config: seq<Entry>) {
    forall i, j :: 0 <= i < j < |config| ==> config[i].0 != config[j].0
  }

  /** Selection of a configuration split around its entry `k`. */
  lemma {:induction false} TestDbUrisAround(config: seq<Entry>, k: nat, only: set<string>, exclude: set<string>)
    requires k < |config|
    ensures TestDbUris(config, only, exclude)
         == TestDbUris(config[..k], only, exclude) + TestDbUris([config[k]], only, exclude)
            + TestDbUris(config[k + 1..], only, exclude)
  {
    assert config == (config[..k] + [config[k]]) + config[k + 1..];
    TestDbUrisAppend(config[..k] + [config[k]], config[k + 1..], only, exclude);
    TestDbUrisAppend(config[..k], [config[k]], only, exclude);
  }

  /** No entry of `config` is named `a`. */
  predicate NoneNamed(config: seq<Entry>, a: string) {
    forall i :: 0 <= i < |config| ==> config[i].0 != a
  }

  /** With unique names, no entry before or after `k` carries its name. */
  lemma OthersNamedDifferently(config: seq<Entry>, k: nat)
    requires UniqueNames(config)
    requires k < |config|
    ensures NoneNamed(config[..k], config[k].0)
    ensures NoneNamed(config[k + 1..], config[k].0)
  {
    var pre, post := config[..k], config[k + 1..];
    forall i | 0 <= i < |pre| ensures pre[i].0 != config[k].0 {
      assert pre[i] == config[i];
    }
    forall i | 0 <= i < |post| ensures post[i].0 != config[k].0 {
      assert post[i] == config[k + 1 + i];
    }
  }

  /** `only={a}` wins over `exclude={a}`: exactly the URI of the entry named `a`. */
  lemma OnlyWinsOverExclude(config: seq<Entry>, k: nat)
    requires UniqueNames(config)
    requires k < |config|
    ensures TestDbUris(config, {config[k].0}, {config[k].0}) == [config[k].1]
  {
    var names := {config[k].0};
    var pre, post := config[..k], config[k + 1..];
    TestDbUrisAround(config, k, names, names);
    OthersNamedDifferently(config, k);
    NoneSelected(pre, names, names);
    NoneSelected(post, names, names);
    assert TestDbUris([config[k]], names, names) == [config[k].1];
  }

  lemma AllUrisAppend(c1: seq<Entry>, c2: seq<Entry>)
    ensures AllUris(c1 + c2) == AllUris(c1) + AllUris(c2)
  {
  }

  /** `exclude={a}` alone drops just the entry named `a`. */
  lemma ExcludeOne(config: seq<Entry>, k: nat)
    requires UniqueNames(config)
    requires k < |config|
    ensures TestDbUris(config, {}, {config[k].0}) == AllUris(config[..k] + config[k + 1..])
  {
    OthersNamedDifferently(config, k);
    ExcludeSoleCarrier(config, k);
  }

  /** Excluding the name of entry `k`, which no other entry carries, drops just that entry. */
  lemma ExcludeSoleCarrier(config: seq<Entry>, k: nat)
    requires k < |config|
    requires NoneNamed(config[..k], config[k].0) && NoneNamed(config[k + 1..], config[k].0)
    ensures TestDbUris(config, {}, {config[k].0}) == AllUris(config[..k] + config[k + 1..])
  {
    var exclude := {config[k].0};
    var pre, post := config[..k], config[k + 1..];
    TestDbUrisAround(config, k, {}, exclude);
    UnnamedKept(pre, config[k].0);
    UnnamedKept(post, config[k].0);
    assert TestDbUris([config[k]], {}, exclude) == [];
    AllUrisAppend(pre, post);
  }

  /** Excluding a name no entry carries keeps every entry. */
  lemma UnnamedKept(config: seq<Entry>, a: string)
    requires NoneNamed(config, a)
    ensures TestDbUris(config, {}, {a}) == AllUris(config)
  {
    AllSelected(config, {}, {a});
  }

  /** Opening backends: one per selected URI, in the same order, unless a connection fails. */
  function TestBackends<B, E(==)>(config: seq<Entry>, only: set<string>, exclude: set<string>,
                                  getBackend: string -> Result<B, E>): (r: Result<seq<B>, E>)
    ensures r.Ok? <==> forall u :: u in TestDbUris(config, only, exclude) ==> getBackend(u).Ok?
    ensures r.Ok? ==> |r.value| == |TestDbUris(config, only, exclude)|
    ensures r.Ok? ==> forall i :: 0 <= i < |r.value| ==> r.value[i] == getBackend(TestDbUris(config, only, exclude)[i]).value
  {
    ConnectAll(TestDbUris(config, only, exclude), getBackend)
  }
}
