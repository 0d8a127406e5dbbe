/**
 * Resolution of the ABI feature settings: each setting is looked up as a
 * system property, then as an environment variable, then falls back to a
 * caller default. The two lookup sources are given as maps; a missing key
 * reads as null.
 */
module Settings {
  import opened Wrappers
  import opened ZfsErrors

  /** A lookup source: the JVM system properties or the process environment. */
  type Source = map<string, string>

  /** The global ABI mode key and the per-function override for zfs_iter_snapshots. */
  const ABI_KEY: string := "LIBZFS4J_ABI"
  const ITER_SNAPSHOTS_KEY: string := "LIBZFS4J_ABI_zfs_iter_snapshots"

  /** The two ABI modes recognised for the global key. */
  const LEGACY: string := "legacy"
  const OPENZFS: string := "openzfs"

  function Lookup(src: Source, key: string): Option<string>
  {
    if key in src then Some(src[key]) else None
  }

  /**
   * getSetting: a system property wins over an environment variable of the
   * same key, and the default is used only when neither is present.
   */
  function GetSetting(props: Source, env: Source, key: string, default: Option<string>): (v: Option<string>)
    ensures key in props ==> v == Some(props[key])
    ensures key !in props && key in env ==> v == Some(env[key])
    ensures key !in props && key !in env ==> v == default
    ensures default.Some? ==> v.Some?
  {
    var p := Lookup(props, key);
    if p.Some? then p
    else
      var e := Lookup(env, key);
      if e.Some? then e else default
  }

  /**
   * Reference definition of an override chain: the first source, in order,
   * that holds the key decides; otherwise the default.
   */
  function FirstDefined(sources: seq<Source>, key: string, default: Option<string>): Option<string>
  {
    if sources == [] then default
    else if key in sources[0] then Some(sources[0][key])
    else FirstDefined(sources[1..], key, default)
  }

  /** The earliest source holding the key decides the chain. */
  lemma {:induction false} FirstDefinedPicksEarliest(sources: seq<Source>, key: string, default: Option<string>, i: nat)
    requires i < |sources| && key in sources[i]
    requires forall j :: 0 <= j < i ==> key !in sources[j]
    ensures FirstDefined(sources, key, default) == Some(sources[i][key])
  {
    if i > 0 {
      assert key !in sources[0];
      forall j | 0 <= j < i - 1 ensures key !in sources[1..][j] {
        assert sources[1..][j] == sources[j + 1];
      }
      FirstDefinedPicksEarliest(sources[1..], key, default, i - 1);
    }
  }

  /** When no source holds the key, the chain yields the default. */
  lemma {:induction false} FirstDefinedFallsBack(sources: seq<Source>, key: string, default: Option<string>)
    requires forall j :: 0 <= j < |sources| ==> key !in sources[j]
    ensures FirstDefined(sources, key, default) == default
  {
    if sources != [] {
      assert key !in sources[0];
      forall j | 0 <= j < |sources| - 1 ensures key !in sources[1..][j] {
        assert sources[1..][j] == sources[j + 1];
      }
      FirstDefinedFallsBack(sources[1..], key, default);
    }
  }

  /** getSetting is the override chain [system properties, environment]. */
  lemma GetSettingIsFirstDefined(props: Source, env: Source, key: string, default: Option<string>)
    ensures GetSetting(props, env, key, default) == FirstDefined([props, env], key, default)
  {
    var srcs := [props, env];
    if key in props {
      FirstDefinedPicksEarliest(srcs, key, default, 0);
    } else if key in env {
      FirstDefinedPicksEarliest(srcs, key, default, 1);
    } else {
      FirstDefinedFallsBack(srcs, key, default);
    }
  }

  /** The global ABI mode: a recognised value is kept verbatim, anything else is "legacy". */
  function NormaliseAbi(v: string): (abi: string)
    ensures abi == LEGACY || abi == OPENZFS
    ensures abi == v <==> (v == LEGACY || v == OPENZFS)
    ensures abi == OPENZFS <==> v == OPENZFS
  {
    if v == LEGACY || v == OPENZFS then v else LEGACY
  }

  /**
   * The contents of the features map after initFeatures, or the failure
   * when the global ABI setting is absent from both sources (the source
   * dereferences the null it gets back).
   */
  function ResolveFeatures(props: Source, env: Source): (r: Result<map<string, string>, ZfsError>)
    ensures r.Err? <==> ABI_KEY !in props && ABI_KEY !in env
    ensures r.Err? ==> r.error == NullPointer(ABI_KEY)
    ensures r.Ok? ==> r.value.Keys == {ABI_KEY, ITER_SNAPSHOTS_KEY}
  {
    match GetSetting(props, env, ABI_KEY, None)
    case None => Err(NullPointer(ABI_KEY))
    case Some(v) =>
      var abi := NormaliseAbi(v);
      var iter := GetSetting(props, env, ITER_SNAPSHOTS_KEY, Some(abi));
      Ok(map[ABI_KEY := abi, ITER_SNAPSHOTS_KEY := iter.value])
  }

  /**
   * The stored global ABI mode is "legacy" or "openzfs": "openzfs" exactly
   * when the winning raw setting is "openzfs", "legacy" for every other value.
   */
  lemma AbiFeatureNormalised(props: Source, env: Source)
    requires ABI_KEY in props || ABI_KEY in env
    ensures ResolveFeatures(props, env).Ok?
    ensures var f := ResolveFeatures(props, env).value;
            var raw := if ABI_KEY in props then props[ABI_KEY] else env[ABI_KEY];
            && (f[ABI_KEY] == LEGACY || f[ABI_KEY] == OPENZFS)
            && (raw == OPENZFS ==> f[ABI_KEY] == OPENZFS)
            && (raw != OPENZFS ==> f[ABI_KEY] == LEGACY)
  {
  }

  /**
   * The zfs_iter_snapshots override is taken verbatim from the property or
   * environment when present (not validated), and otherwise copies the
   * already-normalised global mode.
   */
  lemma IterSnapshotsFeature(props: Source, env: Source)
    requires ResolveFeatures(props, env).Ok?
    ensures var f := ResolveFeatures(props, env).value;
            && (ITER_SNAPSHOTS_KEY in props ==> f[ITER_SNAPSHOTS_KEY] == props[ITER_SNAPSHOTS_KEY])
            && (ITER_SNAPSHOTS_KEY !in props && ITER_SNAPSHOTS_KEY in env ==> f[ITER_SNAPSHOTS_KEY] == env[ITER_SNAPSHOTS_KEY])
            && (ITER_SNAPSHOTS_KEY !in props && ITER_SNAPSHOTS_KEY !in env ==> f[ITER_SNAPSHOTS_KEY] == f[ABI_KEY])
  {
  }

  /**
   * As written, a host that sets LIBZFS4J_ABI nowhere cannot build the
   * object at all, although an undefined setting is meant to select "legacy".
   */
  lemma UnsetAbiFails()
    ensures ResolveFeatures(map[], map[]) == Err(NullPointer(ABI_KEY))
  {
  }

  /** The features as intended: an undefined global setting selects "legacy". */
  function ResolveFeaturesIntended(props: Source, env: Source): (r: Result<map<string, string>, ZfsError>)
  {
    var abi := NormaliseAbi(GetSetting(props, env, ABI_KEY, Some(LEGACY)).value);
    var iter := GetSetting(props, env, ITER_SNAPSHOTS_KEY, Some(abi));
    Ok(map[ABI_KEY := abi, ITER_SNAPSHOTS_KEY := iter.value])
  }

  /**
   * The intended resolution never fails, selects "legacy" when the global
   * setting is undefined, and agrees with the code wherever the code succeeds.
   */
  lemma ResolveFeaturesIntendedSound(props: Source, env: Source)
    ensures ResolveFeaturesIntended(props, env).Ok?
    ensures ResolveFeaturesIntended(props, env).value.Keys == {ABI_KEY, ITER_SNAPSHOTS_KEY}
    ensures ABI_KEY !in props && ABI_KEY !in env ==> ResolveFeaturesIntended(props, env).value[ABI_KEY] == LEGACY
    ensures ResolveFeatures(props, env).Ok? ==> ResolveFeaturesIntended(props, env) == ResolveFeatures(props, env)
  {
  }
}
