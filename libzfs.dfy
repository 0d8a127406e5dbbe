/**
 * The LibZFS entry object: it owns the native library handle and the
 * feature settings, and issues the existence checks, creates and opens.
 * Native calls are oracle parameters; their results are taken as given.
 */
module LibZfs {
  import opened Wrappers
  import opened ZfsErrors
  import opened Settings
  import opened ZfsTypes
  import opened Datasets

  /** An opaque libzfs_handle_t returned by libzfs_init. */
  datatype LibzfsHandle = LibzfsHandle(address: nat)

  class LibZFS {
    /** The native library handle; None once disposed. */
    var handle: Option<LibzfsHandle>
    /** The ABI feature settings, keyed by setting name. */
    var features: map<string, string>

    /** The object as it stands once libzfs_init has returned a handle. */
    constructor (h: LibzfsHandle)
      ensures handle == Some(h) && features == map[]
    {
      handle := Some(h);
      features := map[];
    }

    /**
     * new LibZFS(): fails with a linkage error when libzfs_init returns
     * null, and with a null dereference when the global ABI setting is
     * absent; otherwise holds the handle and the resolved features.
     */
    static method New(init: Option<LibzfsHandle>, props: Source, env: Source) returns (r: Result<LibZFS, ZfsError>)
      ensures init.None? ==> r == Err(LinkageError)
      ensures init.Some? && ResolveFeatures(props, env).Err? ==> r == Err(NullPointer(ABI_KEY))
      ensures init.Some? && ResolveFeatures(props, env).Ok? ==>
                && r.Ok? && fresh(r.value)
                && r.value.handle == init
                && r.value.features == ResolveFeatures(props, env).value
    {
      if init.None? {
        return Err(LinkageError);
      }
      var z := new LibZFS(init.value);
      var ok := z.InitFeatures(props, env);
      if !ok {
        return Err(ResolveFeatures(props, env).error);
      }
      r := Ok(z);
    }

    /**
     * initFeatures: stores the normalised global ABI mode, then the
     * zfs_iter_snapshots override defaulting to it. When the global setting
     * is absent the first dereference fails before anything is stored.
     */
    method InitFeatures(props: Source, env: Source) returns (ok: bool)
      modifies this`features
      ensures ok <==> ResolveFeatures(props, env).Ok?
      ensures ok ==> features == old(features) + ResolveFeatures(props, env).value
      ensures !ok ==> features == old(features)
    {
      var n := ABI_KEY;
      var v := GetSetting(props, env, n, None);
      if v.None? {
        return false;
      }
      var abi: string;
      if v.value == LEGACY || v.value == OPENZFS {
        abi := v.value;
      } else {
        abi := LEGACY;
      }
      features := features[n := abi];

      n := ITER_SNAPSHOTS_KEY;
      v := GetSetting(props, env, n, Some(abi));
      features := features[n := v.value];
      ok := true;
    }

    /** getFeature: the stored setting, or null for a key never stored. */
    function GetFeature(key: string): (v: Option<string>)
      reads this
      ensures v.Some? <==> key in features
      ensures v.Some? ==> v.value == features[key]
    {
      if key in features then Some(features[key]) else None
    }

    /**
     * exists(name, typeMask): ORs the codes of the requested types into one
     * mask, in whatever order the set yields them, and asks the native check.
     */
    method Exists(name: string, typeMask: set<ZFSType>, datasetExists: ExistsOracle) returns (b: bool)
      ensures b == datasetExists(name, MaskOf(typeMask))
    {
      var mask: bv32 := 0;
      var rest := typeMask;
      while rest != {}
        invariant rest <= typeMask
        invariant mask == MaskOf(typeMask - rest)
        decreases rest
      {
        var t :| t in rest;
        MaskOfInsert(typeMask - rest, t);
        assert typeMask - (rest - {t}) == (typeMask - rest) + {t};
        mask := mask | Code(t);
        rest := rest - {t};
      }
      assert typeMask - rest == typeMask;
      b := datasetExists(name, mask);
    }

    /** exists(name, type): the check for one type. */
    method ExistsOfType(name: string, t: ZFSType, datasetExists: ExistsOracle) returns (b: bool)
      ensures b == datasetExists(name, Code(t))
    {
      MaskOfSingleton(t);
      b := Exists(name, {t}, datasetExists);
    }

    /** exists(name): the check for every type. */
    method ExistsAny(name: string, datasetExists: ExistsOracle) returns (b: bool)
      ensures b == datasetExists(name, 15)
    {
      MaskConstants();
      b := Exists(name, AllTypes, datasetExists);
    }

    /**
     * The property list create hands to every zfs_create call: each given
     * property, or nothing when no properties are given.
     */
    method BuildPropertyList(props: Option<map<string, string>>) returns (nvl: map<string, string>)
      ensures nvl == PropertyList(props)
    {
      nvl := map[];
      if props.Some? {
        var p := props.value;
        var rest := p.Keys;
        while rest != {}
          invariant rest <= p.Keys
          invariant nvl.Keys == p.Keys - rest
          invariant forall k :: k in nvl ==> nvl[k] == p[k]
          decreases rest
        {
          var k :| k in rest;
          nvl := nvl[k := p[k]];
          rest := rest - {k};
        }
      }
    }

    /**
     * create(name, type, props): creates every missing intermediate dataset
     * of the name (the pool excepted), shortest first, stopping with an
     * error at the first failing create; then opens the full name.
     */
    method Create(components: seq<string>, t: ZFSType, props: Option<map<string, string>>,
                  datasetExists: ExistsOracle, zfsCreate: CreateOracle, zfsOpen: OpenOracle, errno: int)
      returns (r: Result<Option<ZfsHandle>, ZfsError>, calls: seq<CreateCall>)
      requires |components| > 0
      ensures var w := WalkPrefixes(Prefixes(components), datasetExists, zfsCreate, Code(t), PropertyList(props));
              && calls == w.calls
              && (w.failed ==> r == Err(CreateFailed(Join(components))))
              && (!w.failed ==> r == OpenOutcome(zfsOpen(Join(components), DATASET), errno))
    {
      var nvl := BuildPropertyList(props);
      var code := Code(t);
      ghost var ps := Prefixes(components);
      ghost var whole := WalkPrefixes(ps, datasetExists, zfsCreate, code, nvl);
      MaskConstants();

      var sb := components[0];
      assert ps[0..] == ps;
      calls := [];
      var i := 1;
      while i < |components|
        invariant 1 <= i <= |components|
        invariant sb == if i == 1 then components[0] else ps[i - 2]
        invariant var w := WalkPrefixes(ps[i - 1..], datasetExists, zfsCreate, code, nvl);
                  whole == Walk(calls + w.calls, w.failed)
      {
        NextPrefix(components, i);
        sb := sb + "/" + components[i];
        WalkStep(ps, i - 1, datasetExists, zfsCreate, code, nvl);
        ghost var next := WalkPrefixes(ps[i..], datasetExists, zfsCreate, code, nvl);
        var present := ExistsAny(sb, datasetExists);
        if !present {
          var c := CreateCall(sb, code, nvl);
          if zfsCreate(sb, code, nvl) != 0 {
            calls := calls + [c];
            r := Err(CreateFailed(Join(components)));
            return;
          }
          AppendCallAssoc(calls, c, next.calls);
          calls := calls + [c];
        }
        i := i + 1;
      }
      assert ps[i - 1..] == [];
      r := OpenOutcome(zfsOpen(Join(components), DATASET), errno);
    }

    /** dispose: releases the live handle, if any, exactly once; afterwards the handle is null. */
    method Dispose() returns (released: Option<LibzfsHandle>)
      modifies this`handle
      ensures released == old(handle)
      ensures handle == None
    {
      released := None;
      if handle.Some? {
        released := handle;   // libzfs_fini(handle)
        handle := None;
      }
    }

    /** finalize: disposes, so after an explicit dispose it releases nothing. */
    method Finalize() returns (released: Option<LibzfsHandle>)
      modifies this`handle
      ensures released == old(handle) && handle == None
    {
      released := Dispose();
    }
  }
}
