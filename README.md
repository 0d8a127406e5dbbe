# LibZFS entry object: a Dafny model

This project models the deterministic logic of `LibZFS`, the Java entry object of libzfs4j.
The object wraps a native libzfs handle and reads its ABI feature settings when it is built.
It checks whether datasets exist, creates datasets together with their missing parents, opens datasets and releases the handle.

Every native call is an oracle whose result the model takes as given:

- `libzfs_init` becomes the `init` argument of `LibZFS.New`.
- `zfs_dataset_exists`, `zfs_create` and `zfs_open` become function-valued arguments (`ExistsOracle`, `CreateOracle`, `OpenOracle`).
- `libzfs_errno` becomes an `errno` argument.
- `libzfs_fini` becomes the handle that `Dispose` returns as released.

Java `null` is `Option.None`. A thrown exception is the `Err` side of a `Result`.
JVM system properties and the process environment are two `map<string, string>` arguments; a key that is missing reads as null.

- `Settings`: `getSetting` is the override chain "system property, then environment, then default".
  `ResolveFeatures` gives the two entries `initFeatures` stores:
  - `LIBZFS4J_ABI`, normalised to `"legacy"` or `"openzfs"`;
  - `LIBZFS4J_ABI_zfs_iter_snapshots`, which falls back to the normalised global mode.

  When `LIBZFS4J_ABI` is set in neither source, the code dereferences the null that `getSetting` returns, so construction fails with a `NullPointerException`.
  The model reports this as `NullPointer("LIBZFS4J_ABI")`.
  The comment at `LibZFS.java:75-76` says that an undefined setting means "legacy"; the class follows the code. "## Findings" records the gap and the intended resolution.
- `ZfsTypes`: dataset types and the 32-bit type mask. The mask is the OR of the members' codes, and decoding it gives back the set of types.
- `Datasets`: a dataset name is its sequence of `/`-separated components.
  `Prefixes` lists the names `create` visits, and `WalkPrefixes` describes which of them it creates and where it stops.
  `OpenOutcome` is the three-way result rule of `open`.
- `LibZfs`: the class `LibZFS`, with the fields `handle` and `features`, and its methods.

## Model

| member | source | states |
|---|---|---|
| Settings.GetSetting | src/main/java/org/jvnet/solaris/libzfs/LibZFS.java:105-116 | a system property wins even when an environment variable of the same key exists; otherwise the environment variable is used; the default is used only when both are absent |
| Settings.FirstDefinedPicksEarliest | src/main/java/org/jvnet/solaris/libzfs/LibZFS.java:108-116 | in an ordered chain of lookup sources, the earliest source that holds the key decides the value |
| Settings.FirstDefinedFallsBack | src/main/java/org/jvnet/solaris/libzfs/LibZFS.java:108-116 | when no source in the chain holds the key, the caller's default is returned |
| Settings.GetSettingIsFirstDefined | src/main/java/org/jvnet/solaris/libzfs/LibZFS.java:108-116 | getSetting equals the chain [system properties, environment] followed by the default |
| Settings.NormaliseAbi | src/main/java/org/jvnet/solaris/libzfs/LibZFS.java:89-97 | the global ABI mode is always "legacy" or "openzfs"; a recognised value is kept verbatim, and every other value becomes "legacy" |
| Settings.ResolveFeatures | src/main/java/org/jvnet/solaris/libzfs/LibZFS.java:84-103 | initialisation fails exactly when LIBZFS4J_ABI is in neither source; otherwise the map holds exactly the two keys LIBZFS4J_ABI and LIBZFS4J_ABI_zfs_iter_snapshots |
| Settings.UnsetAbiFails | src/main/java/org/jvnet/solaris/libzfs/LibZFS.java:89-91 | with LIBZFS4J_ABI set in neither source, feature initialisation fails with the null dereference |
| Settings.ResolveFeaturesIntendedSound | src/main/java/org/jvnet/solaris/libzfs/LibZFS.java:75-76 | the intended resolution, where an undefined global setting selects "legacy", never fails; it holds the same two keys, gives "legacy" when the setting is undefined, and agrees with the code whenever the code succeeds |
| Settings.AbiFeatureNormalised | src/main/java/org/jvnet/solaris/libzfs/LibZFS.java:89-98 | the stored global mode is "openzfs" exactly when the winning raw setting (property before environment) is "openzfs", and "legacy" for any other value |
| Settings.IterSnapshotsFeature | src/main/java/org/jvnet/solaris/libzfs/LibZFS.java:100-102 | the zfs_iter_snapshots entry is the property, else the environment variable, stored without validation; when neither is set it equals the stored global mode |
| ZfsTypes.MaskOf | src/main/java/org/jvnet/solaris/libzfs/LibZFS.java:192-196 | a type is in the set exactly when its code bit is set in the mask; the empty set gives 0; no bit outside the four type bits is set |
| ZfsTypes.MaskRoundTrip | src/main/java/org/jvnet/solaris/libzfs/LibZFS.java:192-198 | decoding the mask built from a set of types gives back that set |
| ZfsTypes.MaskOfInsert | src/main/java/org/jvnet/solaris/libzfs/LibZFS.java:194-196 | one loop step: folding one more type into the mask ORs in that type's code |
| ZfsTypes.MaskOfSingleton | src/main/java/org/jvnet/solaris/libzfs/LibZFS.java:211-213 | the mask of a single type is that type's code |
| ZfsTypes.MaskConstants | src/main/java/org/jvnet/solaris/libzfs/LibZFS.java:178-181 | the all-types mask is 15; file systems, snapshots and volumes together give the DATASET mask 7 |
| Datasets.Prefixes | src/main/java/org/jvnet/solaris/libzfs/LibZFS.java:251-254 | create visits one name per component after the pool, and the last visited name is the full dataset name |
| Datasets.PrefixesExtend | src/main/java/org/jvnet/solaris/libzfs/LibZFS.java:250-254 | create visits one name per component after the pool; the first is pool/child, each next name is the previous one plus "/" and one component, and the last is the full name |
| Datasets.PrefixesIncrease | src/main/java/org/jvnet/solaris/libzfs/LibZFS.java:251-254 | the visited names strictly increase in length |
| Datasets.PoolNotVisited | src/main/java/org/jvnet/solaris/libzfs/LibZFS.java:251-253 | the pool component on its own is never among the visited names, because each visited name is longer than it |
| Datasets.WalkPrefixes | src/main/java/org/jvnet/solaris/libzfs/LibZFS.java:253-260 | the create walk: a failed walk has issued at least one create (the last one); WalkCalls and WalkIsMissingThroughFailure state the rest of its behaviour |
| Datasets.WalkCalls | src/main/java/org/jvnet/solaris/libzfs/LibZFS.java:253-260 | every zfs_create call is for a visited name that did not exist, and uses the one type code and property list; every call before the last returned 0; the walk fails exactly when the last call returned nonzero |
| Datasets.WalkIsMissingThroughFailure | src/main/java/org/jvnet/solaris/libzfs/LibZFS.java:253-260 | the names created are exactly the missing ones, in visiting order, cut after the first failing create; the walk fails exactly when some missing name fails to create |
| Datasets.PoolNotCreated | src/main/java/org/jvnet/solaris/libzfs/LibZFS.java:251-260 | no zfs_create call is issued for the pool alone |
| Datasets.OpenOutcome | src/main/java/org/jvnet/solaris/libzfs/LibZFS.java:287-295 | null is returned exactly when zfs_open gives no handle and errno is 0; an error is raised exactly when there is no handle and errno is nonzero; a handle is returned as is |
| Datasets.PropertyList | src/main/java/org/jvnet/solaris/libzfs/LibZFS.java:243-248 | the property list has exactly the keys of the given properties, each with its given value, and is empty when the properties are null |
| LibZfs.LibZFS.constructor | src/main/java/org/jvnet/solaris/libzfs/LibZFS.java:118-119 | once libzfs_init has returned a handle, the object holds that handle and an empty features map |
| LibZfs.LibZFS.New | src/main/java/org/jvnet/solaris/libzfs/LibZFS.java:118-124 | a null libzfs_init result fails with a linkage error; an unset ABI setting fails with a null dereference; otherwise the new object holds the handle and exactly the resolved features |
| LibZfs.LibZFS.InitFeatures | src/main/java/org/jvnet/solaris/libzfs/LibZFS.java:84-103 | on success the features map becomes its old contents plus the resolved entries; on failure nothing is stored |
| LibZfs.LibZFS.GetFeature | src/main/java/org/jvnet/solaris/libzfs/LibZFS.java:80-82 | returns the stored value of a key, and null for a key that was never stored |
| LibZfs.LibZFS.Exists | src/main/java/org/jvnet/solaris/libzfs/LibZFS.java:192-200 | whatever order the set is iterated in, the native check receives the OR of the codes of the requested types |
| LibZfs.LibZFS.ExistsOfType | src/main/java/org/jvnet/solaris/libzfs/LibZFS.java:211-214 | the single-type check passes exactly that type's code |
| LibZfs.LibZFS.ExistsAny | src/main/java/org/jvnet/solaris/libzfs/LibZFS.java:178-181 | the untyped check passes the mask with all four type bits (15) |
| LibZfs.LibZFS.BuildPropertyList | src/main/java/org/jvnet/solaris/libzfs/LibZFS.java:243-248 | the property list holds exactly the given properties, and is empty when none are given |
| LibZfs.LibZFS.Create | src/main/java/org/jvnet/solaris/libzfs/LibZFS.java:241-264 | the zfs_create calls issued are those of the create walk; if the walk fails the result is an error naming the full dataset; otherwise it is the open outcome of the full name with the DATASET mask |
| LibZfs.LibZFS.Dispose | src/main/java/org/jvnet/solaris/libzfs/LibZFS.java:364-369 | releases the handle only when one is live and leaves the handle null; a second dispose releases nothing |
| LibZfs.LibZFS.Finalize | src/main/java/org/jvnet/solaris/libzfs/LibZFS.java:354-358 | finalisation disposes; after an explicit dispose it releases nothing again |

## Findings

| source | as written | input that shows it | evidently intended | confidence | as-written member | corrected member |
|---|---|---|---|---|---|---|
| src/main/java/org/jvnet/solaris/libzfs/LibZFS.java:90-91 | `getSetting("LIBZFS4J_ABI", null)` returns null when the key is neither a system property nor an environment variable, and `v.equals(...)` then throws `NullPointerException`, so `new LibZFS()` fails | no system property and no environment variable named `LIBZFS4J_ABI` | an undefined setting selects "legacy" (comment at lines 75-76); for example, read the setting with the default "legacy" | high (not executed) | Settings.UnsetAbiFails | Settings.ResolveFeaturesIntendedSound |

The class `LibZFS` keeps the behaviour as written: `New` fails with `NullPointer("LIBZFS4J_ABI")` in this case. `Settings.ResolveFeaturesIntended` is the corrected resolution that `ResolveFeaturesIntendedSound` is about.

## Left out

- Native calls are oracles: the model states nothing about what `libzfs_init`, `zfs_dataset_exists`, `zfs_create`, `zfs_open`, `libzfs_errno` or `libzfs_fini` do inside the library. The handle argument they receive is not modelled.
- `nvlist_t.alloc` and `put` are not modelled: the property list is a `map<string, string>` holding the given entries, with unique names.
- `roots`, `pools`, `children` and `descendants` are left out. They rely on native callbacks and on `ZFSFileSystem`, `ZFSPool` and `ZFSObject`, which are not part of this model.
- `getFileSystemByMountPoint` is left out. It depends on `java.io.File` path semantics and on mount-point lookups in classes that are not part of this model.
- `getPool` and `getHandle` are left out: each is a single native call or a field read with no logic of its own.
- `create(String, Class)` and `open(String, Class)` are left out. They depend on `ZFSType.fromType`, and `ZFSType.java` is not part of this model.
- The type codes 1, 2, 4 and 8 and the DATASET mask 7 follow libzfs's `zfs_type_t`; `ZFSType.java` and `zfs_type_t.java` are not part of this model.
- `open(name, mask)` is modelled by its outcome rule `OpenOutcome`. Wrapping a returned handle in a `ZFSObject` is not modelled: the handle itself is returned.
- The text of `ZFSException` messages is not modelled. Only the dataset name or errno the exception carries is kept.
- `synchronized` on `dispose` and the garbage collector's timing of `finalize` are not modelled: `Dispose` and `Finalize` are plain sequential methods.
- LibZfs.LibZFS.Create: the dataset name is given as a non-empty sequence of components, and the full name is taken to be the components joined with `/`. Java's `String.split("/")` is not modelled; for example, it drops trailing empty components.
- LibZfs.LibZFS.Create: for a name such as `"/"`, `split` gives no components, and `dirs[0]` at `LibZFS.java:252` then throws `ArrayIndexOutOfBoundsException`. `requires |components| > 0` excludes that case, so the model does not describe that exception.
- LibZfs.LibZFS.Create: the existence oracle is one fixed function for the whole call. Creating one name is assumed not to change whether a longer name exists, and concurrent outside changes to the pool are not modelled.
