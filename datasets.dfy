/**
 * Dataset names, the walk over intermediate datasets that create performs,
 * and the outcome rule of open. A dataset name is given as its non-empty
 * sequence of `/`-separated components, the first being the pool.
 */
module Datasets {
  import opened Wrappers
  import opened ZfsErrors
  import opened ZfsTypes

  /** An opaque zfs_handle_t returned by zfs_open. */
  datatype ZfsHandle = ZfsHandle(address: nat)

  /** zfs_dataset_exists(handle, name, mask), as seen by the model. */
  type ExistsOracle = (string, bv32) -> bool

  /** zfs_create(handle, name, type, nvlist): its return code. */
  type CreateOracle = (string, bv32, map<string, string>) -> int

  /** zfs_open(handle, name, mask): a handle, or null. */
  type OpenOracle = (string, bv32) -> Option<ZfsHandle>

  /** One call to zfs_create: the dataset name, the type code and the property list. */
  datatype CreateCall = CreateCall(name: string, typeCode: bv32, props: map<string, string>)

  /** What the create walk did: the zfs_create calls issued, and whether the last one failed. */
  datatype Walk = Walk(calls: seq<CreateCall>, failed: bool)

  /** The name built by appending `/` and each further component to the first. */
  function Join(cs: seq<string>): string
    requires |cs| > 0
  {
    if |cs| == 1 then cs[0] else Join(cs[..|cs| - 1]) + "/" + cs[|cs| - 1]
  }

  /** The names create visits: every prefix of two or more components, shortest first. */
  function Prefixes(cs: seq<string>): (ps: seq<string>)
    requires |cs| > 0
    ensures |ps| == |cs| - 1
    ensures |cs| > 1 ==> ps[|ps| - 1] == Join(cs)
  {
    assert cs[..|cs|] == cs;
    seq(|cs| - 1, i requires 0 <= i < |cs| - 1 => Join(cs[..i + 2]))
  }

  lemma JoinExtend(cs: seq<string>, k: nat)
    requires 0 < k < |cs|
    ensures Join(cs[..k + 1]) == Join(cs[..k]) + "/" + cs[k]
  {
    assert cs[..k + 1][..k] == cs[..k];
  }

  /**
   * The visited names: the first is pool/child, each next one extends the
   * previous by one component, and the last is the full name.
   */
  lemma PrefixesExtend(cs: seq<string>)
    requires |cs| > 0
    ensures var ps := Prefixes(cs);
            && |ps| == |cs| - 1
            && (|cs| > 1 ==> ps[0] == cs[0] + "/" + cs[1] && ps[|ps| - 1] == Join(cs))
            && (forall i :: 0 < i < |ps| ==> ps[i] == ps[i - 1] + "/" + cs[i + 1])
  {
    var ps := Prefixes(cs);
    if |cs| > 1 {
      FirstPrefix(cs);
      assert ps[|ps| - 1] == Join(cs[..|cs|]);
      assert cs[..|cs|] == cs;
    }
    forall i | 0 < i < |ps| ensures ps[i] == ps[i - 1] + "/" + cs[i + 1] {
      assert ps[i] == Join(cs[..i + 2]) && ps[i - 1] == Join(cs[..i + 1]);
      JoinExtend(cs, i + 1);
    }
  }

  lemma FirstPrefix(cs: seq<string>)
    requires |cs| > 1
    ensures Join(cs[..2]) == cs[0] + "/" + cs[1]
  {
    JoinExtend(cs, 1);
    assert cs[..1] == [cs[0]];
  }

  /** The name visited after the (i-1)-th one: append `/` and component i. */
  lemma NextPrefix(cs: seq<string>, i: nat)
    requires 0 < i < |cs|
    ensures Prefixes(cs)[i - 1] == (if i == 1 then cs[0] else Prefixes(cs)[i - 2]) + "/" + cs[i]
  {
    if i == 1 {
      FirstPrefix(cs);
    } else {
      JoinExtend(cs, i);
    }
  }

  /** Prefixes are visited in strictly increasing length. */
  lemma {:induction false} PrefixesIncrease(cs: seq<string>, i: nat, j: nat)
    requires |cs| > 0
    requires i < j < |Prefixes(cs)|
    ensures |Prefixes(cs)[i]| < |Prefixes(cs)[j]|
  {
    PrefixesExtend(cs);
    if i < j - 1 {
      PrefixesIncrease(cs, i, j - 1);
    }
  }

  /** Each appended component adds at least one character (the separator). */
  lemma {:induction false} JoinLength(cs: seq<string>, k: nat)
    requires 0 < k <= |cs|
    ensures |Join(cs[..k])| >= |cs[0]| + k - 1
  {
    if k == 1 {
      assert cs[..1] == [cs[0]];
    } else {
      JoinExtend(cs, k - 1);
      JoinLength(cs, k - 1);
    }
  }

  /** The pool alone is never among the visited names: each is longer than it. */
  lemma PoolNotVisited(cs: seq<string>)
    requires |cs| > 0
    ensures cs[0] !in Prefixes(cs)
  {
    var ps := Prefixes(cs);
    forall i | 0 <= i < |ps| ensures |ps[i]| > |cs[0]| {
      JoinLength(cs, i + 2);
    }
  }

  /**
   * The create walk over the visited names: a name that already exists
   * (checked with every type bit set) is skipped; a missing one is created
   * with the given type code and property list; the first nonzero result
   * ends the walk.
   */
  function WalkPrefixes(ps: seq<string>, datasetExists: ExistsOracle,
                        zfsCreate: CreateOracle,
                        code: bv32, nvl: map<string, string>): (w: Walk)
    ensures w.failed ==> |w.calls| > 0
  {
    if ps == [] then Walk([], false)
    else if datasetExists(ps[0], MaskOf(AllTypes)) then
      WalkPrefixes(ps[1..], datasetExists, zfsCreate, code, nvl)
    else
      var c := CreateCall(ps[0], code, nvl);
      if zfsCreate(ps[0], code, nvl) != 0 then Walk([c], true)
      else
        var rest := WalkPrefixes(ps[1..], datasetExists, zfsCreate, code, nvl);
        Walk([c] + rest.calls, rest.failed)
  }

  /**
   * Every create call names a visited name that did not exist, with the same
   * type code and property list; every call but the last returned 0; the
   * walk failed exactly when the last call returned nonzero.
   */
  lemma {:induction false} WalkCalls(ps: seq<string>, datasetExists: ExistsOracle, zfsCreate: CreateOracle,
                                     code: bv32, nvl: map<string, string>)
    ensures var w := WalkPrefixes(ps, datasetExists, zfsCreate, code, nvl);
            && (forall i :: 0 <= i < |w.calls| ==>
                  && w.calls[i].name in ps
                  && !datasetExists(w.calls[i].name, MaskOf(AllTypes))
                  && w.calls[i].typeCode == code
                  && w.calls[i].props == nvl)
            && (forall i :: 0 <= i < |w.calls| - 1 ==> zfsCreate(w.calls[i].name, code, nvl) == 0)
            && (w.failed <==> |w.calls| > 0 && zfsCreate(w.calls[|w.calls| - 1].name, code, nvl) != 0)
  {
    if ps != [] {
      var w := WalkPrefixes(ps, datasetExists, zfsCreate, code, nvl);
      var w' := WalkPrefixes(ps[1..], datasetExists, zfsCreate, code, nvl);
      WalkCalls(ps[1..], datasetExists, zfsCreate, code, nvl);
      if !datasetExists(ps[0], MaskOf(AllTypes)) && zfsCreate(ps[0], code, nvl) == 0 {
        forall i | 0 < i < |w.calls| ensures w.calls[i] == w'.calls[i - 1] {}
      }
    }
  }

  lemma AppendCallAssoc(xs: seq<CreateCall>, c: CreateCall, ys: seq<CreateCall>)
    ensures xs + ([c] + ys) == (xs + [c]) + ys
  {
  }

  /** One step of the walk, taken from the k-th visited name. */
  lemma WalkStep(ps: seq<string>, k: nat, datasetExists: ExistsOracle, zfsCreate: CreateOracle,
                 code: bv32, nvl: map<string, string>)
    requires k < |ps|
    ensures var here := WalkPrefixes(ps[k..], datasetExists, zfsCreate, code, nvl);
            var next := WalkPrefixes(ps[k + 1..], datasetExists, zfsCreate, code, nvl);
            var c := CreateCall(ps[k], code, nvl);
            here == if datasetExists(ps[k], MaskOf(AllTypes)) then next
                    else if zfsCreate(ps[k], code, nvl) != 0 then Walk([c], true)
                    else Walk([c] + next.calls, next.failed)
  {
    assert ps[k..][0] == ps[k] && ps[k..][1..] == ps[k + 1..];
  }

  /** The names, in order, that do not yet exist. */
  function Missing(ps: seq<string>, datasetExists: ExistsOracle): seq<string>
  {
    if ps == [] then []
    else (if datasetExists(ps[0], MaskOf(AllTypes)) then [] else [ps[0]]) + Missing(ps[1..], datasetExists)
  }

  /** A sequence of names cut just after the first one whose creation fails. */
  function ThroughFirstFailure(names: seq<string>, zfsCreate: CreateOracle,
                               code: bv32, nvl: map<string, string>): seq<string>
  {
    if names == [] then []
    else if zfsCreate(names[0], code, nvl) != 0 then [names[0]]
    else [names[0]] + ThroughFirstFailure(names[1..], zfsCreate, code, nvl)
  }

  function Names(calls: seq<CreateCall>): seq<string>
  {
    if calls == [] then [] else [calls[0].name] + Names(calls[1..])
  }

  /**
   * The walk creates exactly the missing names, in visiting order, up to and
   * including the first whose creation fails; it fails exactly when some
   * missing name cannot be created.
   */
  lemma {:induction false} WalkIsMissingThroughFailure(ps: seq<string>, datasetExists: ExistsOracle,
                                                       zfsCreate: CreateOracle,
                                                       code: bv32, nvl: map<string, string>)
    ensures var w := WalkPrefixes(ps, datasetExists, zfsCreate, code, nvl);
            var m := Missing(ps, datasetExists);
            && Names(w.calls) == ThroughFirstFailure(m, zfsCreate, code, nvl)
            && (w.failed <==> exists i :: 0 <= i < |m| && zfsCreate(m[i], code, nvl) != 0)
  {
    if ps != [] {
      var w := WalkPrefixes(ps, datasetExists, zfsCreate, code, nvl);
      var m := Missing(ps, datasetExists);
      var m' := Missing(ps[1..], datasetExists);
      var w' := WalkPrefixes(ps[1..], datasetExists, zfsCreate, code, nvl);
      WalkIsMissingThroughFailure(ps[1..], datasetExists, zfsCreate, code, nvl);
      if datasetExists(ps[0], MaskOf(AllTypes)) {
        assert m == m';
      } else {
        assert m == [ps[0]] + m';
        var c := CreateCall(ps[0], code, nvl);
        if zfsCreate(ps[0], code, nvl) != 0 {
          assert Names(w.calls) == [ps[0]] + Names([]);
        } else {
          assert w.calls == [c] + w'.calls;
          assert ([c] + w'.calls)[1..] == w'.calls;
          assert m[1..] == m';
          if w'.failed {
            var i :| 0 <= i < |m'| && zfsCreate(m'[i], code, nvl) != 0;
            assert m[i + 1] == m'[i];
          }
          if w.failed {
            var i :| 0 <= i < |m| && zfsCreate(m[i], code, nvl) != 0;
            assert i > 0 && m'[i - 1] == m[i];
          }
        }
      }
    }
  }

  /** Neither is the pool alone ever created. */
  lemma PoolNotCreated(cs: seq<string>, datasetExists: ExistsOracle,
                       zfsCreate: CreateOracle,
                       code: bv32, nvl: map<string, string>)
    requires |cs| > 0
    ensures forall c :: c in WalkPrefixes(Prefixes(cs), datasetExists, zfsCreate, code, nvl).calls ==> c.name != cs[0]
  {
    PoolNotVisited(cs);
    WalkCalls(Prefixes(cs), datasetExists, zfsCreate, code, nvl);
  }

  /**
   * The open rule: a handle is wrapped; no handle with errno 0 means "no
   * such dataset" (null); no handle with a nonzero errno raises.
   */
  function OpenOutcome(h: Option<ZfsHandle>, errno: int): (r: Result<Option<ZfsHandle>, ZfsError>)
    ensures r == Ok(None) <==> h.None? && errno == 0
    ensures r.Err? <==> h.None? && errno != 0
    ensures r.Err? ==> r.error == OpenFailed(errno)
    ensures h.Some? ==> r == Ok(h)
  {
    if h.None? then
      if errno == 0 then Ok(None) else Err(OpenFailed(errno))
    else Ok(h)
  }

  /** The property list handed to zfs_create: empty when no properties are given. */
  function PropertyList(props: Option<map<string, string>>): (nvl: map<string, string>)
    ensures nvl.Keys == (if props.Some? then props.value.Keys else {})
    ensures props.Some? ==> forall k :: k in props.value ==> nvl[k] == props.value[k]
  {
    if props.Some? then props.value else map[]
  }
}
