/**
 * ZFS dataset types and the type masks passed to the native library. A Java
 * `int` mask is modelled as a 32-bit vector; each type contributes one bit,
 * with the values of libzfs's zfs_type_t.
 */
module ZfsTypes {

  datatype ZFSType = Filesystem | Snapshot | Volume | Pool

  /** The native zfs_type_t bit of each type. */
  function Code(t: ZFSType): bv32
  {
    match t
    case Filesystem => 1
    case Snapshot => 2
    case Volume => 4
    case Pool => 8
  }

  const AllTypes: set<ZFSType> := {Filesystem, Snapshot, Volume, Pool}

  /** zfs_type_t.DATASET: file systems, snapshots and volumes. */
  const DATASET: bv32 := 7

  /**
   * Reference definition of the mask of a set of types: the OR of the codes
   * of its members, independent of any iteration order.
   */
  function MaskOf(s: set<ZFSType>): (mask: bv32)
    ensures forall t :: t in s <==> mask & Code(t) != 0
    ensures s == {} ==> mask == 0
    ensures mask & !15 == 0
  {
    (if Filesystem in s then Code(Filesystem) else 0) |
    (if Snapshot in s then Code(Snapshot) else 0) |
    (if Volume in s then Code(Volume) else 0) |
    (if Pool in s then Code(Pool) else 0)
  }

  /** The types whose bits are set in a mask. */
  function TypesIn(mask: bv32): set<ZFSType>
  {
    set t | t in AllTypes && mask & Code(t) != 0
  }

  /** A mask built from a set of types gives back exactly that set. */
  lemma MaskRoundTrip(s: set<ZFSType>)
    ensures TypesIn(MaskOf(s)) == s
  {
    forall t ensures t in TypesIn(MaskOf(s)) <==> t in s {
      assert t in AllTypes by { match t case Filesystem => case Snapshot => case Volume => case Pool => }
    }
  }

  /** Folding one more type into a mask ORs in its code. */
  lemma MaskOfInsert(s: set<ZFSType>, t: ZFSType)
    ensures MaskOf(s + {t}) == MaskOf(s) | Code(t)
  {
  }

  /** The single-type overload: the mask of a singleton is that type's code. */
  lemma MaskOfSingleton(t: ZFSType)
    ensures MaskOf({t}) == Code(t)
  {
  }

  /** The all-types overload checks every type bit, and DATASET is the non-pool types. */
  lemma MaskConstants()
    ensures MaskOf(AllTypes) == 15
    ensures MaskOf({Filesystem, Snapshot, Volume}) == DATASET
  {
  }
}
