/**
 * Migration flags: the named flags the code combines, and their values as bits of libvirt's
 * `virDomainMigrateFlags`, so that a flag set and the integer passed to libvirt determine
 * each other.
 */
module MigrateFlags {

  datatype Flag = Live | PeerToPeer | Tunnelled | PersistDest | UndefineSource | Unsafe

  /** The bit libvirt assigns to each flag. */
  function Bit(f: Flag): bv32 {
    match f
    case Live => 1
    case PeerToPeer => 2
    case Tunnelled => 4
    case PersistDest => 8
    case UndefineSource => 16
    case Unsafe => 512
  }

  /** `flags |= …` for each flag present. */
  function Encode(fs: set<Flag>): bv32 {
    (if Live in fs then 1 else 0)
    | (if PeerToPeer in fs then 2 else 0)
    | (if Tunnelled in fs then 4 else 0)
    | (if PersistDest in fs then 8 else 0)
    | (if UndefineSource in fs then 16 else 0)
    | (if Unsafe in fs then 512 else 0)
  }

  /** `flags & bit != 0`. */
  predicate HasBit(n: bv32, f: Flag) {
    n & Bit(f) != 0
  }

  /** Every flag the model names. */
  const AllFlags: set<Flag> := {Live, PeerToPeer, Tunnelled, PersistDest, UndefineSource, Unsafe}

  /** The flags whose bits are set in `n`. */
  function Decode(n: bv32): set<Flag> {
    set f: Flag | f in AllFlags && HasBit(n, f)
  }

  /** Testing a flag's bit in the encoded value tells whether the flag was in the set. */
  lemma HasBitEncode(fs: set<Flag>, f: Flag)
    ensures HasBit(Encode(fs), f) <==> f in fs
  {
    var n := Encode(fs);
    match f
    case Live => assert n & 1 == (if Live in fs then 1 else 0);
    case PeerToPeer => assert n & 2 == (if PeerToPeer in fs then 2 else 0);
    case Tunnelled => assert n & 4 == (if Tunnelled in fs then 4 else 0);
    case PersistDest => assert n & 8 == (if PersistDest in fs then 8 else 0);
    case UndefineSource => assert n & 16 == (if UndefineSource in fs then 16 else 0);
    case Unsafe => assert n & 512 == (if Unsafe in fs then 512 else 0);
  }

  /** Decoding undoes encoding: the integer carries exactly the requested flags. */
  lemma DecodeEncode(fs: set<Flag>)
    ensures Decode(Encode(fs)) == fs
  {
    var n := Encode(fs);
    forall f: Flag
      ensures f in Decode(n) <==> f in fs
    {
      HasBitEncode(fs, f);
      assert f in AllFlags;
    }
  }

  /** The fixed flags of the C migration paths: live, unsafe, undefine on source, persist on destination. */
  const UnsafeLiveMove: set<Flag> := {Live, Unsafe, UndefineSource, PersistDest}

  /** Their integer value is 1 + 512 + 16 + 8. */
  lemma UnsafeLiveMoveValue()
    ensures Encode(UnsafeLiveMove) == 537
    ensures !(PeerToPeer in UnsafeLiveMove) && !(Tunnelled in UnsafeLiveMove)
  {
  }
}
