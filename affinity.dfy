/** The affinity primitive: a core set is encoded as a 64-bit mask and handed to the
    kernel's sched_setaffinity on Linux; other platforms report failure.
    The kernel call itself is not modelled: its integer result is a parameter. */
module Affinity {
  import opened Common

  /** Width of the mask: the source passes a single `long` (8 bytes) to the kernel. */
  const MaskWidth: int := 64

  /** The 64-bit `long` mask, as its bits: element i is bit i (the bit of `1L << i`). */
  type Mask = s: seq<bool> | |s| == MaskWidth witness seq(64, _ => false)

  /** The platform the process runs on, as the source distinguishes it. */
  datatype Platform = Linux | Mac | OtherPlatform

  /** What one `pinThread` call did: its boolean answer and, when it reached the
      kernel, the mask it passed to sched_setaffinity. */
  datatype PinResult = PinResult(success: bool, syscallMask: Option<Mask>)

  /** The mask `0L`. */
  function ZeroMask(): (m: Mask)
    ensures forall i :: 0 <= i < MaskWidth ==> !m[i]
  {
    seq(MaskWidth, _ => false)
  }

  /** `mask | (1L << c)` */
  function SetBit(mask: Mask, c: int): (m: Mask)
    requires 0 <= c < MaskWidth
    ensures m[c] && forall i :: 0 <= i < MaskWidth && i != c ==> m[i] == mask[i]
  {
    mask[c := true]
  }

  /** The mask whose set bits are exactly the cores of `cores` in [0, 64). */
  function CpuMask(cores: set<int>): (m: Mask)
  {
    seq(MaskWidth, i => i in cores)
  }

  /** The cores of a set that a 64-bit mask can represent. */
  function Representable(cores: set<int>): (r: set<int>)
    ensures r <= cores
    ensures forall c :: c in r ==> 0 <= c < MaskWidth
  {
    set c | c in cores && 0 <= c < MaskWidth
  }

  /** `createCpuMask`: starts from 0 and ORs in `1L << c` for every core c with
      0 <= c < 64; other cores are skipped without complaint. */
  method CreateCpuMask(cores: set<int>) returns (mask: Mask)
    ensures mask == CpuMask(cores)
  {
    mask := ZeroMask();
    var rest := cores;
    while rest != {}
      invariant rest <= cores
      invariant forall i :: 0 <= i < MaskWidth ==> (mask[i] <==> i in cores && i !in rest)
      decreases rest
    {
      NonEmptyHasElement(rest);
      var c :| c in rest;
      if 0 <= c < MaskWidth {
        mask := SetBit(mask, c);
      }
      rest := rest - {c};
    }
    assert mask == CpuMask(cores) by {
      forall i | 0 <= i < MaskWidth
        ensures mask[i] == CpuMask(cores)[i]
      {
      }
    }
  }

  /** `parseCpuMask`: the indices of the set bits (BitSet.valueOf over the one long). */
  function ParseCpuMask(mask: Mask): (cores: set<int>)
    ensures forall c :: c in cores ==> 0 <= c < MaskWidth
  {
    set i | 0 <= i < MaskWidth && mask[i]
  }

  /** Bit c of the encoded mask is set exactly when c is one of the cores. */
  lemma CpuMaskBits(cores: set<int>, c: int)
    requires 0 <= c < MaskWidth
    ensures CpuMask(cores)[c] <==> c in cores
  {
  }

  /** Decoding an encoded set gives back exactly its representable cores: cores
      outside [0, 64) are lost. */
  lemma ParseOfMask(cores: set<int>)
    ensures ParseCpuMask(CpuMask(cores)) == Representable(cores)
  {
  }

  /** Every mask is the encoding of its decoded core set. */
  lemma MaskOfParse(mask: Mask)
    ensures CpuMask(ParseCpuMask(mask)) == mask
  {
    forall i | 0 <= i < MaskWidth
      ensures CpuMask(ParseCpuMask(mask))[i] == mask[i]
    {
    }
  }

  /** `pinThread`: an empty set is refused before anything else; otherwise the mask is
      computed and, on Linux only, passed to the kernel, whose result 0 means success.
      macOS and every other platform answer false without a kernel call. */
  function PinThread(cores: set<int>, platform: Platform, kernelResult: int): (r: PinResult)
    ensures r.success ==> r.syscallMask.Some?
    ensures r.syscallMask.Some? ==> r.syscallMask.value == CpuMask(cores)
  {
    if cores == {} then PinResult(false, None)
    else
      var mask := CpuMask(cores);
      match platform
      case Linux => PinResult(kernelResult == 0, Some(mask))
      case Mac => PinResult(false, None)
      case OtherPlatform => PinResult(false, None)
  }

  /** An empty core set is rejected without reaching the kernel. */
  lemma PinEmptyRefused(platform: Platform, kernelResult: int)
    ensures PinThread({}, platform, kernelResult) == PinResult(false, None)
  {
  }

  /** A pin succeeds exactly on Linux, with a non-empty set, when the kernel answers 0;
      the kernel is reached exactly on Linux with a non-empty set. */
  lemma PinSucceedsIff(cores: set<int>, platform: Platform, kernelResult: int)
    ensures PinThread(cores, platform, kernelResult).success
        <==> cores != {} && platform == Linux && kernelResult == 0
    ensures PinThread(cores, platform, kernelResult).syscallMask.Some?
        <==> cores != {} && platform == Linux
  {
  }

  /** A non-empty set with no core in [0, 64) is not rejected: the kernel receives the
      empty mask 0. */
  lemma PinOutOfRangePassesZeroMask(cores: set<int>, kernelResult: int)
    requires cores != {}
    requires forall c :: c in cores ==> !(0 <= c < MaskWidth)
    ensures PinThread(cores, Linux, kernelResult).syscallMask == Some(ZeroMask())
  {
    assert CpuMask(cores) == ZeroMask();
  }

  /** `getThreadAffinity`: the decoded kernel mask on Linux when sched_getaffinity
      answers 0, otherwise the empty set. */
  function GetThreadAffinity(platform: Platform, kernelResult: int, kernelMask: Mask): (cores: set<int>)
    ensures cores != {} ==> platform == Linux && kernelResult == 0
    ensures forall c :: c in cores ==> 0 <= c < MaskWidth
  {
    if platform == Linux && kernelResult == 0 then ParseCpuMask(kernelMask) else {}
  }

  /** The encoding read back: if the kernel stored exactly the mask `pinThread` hands
      it and `getThreadAffinity` then reports that mask, the answer is the representable
      part of the pinned set; for a set inside [0, 64) that is the set itself. Whether
      the kernel stores that mask is outside the model (see the README). */
  lemma PinThenGet(cores: set<int>)
    requires PinThread(cores, Linux, 0).success
    ensures GetThreadAffinity(Linux, 0, PinThread(cores, Linux, 0).syscallMask.value)
         == Representable(cores)
    ensures (forall c :: c in cores ==> 0 <= c < MaskWidth) ==>
            GetThreadAffinity(Linux, 0, PinThread(cores, Linux, 0).syscallMask.value) == cores
  {
    ParseOfMask(cores);
  }
}
