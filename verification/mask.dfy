/** The logger mask of the HTTP access log (httpevents/mask.go): a 32-bit
    set of switches and a value builder that sets or toggles them. */
module Mask {

  /** LoggerMask, a uint32. */
  type LoggerMask = bv32

  const ReqHeader: LoggerMask := 1
  const ResHeader: LoggerMask := 2
  const Path: LoggerMask := 4
  const All: LoggerMask := 0xffff_ffff

  /** Each named switch is one bit of its own, and All holds them all. */
  lemma Switches()
    ensures ReqHeader & (ReqHeader - 1) == 0 && ResHeader & (ResHeader - 1) == 0 && Path & (Path - 1) == 0
    ensures ReqHeader & ResHeader == 0 && ReqHeader & Path == 0 && ResHeader & Path == 0
    ensures All & ReqHeader == ReqHeader && All & ResHeader == ResHeader && All & Path == Path
  {
  }

  /** LoggerMaskBuilder. Its methods take the builder by value: each
      returns a modified copy. */
  datatype LoggerMaskBuilder = LoggerMaskBuilder(mask: LoggerMask)
  {
    /** Exclude: toggles the bits of `m`; the other bits stay. */
    function Exclude(m: LoggerMask): (r: LoggerMaskBuilder)
      ensures r.mask & m == !mask & m
      ensures r.mask & !m == mask & !m
    {
      LoggerMaskBuilder(mask ^ m)
    }

    /** Include: sets the bits of `m`; the other bits stay. */
    function Include(m: LoggerMask): (r: LoggerMaskBuilder)
      ensures r.mask & m == m
      ensures r.mask & !m == mask & !m
    {
      LoggerMaskBuilder(mask | m)
    }

    function Build(): LoggerMask
    {
      mask
    }
  }

  /** NewLoggerMaskBuilder: every bit set. */
  function NewLoggerMaskBuilder(): (b: LoggerMaskBuilder)
    ensures b.Build() == All
  {
    LoggerMaskBuilder(All)
  }

  /** Including twice is including once. */
  lemma IncludeIdempotent(b: LoggerMaskBuilder, m: LoggerMask)
    ensures b.Include(m).Include(m) == b.Include(m)
  {
  }

  /** Excluding twice gives the mask back. */
  lemma ExcludeInvolutive(b: LoggerMaskBuilder, m: LoggerMask)
    ensures b.Exclude(m).Exclude(m) == b
  {
  }

  /** Excluding bits that are all off turns them on; excluding bits that
      are all on turns them off. */
  lemma ExcludeToggles(b: LoggerMaskBuilder, m: LoggerMask)
    ensures b.Build() & m == 0 ==> b.Exclude(m).Build() & m == m
    ensures b.Build() & m == m ==> b.Exclude(m).Build() & m == 0
  {
  }

  /** From a new builder, excluding clears exactly the bits of `m`, and
      including them again restores All. */
  lemma ExcludeFromNew(m: LoggerMask)
    ensures NewLoggerMaskBuilder().Exclude(m).Build() == All & !m
    ensures NewLoggerMaskBuilder().Exclude(m).Include(m).Build() == All
  {
  }
}
