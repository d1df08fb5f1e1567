/**
  The signer's token cache: the (token, extra, expiry) triple that each
  successful refresh replaces as a unit.
 */
module Signer {
  import opened ByteStrings

  /**
    time.Time as Unix seconds; Go's zero time.Time (January 1 of year 1,
    UTC) is this many seconds before the Unix epoch.
   */
  const ZeroTime: int := -62135596800

  datatype Credential = Credential(token: Bytes, extra: Bytes, expiredAt: int)

  /** The triple held before any refresh has succeeded. */
  const EmptyCredential := Credential([], [], ZeroTime)

  /** A signature can be made only with both a token and its extra value. */
  predicate Ready(c: Credential)
  {
    c.token != [] && c.extra != []
  }

  class CloudStoreSigner {
    var token: Bytes
    var extra: Bytes
    var expiredAt: int

    constructor ()
      ensures Get() == EmptyCredential
    {
      token, extra, expiredAt := [], [], ZeroTime;
    }

    /** The current triple (`get`). */
    function Get(): Credential
      reads this
    {
      Credential(token, extra, expiredAt)
    }

    /** `update`: replace the whole triple at once. */
    method Update(token: Bytes, extra: Bytes, expiredAt: int)
      modifies this
      ensures Get() == Credential(token, extra, expiredAt)
    {
      this.token, this.extra, this.expiredAt := token, extra, expiredAt;
    }
  }
}
