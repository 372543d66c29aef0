/**
 What several parts of the player share.
 */
module Common {

  datatype Option<+T> = None | Some(value: T)

  /** The gap between audio, video and clock that is tolerated, in ms. */
  const AVSYNC_THRESHOLD: nat := 100

  /** A step in the time stamps from which on they count as a new timeline. */
  const DISCONTINUE_THRESHOLD: nat := 90 * 1000 * 60

  function Min(a: int, b: int): (m: int)
    ensures m <= a && m <= b && (m == a || m == b)
  {
    if a < b then a else b
  }
}
