/** What the lists of the queues, the crossbar and the cache share. */
module Sequences {

  /** The sequence without its element k. */
  function Cut<T>(q: seq<T>, k: nat): seq<T>
    requires k < |q|
  {
    q[..k] + q[k + 1..]
  }
}
