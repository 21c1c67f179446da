/** 32-byte hashes, and the node two hashes make in a transaction tree. */
module Hashing {
  import opened LittleEndian

  type hash = h: seq<octet> | |h| == 32 witness ZeroBytes(32)

  /** sha256d of the 64-byte concatenation of two nodes */
  function Combine(left: hash, right: hash, sha256d: seq<octet> -> hash): hash
  {
    var pair: seq<octet> := left + right;
    sha256d(pair)
  }

  function Combiner(sha256d: seq<octet> -> hash): (hash, hash) -> hash
  {
    (left: hash, right: hash) => Combine(left, right, sha256d)
  }
}
