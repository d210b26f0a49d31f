/** Windows on sequences. */
module Sequences {

  /** What is left when the oldest items beyond `n` are dropped. */
  function Newest<T>(items: seq<T>, n: nat): seq<T> {
    if |items| > n then items[|items| - n..] else items
  }
}
