/**
 The core's message queues: circular buffers of message pointers
 (src/tmx/TmxCore/src/PluginConnection.cpp).
 */
module Queues {

  const QUEUE_CAPACITY := 50

  /** A full buffer loses its oldest element. */
  function Pushed<T>(q: seq<T>, m: T): seq<T> {
    (if |q| == QUEUE_CAPACITY then q[1..] else q) + [m]
  }

  /** What a push must free first: the pointer it overwrites. */
  function FreedByPush<T>(q: seq<T>): seq<T> {
    if |q| == QUEUE_CAPACITY then [q[0]] else []
  }
}
