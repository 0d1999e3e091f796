/** Bounds the kernel shares between its parts (proc.h). */
module Limits {
  const MAX_PROCESSES := 10

  predicate IsPid(p: int) {
    1 <= p <= MAX_PROCESSES
  }
}
