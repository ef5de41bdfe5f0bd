/** Accesses that may fail. */
module Faults {
  /** An access to a database or broker fails or not; none does where everything is reliable. */
  method Try(reliable: bool) returns (ok: bool)
    ensures reliable ==> ok
  {
    ok := *;
    ok := ok || reliable;
  }

  /** A worker is killed at some point or not; it never is where that cannot happen. */
  method Dies(mayDie: bool) returns (dead: bool)
    ensures dead ==> mayDie
  {
    dead := *;
    dead := dead && mayDie;
  }
}
