/** The kill flag of a running algorithm (`_killed` in src/cong.h, and the parameter of that name elsewhere). */
module KillFlag {

  /** Another thread may set the flag at any moment, if it was given one. */
  method Killed(canKill: bool) returns (killed: bool)
    ensures killed ==> canKill
  {
    killed := *;
    killed := killed && canKill;
  }
}
