/** The status field shared by teacher accounts, courses and reviews, and the
    rule every admin approve or reject action follows: it is legal only from
    `Pending`, and `Approved` and `Rejected` are terminal. */
module Approval {
  import opened Common

  datatype Status = Pending | Approved | Rejected

  datatype Verdict = Approve | Reject

  /** The status a verdict moves a pending record to. */
  function Target(v: Verdict): (s: Status)
    ensures s != Pending
    ensures v == Approve <==> s == Approved
  {
    match v
    case Approve => Approved
    case Reject => Rejected
  }

  /** One admin action on a record in status `s`: the new status, or `None`
      when the action is refused (the 400 "is not pending approval" answer). */
  function Decide(s: Status, v: Verdict): (r: Option<Status>)
    ensures r.Some? <==> s == Pending
    ensures r.Some? ==> r.value == Target(v)
  {
    if s == Pending then Some(Target(v)) else None
  }

  /** The status after a series of admin actions, refused ones leaving it as it is. */
  function Replay(s: Status, vs: seq<Verdict>): (r: Status)
    ensures r == s || r == Approved || r == Rejected
    decreases |vs|
  {
    if vs == [] then s
    else
      var next := match Decide(s, vs[0]) case Some(t) => t case None => s;
      Replay(next, vs[1..])
  }

  /** Once decided, a status never changes again. */
  lemma {:induction false} TerminalStaysPut(s: Status, vs: seq<Verdict>)
    requires s != Pending
    ensures Replay(s, vs) == s
  {
    if vs != [] {
      TerminalStaysPut(s, vs[1..]);
    }
  }

  /** Whatever series of actions an admin takes on a pending record, only the
      first decides it: the status ends as that action's target. */
  lemma {:induction false} FirstVerdictWins(vs: seq<Verdict>)
    requires vs != []
    ensures Replay(Pending, vs) == Target(vs[0])
  {
    TerminalStaysPut(Target(vs[0]), vs[1..]);
  }
}
