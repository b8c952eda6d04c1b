/** Reservation statuses and the table of allowed transitions. */
module ReservationModel {

  datatype Status =
    | Pending
    | WaitingPayment
    | Confirmed
    | CheckedIn
    | CheckedOut
    | Completed
    | Expired
    | Cancelled
    | Failed

  datatype Verdict = Allowed | TerminalState | InvalidTransition

  const ALLOWED_TRANSITIONS: map<Status, seq<Status>> := map[
    Pending := [Confirmed],
    WaitingPayment := [Confirmed, Failed, Cancelled],
    Confirmed := [CheckedIn, Expired, Cancelled],
    CheckedIn := [CheckedOut],
    CheckedOut := [Completed]
  ]

  function ValidateTransition(from: Status, to: Status): Verdict {
    if from !in ALLOWED_TRANSITIONS then TerminalState
    else if to in ALLOWED_TRANSITIONS[from] then Allowed
    else InvalidTransition
  }

  predicate Edge(from: Status, to: Status) {
    ValidateTransition(from, to).Allowed?
  }

  /** The four statuses that keep a spot. */
  predicate Active(st: Status) {
    st.WaitingPayment? || st.Confirmed? || st.CheckedIn? || st.CheckedOut?
  }

  /** How many more status changes a reservation can undergo at most. */
  function Rank(st: Status): nat {
    match st
    case Pending => 4
    case WaitingPayment => 4
    case Confirmed => 3
    case CheckedIn => 2
    case CheckedOut => 1
    case _ => 0
  }

  /** The transition table in closed form: every edge lowers the rank, terminal
      statuses are exactly those of rank 0, and nothing leads back to waiting. */
  lemma EdgesDescend(from: Status, to: Status)
    ensures Edge(from, to) ==> Rank(to) < Rank(from) && !to.WaitingPayment? && !to.Pending?
    ensures ValidateTransition(from, to).TerminalState? <==> Rank(from) == 0
    ensures Edge(from, to) && Active(to) ==> Active(from) || from.Pending?
    ensures Edge(from, to) <==>
            || (to.Confirmed? && (from.Pending? || from.WaitingPayment?))
            || (to.Failed? && from.WaitingPayment?)
            || (to.Cancelled? && (from.WaitingPayment? || from.Confirmed?))
            || (to.CheckedIn? && from.Confirmed?)
            || (to.Expired? && from.Confirmed?)
            || (to.CheckedOut? && from.CheckedIn?)
            || (to.Completed? && from.CheckedOut?)
  {
    assert ALLOWED_TRANSITIONS[Pending] == [Confirmed];
    assert ALLOWED_TRANSITIONS[WaitingPayment] == [Confirmed, Failed, Cancelled];
    assert ALLOWED_TRANSITIONS[Confirmed] == [CheckedIn, Expired, Cancelled];
    assert ALLOWED_TRANSITIONS[CheckedIn] == [CheckedOut];
    assert ALLOWED_TRANSITIONS[CheckedOut] == [Completed];
  }
}
