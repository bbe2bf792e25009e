/** The dashboard's WebSocket reconnect counter (public/script.js,
    `initWebSocket`): a close schedules another attempt while fewer than
    five have been made, and a successful open resets the count. */
module Reconnect {

  import opened Collections

  const MaxReconnectAttempts: nat := 5

  /** What the connection reports. */
  datatype ConnEvent = Opened | Closed

  /** The counter after an event and whether a reconnect was scheduled. */
  datatype Step = Step(attempts: nat, reconnect: bool)

  /** `onopen` resets the count; `onclose` schedules one more attempt and
      counts it, unless five attempts have been made already. */
  function OnEvent(attempts: nat, e: ConnEvent): (s: Step)
    ensures attempts <= MaxReconnectAttempts ==> s.attempts <= MaxReconnectAttempts
    ensures e == Opened ==> s == Step(0, false)
    ensures e == Closed && attempts < MaxReconnectAttempts ==> s == Step(attempts + 1, true)
    ensures s.reconnect ==> e == Closed && s.attempts == attempts + 1
    ensures e == Closed && attempts >= MaxReconnectAttempts ==> !s.reconnect && s.attempts == attempts
  {
    match e
    case Opened => Step(0, false)
    case Closed =>
      if attempts < MaxReconnectAttempts then Step(attempts + 1, true) else Step(attempts, false)
  }

  /** The counter after a run of events. */
  function AttemptsAfter(attempts: nat, es: seq<ConnEvent>): nat
    decreases |es|
  {
    if es == [] then attempts else AttemptsAfter(OnEvent(attempts, es[0]).attempts, es[1..])
  }

  /** How many reconnects a run of events schedules. */
  function Reconnects(attempts: nat, es: seq<ConnEvent>): nat
    decreases |es|
  {
    if es == [] then 0
    else
      var s := OnEvent(attempts, es[0]);
      (if s.reconnect then 1 else 0) + Reconnects(s.attempts, es[1..])
  }

  /** Whatever happens, the counter never exceeds five. */
  lemma {:induction false} AttemptsBounded(attempts: nat, es: seq<ConnEvent>)
    requires attempts <= MaxReconnectAttempts
    ensures AttemptsAfter(attempts, es) <= MaxReconnectAttempts
    decreases |es|
  {
    if es != [] {
      AttemptsBounded(OnEvent(attempts, es[0]).attempts, es[1..]);
    }
  }

  /** Closes with no open between them schedule at most five reconnects in all,
      counted from the last reset. */
  lemma {:induction false} ClosesScheduleAtMostFive(attempts: nat, es: seq<ConnEvent>)
    requires attempts <= MaxReconnectAttempts
    requires forall i | 0 <= i < |es| :: es[i] == Closed
    ensures Reconnects(attempts, es) == Min(|es|, MaxReconnectAttempts - attempts)
    ensures AttemptsAfter(attempts, es) == Min(attempts + |es|, MaxReconnectAttempts)
    decreases |es|
  {
    if es != [] {
      ClosesScheduleAtMostFive(OnEvent(attempts, es[0]).attempts, es[1..]);
    }
  }
}
