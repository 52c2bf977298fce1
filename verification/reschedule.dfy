/**
 * Moving a session in time (`rescheduleJadwal`) and the tutor-substitution
 * protocol (`rescheduleTentor`, `approveRescheduleTentor`,
 * `rejectRescheduleTentor`).  Each refuses a session whose start lies
 * strictly before `now`; none looks at any table except the sessions (and,
 * for the approval, the tutors).
 */
module Reschedule {
  import opened Wrappers
  import opened Dates
  import opened Entities
  import opened Schedule

  /** The session has already started: its start lies strictly before `now`. */
  predicate Started(j: Session, now: Moment) {
    Before(SessionStart(j), now)
  }

  /** A session's stored weekday name agrees with its date. */
  predicate DayNameMatches(j: Session) {
    j.dayName == WeekdayNames[WeekdayOf(j.date)]
  }

  /** `rescheduleJadwal`: a session that has not started moves to `newDate` at `newTime`, renamed after its new weekday. */
  function RescheduleSession(s: State, id: Key, newDate: int, newTime: TimeOfDay, now: Moment)
    : (r: Result<State, Error>)
    ensures r.Success? <==> id in s.sessions && !Started(s.sessions[id], now)
    ensures id !in s.sessions ==> r == Failure(SessionNotFound)
    ensures r.Success? ==>
              && r.value.sessions.Keys == s.sessions.Keys
              && r.value.sessions[id].date == newDate
              && r.value.sessions[id].time == newTime
              && DayNameMatches(r.value.sessions[id])
              && r.value.sessions[id] == s.sessions[id].(date := newDate, time := newTime,
                                                         dayName := r.value.sessions[id].dayName)
              && (forall k :: k in s.sessions && k != id ==> r.value.sessions[k] == s.sessions[k])
              && r.value == s.(sessions := r.value.sessions)
  {
    if id !in s.sessions then Failure(SessionNotFound)
    else
      var j := s.sessions[id];
      if Started(j, now) then Failure(PastSession)
      else
        var j' := j.(date := newDate, time := newTime, dayName := WeekdayNames[WeekdayOf(newDate)]);
        Success(s.(sessions := s.sessions[id := j']))
  }

  /** `rescheduleTentor`: the tutor of a session that has not started asks to be replaced. */
  function RequestTutorChange(s: State, id: Key, now: Moment): (r: Result<State, Error>)
    ensures r.Success? <==> id in s.sessions && !Started(s.sessions[id], now)
    ensures id !in s.sessions ==> r == Failure(SessionNotFound)
    ensures r.Success? ==>
              && r.value.sessions.Keys == s.sessions.Keys
              && r.value.sessions[id].status == RescheduleRequest
              && r.value.sessions[id] == s.sessions[id].(status := r.value.sessions[id].status)
              && (forall k :: k in s.sessions && k != id ==> r.value.sessions[k] == s.sessions[k])
              && r.value == s.(sessions := r.value.sessions)
  {
    if id !in s.sessions then Failure(SessionNotFound)
    else
      var j := s.sessions[id];
      if Started(j, now) then Failure(PastSession)
      else Success(s.(sessions := s.sessions[id := j.(status := RescheduleRequest)]))
  }

  /**
   * `approveRescheduleTentor`: a pending tutor change is granted; the session
   * passes to `newTutor` and is `Absent` again.  The source assigns the tutor
   * before it checks the status, but the refusal throws before anything is
   * saved, so a refused approval changes nothing.
   */
  function ApproveTutorChange(s: State, id: Key, newTutor: Id, now: Moment): (r: Result<State, Error>)
    ensures r.Success? <==>
              && id in s.sessions && newTutor in s.tentors
              && !Started(s.sessions[id], now)
              && s.sessions[id].status == RescheduleRequest
    ensures id !in s.sessions ==> r == Failure(SessionNotFound)
    ensures id in s.sessions && newTutor !in s.tentors ==> r == Failure(TutorNotFound)
    ensures r.Success? ==>
              && r.value.sessions.Keys == s.sessions.Keys
              && r.value.sessions[id].status == Absent
              && r.value.sessions[id].tentorId == newTutor
              && r.value.sessions[id] == s.sessions[id].(tentorId := newTutor, status := r.value.sessions[id].status)
              && (forall k :: k in s.sessions && k != id ==> r.value.sessions[k] == s.sessions[k])
              && r.value == s.(sessions := r.value.sessions)
  {
    if id !in s.sessions then Failure(SessionNotFound)
    else if newTutor !in s.tentors then Failure(TutorNotFound)
    else
      var j := s.sessions[id];
      if Started(j, now) then Failure(PastSession)
      else if j.status != RescheduleRequest then Failure(NotRescheduleRequest)
      else Success(s.(sessions := s.sessions[id := j.(tentorId := newTutor, status := Absent)]))
  }

  /** `rejectRescheduleTentor`: a pending tutor change is refused; the session keeps its tutor and is `Absent` again. */
  function RejectTutorChange(s: State, id: Key, now: Moment): (r: Result<State, Error>)
    ensures r.Success? <==>
              && id in s.sessions
              && !Started(s.sessions[id], now)
              && s.sessions[id].status == RescheduleRequest
    ensures id !in s.sessions ==> r == Failure(SessionNotFound)
    ensures r.Success? ==>
              && r.value.sessions.Keys == s.sessions.Keys
              && r.value.sessions[id].status == Absent
              && r.value.sessions[id] == s.sessions[id].(status := r.value.sessions[id].status)
              && (forall k :: k in s.sessions && k != id ==> r.value.sessions[k] == s.sessions[k])
              && r.value == s.(sessions := r.value.sessions)
  {
    if id !in s.sessions then Failure(SessionNotFound)
    else
      var j := s.sessions[id];
      if Started(j, now) then Failure(PastSession)
      else if j.status != RescheduleRequest then Failure(NotRescheduleRequest)
      else Success(s.(sessions := s.sessions[id := j.(status := Absent)]))
  }

  /** A session that has started can no longer be moved, handed over or have its request settled. */
  lemma StartedSessionIsFrozen(s: State, id: Key, newDate: int, newTime: TimeOfDay,
                               newTutor: Id, now: Moment)
    requires id in s.sessions && Started(s.sessions[id], now)
    ensures RescheduleSession(s, id, newDate, newTime, now) == Failure(PastSession)
    ensures RequestTutorChange(s, id, now) == Failure(PastSession)
    ensures newTutor in s.tentors ==> ApproveTutorChange(s, id, newTutor, now) == Failure(PastSession)
    ensures RejectTutorChange(s, id, now) == Failure(PastSession)
  {
  }

  /** Rejecting a tutor change requested for an `Absent` session restores the state exactly. */
  lemma RejectUndoesRequest(s: State, id: Key, now: Moment)
    requires RequestTutorChange(s, id, now).Success?
    requires s.sessions[id].status == Absent
    ensures RejectTutorChange(RequestTutorChange(s, id, now).value, id, now) == Success(s)
  {
    var mid := RequestTutorChange(s, id, now).value;
    assert mid.sessions[id := s.sessions[id]] == s.sessions;
  }

  /** Requesting and approving a tutor change hands an `Absent` session to the new tutor and changes nothing else. */
  lemma ApprovedRequestHandsOver(s: State, id: Key, newTutor: Id, now: Moment)
    requires RequestTutorChange(s, id, now).Success?
    requires s.sessions[id].status == Absent && newTutor in s.tentors
    ensures ApproveTutorChange(RequestTutorChange(s, id, now).value, id, newTutor, now)
            == Success(s.(sessions := s.sessions[id := s.sessions[id].(tentorId := newTutor)]))
  {
    var mid := RequestTutorChange(s, id, now).value;
    var handed := s.sessions[id].(tentorId := newTutor);
    assert mid.sessions[id := handed] == s.sessions[id := handed];
  }

  /**
   * Moving a session and then moving it back, while neither position has
   * started, restores the state exactly, provided its stored weekday name
   * agreed with its date.
   */
  lemma RescheduleIsReversible(s: State, id: Key, newDate: int, newTime: TimeOfDay, now: Moment)
    requires RescheduleSession(s, id, newDate, newTime, now).Success?
    requires DayNameMatches(s.sessions[id])
    requires !Before(StartOf(newDate, newTime), now)
    ensures var j := s.sessions[id];
            RescheduleSession(RescheduleSession(s, id, newDate, newTime, now).value, id, j.date, j.time, now)
            == Success(s)
  {
    var j := s.sessions[id];
    var mid := RescheduleSession(s, id, newDate, newTime, now).value;
    assert mid.sessions[id := j] == s.sessions;
  }
}
