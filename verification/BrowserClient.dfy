/** The module variables of the browser client and the functions that reassign them. */
module BrowserClient {
  import opened Foundations
  import opened BrowserSession

  class ApiClient {
    var accessToken: Option<nat>
    var sessionEpoch: nat
    var restorePolicy: Policy
    var expectedSubjectId: Option<Id>
    var refreshSlot: Option<Slot>
    var attempts: seq<Attempt>
    var cookieTail: Option<nat>
    var refreshes: seq<Refreshing>
    ghost var held: Option<Held>
    ghost var sent: seq<Dispatch>

    constructor ()
      ensures Valid() && Snapshot() == FRESH_PAGE
    {
      accessToken, sessionEpoch, restorePolicy, expectedSubjectId, refreshSlot := None, 0, Restore, None, None;
      attempts, cookieTail, refreshes, held, sent := [], None, [], None, [];
    }

    ghost function Snapshot(): Browser
      reads this
    {
      Browser(Session(held, sessionEpoch, restorePolicy, expectedSubjectId, refreshSlot), attempts, cookieTail, refreshes, sent)
    }

    /** The stored token is the held one, and the state is one that BrowserSession describes. */
    ghost predicate Valid()
      reads this
    {
      Holds(Snapshot()) && accessToken == (match held case None => None case Some(h) => Some(h.token))
    }

    method BeginAuthSessionEpoch(reason: Reason) returns (epoch: nat)
      requires Valid()
      modifies this
      ensures Valid() && Snapshot() == Next(old(Snapshot()), Begin(reason)) && epoch == sessionEpoch
    {
      StepHolds(Snapshot(), Begin(reason));
      sessionEpoch := sessionEpoch + 1;
      accessToken, held := None, None;
      expectedSubjectId := None;
      refreshSlot := None;
      restorePolicy := if reason == CredentialLogin then CredentialRequired else SignedOut;
      epoch := sessionEpoch;
    }

    method AcceptCredentialLogin(token: nat, expectedEpoch: nat, subjectId: Id) returns (ok: bool)
      requires Valid()
      modifies this
      ensures Valid() && Snapshot() == Next(old(Snapshot()), LoginResult(token, expectedEpoch, subjectId))
      ensures ok <==> expectedEpoch == old(sessionEpoch) && old(restorePolicy) == CredentialRequired
      ensures ok ==> accessToken == Some(token) && expectedSubjectId == Some(subjectId)
    {
      StepHolds(Snapshot(), LoginResult(token, expectedEpoch, subjectId));
      if expectedEpoch != sessionEpoch {
        return false;
      }
      if restorePolicy != CredentialRequired {
        return false;
      }
      accessToken, held := Some(token), Some(Held(token, expectedEpoch, subjectId));
      expectedSubjectId := Some(subjectId);
      restorePolicy := Restore;
      ok := true;
    }

    /** setAccessToken, as the running refresh `promise` calls it with its own epoch. */
    method SetAccessToken(promise: nat, token: nat, subjectId: Id) returns (ok: bool)
      requires Valid() && promise < |refreshes| && !refreshes[promise].settled
      modifies this
      ensures Valid() && Snapshot() == Next(old(Snapshot()), RefreshResult(promise, Some((token, subjectId))))
      ensures ok ==> accessToken == Some(token) && expectedSubjectId == Some(subjectId)
      ensures ok <==> old(refreshes)[promise].epoch == sessionEpoch && restorePolicy == Restore
    {
      StepHolds(Snapshot(), RefreshResult(promise, Some((token, subjectId))));
      var expectedEpoch := refreshes[promise].epoch;
      refreshes := refreshes[promise := refreshes[promise].(settled := true)];
      if expectedEpoch != sessionEpoch {
        return false;
      }
      if restorePolicy != Restore {
        return false;
      }
      if expectedSubjectId != None && expectedSubjectId != Some(subjectId) {
        accessToken, held := None, None;
        restorePolicy := IdentityChanged;
        return false;
      }
      accessToken, held := Some(token), Some(Held(token, expectedEpoch, subjectId));
      expectedSubjectId := Some(subjectId);
      ok := true;
    }

    method AssertAuthSessionSubject(subjectId: Id, expectedEpoch: nat) returns (v: Verdict)
      requires Valid()
      modifies this
      ensures Valid() && Snapshot() == Next(old(Snapshot()), SubjectResult(subjectId, expectedEpoch))
      ensures v == Fine ==> expectedEpoch == sessionEpoch && expectedSubjectId == Some(subjectId) && restorePolicy == Restore
      ensures v == Obsolete <==> expectedEpoch != sessionEpoch
      ensures v == Changed <==> expectedEpoch == sessionEpoch && restorePolicy == IdentityChanged
    {
      StepHolds(Snapshot(), SubjectResult(subjectId, expectedEpoch));
      if expectedEpoch != sessionEpoch {
        return Obsolete;
      }
      if restorePolicy == IdentityChanged {
        return Changed;
      }
      if restorePolicy != Restore {
        return Reauthenticate;
      }
      if expectedSubjectId == None {
        expectedSubjectId := Some(subjectId);
        return Fine;
      }
      if expectedSubjectId != Some(subjectId) {
        restorePolicy := IdentityChanged;
        return Changed;
      }
      v := Fine;
    }

    /** The synchronous part of runAuthCookieRequest: the attempt becomes the tail, and an obsolete one releases at once. */
    method EnterCookieQueue(expectedEpoch: nat) returns (attempt: nat)
      requires Valid()
      modifies this
      ensures Valid() && Snapshot() == Next(old(Snapshot()), Enter(expectedEpoch))
      ensures attempt == |old(attempts)| && (attempts[attempt].phase == Waiting <==> expectedEpoch == sessionEpoch)
    {
      StepHolds(Snapshot(), Enter(expectedEpoch));
      attempt := |attempts|;
      var previous := cookieTail;
      cookieTail := Some(attempt);
      var phase := if expectedEpoch != sessionEpoch then Released else Waiting;
      attempts := attempts + [Attempt(expectedEpoch, previous, phase)];
    }

    /** Continuing behind a released predecessor: both checks again, then the dispatch with the token held now. */
    method ContinueCookieRequest(attempt: nat, path: Path) returns (bearer: Option<nat>, running: bool)
      requires Valid() && attempt < |attempts| && attempts[attempt].phase == Waiting && PreviousReleased(Snapshot(), attempt)
      modifies this
      ensures Valid() && Snapshot() == Next(old(Snapshot()), Wake(attempt, path))
      ensures running <==> attempts[attempt].phase == Running
      ensures running ==> attempts[attempt].epoch == sessionEpoch && bearer == accessToken
    {
      StepHolds(Snapshot(), Wake(attempt, path));
      var a := attempts[attempt];
      if a.epoch != sessionEpoch || !DispatchAllowed(restorePolicy, path) {
        attempts := attempts[attempt := a.(phase := Released)];
        return None, false;
      }
      attempts := attempts[attempt := a.(phase := Running)];
      sent := sent + [Dispatch(a.epoch, held)];
      return accessToken, true;
    }

    /** The decision of refreshAuthSession: join the slot of this epoch, or start the one refresh. */
    method RefreshAuthSession(expectedEpoch: nat) returns (promise: Option<nat>)
      requires Valid()
      modifies this
      ensures Valid() && Snapshot() == Next(old(Snapshot()), StartRefresh(expectedEpoch))
      ensures promise == None <==> expectedEpoch != sessionEpoch || restorePolicy != Restore
      ensures promise != None ==> refreshSlot == Some(Slot(expectedEpoch, promise.value)) && refreshes[promise.value].epoch == expectedEpoch
    {
      StepHolds(Snapshot(), StartRefresh(expectedEpoch));
      if expectedEpoch != sessionEpoch || restorePolicy != Restore {
        return None;
      }
      if refreshSlot != None && refreshSlot.value.epoch == expectedEpoch {
        return Some(refreshSlot.value.promise);
      }
      refreshes := refreshes + [Refreshing(expectedEpoch, false)];
      refreshSlot := Some(Slot(expectedEpoch, |refreshes| - 1));
      promise := Some(|refreshes| - 1);
    }

    method ReleaseRefreshSlot(candidate: nat)
      requires Valid() && candidate < |refreshes| && refreshes[candidate].settled
      modifies this
      ensures Valid() && Snapshot() == Next(old(Snapshot()), ReleaseSlot(candidate))
      ensures old(refreshSlot) != None && old(refreshSlot).value.promise != candidate ==> refreshSlot == old(refreshSlot)
    {
      StepHolds(Snapshot(), ReleaseSlot(candidate));
      if refreshSlot == None {
        return;
      }
      if refreshSlot.value.promise == candidate {
        refreshSlot := None;
      }
    }
  }
}
