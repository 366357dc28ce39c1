/**
 What the browser does with each result and request, told by the module variables and over runs: which login is
 accepted, when a session stays closed, which request leaves, and that neither the queue nor the refresh slot gets stuck.
 */
module BrowserAnswers {
  import opened Foundations
  import opened BrowserSession

  // --- What each boundary lets in ---

  predicate NoBegin(events: seq<Event>) {
    forall e | e in events :: !e.Begin?
  }

  predicate NoLoginOf(events: seq<Event>, epoch: nat) {
    forall e | e in events :: !(e.LoginResult? && e.epoch == epoch)
  }

  /** A session that waits for the credential login of its epoch. */
  predicate AwaitsLogin(s: Session, epoch: nat) {
    s.epoch == epoch && s.policy == CredentialRequired && s.held == None && s.subject == None
  }

  predicate ClosedForGood(s: Session, epoch: nat) {
    s.epoch == epoch && s.policy == SignedOut && s.held == None && s.subject == None
  }

  lemma {:induction false} StillAwaits(b: Browser, events: seq<Event>, epoch: nat)
    requires AwaitsLogin(b.session, epoch) && NoBegin(events) && NoLoginOf(events, epoch)
    ensures AwaitsLogin(Run(b, events).session, epoch)
  {
    if events != [] {
      var front, last := events[..|events| - 1], events[|events| - 1];
      assert last in events && forall e | e in front :: e in events;
      StillAwaits(b, front, epoch);
    }
  }

  lemma {:induction false} StaysClosed(b: Browser, events: seq<Event>, epoch: nat)
    requires ClosedForGood(b.session, epoch) && NoBegin(events)
    ensures ClosedForGood(Run(b, events).session, epoch)
  {
    if events != [] {
      var front, last := events[..|events| - 1], events[|events| - 1];
      assert last in events && forall e | e in front :: e in events;
      StaysClosed(b, front, epoch);
    }
  }

  /**
   After the boundary of a credential login, whatever else happens, the first login result of the new epoch is accepted:
   its token and its subject are held and restoring is open.
   */
  lemma FirstLoginIsAccepted(b: Browser, events: seq<Event>, token: nat, subject: Id)
    requires NoBegin(events) && NoLoginOf(events, b.session.epoch + 1)
    ensures
      var waiting := Run(Next(b, Begin(CredentialLogin)), events);
      var s := Next(waiting, LoginResult(token, b.session.epoch + 1, subject)).session;
      && AwaitsLogin(waiting.session, b.session.epoch + 1)
      && s == Session(
        Some(Held(token, b.session.epoch + 1, subject)), b.session.epoch + 1, Restore, Some(subject), waiting.session.slot)
  {
    StillAwaits(Next(b, Begin(CredentialLogin)), events, b.session.epoch + 1);
  }

  /** After a confirmed ending no run without a new boundary holds a token, binds a subject or leaves the signed-out state. */
  lemma EndedStaysSignedOut(b: Browser, events: seq<Event>)
    requires NoBegin(events)
    ensures ClosedForGood(Run(Next(b, Begin(ConfirmedEnding)), events).session, b.session.epoch + 1)
  {
    StaysClosed(Next(b, Begin(ConfirmedEnding)), events, b.session.epoch + 1);
  }

  /** Either boundary drops token, subject and slot, and leaves queue, refreshes and dispatched requests alone. */
  lemma BoundaryDropsTheSession(b: Browser, reason: Reason)
    ensures
      var after := Next(b, Begin(reason));
      && after.session.held == None && after.session.subject == None && after.session.slot == None
      && after.session.epoch == b.session.epoch + 1
      && after.attempts == b.attempts && after.tail == b.tail && after.refreshes == b.refreshes && after.sent == b.sent
  {
  }

  // --- Passive results ---

  predicate Binds(s: Session, subject: Id) {
    s.subject == None || s.subject == Some(subject)
  }

  /** An unsettled refresh of the current epoch behind an open gate: an own token is held, a foreign one closes the gate. */
  lemma RefreshResultTells(b: Browser, p: nat, token: nat, subject: Id)
    requires p < |b.refreshes| && !b.refreshes[p].settled
    requires b.refreshes[p].epoch == b.session.epoch && b.session.policy == Restore
    ensures
      var s := Next(b, RefreshResult(p, Some((token, subject)))).session;
      if Binds(b.session, subject)
      then s == Session(Some(Held(token, b.session.epoch, subject)), b.session.epoch, Restore, Some(subject), b.session.slot)
      else s == Session(None, b.session.epoch, IdentityChanged, b.session.subject, b.session.slot)
  {
  }

  /** A result about the own account in the current epoch binds or confirms its subject, or closes the gate. */
  lemma SubjectResultTells(b: Browser, subject: Id)
    requires b.session.policy == Restore
    ensures
      var s := Next(b, SubjectResult(subject, b.session.epoch)).session;
      && s.held == b.session.held && s.epoch == b.session.epoch && s.slot == b.session.slot
      && (if Binds(b.session, subject) then s.policy == Restore && s.subject == Some(subject)
          else s.policy == IdentityChanged && s.subject == b.session.subject)
  {
  }

  /** What the caller of each function is told. */
  lemma VerdictsTell(s: Session, token: nat, epoch: nat, subject: Id)
    ensures AcceptLogin(s, token, epoch, subject).1 <==> epoch == s.epoch && s.policy == CredentialRequired
    ensures SetToken(s, token, epoch, subject).1 <==> epoch == s.epoch && s.policy == Restore && Binds(s, subject)
    ensures
      var v := AssertSubject(s, subject, epoch).1;
      && (v == Obsolete <==> epoch != s.epoch)
      && (v == Fine <==> epoch == s.epoch && s.policy == Restore && Binds(s, subject))
      && (v == Changed <==>
            epoch == s.epoch && (s.policy == IdentityChanged || (s.policy == Restore && !Binds(s, subject))))
  {
  }

  /** Clearing drops the token and nothing else; requests then leave without a bearer. */
  lemma ClearTells(b: Browser, path: Path)
    ensures
      var after := Next(b, Clear);
      && after.session == Session(None, b.session.epoch, b.session.policy, b.session.subject, b.session.slot)
      && after.(session := b.session) == b
      && (GateOpen(b.session, path) ==> Next(after, Send(b.session.epoch, path)).sent == b.sent + [Dispatch(b.session.epoch, None)])
  {
  }

  predicate Alienated(s: Session, epoch: nat) {
    s.epoch == epoch && s.policy == IdentityChanged && s.held == None
  }

  lemma {:induction false} StaysAlienated(b: Browser, events: seq<Event>, epoch: nat)
    requires Alienated(b.session, epoch) && NoBegin(events)
    ensures Alienated(Run(b, events).session, epoch)
  {
    if events != [] {
      var front, last := events[..|events| - 1], events[|events| - 1];
      assert last in events && forall e | e in front :: e in events;
      StaysAlienated(b, front, epoch);
    }
  }

  /** Once a refresh has brought a foreign subject, no token is held again before the next boundary. */
  lemma ForeignRefreshClosesForGood(b: Browser, p: nat, token: nat, subject: Id, events: seq<Event>)
    requires p < |b.refreshes| && !b.refreshes[p].settled && NoBegin(events)
    requires b.refreshes[p].epoch == b.session.epoch && b.session.policy == Restore && !Binds(b.session, subject)
    ensures Alienated(Run(Next(b, RefreshResult(p, Some((token, subject)))), events).session, b.session.epoch)
  {
    RefreshResultTells(b, p, token, subject);
    StaysAlienated(Next(b, RefreshResult(p, Some((token, subject)))), events, b.session.epoch);
  }

  /** Within an epoch a held token is lost only to a clearing, to a newer result, or to a foreign subject. */
  lemma TokenIsLostOnlySo(b: Browser, e: Event)
    requires b.session.held.Some? && Next(b, e).session.held != b.session.held
    ensures e.Begin? || e.Clear? || (e.LoginResult? && b.session.policy == CredentialRequired)
      || (e.RefreshResult? && e.answer.Some? && b.session.policy == Restore)
  {
  }

  // --- Which requests leave ---

  predicate GateOpen(s: Session, path: Path) {
    path == LoginPath || path == PurposePath || s.policy == Restore
  }

  /** A request leaves exactly in its captured epoch and through its gate, with the token held at that moment. */
  lemma RequestLeavesExactlyWhen(b: Browser, epoch: nat, path: Path)
    ensures
      var after := Next(b, Send(epoch, path));
      after == if epoch == b.session.epoch && GateOpen(b.session, path)
        then b.(sent := b.sent + [Dispatch(epoch, b.session.held)]) else b
  {
  }

  /** A queued attempt whose turn it is runs exactly so, and is released otherwise; out of turn it keeps waiting. */
  lemma AttemptRunsExactlyWhen(b: Browser, i: nat, path: Path)
    requires Holds(b) && i < |b.attempts| && b.attempts[i].phase == Waiting
    ensures
      var after := Next(b, Wake(i, path));
      var runs := b.attempts[i].epoch == b.session.epoch && GateOpen(b.session, path);
      if i > 0 && b.attempts[i - 1].phase != Released then after == b
      else
        && after.attempts == b.attempts[i := b.attempts[i].(phase := if runs then Running else Released)]
        && after.sent == (if runs then b.sent + [Dispatch(b.session.epoch, b.session.held)] else b.sent)
        && after.session == b.session && after.tail == b.tail && after.refreshes == b.refreshes
  {
  }

  /** Before the awaited login is accepted and after a confirmed ending, no ordinary request leaves. */
  lemma ClosedGateSendsNothingOrdinary(b: Browser, events: seq<Event>, reason: Reason, e: Event)
    requires NoBegin(events) && NoLoginOf(events, b.session.epoch + 1)
    requires (e.Send? || e.Wake?) && e.path == OtherPath
    ensures
      var closed := Run(Next(b, Begin(reason)), events);
      Next(closed, e).sent == closed.sent
  {
    if reason == CredentialLogin {
      StillAwaits(Next(b, Begin(reason)), events, b.session.epoch + 1);
    } else {
      StaysClosed(Next(b, Begin(reason)), events, b.session.epoch + 1);
    }
  }

  // --- Nothing gets stuck ---

  predicate Outstanding(attempts: seq<Attempt>) {
    exists i :: 0 <= i < |attempts| && attempts[i].phase != Released
  }

  lemma {:induction false} FirstOutstanding(attempts: seq<Attempt>, from: nat) returns (i: nat)
    requires from <= |attempts| && Outstanding(attempts) && forall j | 0 <= j < from :: attempts[j].phase == Released
    ensures i < |attempts| && attempts[i].phase != Released && forall j | 0 <= j < i :: attempts[j].phase == Released
    decreases |attempts| - from
  {
    if attempts[from].phase != Released { i := from; } else { i := FirstOutstanding(attempts, from + 1); }
  }

  /** As long as an attempt is outstanding, one of them can be settled or woken, and that moves it. */
  lemma QueueGoesOn(b: Browser, path: Path) returns (i: nat)
    requires Holds(b) && Outstanding(b.attempts)
    ensures i < |b.attempts|
    ensures b.attempts[i].phase == Running ==> Next(b, Settle(i)).attempts == b.attempts[i := b.attempts[i].(phase := Released)]
    ensures b.attempts[i].phase != Running ==>
      b.attempts[i].phase == Waiting && Next(b, Wake(i, path)).attempts[i].phase in {Running, Released}
  {
    i := FirstOutstanding(b.attempts, 0);
    if b.attempts[i].phase == Waiting { AttemptRunsExactlyWhen(b, i, path); }
  }

  /** A refresh starts exactly in the current epoch, behind an open gate, with no slot of this epoch. */
  lemma RefreshStartsExactlyWhen(b: Browser, epoch: nat)
    requires Holds(b)
    ensures
      var after := Next(b, StartRefresh(epoch));
      if epoch == b.session.epoch && b.session.policy == Restore && b.session.slot == None
      then after == b.(refreshes := b.refreshes + [Refreshing(epoch, false)],
                       session := b.session.(slot := Some(Slot(epoch, |b.refreshes|))))
      else after == b
  {
  }

  /** A refresh that has settled frees the slot, if it still owns it, and then the next one starts. */
  lemma SettledRefreshMakesRoom(b: Browser)
    requires Holds(b) && b.session.slot.Some? && b.refreshes[b.session.slot.value.promise].settled
    requires b.session.policy == Restore
    ensures
      var freed := Next(b, ReleaseSlot(b.session.slot.value.promise));
      && freed.session == b.session.(slot := None)
      && |Next(freed, StartRefresh(b.session.epoch)).refreshes| == |b.refreshes| + 1
  {
  }

  /** A refresh settles once, and its result can no longer be heard afterwards. */
  lemma RefreshSettlesOnce(b: Browser, p: nat, answer: Option<(nat, Id)>, again: Option<(nat, Id)>)
    requires p < |b.refreshes|
    ensures Next(b, RefreshResult(p, answer)).refreshes[p].settled
    ensures
      var after := Next(b, RefreshResult(p, answer));
      Next(after, RefreshResult(p, again)) == after
  {
  }
}
