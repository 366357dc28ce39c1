/**
 The browser side of a session: the in-memory token, the credential epoch, the restore policy, the bound subject,
 the refresh slot and the queue of requests that change cookies, under any order of asynchronous completions.
 */
module BrowserSession {
  import opened Foundations

  datatype Policy = Restore | CredentialRequired | IdentityChanged | SignedOut

  datatype Reason = CredentialLogin | ConfirmedEnding

  /** The held token; the epoch and the subject it was accepted with are history, kept to state what holds. */
  datatype Held = Held(token: nat, epoch: nat, subject: Id)

  datatype Slot = Slot(epoch: nat, promise: nat)

  /** The module variables accessToken, sessionEpoch, restorePolicy, expectedSubjectId and refreshSlot. */
  datatype Session = Session(held: Option<Held>, epoch: nat, policy: Policy, subject: Option<Id>, slot: Option<Slot>)

  function BeginEpoch(s: Session, reason: Reason): Session {
    Session(None, s.epoch + 1, if reason == CredentialLogin then CredentialRequired else SignedOut, None, None)
  }

  function AcceptLogin(s: Session, token: nat, epoch: nat, subject: Id): (Session, bool) {
    if epoch != s.epoch || s.policy != CredentialRequired then (s, false)
    else (s.(held := Some(Held(token, epoch, subject)), subject := Some(subject), policy := Restore), true)
  }

  function SetToken(s: Session, token: nat, epoch: nat, subject: Id): (Session, bool) {
    if epoch != s.epoch || s.policy != Restore then (s, false)
    else if s.subject != None && s.subject != Some(subject) then (s.(held := None, policy := IdentityChanged), false)
    else (s.(held := Some(Held(token, epoch, subject)), subject := Some(subject)), true)
  }

  datatype Verdict = Fine | Obsolete | Changed | Reauthenticate

  function AssertSubject(s: Session, subject: Id, epoch: nat): (Session, Verdict) {
    if epoch != s.epoch then (s, Obsolete)
    else if s.policy == IdentityChanged then (s, Changed)
    else if s.policy != Restore then (s, Reauthenticate)
    else if s.subject == None then (s.(subject := Some(subject)), Fine)
    else if s.subject != Some(subject) then (s.(policy := IdentityChanged), Changed)
    else (s, Fine)
  }

  function ClearToken(s: Session): Session {
    s.(held := None)
  }

  // --- The cookie queue ---

  datatype Path = LoginPath | PurposePath | OtherPath

  predicate DispatchAllowed(p: Policy, path: Path) {
    path != OtherPath || p == Restore
  }

  /** A raw attempt behind the tail it found: it waits for that one, runs, and is released. */
  datatype Phase = Waiting | Running | Released

  datatype Attempt = Attempt(epoch: nat, previous: Option<nat>, phase: Phase)

  datatype Refreshing = Refreshing(epoch: nat, settled: bool)

  /** A request that left the browser, with the epoch it captured and the bearer attached to it. */
  datatype Dispatch = Dispatch(epoch: nat, bearer: Option<Held>)

  /** Attempts and refreshes are numbered in the order in which they start. */
  datatype Browser = Browser(
    session: Session, attempts: seq<Attempt>, tail: Option<nat>, refreshes: seq<Refreshing>, sent: seq<Dispatch>)

  datatype Event =
    | Begin(reason: Reason)
    | LoginResult(token: nat, epoch: nat, subject: Id)
    | SubjectResult(subject: Id, epoch: nat)
    | Clear
    | Enter(epoch: nat)
    | Wake(attempt: nat, path: Path)
    | Settle(attempt: nat)
    | Send(epoch: nat, path: Path)
    | StartRefresh(epoch: nat)
    | RefreshResult(promise: nat, answer: Option<(nat, Id)>)
    | ReleaseSlot(promise: nat)

  /** An attempt that is obsolete when it enters releases at once, without waiting for the tail it replaced. */
  function Entered(b: Browser, epoch: nat): Browser {
    b.(attempts := b.attempts + [Attempt(epoch, b.tail, if epoch == b.session.epoch then Waiting else Released)],
       tail := Some(|b.attempts|))
  }

  predicate PreviousReleased(b: Browser, i: nat)
    requires i < |b.attempts|
  {
    match b.attempts[i].previous
    case None => true
    case Some(p) => p < |b.attempts| && b.attempts[p].phase == Released
  }

  function Moved(b: Browser, i: nat, phase: Phase): Browser
    requires i < |b.attempts|
  {
    b.(attempts := b.attempts[i := b.attempts[i].(phase := phase)])
  }

  /** The rest of runAuthCookieRequest once the previous attempt is released: the epoch and the policy are checked again. */
  function Woken(b: Browser, i: nat, path: Path): Browser {
    if i >= |b.attempts| || b.attempts[i].phase != Waiting || !PreviousReleased(b, i) then b
    else if b.attempts[i].epoch != b.session.epoch || !DispatchAllowed(b.session.policy, path) then Moved(b, i, Released)
    else Moved(b, i, Running).(sent := b.sent + [Dispatch(b.attempts[i].epoch, b.session.held)])
  }

  function Started(b: Browser, epoch: nat): Browser {
    var s := b.session;
    if epoch != s.epoch || s.policy != Restore || (s.slot != None && s.slot.value.epoch == epoch) then b
    else b.(refreshes := b.refreshes + [Refreshing(epoch, false)], session := s.(slot := Some(Slot(epoch, |b.refreshes|))))
  }

  function Answered(b: Browser, promise: nat, answer: Option<(nat, Id)>): Browser {
    if promise >= |b.refreshes| || b.refreshes[promise].settled then b
    else
      var r := b.refreshes[promise];
      var session := match answer case None => b.session case Some(a) => SetToken(b.session, a.0, r.epoch, a.1).0;
      b.(refreshes := b.refreshes[promise := r.(settled := true)], session := session)
  }

  function SlotReleased(b: Browser, promise: nat): Browser {
    if promise < |b.refreshes| && b.refreshes[promise].settled && b.session.slot != None && b.session.slot.value.promise == promise
    then b.(session := b.session.(slot := None)) else b
  }

  function Next(b: Browser, e: Event): Browser {
    match e
    case Begin(reason) => b.(session := BeginEpoch(b.session, reason))
    case LoginResult(token, epoch, subject) => b.(session := AcceptLogin(b.session, token, epoch, subject).0)
    case SubjectResult(subject, epoch) => b.(session := AssertSubject(b.session, subject, epoch).0)
    case Clear => b.(session := ClearToken(b.session))
    case Enter(epoch) => Entered(b, epoch)
    case Wake(i, path) => Woken(b, i, path)
    case Settle(i) => if i < |b.attempts| && b.attempts[i].phase == Running then Moved(b, i, Released) else b
    case Send(epoch, path) =>
      if epoch == b.session.epoch && DispatchAllowed(b.session.policy, path)
      then b.(sent := b.sent + [Dispatch(epoch, b.session.held)]) else b
    case StartRefresh(epoch) => Started(b, epoch)
    case RefreshResult(promise, answer) => Answered(b, promise, answer)
    case ReleaseSlot(promise) => SlotReleased(b, promise)
  }

  function Run(b: Browser, events: seq<Event>): Browser {
    if events == [] then b else Next(Run(b, events[..|events| - 1]), events[|events| - 1])
  }

  const FRESH_PAGE: Browser := Browser(Session(None, 0, Restore, None, None), [], None, [], [])

  // --- The invariant ---

  /** A held token was accepted in this epoch for the bound subject; a closed epoch holds nothing. */
  predicate SessionHolds(s: Session) {
    && (s.held != None ==> s.held.value.epoch == s.epoch && s.subject == Some(s.held.value.subject))
    && (s.policy == CredentialRequired || s.policy == SignedOut ==> s.held == None && s.subject == None)
    && (s.policy == IdentityChanged ==> s.subject != None)
  }

  /** A held slot is of the current epoch, and an unsettled refresh of the current epoch holds the slot. */
  predicate SlotHolds(s: Session, refreshes: seq<Refreshing>) {
    && (s.slot != None ==>
          s.slot.value.epoch == s.epoch && s.slot.value.promise < |refreshes|
          && refreshes[s.slot.value.promise].epoch == s.epoch)
    && forall p | 0 <= p < |refreshes| ::
        refreshes[p].epoch <= s.epoch
        && (refreshes[p].epoch == s.epoch && !refreshes[p].settled ==> s.slot == Some(Slot(s.epoch, p)))
  }

  /** At most one refresh is in flight per epoch. */
  predicate SingleFlight(refreshes: seq<Refreshing>) {
    forall p, q | 0 <= p < q < |refreshes| && refreshes[p].epoch == refreshes[q].epoch :: refreshes[p].settled || refreshes[q].settled
  }

  /** A bearer was accepted in the epoch that its request captured. */
  predicate BearersHold(sent: seq<Dispatch>) {
    forall d | d in sent && d.bearer != None :: d.bearer.value.epoch == d.epoch
  }

  predicate LinksHold(attempts: seq<Attempt>, tail: Option<nat>) {
    && tail == (if attempts == [] then None else Some(|attempts| - 1))
    && forall i | 0 <= i < |attempts| :: attempts[i].previous == if i == 0 then None else Some(i - 1)
  }

  predicate Holds(b: Browser) {
    && SessionHolds(b.session) && SlotHolds(b.session, b.refreshes) && SingleFlight(b.refreshes)
    && BearersHold(b.sent) && LinksHold(b.attempts, b.tail)
  }

  lemma SessionStepHolds(b: Browser, e: Event)
    requires Holds(b)
    ensures SessionHolds(Next(b, e).session) && BearersHold(Next(b, e).sent)
  {
  }

  lemma SlotStepHolds(b: Browser, e: Event)
    requires Holds(b)
    ensures SlotHolds(Next(b, e).session, Next(b, e).refreshes)
  {
  }

  lemma FlightStepHolds(b: Browser, e: Event)
    requires Holds(b)
    ensures SingleFlight(Next(b, e).refreshes)
  {
  }

  lemma LinksStepHolds(b: Browser, e: Event)
    requires Holds(b)
    ensures LinksHold(Next(b, e).attempts, Next(b, e).tail)
  {
  }

  lemma StepHolds(b: Browser, e: Event)
    requires Holds(b)
    ensures Holds(Next(b, e))
  {
    SessionStepHolds(b, e);
    SlotStepHolds(b, e);
    FlightStepHolds(b, e);
    LinksStepHolds(b, e);
  }

  /** In every sequence of events the token, the subject, the slot, the bearers and the refreshes stay in order. */
  lemma {:induction false} RunHolds(b: Browser, events: seq<Event>)
    requires Holds(b)
    ensures Holds(Run(b, events))
  {
    if events != [] {
      RunHolds(b, events[..|events| - 1]);
      StepHolds(Run(b, events[..|events| - 1]), events[|events| - 1]);
    }
  }

  lemma FreshPageHolds()
    ensures Holds(FRESH_PAGE)
  {
  }

  // --- Within one epoch ---

  /** From credential-required to restore to identity-changed; signed-out is for good. */
  predicate PolicyReaches(p: Policy, q: Policy) {
    p == q || (p == CredentialRequired && q != SignedOut) || (p == Restore && q == IdentityChanged)
  }

  /** What one epoch may do to a session: the bound subject never changes, and the policy only moves on. */
  predicate MovesOn(s: Session, t: Session) {
    s.epoch <= t.epoch && (s.epoch == t.epoch ==> PolicyReaches(s.policy, t.policy) && (s.subject != None ==> t.subject == s.subject))
  }

  lemma StepMovesOn(b: Browser, e: Event)
    requires Holds(b)
    ensures MovesOn(b.session, Next(b, e).session)
  {
  }

  /** However the events are ordered, an epoch that is still current has kept its subject and only moved its policy on. */
  lemma {:induction false} EpochIsStable(b: Browser, events: seq<Event>)
    requires Holds(b)
    ensures MovesOn(b.session, Run(b, events).session)
  {
    if events != [] {
      EpochIsStable(b, events[..|events| - 1]);
      RunHolds(b, events[..|events| - 1]);
      StepMovesOn(Run(b, events[..|events| - 1]), events[|events| - 1]);
    }
  }

  function EpochOf(b: Browser, e: Event): Option<nat> {
    match e
    case LoginResult(_, epoch, _) => Some(epoch)
    case SubjectResult(_, epoch) => Some(epoch)
    case RefreshResult(p, _) => if p < |b.refreshes| then Some(b.refreshes[p].epoch) else None
    case _ => None
  }

  /** A result of another epoch changes neither token nor subject nor policy nor slot. */
  lemma StaleResultsAreInert(b: Browser, e: Event)
    requires EpochOf(b, e) != None && EpochOf(b, e) != Some(b.session.epoch)
    ensures Next(b, e).session == b.session
  {
  }

  /** A passive result never opens a closed gate; only an explicit login of the required epoch does. */
  lemma OnlyLoginOpensTheGate(b: Browser, e: Event)
    requires b.session.policy != Restore && Next(b, e).session.policy == Restore
    ensures e.LoginResult? && e.epoch == b.session.epoch && b.session.policy == CredentialRequired
    ensures Next(b, e).session.subject == Some(e.subject)
  {
  }

  /** Releasing the slot of an older attempt never clears the slot of a newer one. */
  lemma ReleaseOnlyFreesItsOwnSlot(b: Browser, promise: nat)
    ensures SlotReleased(b, promise).session.slot == b.session.slot || b.session.slot == Some(Slot(b.session.slot.value.epoch, promise))
  {
  }

  // --- The order of the cookie queue ---

  /** Before an attempt has left the queue, all earlier ones have been released. */
  predicate InOrder(attempts: seq<Attempt>) {
    forall i, j | 0 <= i < j < |attempts| && attempts[j].phase != Waiting :: attempts[i].phase == Released
  }

  predicate AllReleased(attempts: seq<Attempt>) {
    forall i | 0 <= i < |attempts| :: attempts[i].phase == Released
  }

  /** An entry keeps the order exactly when its epoch is current, or when nothing is outstanding. */
  lemma EntryKeepsOrderExactlyWhen(b: Browser, epoch: nat)
    requires InOrder(b.attempts)
    ensures InOrder(Entered(b, epoch).attempts) <==> epoch == b.session.epoch || AllReleased(b.attempts)
  {
    var more := Entered(b, epoch).attempts;
    if InOrder(more) && epoch != b.session.epoch {
      forall i | 0 <= i < |b.attempts| ensures b.attempts[i].phase == Released {
        assert more[|b.attempts|].phase != Waiting && more[i] == b.attempts[i];
      }
    }
  }

  lemma WakingKeepsOrder(b: Browser, i: nat, path: Path)
    requires LinksHold(b.attempts, b.tail) && InOrder(b.attempts)
    ensures InOrder(Woken(b, i, path).attempts)
  {
    if i < |b.attempts| && b.attempts[i].phase == Waiting && PreviousReleased(b, i) {
      forall k | 0 <= k < i ensures b.attempts[k].phase == Released {
        if k < i - 1 { assert b.attempts[i - 1].phase != Waiting; }
      }
    }
  }

  /** Whether each entry of a run happens in its captured epoch, or with nothing outstanding. */
  predicate EntersProperly(b: Browser, events: seq<Event>) {
    events == [] ||
    var front, last := events[..|events| - 1], events[|events| - 1];
    EntersProperly(b, front)
    && (last.Enter? ==> last.epoch == Run(b, front).session.epoch || AllReleased(Run(b, front).attempts))
  }

  /**
   Mutual exclusion and order of cookie-changing requests: when every attempt enters in its captured epoch, an attempt
   starts only after all earlier ones have ended, so they run one at a time in the order in which they entered.
   */
  lemma {:induction false} AttemptsRunInOrder(b: Browser, events: seq<Event>)
    requires Holds(b) && InOrder(b.attempts) && EntersProperly(b, events)
    ensures InOrder(Run(b, events).attempts)
  {
    if events != [] {
      var front, last := events[..|events| - 1], events[|events| - 1];
      var r := Run(b, front);
      AttemptsRunInOrder(b, front);
      RunHolds(b, front);
      match last
      case Enter(epoch) => EntryKeepsOrderExactlyWhen(r, epoch);
      case Wake(i, path) => WakingKeepsOrder(r, i, path);
      case Settle(i) => if i < |r.attempts| && r.attempts[i].phase == Running { SettlingKeepsOrder(r, i); }
      case _ =>
    }
  }

  lemma SettlingKeepsOrder(b: Browser, i: nat)
    requires InOrder(b.attempts) && i < |b.attempts| && b.attempts[i].phase == Running
    ensures InOrder(Moved(b, i, Released).attempts)
  {
  }

  lemma NeverTwoAtOnce(attempts: seq<Attempt>, i: nat, j: nat)
    requires InOrder(attempts) && i < |attempts| && j < |attempts| && attempts[i].phase == Running && attempts[j].phase == Running
    ensures i == j
  {
  }

  /** Without that condition the order is lost and two requests can run at once: a concrete run. */
  lemma ObsoleteEntryLetsTwoRun()
    ensures
      var events := [Enter(0), Wake(0, LoginPath), Begin(CredentialLogin), Enter(0), Enter(1), Wake(2, LoginPath)];
      var attempts := Run(FRESH_PAGE, events).attempts;
      |attempts| == 3 && attempts[0].phase == Running && attempts[2].phase == Running
  {
    var events := [Enter(0), Wake(0, LoginPath), Begin(CredentialLogin), Enter(0), Enter(1), Wake(2, LoginPath)];
    var b1 := RunStep(FRESH_PAGE, events, 0);
    var b2 := RunStep(FRESH_PAGE, events, 1);
    var b3 := RunStep(FRESH_PAGE, events, 2);
    var b4 := RunStep(FRESH_PAGE, events, 3);
    var b5 := RunStep(FRESH_PAGE, events, 4);
    var b6 := RunStep(FRESH_PAGE, events, 5);
    assert events[..6] == events && events[..0] == [];
  }

  lemma RunStep(b: Browser, events: seq<Event>, i: nat) returns (after: Browser)
    requires i < |events|
    ensures after == Run(b, events[..i + 1]) == Next(Run(b, events[..i]), events[i])
  {
    assert events[..i + 1][..i] == events[..i];
    after := Run(b, events[..i + 1]);
  }

  // --- Exactly when two cookie-changing requests can overlap ---

  predicate TwoRunning(attempts: seq<Attempt>) {
    exists i, j :: 0 <= i < j < |attempts| && attempts[i].phase == Running && attempts[j].phase == Running
  }

  /** An outstanding attempt that can only be released any more. */
  predicate Hopeless(a: Attempt, epoch: nat) {
    a.phase == Waiting && a.epoch != epoch
  }

  predicate Past(a: Attempt, epoch: nat) {
    a.phase == Released || Hopeless(a, epoch)
  }

  /** Before an attempt that has left the queue there are only released ones and hopeless ones. */
  predicate NoneOvertaken(attempts: seq<Attempt>, epoch: nat) {
    && (forall i | 0 <= i < |attempts| && attempts[i].phase == Waiting :: attempts[i].epoch <= epoch)
    && forall i, j | 0 <= i < j < |attempts| && attempts[j].phase != Waiting :: Past(attempts[i], epoch)
  }

  predicate Safe(b: Browser) {
    NoneOvertaken(b.attempts, b.session.epoch)
  }

  /** The entry is current, or every outstanding attempt is hopeless. */
  predicate ProperEntry(b: Browser, epoch: nat) {
    epoch == b.session.epoch || forall i | 0 <= i < |b.attempts| :: Past(b.attempts[i], b.session.epoch)
  }

  lemma SafeNeverTwo(b: Browser)
    requires Safe(b)
    ensures !TwoRunning(b.attempts)
  {
  }

  lemma SafeEntry(b: Browser, epoch: nat)
    requires Safe(b) && ProperEntry(b, epoch)
    ensures Safe(Entered(b, epoch))
  {
  }

  lemma SafeWake(b: Browser, i: nat, path: Path)
    requires LinksHold(b.attempts, b.tail) && Safe(b)
    ensures Safe(Woken(b, i, path))
  {
    if i < |b.attempts| && b.attempts[i].phase == Waiting && PreviousReleased(b, i) {
      forall k | 0 <= k < i ensures Past(b.attempts[k], b.session.epoch) {
        if k < i - 1 { assert b.attempts[i - 1].phase != Waiting; }
      }
    }
  }

  lemma SafeStep(b: Browser, e: Event)
    requires Holds(b) && Safe(b) && (e.Enter? ==> ProperEntry(b, e.epoch))
    ensures Safe(Next(b, e))
  {
    match e
    case Enter(epoch) => SafeEntry(b, epoch);
    case Wake(i, path) => SafeWake(b, i, path);
    case _ =>
  }

  /** Every entry of the run is proper when it happens. */
  predicate EntersSafely(b: Browser, events: seq<Event>) {
    events == [] ||
    var front, last := events[..|events| - 1], events[|events| - 1];
    EntersSafely(b, front) && (last.Enter? ==> ProperEntry(Run(b, front), last.epoch))
  }

  /** Over every run of proper entries no two cookie-changing requests ever run at once. */
  lemma {:induction false} ProperEntriesNeverOverlap(b: Browser, events: seq<Event>)
    requires Holds(b) && Safe(b) && EntersSafely(b, events)
    ensures Holds(Run(b, events)) && Safe(Run(b, events)) && !TwoRunning(Run(b, events).attempts)
  {
    if events != [] {
      var front, last := events[..|events| - 1], events[|events| - 1];
      ProperEntriesNeverOverlap(b, front);
      StepHolds(Run(b, front), last);
      SafeStep(Run(b, front), last);
    }
    SafeNeverTwo(Run(b, events));
  }

  lemma RunGrows(b: Browser, events: seq<Event>, e: Event)
    ensures Run(b, events + [e]) == Next(Run(b, events), e)
    ensures EntersSafely(b, events + [e]) <==>
      EntersSafely(b, events) && (e.Enter? ==> ProperEntry(Run(b, events), e.epoch))
  {
    assert (events + [e])[..|events|] == events;
  }

  lemma RunWakes(b: Browser, events: seq<Event>, i: nat)
    requires EntersSafely(b, events)
    ensures EntersSafely(b, events + [Wake(i, LoginPath)])
    ensures Run(b, events + [Wake(i, LoginPath)]) == Woken(Run(b, events), i, LoginPath)
  {
    RunGrows(b, events, Wake(i, LoginPath));
  }

  lemma RunEnters(b: Browser, events: seq<Event>)
    requires EntersSafely(b, events)
    ensures
      var e := Enter(Run(b, events).session.epoch);
      EntersSafely(b, events + [e]) && Run(b, events + [e]) == Entered(Run(b, events), e.epoch)
  {
    RunGrows(b, events, Enter(Run(b, events).session.epoch));
  }

  /** The same browser, except that its first k attempts have been released. */
  predicate Freed(b: Browser, after: Browser, k: nat)
    requires k <= |b.attempts|
  {
    && after.session == b.session && after.tail == b.tail && |after.attempts| == |b.attempts|
    && (forall i | 0 <= i < k :: after.attempts[i].phase == Released)
    && (forall i | k <= i < |b.attempts| :: after.attempts[i] == b.attempts[i])
    && LinksHold(after.attempts, after.tail)
  }

  lemma WakeFrees(b: Browser, after: Browser, k: nat)
    requires k < |b.attempts| && Freed(b, after, k) && Past(b.attempts[k], b.session.epoch)
    ensures Freed(b, Woken(after, k, LoginPath), k + 1)
  {
  }

  lemma FreeOneMore(b: Browser, front: seq<Event>, k: nat)
    requires k < |b.attempts| && EntersSafely(b, front) && Freed(b, Run(b, front), k) && Past(b.attempts[k], b.session.epoch)
    ensures EntersSafely(b, front + [Wake(k, LoginPath)]) && Freed(b, Run(b, front + [Wake(k, LoginPath)]), k + 1)
  {
    WakeFrees(b, Run(b, front), k);
    RunWakes(b, front, k);
  }

  lemma NothingFreed(b: Browser)
    requires LinksHold(b.attempts, b.tail)
    ensures EntersSafely(b, []) && Freed(b, Run(b, []), 0)
  {
  }

  predicate AllPast(b: Browser, k: nat)
    requires k <= |b.attempts|
  {
    forall i | 0 <= i < k :: Past(b.attempts[i], b.session.epoch)
  }

  /** Attempts that are all past can be released one after the other. */
  lemma {:induction false} PastCanBeFreed(b: Browser, k: nat) returns (events: seq<Event>)
    requires LinksHold(b.attempts, b.tail) && k <= |b.attempts| && AllPast(b, k)
    ensures EntersSafely(b, events) && Freed(b, Run(b, events), k)
  {
    if k == 0 {
      NothingFreed(b);
      events := [];
    } else {
      var front := PastCanBeFreed(b, k - 1);
      FreeOneMore(b, front, k - 1);
      events := front + [Wake(k - 1, LoginPath)];
    }
  }

  /** The first outstanding attempt that may still run. */
  lemma {:induction false} FirstHopeful(attempts: seq<Attempt>, epoch: nat, from: nat) returns (x: nat)
    requires from <= |attempts| && forall i | 0 <= i < from :: Past(attempts[i], epoch)
    requires !forall i | 0 <= i < |attempts| :: Past(attempts[i], epoch)
    ensures x < |attempts| && !Past(attempts[x], epoch) && forall i | 0 <= i < x :: Past(attempts[i], epoch)
    decreases |attempts| - from
  {
    if !Past(attempts[from], epoch) { x := from; } else { x := FirstHopeful(attempts, epoch, from + 1); }
  }

  /** Behind an improper entry: first the hopeful attempt runs, and then so does one that enters now. */
  lemma LastStepsOverlap(b: Browser, x: nat)
    requires LinksHold(b.attempts, b.tail) && x < |b.attempts| - 1
    requires !Past(b.attempts[x], b.session.epoch) && (forall i | 0 <= i < x :: b.attempts[i].phase == Released)
    requires b.attempts[|b.attempts| - 1].phase == Released
    ensures
      var m := |b.attempts|;
      var woken := Woken(b, x, LoginPath);
      var entered := Entered(woken, b.session.epoch);
      var after := Woken(entered, m, LoginPath);
      && woken.session == entered.session == b.session
      && |after.attempts| == m + 1 && after.attempts[x].phase == Running && after.attempts[m].phase == Running
  {
  }

  lemma HopefulBehindEntry(b: Browser, epoch: nat) returns (x: nat)
    requires Safe(b) && !ProperEntry(b, epoch)
    ensures
      var start := Entered(b, epoch);
      && x < |start.attempts| - 1 == |b.attempts| && start.attempts[|b.attempts|].phase == Released
      && !Past(start.attempts[x], start.session.epoch) && forall i | 0 <= i < x :: Past(start.attempts[i], start.session.epoch)
  {
    x := FirstHopeful(b.attempts, b.session.epoch, 0);
  }

  lemma RunningTwice(attempts: seq<Attempt>, i: nat, j: nat)
    requires i < j < |attempts| && attempts[i].phase == Running && attempts[j].phase == Running
    ensures TwoRunning(attempts)
  {
  }

  /** After an improper entry there is a run of proper entries that ends with two requests running at once. */
  lemma ImproperEntryCanOverlap(b: Browser, epoch: nat) returns (events: seq<Event>)
    requires Holds(b) && Safe(b) && !ProperEntry(b, epoch)
    ensures EntersSafely(Entered(b, epoch), events) && TwoRunning(Run(Entered(b, epoch), events).attempts)
  {
    var start := Entered(b, epoch);
    var x := HopefulBehindEntry(b, epoch);
    StepHolds(b, Enter(epoch));
    var front := PastCanBeFreed(start, x);
    events := OverlapFrom(start, front, x);
  }

  lemma OverlapFrom(start: Browser, front: seq<Event>, x: nat) returns (events: seq<Event>)
    requires x < |start.attempts| - 1 && EntersSafely(start, front) && Freed(start, Run(start, front), x)
    requires !Past(start.attempts[x], start.session.epoch) && start.attempts[|start.attempts| - 1].phase == Released
    ensures EntersSafely(start, events) && TwoRunning(Run(start, events).attempts)
  {
    var m := |start.attempts|;
    LastStepsOverlap(Run(start, front), x);
    RunWakes(start, front, x);
    var woken := front + [Wake(x, LoginPath)];
    RunEnters(start, woken);
    var entered := woken + [Enter(Run(start, woken).session.epoch)];
    RunWakes(start, entered, m);
    events := entered + [Wake(m, LoginPath)];
    RunningTwice(Run(start, events).attempts, x, m);
  }

  /** No run of proper entries ends with two requests at once. */
  ghost predicate NeverOverlaps(b: Browser) {
    forall events | EntersSafely(b, events) :: !TwoRunning(Run(b, events).attempts)
  }

  /**
   An entry rules out every later overlap exactly when its epoch is current or every outstanding attempt can only
   be released any more: then, and only then, does no run of proper entries end with two requests at once.
   */
  lemma EntryRulesOutOverlapExactlyWhen(b: Browser, epoch: nat)
    requires Holds(b) && Safe(b)
    ensures ProperEntry(b, epoch) <==> NeverOverlaps(Entered(b, epoch))
  {
    if ProperEntry(b, epoch) {
      StepHolds(b, Enter(epoch));
      SafeEntry(b, epoch);
      SafeNeverOverlaps(Entered(b, epoch));
    } else {
      var events := ImproperEntryCanOverlap(b, epoch);
      assert EntersSafely(Entered(b, epoch), events) && TwoRunning(Run(Entered(b, epoch), events).attempts);
    }
  }

  lemma SafeNeverOverlaps(b: Browser)
    requires Holds(b) && Safe(b)
    ensures NeverOverlaps(b)
  {
    forall events | EntersSafely(b, events) ensures !TwoRunning(Run(b, events).attempts) {
      ProperEntriesNeverOverlap(b, events);
    }
  }

  /** From a fresh page, as long as every entry is proper, no two cookie-changing requests ever run at once. */
  lemma FreshPageNeverOverlaps(events: seq<Event>)
    requires EntersSafely(FRESH_PAGE, events)
    ensures !TwoRunning(Run(FRESH_PAGE, events).attempts)
  {
    ProperEntriesNeverOverlap(FRESH_PAGE, events);
  }

  // --- The account cache ---

  datatype Account = Account(id: Id, version: nat)

  /** preserveNewerSameSubjectVersion, and the same choice in publishSessionAccount. */
  function Newer(cached: Option<Account>, account: Account): Account {
    if cached != None && cached.value.id == account.id && cached.value.version > account.version then cached.value else account
  }

  /** A session read that has chosen what to store: its result, and the cached account it saw. */
  datatype Choice = Choice(result: Account, base: Option<Account>)

  /** The cached account of one session; `offered` is the history of what was written or published into it. */
  datatype Cache = Cache(stored: Option<Account>, choices: seq<Choice>, offered: seq<Account>)

  /** A session read chooses first and is stored later; a publication does both at once. */
  datatype CacheEvent = Choose(result: Account) | Store(read: nat) | Publish(account: Account)

  function CacheNext(c: Cache, e: CacheEvent): Cache {
    match e
    case Choose(r) => c.(choices := c.choices + [Choice(r, c.stored)])
    case Store(k) =>
      if k >= |c.choices| then c
      else c.(stored := Some(Newer(c.choices[k].base, c.choices[k].result)), offered := c.offered + [c.choices[k].result])
    case Publish(a) => c.(stored := Some(Newer(c.stored, a)), offered := c.offered + [a])
  }

  function CacheRun(c: Cache, events: seq<CacheEvent>): Cache {
    if events == [] then c else CacheNext(CacheRun(c, events[..|events| - 1]), events[|events| - 1])
  }

  predicate About(e: CacheEvent, id: Id) {
    match e case Choose(r) => r.id == id case Store(_) => true case Publish(a) => a.id == id
  }

  /** The cache holds one of the offered accounts, and none of them is newer. */
  predicate HoldsNewest(c: Cache) {
    match c.stored
    case None => c.offered == []
    case Some(a) => a in c.offered && forall o | o in c.offered :: o.version <= a.version
  }

  predicate OneSubject(c: Cache, id: Id) {
    && (forall o | o in c.offered :: o.id == id)
    && (forall x | x in c.choices :: x.result.id == id && (x.base != None ==> x.base.value in c.offered))
  }

  /** What is stored now is newer neither than the result to be stored nor than what its read saw. */
  predicate Timely(c: Cache, e: CacheEvent) {
    e.Store? && e.read < |c.choices| && c.stored != None ==>
      var x, v := c.choices[e.read], c.stored.value.version;
      v <= x.result.version || (x.base != None && v <= x.base.value.version)
  }

  lemma NewestAfterExactlyWhenTimely(c: Cache, e: CacheEvent, id: Id)
    requires HoldsNewest(c) && OneSubject(c, id) && About(e, id)
    ensures OneSubject(CacheNext(c, e), id)
    ensures HoldsNewest(CacheNext(c, e)) <==> Timely(c, e)
  {
    var after := CacheNext(c, e);
    assert forall o | o in after.offered :: o in c.offered || after.offered == c.offered + [o];
    if e.Store? && e.read < |c.choices| {
      assert c.choices[e.read] in c.choices;
      assert after.offered[|c.offered|] == c.choices[e.read].result;
    } else if e.Publish? {
      assert after.offered[|c.offered|] == e.account;
    }
  }

  /** A store that finds the cache as its read saw it is timely. */
  lemma UndisturbedStoreIsTimely(c: Cache, k: nat)
    requires k < |c.choices| && c.stored == c.choices[k].base
    ensures Timely(c, Store(k))
  {
  }

  predicate AllTimely(c: Cache, events: seq<CacheEvent>) {
    events == [] ||
    var front, last := events[..|events| - 1], events[|events| - 1];
    AllTimely(c, front) && Timely(CacheRun(c, front), last)
  }

  predicate NewestThroughout(c: Cache, events: seq<CacheEvent>) {
    HoldsNewest(CacheRun(c, events)) && (events == [] || NewestThroughout(c, events[..|events| - 1]))
  }

  /**
   Through a whole run of reads, stores and publications of one subject the cache holds the newest account
   exactly when no store is late, that is, when none finds something newer than its result and than what it saw.
   */
  lemma {:induction false} CacheHoldsTheNewest(c: Cache, events: seq<CacheEvent>, id: Id)
    requires HoldsNewest(c) && OneSubject(c, id) && forall e | e in events :: About(e, id)
    ensures NewestThroughout(c, events) <==> AllTimely(c, events)
    ensures AllTimely(c, events) ==> OneSubject(CacheRun(c, events), id)
  {
    if events != [] {
      var front, last := events[..|events| - 1], events[|events| - 1];
      assert forall e | e in front :: e in events;
      CacheHoldsTheNewest(c, front, id);
      assert last in events;
      if AllTimely(c, front) { NewestAfterExactlyWhenTimely(CacheRun(c, front), last, id); }
    }
  }

  /** A late store takes the cache back to an older account: a concrete run. */
  lemma LateStoreRegresses(id: Id)
    ensures
      var published := CacheRun(Cache(None, [], []), [Choose(Account(id, 1)), Publish(Account(id, 2))]);
      published.stored == Some(Account(id, 2)) && CacheNext(published, Store(0)).stored == Some(Account(id, 1))
  {
    var events := [Choose(Account(id, 1)), Publish(Account(id, 2))];
    assert events[..1] == [Choose(Account(id, 1))] && events[..1][..0] == [];
    assert CacheRun(Cache(None, [], []), events[..1]).choices == [Choice(Account(id, 1), None)];
  }
}
