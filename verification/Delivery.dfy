// deliver: one attempt to type a line into a pane (crates/odin-say/src/say.rs:441-782), against a
// pane that may show anything, fail any read and drop any key, and a clock that only moves
// forward, by at least every sleep that is asked for.

module Delivery {
  import opened Arithmetic
  import opened Wrappers
  import opened PaneScreen
  import opened Typing

  datatype State =
    | DeliveredAcked | DeliveredNoAck | InputBarOnly | PaneBlockedOnPermission | PaneReadFailed
    | PaneStillThinking | SeatCapped

  const EXIT_DELIVERED := 0
  const EXIT_BLOCKED := 2
  const EXIT_STILL_THINKING := 3
  const EXIT_STALE_STUCK := 4
  const EXIT_SEND_FAILED := 5
  const EXIT_STUCK_AFTER_ENTERS := 6
  const EXIT_QUEUE_UNPROVEN := 7
  const EXIT_SEAT_CAPPED := 10
  const EXIT_READ_FAILED := 11

  datatype Outcome = Outcome(
    state: State, submitted: bool, exit: int, polls: nat, waitedMs: nat, queued: bool, cap: Option<CapHit>,
    harness: Identity)

  datatype Options = Options(pollMs: nat, waitMs: nat)

  // ------------------------------------------------------------------ the pane and its history

  /** A text that was typed: what had been read last, how many Enters and how many reads came
      before it. */
  datatype Sent = Sent(text: string, ok: bool, seen: Option<string>, entersBefore: nat, readsBefore: nat)

  /** What the sender has done to the pane so far. `firstRead` and `lastRead` are what the first and
      the last read showed (None inside: the read failed); `escapes` and `clears` the last reads
      when Escape and, before any text, Enter were pressed; `enters` counts the Enters since the
      text; `slept` adds up the sleeps asked for; `readCount` counts the reads. */
  datatype Tally = Tally(
    firstRead: Option<Option<string>>, lastRead: Option<string>, escapes: seq<Option<string>>,
    clears: seq<Option<string>>, texts: seq<Sent>, enters: nat, slept: nat, readCount: nat)

  const UNTOUCHED := Tally(None, None, [], [], [], 0, 0, 0)

  function AfterRead(t: Tally, view: Option<string>): Tally {
    t.(firstRead := if t.firstRead == None then Some(view) else t.firstRead, lastRead := view,
       readCount := t.readCount + 1)
  }

  function AfterText(t: Tally, text: string, ok: bool): Tally {
    t.(texts := t.texts + [Sent(text, ok, t.lastRead, |t.clears|, t.readCount)], enters := 0)
  }

  function AfterEnter(t: Tally): Tally {
    if t.texts == [] then t.(clears := t.clears + [t.lastRead]) else t.(enters := t.enters + 1)
  }

  /** The pane shows any screens and fails any reads; what it shows may be thought of as settled
      beforehand, since every attempt meets some sequence of screens. */
  class Pane {
    const view: Views
    var clockMs: nat
    var tally: Tally

    constructor (screens: nat -> Option<string>)
      ensures view == Tails(screens) && tally == UNTOUCHED && clockMs == 0
    {
      view, clockMs, tally := Tails(screens), 0, UNTOUCHED;
    }

    method Pass()
      modifies this`clockMs
      ensures clockMs >= old(clockMs)
    {
      var ms: int :| 0 <= ms;
      clockMs := clockMs + ms;
    }

    /** read_screen, cut to its tail. */
    method ReadTail() returns (shown: Option<string>)
      modifies this
      ensures shown == view(old(tally).readCount)
      ensures clockMs >= old(clockMs) && tally == AfterRead(old(tally), shown)
    {
      Pass();
      shown := view(tally.readCount);
      tally := AfterRead(tally, shown);
    }

    method SendText(text: string) returns (ok: bool)
      modifies this
      ensures clockMs >= old(clockMs) && tally == AfterText(old(tally), text, ok)
    {
      Pass();
      ok := *;
      tally := AfterText(tally, text, ok);
    }

    /** The key may be lost; the sender does not look at the result. */
    method SendEnter()
      modifies this
      ensures clockMs >= old(clockMs) && tally == AfterEnter(old(tally))
    {
      Pass();
      tally := AfterEnter(tally);
    }

    method SendEscape()
      modifies this
      ensures clockMs >= old(clockMs) && tally == old(tally).(escapes := old(tally).escapes + [old(tally).lastRead])
    {
      Pass();
      tally := tally.(escapes := tally.escapes + [tally.lastRead]);
    }

    method Sleep(ms: nat)
      modifies this
      ensures clockMs >= old(clockMs) + ms && tally == old(tally).(slept := old(tally).slept + ms)
    {
      Pass();
      clockMs := clockMs + ms;
      tally := tally.(slept := tally.slept + ms);
    }
  }

  // ------------------------------------------------------------------ what an attempt promises

  /** The send went into a queue harness in the middle of its turn. */
  predicate ViaQueue(eyes: Eyes, harness: string, sent: Sent) {
    sent.entersBefore == 0 && sent.seen.Some? && eyes.busy(sent.seen.value) && eyes.midTurn(harness) == Queue
  }

  /** The text was the flattened one and went into a pane last seen unblocked; except into a queue,
      last seen without stale input and, unless stale input had to be cleared, idle and uncapped. */
  predicate GoodSend(eyes: Eyes, flat: string, harness: string, sent: Sent) {
    && sent.text == flat && sent.entersBefore <= 1
    && sent.seen.Some? && !eyes.blocked(sent.seen.value)
    && (|| ViaQueue(eyes, harness, sent)
        || (&& !eyes.stale(sent.seen.value)
            && (sent.entersBefore == 0 ==> !eyes.busy(sent.seen.value) && eyes.capped(sent.seen.value) == None)))
  }

  /** At most one text; `submitted` tells whether it went in; Enters follow it only if it did, two
      at most and exactly one into a queue. */
  predicate SafeSend(eyes: Eyes, flat: string, t: Tally, submitted: bool, harness: string) {
    && |t.texts| <= 1
    && (submitted <==> t.texts != [] && t.texts[0].ok)
    && (t.texts != [] ==> GoodSend(eyes, flat, harness, t.texts[0]))
    && (if submitted then 1 <= t.enters <= (if ViaQueue(eyes, harness, t.texts[0]) then 1 else 2) else t.enters == 0)
  }

  /** Keys pressed before the text: Escape once at most, on the dismissible overlay; Enter once at
      most, on stale input in a pane that is not blocked. */
  predicate SafeKeys(eyes: Eyes, t: Tally) {
    && |t.escapes| <= 1 && |t.clears| <= 1
    && (t.escapes != [] ==>
          && t.escapes[0].Some? && eyes.blocked(t.escapes[0].value) && eyes.dismissible(t.escapes[0].value))
    && (t.clears != [] ==>
          && t.clears[0].Some? && !eyes.blocked(t.clears[0].value) && eyes.stale(t.clears[0].value))
  }

  /** The text went in, and in the middle of a queue harness's turn. */
  predicate Queued(eyes: Eyes, harness: string, t: Tally) {
    t.texts != [] && t.texts[0].ok && ViaQueue(eyes, harness, t.texts[0])
  }

  /** The last read-back shows that the text arrived: it is in the queue; or it is out of the input
      bar, or was answered after the second Enter. */
  predicate Arrived(eyes: Eyes, harness: string, t: Tally, last: string) {
    if Queued(eyes, harness, t) then eyes.queued(harness, last)
    else !eyes.inBar(last) || (t.enters == 2 && eyes.answered(last))
  }

  /** Each exit code is given exactly when the last read and what was done before it call for it. */
  predicate Told(eyes: Eyes, t: Tally, o: Outcome) {
    var seen, last, harness := t.lastRead.Some?, t.lastRead.GetOr(""), o.harness.harness;
    var unsent, submitted := t.texts == [], t.texts != [] && t.texts[0].ok;
    && (o.exit == 11 <==> !seen)
    && (o.exit == 5 <==> !unsent && !submitted)
    && (o.exit == 2 <==> unsent && seen && eyes.blocked(last))
    && (o.exit == 3 <==> unsent && seen && !eyes.blocked(last) && t.clears == [] && eyes.busy(last))
    && (o.exit == 10 <==> unsent && seen && !eyes.blocked(last) && t.clears == [] && !eyes.busy(last))
    && (o.exit == 4 <==> unsent && seen && !eyes.blocked(last) && t.clears != [])
    && (o.exit == 0 <==> submitted && seen && Arrived(eyes, harness, t, last))
    && (o.exit == 7 <==> submitted && seen && !Arrived(eyes, harness, t, last) && Queued(eyes, harness, t))
    && (o.exit == 6 <==> submitted && seen && !Arrived(eyes, harness, t, last) && !Queued(eyes, harness, t))
  }

  /** What the codes imply besides, and which delivery was acknowledged. */
  predicate Evident(eyes: Eyes, t: Tally, o: Outcome) {
    var last := t.lastRead.GetOr("");
    && (o.exit == 4 ==> eyes.stale(last))
    && (o.exit == 10 ==> eyes.capped(last).Some?) && o.cap == (if o.exit == 10 then eyes.capped(last) else None)
    && (o.exit == 6 ==> t.enters == 2 && eyes.inBar(last))
    && (o.queued <==> o.exit == 0 && Queued(eyes, o.harness.harness, t))
    && (o.state == DeliveredAcked <==>
          o.exit == 0 && !o.queued && !eyes.busy(last) && !eyes.queueHint(last) && eyes.echoed(last))
  }

  /** Off the queue path the first read-back still shows the text in the input bar. */
  predicate StillInBar(eyes: Eyes, view: Views, t: Tally, harness: string)
    requires t.texts != []
  {
    var k := t.texts[0].readsBefore;
    !Queued(eyes, harness, t) && view(k).Some? && eyes.inBar(view(k).value)
  }

  /** The verdict rests on the pane's last screen: after the text there is one read-back per Enter,
      and a second Enter exactly if the first one did not take the text out of the input bar. */
  predicate ReadsBack(eyes: Eyes, view: Views, t: Tally, harness: string) {
    && t.readCount > 0 && t.lastRead == view(t.readCount - 1)
    && (t.texts != [] ==>
          && t.readCount == t.texts[0].readsBefore + t.enters
          && t.enters == if !t.texts[0].ok then 0 else if StillInBar(eyes, view, t, harness) then 2 else 1)
  }

  /** How many of the reads were polls: all that succeeded, less the read-backs and the look after
      stale input was submitted. */
  function PollsMade(t: Tally): int {
    if t.texts != [] then t.texts[0].readsBefore - |t.clears|
    else if t.clears != [] then t.readCount - 1
    else t.readCount - if t.lastRead == None then 1 else 0
  }

  /** The time given to the pane after each key before it is read again. */
  function SettleTime(t: Tally): nat {
    1000 * |t.escapes| + 3000 * |t.clears| + if t.texts != [] && t.texts[0].ok then 1500 + 3000 * t.enters else 0
  }

  /** The only combinations an attempt can report. */
  predicate InTable(o: Outcome) {
    && (o.queued <==> o.state == PaneStillThinking && o.submitted)
    && (o.cap.Some? ==> o.state == SeatCapped)
    && (|| (o.state == PaneReadFailed && o.exit == EXIT_READ_FAILED)
        || (o.state == PaneBlockedOnPermission && !o.submitted && o.exit == EXIT_BLOCKED)
        || (o.state == PaneStillThinking && !o.submitted && o.exit == EXIT_STILL_THINKING)
        || (o.state == PaneStillThinking && o.submitted && o.exit == EXIT_DELIVERED)
        || (o.state == SeatCapped && !o.submitted && o.exit == EXIT_SEAT_CAPPED)
        || (o.state == InputBarOnly && !o.submitted && (o.exit == EXIT_SEND_FAILED || o.exit == EXIT_STALE_STUCK))
        || (o.state == InputBarOnly && o.submitted && o.exit == EXIT_STUCK_AFTER_ENTERS)
        || (o.state == InputBarOnly && o.submitted && o.exit == EXIT_QUEUE_UNPROVEN)
        || ((o.state == DeliveredAcked || o.state == DeliveredNoAck) && o.submitted && o.exit == EXIT_DELIVERED))
  }

  /** What was slept beyond that: the busy wait. */
  function Waited(t: Tally): int {
    t.slept - SettleTime(t)
  }

  /** The wait that is reported is not shorter than the busy wait, unless it was cut off by a read
      that failed. */
  predicate WaitTold(t: Tally, o: Outcome) {
    o.waitedMs >= Waited(t) || (t.lastRead == None && t.texts == [] && t.clears == [])
  }

  predicate Kept(eyes: Eyes, flat: string, view: Views, t: Tally, o: Outcome) {
    && SafeSend(eyes, flat, t, o.submitted, o.harness.harness) && SafeKeys(eyes, t)
    && Told(eyes, t, o) && Evident(eyes, t, o) && ReadsBack(eyes, view, t, o.harness.harness) && InTable(o)
    && o.polls == PollsMade(t) && WaitTold(t, o)
  }

  /** The harness is identified on the first screen, and on an empty one if that read fails. */
  function FirstScreen(t: Tally): string {
    t.firstRead.GetOr(None).GetOr("")
  }

  /** Nothing typed yet, and the pane was last read as `screen`. */
  predicate Unsent(eyes: Eyes, t: Tally, screen: string) {
    && t.texts == [] && t.enters == 0 && t.lastRead == Some(screen) && SafeKeys(eyes, t)
  }

  ghost predicate LastRead(pane: Pane, k: nat, screen: string)
    reads pane
  {
    pane.tally.readCount == k + 1 && pane.view(k) == Some(screen)
  }

  /** The one text was typed right after read `k`, on what that read showed. */
  predicate TypedAt(view: Views, t: Tally, k: nat, entersBefore: nat) {
    && |t.texts| == 1 && t.texts[0].readsBefore == k + 1 && t.texts[0].seen == view(k)
    && t.texts[0].entersBefore == entersBefore
  }

  /** The attempt typed exactly what the plan says, where it says. */
  predicate AsPlanned(plan: Plan, view: Views, t: Tally) {
    match plan
    case TypeNothing => t.texts == []
    case TypeIntoQueue(at) => TypedAt(view, t, at, 0)
    case TypeIdle(ready, at) => ready <= at && TypedAt(view, t, at, at - ready)
  }

  // ------------------------------------------------------------------ the steps

  /** A step either ends the attempt or goes on with a screen. */
  datatype Next = Stop(outcome: Outcome) | Go(screen: string, polls: nat, waitedMs: nat)

  function Refusal(state: State, submitted: bool, exit: int, polls: nat, waitedMs: nat, harness: Identity): Outcome {
    Outcome(state, submitted, exit, polls, waitedMs, false, None, harness)
  }

  /** A dismissible overlay is escaped once; any other block, or a block behind it, refuses. */
  method ClearOverlay(pane: Pane, eyes: Eyes, flat: string, who: Identity, screen: string) returns (n: Next)
    requires Unsent(eyes, pane.tally, screen) && pane.tally.escapes == [] == pane.tally.clears
    requires LastRead(pane, 0, screen) && Waited(pane.tally) == 0
    modifies pane
    ensures pane.clockMs >= old(pane.clockMs)
    ensures old(pane.tally).firstRead.Some? ==> pane.tally.firstRead == old(pane.tally).firstRead
    ensures Waited(pane.tally) == 0
    ensures n.Stop? ==> Kept(eyes, flat, pane.view, pane.tally, n.outcome) && n.outcome.harness == who
                        && n.outcome.polls <= 2 && n.outcome.waitedMs == 0 && n.outcome.exit != 3
    ensures n.Stop? ==> pane.tally.texts == [] && OverlayCleared(eyes, pane.view) == None
    ensures n.Go? ==> && Unsent(eyes, pane.tally, n.screen) && pane.tally.clears == []
                      && !eyes.blocked(n.screen) && n.polls == pane.tally.readCount <= 2 && n.waitedMs == 0
    ensures n.Go? ==> && OverlayCleared(eyes, pane.view).Some?
                      && LastRead(pane, OverlayCleared(eyes, pane.view).value, n.screen)
  {
    if !eyes.blocked(screen) {
      return Go(screen, 1, 0);
    }
    if !eyes.dismissible(screen) {
      return Stop(Refusal(PaneBlockedOnPermission, false, EXIT_BLOCKED, 1, 0, who));
    }
    pane.SendEscape();
    pane.Sleep(1000);
    var view := pane.ReadTail();
    if view == None {
      return Stop(Refusal(PaneReadFailed, false, EXIT_READ_FAILED, 1, 0, who));
    }
    if eyes.blocked(view.value) {
      return Stop(Refusal(PaneBlockedOnPermission, false, EXIT_BLOCKED, 2, 0, who));
    }
    return Go(view.value, 2, 0);
  }

  /** A queue harness is typed into while busy: one Enter, and the read-back must show the text
      queued. */
  method SendIntoQueue(pane: Pane, eyes: Eyes, flat: string, who: Identity, screen: string, polls: nat, busyAt: nat)
    returns (o: Outcome)
    requires Unsent(eyes, pane.tally, screen) && pane.tally.clears == []
    requires !eyes.blocked(screen) && eyes.busy(screen) && eyes.midTurn(who.harness) == Queue && busyAt <= pane.clockMs
    requires polls == pane.tally.readCount > 0 && LastRead(pane, pane.tally.readCount - 1, screen)
    requires Waited(pane.tally) == 0
    modifies pane
    ensures old(pane.tally).firstRead.Some? ==> pane.tally.firstRead == old(pane.tally).firstRead
    ensures Waited(pane.tally) == 0 && o.exit != 3
    ensures TypedAt(pane.view, pane.tally, old(pane.tally.readCount) - 1, 0)
    ensures Kept(eyes, flat, pane.view, pane.tally, o) && o.polls == polls && o.harness == who
    ensures pane.clockMs >= old(pane.clockMs) && o.waitedMs <= pane.clockMs - busyAt
  {
    pane.Pass();
    var waitedMs := pane.clockMs - busyAt;
    var ok := pane.SendText(flat);
    if !ok {
      return Refusal(InputBarOnly, false, EXIT_SEND_FAILED, polls, waitedMs, who);
    }
    pane.Sleep(1500);
    pane.SendEnter();
    pane.Sleep(3000);
    var view := pane.ReadTail();
    if view == None {
      return Refusal(PaneReadFailed, true, EXIT_READ_FAILED, polls, waitedMs, who);
    }
    if eyes.queued(who.harness, view.value) {
      return Outcome(PaneStillThinking, true, EXIT_DELIVERED, polls, 0, true, None, who);
    }
    return Refusal(InputBarOnly, true, EXIT_QUEUE_UNPROVEN, polls, waitedMs, who);
  }

  function CeilDiv(a: nat, b: nat): nat
    requires b > 0
  {
    (a + b - 1) / b
  }

  /** How many polls fit into what is left of the budget: each takes an interval, or all that is
      left. */
  function PollsLeft(rest: int, poll: nat): nat
    requires poll > 0
    decreases Max(0, rest)
  {
    if rest <= 0 then 0 else 1 + PollsLeft(rest - Min(poll, rest), poll)
  }

  lemma {:induction false} PollsLeftMonotone(a: int, b: int, poll: nat)
    requires poll > 0 && a <= b
    ensures PollsLeft(a, poll) <= PollsLeft(b, poll)
    decreases Max(0, b)
  {
    if a > 0 {
      PollsLeftMonotone(a - Min(poll, a), b - Min(poll, b), poll);
    }
  }

  /** Each poll uses up one, however long its read takes. */
  lemma NextPoll(waited: nat, later: nat, poll: nat, budget: nat)
    requires poll > 0 && waited < budget && later >= waited + Min(poll, budget - waited)
    ensures PollsLeft(budget - later, poll) + 1 <= PollsLeft(budget - waited, poll)
  {
    PollsLeftMonotone(budget - later, budget - waited - Min(poll, budget - waited), poll);
  }

  lemma {:induction false} PollsCost(budget: nat, poll: nat)
    requires poll > 0 && budget > 0
    ensures (PollsLeft(budget, poll) - 1) * poll < budget
    decreases budget
  {
    var rest := budget - Min(poll, budget);
    if rest > 0 {
      PollsCost(rest, poll);
      var n := PollsLeft(rest, poll);
      assert n * poll == (n - 1) * poll + poll;
    }
  }

  lemma CeilCovers(budget: nat, poll: nat)
    requires poll > 0
    ensures CeilDiv(budget, poll) * poll >= budget
  {
    var q, r := (budget + poll - 1) / poll, (budget + poll - 1) % poll;
    assert budget + poll - 1 == q * poll + r;
  }

  /** So there are at most ceil(budget / poll). */
  lemma PollsInAll(budget: nat, poll: nat)
    requires poll > 0
    ensures PollsLeft(budget, poll) <= CeilDiv(budget, poll)
  {
    var n, q := PollsLeft(budget, poll), CeilDiv(budget, poll);
    if budget > 0 && q < n {
      PollsCost(budget, poll);
      CeilCovers(budget, poll);
      MulMonotone(q, n - 1, poll);
      assert false;
    }
  }

  datatype Poll = Ended(next: Next) | StillBusy(screen: string)

  /** In the busy wait that began on read `k`: the pane was busy in all `n` polls since. */
  ghost predicate Waiting(eyes: Eyes, view: Views, t: Tally, screen: string, k: nat, n: nat) {
    && Unsent(eyes, t, screen) && t.clears == [] && !eyes.blocked(screen) && eyes.busy(screen)
    && t.readCount == k + 1 + n && t.lastRead == view(k + n) && BusyPolls(eyes, view, k, n)
  }

  /** The wait ended after `n` polls, `elapsed` after it began: with a refusal, nothing being typed,
      or on the read it waited for. */
  ghost predicate WaitOver(
    eyes: Eyes, flat: string, view: Views, t: Tally, who: Identity, elapsed: int, k: nat, n: nat, r: Next)
  {
    match r
    case Stop(o) =>
      && Kept(eyes, flat, view, t, o) && t.texts == [] && o.harness == who
      && o.polls <= k + 1 + n && o.waitedMs <= elapsed && WaitedTo(eyes, view, k, n) == None
    case Go(screen, polls, waitedMs) =>
      && Unsent(eyes, t, screen) && t.clears == [] && !eyes.blocked(screen) && !eyes.busy(screen)
      && polls == t.readCount == k + 1 + n && view(k + n) == Some(screen) && Waited(t) <= waitedMs <= elapsed
      && WaitedTo(eyes, view, k, n) == Some(k + n)
  }

  /** One poll of the busy wait: sleep, read, and look for a block before anything else. */
  method PollOnce(
    pane: Pane, eyes: Eyes, flat: string, who: Identity, screen: string, polls: nat, step: nat, busyAt: nat,
    ghost k: nat, ghost n: nat)
    returns (r: Poll)
    requires Waiting(eyes, pane.view, pane.tally, screen, k, n) && polls == pane.tally.readCount
    requires busyAt <= pane.clockMs && pane.clockMs - busyAt >= Waited(pane.tally)
    modifies pane
    ensures pane.clockMs >= old(pane.clockMs) + step && Waited(pane.tally) == Waited(old(pane.tally)) + step
    ensures old(pane.tally).firstRead.Some? ==> pane.tally.firstRead == old(pane.tally).firstRead
    ensures r.Ended? ==> WaitOver(eyes, flat, pane.view, pane.tally, who, pane.clockMs - busyAt, k, n + 1, r.next)
    ensures r.Ended? && r.next.Stop? ==> r.next.outcome.exit != 3
    ensures r.StillBusy? ==> Waiting(eyes, pane.view, pane.tally, r.screen, k, n + 1)
  {
    WaitedPast(eyes, pane.view, k, n, 1);
    pane.Sleep(step);
    var view := pane.ReadTail();
    if view == None {
      return Ended(Stop(Refusal(PaneReadFailed, false, EXIT_READ_FAILED, polls, 0, who)));
    }
    if eyes.blocked(view.value) {
      return Ended(Stop(Refusal(PaneBlockedOnPermission, false, EXIT_BLOCKED, polls + 1, pane.clockMs - busyAt, who)));
    }
    if eyes.busy(view.value) {
      return StillBusy(view.value);
    }
    return Ended(Go(view.value, polls + 1, pane.clockMs - busyAt));
  }

  lemma StillThinking(
    eyes: Eyes, flat: string, view: Views, t: Tally, who: Identity, screen: string, elapsed: nat, k: nat, n: nat)
    requires Waiting(eyes, view, t, screen, k, n) && elapsed >= Waited(t)
    ensures var o := Refusal(PaneStillThinking, false, EXIT_STILL_THINKING, t.readCount, elapsed, who);
            WaitOver(eyes, flat, view, t, who, elapsed, k, n, Stop(o))
  {
    WaitedPast(eyes, view, k, n, 0);
  }

  /** After `n` polls the wait is within its budget, and so is the number of polls. */
  ghost predicate InTime(t: Tally, waited: int, n: nat, pollMs: nat, budgetMs: nat)
    requires pollMs > 0
  {
    && 0 <= Waited(t) <= Min(budgetMs, waited) && (n == 0 ==> Waited(t) == 0)
    && n + PollsLeft(budgetMs - waited, pollMs) <= PollsLeft(budgetMs, pollMs)
  }

  lemma StaysInTime(t: Tally, t': Tally, was: nat, waited: nat, later: nat, n: nat, pollMs: nat, budgetMs: nat)
    requires pollMs > 0 && was <= waited < budgetMs && InTime(t, was, n, pollMs, budgetMs)
    requires Waited(t') == Waited(t) + Min(pollMs, budgetMs - waited)
    requires later >= waited + Min(pollMs, budgetMs - waited)
    ensures InTime(t', later, n + 1, pollMs, budgetMs)
  {
    PollsLeftMonotone(budgetMs - waited, budgetMs - was, pollMs);
    NextPoll(waited, later, pollMs, budgetMs);
  }

  /** One round of the busy wait: give up once the budget is spent, and not before; else poll. */
  method WaitOnce(
    pane: Pane, eyes: Eyes, flat: string, who: Identity, screen: string, polls: nat, pollMs: nat, budgetMs: nat,
    busyAt: nat, ghost k: nat, ghost n: nat)
    returns (r: Poll, ghost m: nat)
    requires Waiting(eyes, pane.view, pane.tally, screen, k, n) && polls == k + 1 + n && pollMs >= 1
    requires busyAt <= pane.clockMs && InTime(pane.tally, pane.clockMs - busyAt, n, pollMs, budgetMs)
    modifies pane
    ensures pane.clockMs >= old(pane.clockMs)
    ensures old(pane.tally).firstRead.Some? ==> pane.tally.firstRead == old(pane.tally).firstRead
    ensures InTime(pane.tally, pane.clockMs - busyAt, m, pollMs, budgetMs)
    ensures match r
            case StillBusy(busy) =>
              && m == n + 1 && Waiting(eyes, pane.view, pane.tally, busy, k, m)
              && old(pane.clockMs) < pane.clockMs && old(pane.clockMs) - busyAt < budgetMs
            case Ended(next) =>
              && WaitOver(eyes, flat, pane.view, pane.tally, who, pane.clockMs - busyAt, k, m, next)
              && (next.Stop? && next.outcome.exit == 3 ==> next.outcome.waitedMs >= budgetMs)
  {
    ghost var before, was := pane.tally, pane.clockMs - busyAt;
    pane.Pass();
    var waited := pane.clockMs - busyAt;
    PollsLeftMonotone(budgetMs - waited, budgetMs - was, pollMs);
    m := n;
    if waited >= budgetMs {
      StillThinking(eyes, flat, pane.view, pane.tally, who, screen, waited, k, n);
      r := Ended(Stop(Refusal(PaneStillThinking, false, EXIT_STILL_THINKING, polls, waited, who)));
      return;
    }
    r := PollOnce(pane, eyes, flat, who, screen, polls, Min(pollMs, budgetMs - waited), busyAt, k, n);
    StaysInTime(before, pane.tally, was, waited, pane.clockMs - busyAt, n, pollMs, budgetMs);
    m := n + 1;
  }

  /** Every other harness is waited for: whatever the screens and however long the reads take, the
      loop ends after at most ceil(budget / poll) polls, asks for at most the budget in sleeps, gives
      up only once the budget is spent, and goes on only with a screen neither busy nor blocked. */
  method WaitForIdle(
    pane: Pane, eyes: Eyes, flat: string, who: Identity, first: string, polls0: nat, pollMs: nat, budgetMs: nat,
    busyAt: nat)
    returns (n: Next, ghost patience: nat)
    requires Unsent(eyes, pane.tally, first) && pane.tally.clears == [] && pollMs >= 1
    requires polls0 == pane.tally.readCount > 0 && Waited(pane.tally) == 0
    requires !eyes.blocked(first) && eyes.busy(first) && busyAt <= pane.clockMs
    requires LastRead(pane, pane.tally.readCount - 1, first)
    modifies pane
    ensures pane.clockMs >= old(pane.clockMs)
    ensures old(pane.tally).firstRead.Some? ==> pane.tally.firstRead == old(pane.tally).firstRead
    ensures InTime(pane.tally, pane.clockMs - busyAt, patience, pollMs, budgetMs)
    ensures WaitOver(eyes, flat, pane.view, pane.tally, who, pane.clockMs - busyAt, polls0 - 1, patience, n)
    ensures n.Stop? && n.outcome.exit == 3 ==> n.outcome.waitedMs >= budgetMs
  {
    ghost var k := polls0 - 1;
    var poll, polls := StillBusy(first), polls0;
    patience := 0;
    PollsLeftMonotone(budgetMs - (pane.clockMs - busyAt), budgetMs, pollMs);
    while true
      invariant poll.StillBusy? && Waiting(eyes, pane.view, pane.tally, poll.screen, k, patience)
      invariant pane.clockMs >= old(pane.clockMs) && polls == polls0 + patience
      invariant InTime(pane.tally, pane.clockMs - busyAt, patience, pollMs, budgetMs)
      invariant old(pane.tally).firstRead.Some? ==> pane.tally.firstRead == old(pane.tally).firstRead
      decreases budgetMs - (pane.clockMs - busyAt)
    {
      poll, patience := WaitOnce(pane, eyes, flat, who, poll.screen, polls, pollMs, budgetMs, busyAt, k, patience);
      if poll.Ended? {
        return poll.next, patience;
      }
      polls := polls + 1;
    }
  }

  /** A capped seat refuses; stale input is submitted once and must then be gone. */
  method ClearStale(pane: Pane, eyes: Eyes, flat: string, who: Identity, screen: string, polls: nat, waitedMs: nat)
    returns (n: Next)
    requires Unsent(eyes, pane.tally, screen) && pane.tally.clears == []
    requires !eyes.blocked(screen) && !eyes.busy(screen)
    requires polls == pane.tally.readCount > 0 && LastRead(pane, pane.tally.readCount - 1, screen)
    requires waitedMs >= Waited(pane.tally)
    modifies pane
    ensures pane.clockMs >= old(pane.clockMs)
    ensures old(pane.tally).firstRead.Some? ==> pane.tally.firstRead == old(pane.tally).firstRead
    ensures Waited(pane.tally) == Waited(old(pane.tally))
    ensures var k := old(pane.tally.readCount) - 1;
            var at := StaleCleared(eyes, pane.view, k);
            && (n.Stop? ==> pane.tally.texts == [] && at == None)
            && (n.Go? ==> && at.Some? && k <= at.value && LastRead(pane, at.value, n.screen)
                          && |pane.tally.clears| == at.value - k)
    ensures n.Stop? ==> && Kept(eyes, flat, pane.view, pane.tally, n.outcome) && n.outcome.harness == who
                        && n.outcome.polls == polls && n.outcome.waitedMs == waitedMs && n.outcome.exit != 3
    ensures n.Go? ==> && Unsent(eyes, pane.tally, n.screen) && n.polls == polls && n.waitedMs == waitedMs
                      && polls == pane.tally.readCount - |pane.tally.clears|
                      && !eyes.blocked(n.screen) && !eyes.stale(n.screen)
                      && (pane.tally.clears == [] ==> !eyes.busy(n.screen) && eyes.capped(n.screen) == None)
  {
    var hit := eyes.capped(screen);
    if hit.Some? {
      return Stop(Outcome(SeatCapped, false, EXIT_SEAT_CAPPED, polls, waitedMs, false, hit, who));
    }
    if !eyes.stale(screen) {
      return Go(screen, polls, waitedMs);
    }
    pane.SendEnter();
    pane.Sleep(3000);
    var view := pane.ReadTail();
    if view == None {
      return Stop(Refusal(PaneReadFailed, false, EXIT_READ_FAILED, polls, waitedMs, who));
    }
    if eyes.blocked(view.value) {
      return Stop(Refusal(PaneBlockedOnPermission, false, EXIT_BLOCKED, polls, waitedMs, who));
    }
    if eyes.stale(view.value) {
      return Stop(Refusal(InputBarOnly, false, EXIT_STALE_STUCK, polls, waitedMs, who));
    }
    return Go(view.value, polls, waitedMs);
  }

  /** The outcome of a text that is out of the input bar, or was answered. */
  function DeliveredAs(eyes: Eyes, last: string, polls: nat, waitedMs: nat, who: Identity): Outcome {
    var state :=
      if eyes.busy(last) || eyes.queueHint(last) then DeliveredNoAck
      else if eyes.echoed(last) then DeliveredAcked
      else DeliveredNoAck;
    Outcome(state, true, EXIT_DELIVERED, polls, waitedMs, false, None, who)
  }

  /** The text went in off the queue path, and was read back after each Enter so far. */
  ghost predicate Submitted(eyes: Eyes, flat: string, view: Views, t: Tally, who: Identity, polls: nat, waitedMs: nat) {
    && |t.texts| == 1 && t.texts[0].ok && GoodSend(eyes, flat, who.harness, t.texts[0])
    && !Queued(eyes, who.harness, t) && SafeKeys(eyes, t) && 1 <= t.enters <= 2
    && t.readCount == t.texts[0].readsBefore + t.enters && t.lastRead == view(t.readCount - 1)
    && polls == PollsMade(t) && waitedMs >= Waited(t)
  }

  /** The text is still in the input bar: Enter once more, and read back again. */
  method EnterAgain(pane: Pane, eyes: Eyes, flat: string, who: Identity, polls: nat, waitedMs: nat)
    returns (o: Outcome)
    requires Submitted(eyes, flat, pane.view, pane.tally, who, polls, waitedMs) && pane.tally.enters == 1
    requires pane.tally.lastRead.Some? && eyes.inBar(pane.tally.lastRead.value)
    modifies pane
    ensures pane.clockMs >= old(pane.clockMs)
    ensures old(pane.tally).firstRead.Some? ==> pane.tally.firstRead == old(pane.tally).firstRead
    ensures Waited(pane.tally) == Waited(old(pane.tally)) && o.exit != 3
    ensures pane.tally.texts == old(pane.tally).texts
    ensures Kept(eyes, flat, pane.view, pane.tally, o) && o.harness == who && o.polls == polls && o.waitedMs == waitedMs
  {
    pane.SendEnter();
    pane.Sleep(3000);
    var view := pane.ReadTail();
    if view == None {
      return Refusal(PaneReadFailed, true, EXIT_READ_FAILED, polls, waitedMs, who);
    }
    if eyes.inBar(view.value) && !eyes.answered(view.value) {
      return Refusal(InputBarOnly, true, EXIT_STUCK_AFTER_ENTERS, polls, waitedMs, who);
    }
    return DeliveredAs(eyes, view.value, polls, waitedMs, who);
  }

  /** Text, one Enter, read back, a second Enter only if the input bar still shows the text. */
  method SendAndVerify(pane: Pane, eyes: Eyes, flat: string, who: Identity, screen: string, polls: nat, waitedMs: nat)
    returns (o: Outcome)
    requires Unsent(eyes, pane.tally, screen)
    requires !eyes.blocked(screen) && !eyes.stale(screen)
    requires pane.tally.clears == [] ==> !eyes.busy(screen) && eyes.capped(screen) == None
    requires pane.tally.readCount > 0 && LastRead(pane, pane.tally.readCount - 1, screen)
    requires polls == pane.tally.readCount - |pane.tally.clears| && waitedMs >= Waited(pane.tally)
    modifies pane
    ensures pane.clockMs >= old(pane.clockMs)
    ensures old(pane.tally).firstRead.Some? ==> pane.tally.firstRead == old(pane.tally).firstRead
    ensures Waited(pane.tally) == Waited(old(pane.tally)) && o.exit != 3
    ensures TypedAt(pane.view, pane.tally, old(pane.tally.readCount) - 1, |old(pane.tally.clears)|)
    ensures Kept(eyes, flat, pane.view, pane.tally, o) && o.harness == who && o.polls == polls && o.waitedMs == waitedMs
  {
    var ok := pane.SendText(flat);
    if !ok {
      return Refusal(InputBarOnly, false, EXIT_SEND_FAILED, polls, waitedMs, who);
    }
    pane.Sleep(1500);
    pane.SendEnter();
    pane.Sleep(3000);
    var view := pane.ReadTail();
    assert Submitted(eyes, flat, pane.view, pane.tally, who, polls, waitedMs);
    if view == None {
      return Refusal(PaneReadFailed, true, EXIT_READ_FAILED, polls, waitedMs, who);
    }
    if eyes.inBar(view.value) {
      o := EnterAgain(pane, eyes, flat, who, polls, waitedMs);
      return;
    }
    return DeliveredAs(eyes, view.value, polls, waitedMs, who);
  }

  /** From an idle, unblocked screen: cap, stale input, then the send. */
  method SendWhenReady(pane: Pane, eyes: Eyes, flat: string, who: Identity, screen: string, polls: nat, waitedMs: nat)
    returns (o: Outcome)
    requires Unsent(eyes, pane.tally, screen) && pane.tally.clears == []
    requires !eyes.blocked(screen) && !eyes.busy(screen)
    requires polls == pane.tally.readCount > 0 && LastRead(pane, pane.tally.readCount - 1, screen)
    requires waitedMs >= Waited(pane.tally)
    modifies pane
    ensures pane.clockMs >= old(pane.clockMs)
    ensures old(pane.tally).firstRead.Some? ==> pane.tally.firstRead == old(pane.tally).firstRead
    ensures Waited(pane.tally) == Waited(old(pane.tally)) && o.exit != 3
    ensures AsPlanned(FromReady(eyes, pane.view, old(pane.tally.readCount) - 1), pane.view, pane.tally)
    ensures Kept(eyes, flat, pane.view, pane.tally, o) && o.harness == who && o.polls == polls && o.waitedMs == waitedMs
  {
    var n := ClearStale(pane, eyes, flat, who, screen, polls, waitedMs);
    if n.Stop? { return n.outcome; }
    o := SendAndVerify(pane, eyes, flat, who, n.screen, n.polls, n.waitedMs);
  }

  /** From a busy, unblocked screen of a harness that takes no text mid-turn: the wait, and then the
      send. */
  method SendAfterWait(
    pane: Pane, eyes: Eyes, flat: string, who: Identity, screen: string, polls: nat, opts: Options, busyAt: nat)
    returns (o: Outcome, ghost patience: nat)
    requires Unsent(eyes, pane.tally, screen) && pane.tally.clears == []
    requires !eyes.blocked(screen) && eyes.busy(screen) && busyAt <= pane.clockMs
    requires polls == pane.tally.readCount > 0 && LastRead(pane, pane.tally.readCount - 1, screen)
    requires Waited(pane.tally) == 0
    modifies pane
    ensures pane.clockMs >= old(pane.clockMs)
    ensures old(pane.tally).firstRead.Some? ==> pane.tally.firstRead == old(pane.tally).firstRead
    ensures 0 <= Waited(pane.tally) <= opts.waitMs && (patience == 0 ==> Waited(pane.tally) == 0)
    ensures o.exit == 3 ==> o.waitedMs >= opts.waitMs
    ensures patience <= PollsLeft(opts.waitMs, Max(1, opts.pollMs))
    ensures match WaitedTo(eyes, pane.view, polls - 1, patience)
            case None => pane.tally.texts == []
            case Some(ready) => AsPlanned(FromReady(eyes, pane.view, ready), pane.view, pane.tally)
    ensures Kept(eyes, flat, pane.view, pane.tally, o) && o.harness == who
    ensures o.polls <= polls + patience && o.waitedMs <= pane.clockMs - busyAt
  {
    var n: Next;
    n, patience := WaitForIdle(pane, eyes, flat, who, screen, polls, Max(1, opts.pollMs), opts.waitMs, busyAt);
    if n.Stop? { o := n.outcome; return; }
    o := SendWhenReady(pane, eyes, flat, who, n.screen, n.polls, n.waitedMs);
  }

  /** From an unblocked screen: the mid-turn policy if it is busy, and then the send. */
  method SendWhenUnblocked(
    pane: Pane, eyes: Eyes, flat: string, who: Identity, screen: string, polls: nat, opts: Options)
    returns (o: Outcome, ghost patience: nat)
    requires Unsent(eyes, pane.tally, screen) && pane.tally.clears == [] && !eyes.blocked(screen)
    requires polls == pane.tally.readCount > 0 && LastRead(pane, pane.tally.readCount - 1, screen)
    requires Waited(pane.tally) == 0
    modifies pane
    ensures pane.clockMs >= old(pane.clockMs)
    ensures old(pane.tally).firstRead.Some? ==> pane.tally.firstRead == old(pane.tally).firstRead
    ensures 0 <= Waited(pane.tally) <= opts.waitMs && (patience == 0 ==> Waited(pane.tally) == 0)
    ensures o.exit == 3 ==> o.waitedMs >= opts.waitMs
    ensures patience <= PollsLeft(opts.waitMs, Max(1, opts.pollMs))
    ensures AsPlanned(
              FromUnblocked(eyes, pane.view, old(pane.tally.readCount) - 1, who.harness, patience),
              pane.view, pane.tally)
    ensures Kept(eyes, flat, pane.view, pane.tally, o) && o.harness == who
    ensures o.polls <= polls + patience
    ensures o.waitedMs <= pane.clockMs - old(pane.clockMs)
  {
    patience := 0;
    if !eyes.busy(screen) {
      o := SendWhenReady(pane, eyes, flat, who, screen, polls, 0);
      return;
    }
    var busyAt := pane.clockMs;
    match eyes.midTurn(who.harness) {
      case Queue =>
        o := SendIntoQueue(pane, eyes, flat, who, screen, polls, busyAt);
      case Refuse =>
        o, patience := SendAfterWait(pane, eyes, flat, who, screen, polls, opts, busyAt);
    }
  }

  lemma SettledInTime(eyes: Eyes, flat: string, view: Views, t: Tally, o: Outcome)
    requires Kept(eyes, flat, view, t, o)
    ensures SettleTime(t) <= 11500
  {
  }

  /** The whole attempt, for any way of judging screens. It types exactly what and where the plan
      says for the number of polls that the clock left time for. */
  method Attempt(pane: Pane, eyes: Eyes, flat: string, opts: Options) returns (o: Outcome, ghost patience: nat)
    requires pane.tally == UNTOUCHED
    modifies pane
    ensures Kept(eyes, flat, pane.view, pane.tally, o)
    ensures patience <= CeilDiv(opts.waitMs, Max(1, opts.pollMs))
    ensures AsPlanned(PlanOf(eyes, pane.view, patience), pane.view, pane.tally)
    ensures o.harness == eyes.identify(FirstScreen(pane.tally))
    ensures 0 <= Waited(pane.tally) <= opts.waitMs && (patience == 0 ==> Waited(pane.tally) == 0)
    ensures pane.tally.slept <= opts.waitMs + 11500
    ensures o.exit == 3 ==> o.waitedMs >= opts.waitMs
    ensures o.polls <= 2 + CeilDiv(opts.waitMs, Max(1, opts.pollMs))
    ensures o.waitedMs <= pane.clockMs - old(pane.clockMs)
  {
    patience := 0;
    var view := pane.ReadTail();
    if view == None {
      o := Refusal(PaneReadFailed, false, EXIT_READ_FAILED, 0, 0, eyes.identify(""));
      return;
    }
    var who := eyes.identify(view.value);
    var n := ClearOverlay(pane, eyes, flat, who, view.value);
    if n.Stop? {
      o := n.outcome;
    } else {
      o, patience := SendWhenUnblocked(pane, eyes, flat, who, n.screen, n.polls, opts);
    }
    SettledInTime(eyes, flat, pane.view, pane.tally, o);
    PollsInAll(opts.waitMs, Max(1, opts.pollMs));
  }

  // ------------------------------------------------------------------ with the pane rules

  /** deliver */
  method Deliver(pane: Pane, r: Rules, flag: Option<string>, env: Option<string>, text: string, opts: Options)
    returns (o: Outcome, ghost eyes: Eyes, ghost patience: nat)
    requires ValidRules(r) && pane.tally == UNTOUCHED
    modifies pane
    ensures 0 <= Waited(pane.tally) <= opts.waitMs && (patience == 0 ==> Waited(pane.tally) == 0)
    ensures pane.tally.slept <= opts.waitMs + 11500
    ensures o.exit == 3 ==> o.waitedMs >= opts.waitMs
    ensures o.polls <= 2 + CeilDiv(opts.waitMs, Max(1, opts.pollMs))
    ensures o.waitedMs <= pane.clockMs - old(pane.clockMs)
    ensures o.harness == eyes.identify(FirstScreen(pane.tally))
    ensures patience <= CeilDiv(opts.waitMs, Max(1, opts.pollMs))
    ensures AsPlanned(PlanOf(eyes, pane.view, patience), pane.view, pane.tally)
    ensures Kept(eyes, Flattened(text), pane.view, pane.tally, o)
    ensures eyes == EyesOf(r, flag, env, Flattened(text))
  {
    var flat := Flatten(text);
    var sight := EyesOf(r, flag, env, flat);
    eyes := sight;
    o, patience := Attempt(pane, sight, flat, opts);
  }

  /** Success means submitted and seen: the exit code is zero exactly for the delivered states and
      for a send shown in the queue. */
  lemma ExitZeroIsDelivered(o: Outcome)
    requires InTable(o)
    ensures o.exit == EXIT_DELIVERED <==>
            o.submitted && (o.state == DeliveredAcked || o.state == DeliveredNoAck || o.queued)
  {
  }
}
