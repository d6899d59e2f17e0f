// What the sender types into, as a function of what the pane shows: the part of `deliver` before
// the text goes out (crates/odin-say/src/say.rs:494-697). `view(k)` is the tail that the k-th read
// shows, None if that read fails; a pane that reacts to the sender in any way shows some such
// sequence. `patience` is how many polls the busy wait has time for.

module Typing {
  import opened Wrappers
  import opened PaneScreen
  import opened Text
  import opened Log

  /** How the sender judges a pane's text; nothing about delivery depends on how. */
  datatype Eyes = Eyes(
    blocked: string -> bool, dismissible: string -> bool, busy: string -> bool, capped: string -> Option<CapHit>,
    stale: string -> bool, inBar: string -> bool, answered: string -> bool, echoed: string -> bool,
    queueHint: string -> bool, queued: (string, string) -> bool, midTurn: string -> MidTurn,
    identify: string -> Identity)

  type Views = nat -> Option<string>

  /** The tails of the raw screens. */
  function Tails(screens: nat -> Option<string>): Views {
    (k: nat) => match screens(k) case Some(raw) => Some(Tail14(raw)) case None => None
  }

  function Shown(view: Views, k: nat): string {
    view(k).GetOr("")
  }

  /** The read after which no overlay is in the way. */
  function OverlayCleared(eyes: Eyes, view: Views): Option<nat> {
    if view(0) == None then None
    else if !eyes.blocked(Shown(view, 0)) then Some(0)
    else if !eyes.dismissible(Shown(view, 0)) || view(1) == None || eyes.blocked(Shown(view, 1)) then None
    else Some(1)
  }

  /** From the busy read `k`, the first idle one within `patience` polls, unless a poll fails or is
      blocked. */
  function WaitedTo(eyes: Eyes, view: Views, k: nat, patience: nat): Option<nat>
    decreases patience
  {
    if patience == 0 || view(k + 1) == None || eyes.blocked(Shown(view, k + 1)) then None
    else if !eyes.busy(Shown(view, k + 1)) then Some(k + 1)
    else WaitedTo(eyes, view, k + 1, patience - 1)
  }

  /** From the idle read `k`, the read on which the text is typed: `k` itself, or the next one if
      stale input had to be cleared. */
  function StaleCleared(eyes: Eyes, view: Views, k: nat): Option<nat> {
    if eyes.capped(Shown(view, k)).Some? then None
    else if !eyes.stale(Shown(view, k)) then Some(k)
    else if view(k + 1) == None || eyes.blocked(Shown(view, k + 1)) || eyes.stale(Shown(view, k + 1)) then None
    else Some(k + 1)
  }

  /** Nothing is typed; or the text goes into a queue on read `at`; or, the pane being idle on read
      `ready`, on read `at`. */
  datatype Plan = TypeNothing | TypeIntoQueue(at: nat) | TypeIdle(ready: nat, at: nat)

  function FromReady(eyes: Eyes, view: Views, ready: nat): Plan {
    match StaleCleared(eyes, view, ready)
    case None => TypeNothing
    case Some(at) => TypeIdle(ready, at)
  }

  /** From the unblocked read `k`, for the harness that was identified. */
  function FromUnblocked(eyes: Eyes, view: Views, k: nat, harness: string, patience: nat): Plan {
    if !eyes.busy(Shown(view, k)) then FromReady(eyes, view, k)
    else if eyes.midTurn(harness) == Queue then TypeIntoQueue(k)
    else
      match WaitedTo(eyes, view, k, patience)
      case None => TypeNothing
      case Some(ready) => FromReady(eyes, view, ready)
  }

  function PlanOf(eyes: Eyes, view: Views, patience: nat): Plan {
    match OverlayCleared(eyes, view)
    case None => TypeNothing
    case Some(k) => FromUnblocked(eyes, view, k, eyes.identify(Shown(view, 0)).harness, patience)
  }

  /** `n` polls after read `k` all showed a busy, unblocked pane. */
  ghost predicate BusyPolls(eyes: Eyes, view: Views, k: nat, n: nat) {
    forall i :: k < i <= k + n ==> view(i).Some? && !eyes.blocked(Shown(view, i)) && eyes.busy(Shown(view, i))
  }

  lemma {:induction false} WaitedPast(eyes: Eyes, view: Views, k: nat, n: nat, more: nat)
    requires BusyPolls(eyes, view, k, n)
    ensures WaitedTo(eyes, view, k, n + more) == WaitedTo(eyes, view, k + n, more)
    decreases n
  {
    if n > 0 {
      assert view(k + 1).Some? && eyes.busy(Shown(view, k + 1));
      WaitedPast(eyes, view, k + 1, n - 1, more);
    }
  }

  predicate ReadsIdle(eyes: Eyes, view: Views, k: nat) {
    view(k).Some? && !eyes.blocked(Shown(view, k)) && !eyes.busy(Shown(view, k))
  }

  /** The busy wait ends well on read `r` exactly if `r` is within its patience, readable, unblocked
      and idle, and everything between was busy and unblocked. */
  lemma {:induction false} WaitedIsIdle(eyes: Eyes, view: Views, k: nat, patience: nat, r: nat)
    ensures WaitedTo(eyes, view, k, patience) == Some(r) <==>
              k < r <= k + patience && ReadsIdle(eyes, view, r) && BusyPolls(eyes, view, k, r - k - 1)
    decreases patience
  {
    if k < r <= k + patience && ReadsIdle(eyes, view, r) && BusyPolls(eyes, view, k, r - k - 1) {
      WaitedPast(eyes, view, k, r - k - 1, patience - (r - k - 1));
    } else if patience > 0 {
      WaitedIsIdle(eyes, view, k + 1, patience - 1, r);
    }
  }

  // ------------------------------------------------------------------ what it is typed into

  predicate Idle(eyes: Eyes, screen: string) {
    !eyes.busy(screen) && eyes.capped(screen) == None
  }

  /** Wherever the text is typed, the last read succeeded and was not blocked; off the queue path it
      showed no stale input, and one read earlier at most the pane was idle and uncapped. */
  lemma TypedUnblocked(eyes: Eyes, view: Views, patience: nat)
    ensures match PlanOf(eyes, view, patience)
            case TypeNothing => true
            case TypeIntoQueue(at) => view(at).Some? && !eyes.blocked(Shown(view, at)) && eyes.busy(Shown(view, at))
            case TypeIdle(ready, at) =>
              && view(at).Some? && !eyes.blocked(Shown(view, at)) && !eyes.stale(Shown(view, at))
              && ReadsIdle(eyes, view, ready) && eyes.capped(Shown(view, ready)) == None
              && at == if eyes.stale(Shown(view, ready)) then ready + 1 else ready
  {
    var k := OverlayCleared(eyes, view);
    if k.Some? && WaitedTo(eyes, view, k.value, patience).Some? {
      WaitedIsIdle(eyes, view, k.value, patience, WaitedTo(eyes, view, k.value, patience).value);
    }
  }

  /** Off the queue path the text goes into an idle, uncapped pane exactly if nothing stale had to be
      cleared, or the read after the clearing still shows such a pane: it is not looked at again. */
  lemma TypedIdle(eyes: Eyes, view: Views, patience: nat)
    requires PlanOf(eyes, view, patience).TypeIdle?
    ensures var ready := PlanOf(eyes, view, patience).ready;
            Idle(eyes, Shown(view, PlanOf(eyes, view, patience).at)) <==>
              !eyes.stale(Shown(view, ready)) || Idle(eyes, Shown(view, ready + 1))
  {
    TypedUnblocked(eyes, view, patience);
  }

  /** The text goes into a pane that shows a cap. */
  predicate TypesIntoCapped(eyes: Eyes, view: Views, patience: nat) {
    match PlanOf(eyes, view, patience)
    case TypeNothing => false
    case TypeIntoQueue(at) => eyes.capped(Shown(view, at)).Some?
    case TypeIdle(_, at) => eyes.capped(Shown(view, at)).Some?
  }

  /** The read `k` after the overlay shows a busy pane, and the harness seen first takes text then. */
  predicate QueuePath(eyes: Eyes, view: Views, k: nat) {
    && OverlayCleared(eyes, view) == Some(k) && eyes.busy(Shown(view, k))
    && eyes.midTurn(eyes.identify(Shown(view, 0)).harness) == Queue
  }

  /** Off the queue path the pane is ready on read `ready`: the first idle one after the overlay,
      within the patience of the wait. */
  ghost predicate ReadyOn(eyes: Eyes, view: Views, patience: nat, ready: nat) {
    && ReadsIdle(eyes, view, ready)
    && match OverlayCleared(eyes, view)
       case None => false
       case Some(k) =>
         || k == ready
         || (k < ready <= k + patience && eyes.busy(Shown(view, k)) && !QueuePath(eyes, view, k)
             && BusyPolls(eyes, view, k, ready - k - 1))
  }

  lemma ReadyIsPlanned(eyes: Eyes, view: Views, patience: nat, ready: nat)
    ensures ReadyOn(eyes, view, patience, ready) ==> PlanOf(eyes, view, patience) == FromReady(eyes, view, ready)
    ensures PlanOf(eyes, view, patience).TypeIdle? && PlanOf(eyes, view, patience).ready == ready ==>
              ReadyOn(eyes, view, patience, ready)
  {
    var k := OverlayCleared(eyes, view);
    if k.Some? {
      WaitedIsIdle(eyes, view, k.value, patience, ready);
    }
  }

  /** Stale input on the uncapped read `k` clears to an unblocked screen that shows a cap. */
  predicate ClearingCaps(eyes: Eyes, view: Views, k: nat) {
    && eyes.stale(Shown(view, k)) && eyes.capped(Shown(view, k)) == None
    && view(k + 1).Some? && !eyes.blocked(Shown(view, k + 1)) && !eyes.stale(Shown(view, k + 1))
    && eyes.capped(Shown(view, k + 1)).Some?
  }

  /** Nothing is typed into a capped pane, except in exactly two cases: the pane of a queue harness
      is busy and capped at once after the overlay, or it is ready with stale input and clearing
      that uncovers a cap. */
  lemma CappedIsTypedInto(eyes: Eyes, view: Views, patience: nat)
    ensures TypesIntoCapped(eyes, view, patience) <==>
              || (exists k :: QueuePath(eyes, view, k) && eyes.capped(Shown(view, k)).Some?)
              || (exists ready :: ReadyOn(eyes, view, patience, ready) && ClearingCaps(eyes, view, ready))
  {
    if TypesIntoCapped(eyes, view, patience) {
      match PlanOf(eyes, view, patience)
      case TypeIntoQueue(at) => assert QueuePath(eyes, view, at);
      case TypeIdle(ready, _) => CappedAfterClearing(eyes, view, patience, ready);
    }
    if k :| QueuePath(eyes, view, k) && eyes.capped(Shown(view, k)).Some? {
      assert PlanOf(eyes, view, patience) == TypeIntoQueue(k);
    }
    if ready :| ReadyOn(eyes, view, patience, ready) && ClearingCaps(eyes, view, ready) {
      ReadyIsPlanned(eyes, view, patience, ready);
    }
  }

  lemma CappedAfterClearing(eyes: Eyes, view: Views, patience: nat, ready: nat)
    requires TypesIntoCapped(eyes, view, patience) && PlanOf(eyes, view, patience).TypeIdle?
    requires PlanOf(eyes, view, patience).ready == ready
    ensures ReadyOn(eyes, view, patience, ready) && ClearingCaps(eyes, view, ready)
  {
    ReadyIsPlanned(eyes, view, patience, ready);
  }

  // ------------------------------------------------------------------ with the pane rules

  /** The sender's eyes: the rules file, the caller's choice of harness, and the text's head. */
  function EyesOf(r: Rules, flag: Option<string>, env: Option<string>, flat: string): Eyes {
    var head := Head(flat);
    Eyes(
      screen => Blocked(screen, r),
      screen => Contains(screen, r.dismissibleOverlay),
      screen => BusyLines(ScreenLines(screen), r),
      screen => Capped(screen, r),
      screen => StaleInput(screen),
      screen => InBar(screen, head),
      screen => Answered(screen, head),
      screen => Contains(screen, head),
      screen => Contains(screen, "queued messages"),
      (harness, screen) => ShowsQueued(screen, head, QueueEvidenceFor(r, harness)),
      harness => MidTurnFor(r, harness),
      screen => Identify(flag, env, screen, r))
  }

  /** What each eye looks for, in terms of the lines on the screen and the first forty characters of
      the text. */
  lemma EyesSee(
    r: Rules, flag: Option<string>, env: Option<string>, flat: string, head: string, screen: string, harness: string)
    requires head <= flat && |head| <= 40 && (|head| < 40 ==> head == flat)
    ensures var eyes, lines := EyesOf(r, flag, env, flat), ScreenLines(screen);
            && (eyes.blocked(screen) <==> AsksPermission(lines, r))
            && (eyes.stale(screen) <==> BarIsTyped(lines))
            && (eyes.inBar(screen) <==> BarHolds(lines, head))
            && (eyes.answered(screen) <==> RespondsBelow(lines, head))
            && (eyes.queued(harness, screen) <==> QueueHolds(lines, head, QueueEvidenceFor(r, harness)))
            && (eyes.echoed(screen) <==> Contains(screen, head))
  {
    assert head == Head(flat);
    BlockedExactly(screen, r);
    StaleExactly(screen);
    InBarExactly(screen, head);
    AnsweredExactly(screen, head);
    QueuedExactly(screen, head, QueueEvidenceFor(r, harness));
  }

  // ------------------------------------------------------------------ a pane where it happens

  /** Rules in the manner of the embedded ones, with one marker of each kind. */
  const SAMPLE_RULES := Rules(
    ["Working ("], ["Thinking"], ["Thinking level"], "*", ["Do you want to proceed"], ["bypass permissions"],
    "enter insert", [HarnessRules("codex", ["Ask Codex"], Queue, ["queued"])], [CapMarker("daily", ["429"])],
    ["assistant:"], "reset", 3)

  /** An idle pane with a stale "x" in its input bar, which Enter turns into a cap message. */
  function CapUncovered(): Views {
    (k: nat) => Some(if k == 0 then STALE_SCREEN else CAP_SCREEN)
  }

  lemma InkIsNotBlank(s: string)
    requires s != "" && !IsWhitespace(s[0])
    ensures !BlankLine(s)
  {
  }

  lemma OneOfEachIsValid(r: Rules, h: HarnessRules, m: CapMarker)
    requires r.harnesses == [h] && r.capMarkers == [m] && h.detect != [] && h.queueEvidence != [] && m.all != []
    requires r.statusMarkers != [] && r.busyWords != [] && r.blocked != [] && r.outputMarkers != [] && r.liveTail > 0
    requires !BlankLine(m.id) && !BlankLine(r.resetHeader) && !BlankLine(r.spinnerGlyphs)
    ensures ValidRules(r)
  {
  }

  lemma SampleRulesAreValid()
    ensures ValidRules(SAMPLE_RULES)
  {
    InkIsNotBlank("daily");
    InkIsNotBlank("reset");
    InkIsNotBlank("*");
    OneOfEachIsValid(SAMPLE_RULES, SAMPLE_RULES.harnesses[0], SAMPLE_RULES.capMarkers[0]);
  }

  lemma OneLineScreen(s: string)
    requires s != "" && '\n' !in s
    ensures ScreenLines(s) == [s] && Tail14(s) == s
  {
    assert Split(s) == [s] by {
      JoinedPieces([s]);
    }
    assert [s][..0] == [];
  }

  lemma OneBlock(s: string)
    requires !BlankLine(s)
    ensures Blocks([s]) == [Block(0, [s])] && Join([s]) == s
  {
    assert [s][..0] == [] && Blocks([]) == [];
  }

  lemma SampleMarker(s: string)
    ensures MarkerIn(SAMPLE_RULES.capMarkers, s).Some? <==> Contains(s, "429")
  {
    var m := CapMarker("daily", ["429"]);
    assert SAMPLE_RULES.capMarkers == [m] && m in [m];
    assert m.all[0] == "429";
    assert Matches(m, s) <==> Contains(s, "429");
  }

  /** A one-line screen is capped under the sample rules exactly when it names the marker. */
  lemma OneLineCap(s: string)
    requires '\n' !in s && !BlankLine(s)
    ensures Capped(s, SAMPLE_RULES).Some? <==> Contains(s, "429")
  {
    var b := Block(0, [s]);
    OneLineScreen(s);
    OneBlock(s);
    SampleMarker(s);
    assert [b][..0] == [] && LastHit([], SAMPLE_RULES) == None;
    assert !OutputAfter([s], 0, SAMPLE_RULES);
  }

  lemma TooShort(s: string, part: string)
    requires |s| < |part|
    ensures !Contains(s, part)
  {
  }

  lemma SameLength(s: string, part: string)
    requires |s| == |part|
    ensures Contains(s, part) <==> s == part
  {
    assert s[0..|s|] == s;
    if s == part {
      assert OccursAt(s, part, 0);
    }
  }

  /** A three-character screen is too short for any sample marker but the cap's. */
  lemma ShortScreen(s: string)
    requires |s| == 3 && '\n' !in s && '*' !in s
    ensures !Blocked(s, SAMPLE_RULES) && !BusyLines(ScreenLines(s), SAMPLE_RULES)
  {
    OneLineScreen(s);
    TooShort(s, "Working (");
    TooShort(s, "Thinking");
    TooShort(s, "Do you want to proceed");
  }

  const STALE_SCREEN := "\U{276F} x"
  const CAP_SCREEN := "429"

  lemma OneLineBar(s: string)
    requires s != "" && '\n' !in s
    ensures InputBar(s) == if IsPrompt(s) then Some(s) else None
  {
    OneLineScreen(s);
    assert [s][..0] == [] && LastPrompt([]) == None;
  }

  lemma CapScreenCapped(s: string)
    requires s == CAP_SCREEN
    ensures Capped(s, SAMPLE_RULES).Some?
  {
    InkIsNotBlank(s);
    SameLength(s, "429");
    OneLineCap(s);
  }

  lemma NoPrompt(s: string)
    requires s != "" && s[0] != '\U{203A}' && s[0] != '\U{276F}'
    ensures !IsPrompt(s)
  {
    if |s| >= 2 {
      assert s[..2][0] == s[0];
    }
  }

  lemma CapScreenClean(s: string)
    requires s == CAP_SCREEN
    ensures !StaleInput(s)
  {
    NoPrompt(s);
    OneLineBar(s);
  }

  lemma StaleScreenUncapped(s: string)
    requires s == STALE_SCREEN
    ensures Capped(s, SAMPLE_RULES) == None
  {
    InkIsNotBlank(s);
    assert s[0] != "429"[0];
    SameLength(s, "429");
    OneLineCap(s);
  }

  lemma ShortBarIsStale(s: string)
    requires InputBar(s) == Some(s) && |s| == 3 && !IsWhitespace(s[2])
    ensures StaleInput(s)
  {
    TooShort(s, "Ask Codex");
    TooShort(s, "Press up to edit");
  }

  lemma PromptChars(s: string)
    requires |s| >= 2 && s[0] == '\U{276F}' && s[1] == ' '
    ensures IsPrompt(s)
  {
    assert s[..2] == [s[0], s[1]];
  }

  lemma ShortPromptIsStale(s: string)
    requires |s| == 3 && '\n' !in s && s[0] == '\U{276F}' && s[1] == ' ' && !IsWhitespace(s[2])
    ensures StaleInput(s)
  {
    PromptChars(s);
    OneLineBar(s);
    ShortBarIsStale(s);
  }

  lemma StaleScreenStale(s: string)
    requires s == STALE_SCREEN
    ensures StaleInput(s)
  {
    assert s[2] == 'x';
    ShortPromptIsStale(s);
  }

  lemma StaleScreenJudged(s: string)
    requires s == STALE_SCREEN
    ensures !Blocked(s, SAMPLE_RULES) && !BusyLines(ScreenLines(s), SAMPLE_RULES)
    ensures Capped(s, SAMPLE_RULES) == None && StaleInput(s) && Tail14(s) == s
  {
    OneLineScreen(s);
    ShortScreen(s);
    StaleScreenUncapped(s);
    StaleScreenStale(s);
  }

  lemma CapScreenJudged(s: string)
    requires s == CAP_SCREEN
    ensures !Blocked(s, SAMPLE_RULES) && Capped(s, SAMPLE_RULES).Some? && !StaleInput(s) && Tail14(s) == s
  {
    OneLineScreen(s);
    ShortScreen(s);
    CapScreenCapped(s);
    CapScreenClean(s);
  }

  const BUSY_CAP_SCREEN := "* 429"

  function BusyAndCapped(): Views {
    (k: nat) => Some(BUSY_CAP_SCREEN)
  }

  lemma SpinnerIsBusy(s: string)
    requires 2 <= |s| < 10 && '\n' !in s && s[0] == '*' && s[1] == ' '
    ensures !Blocked(s, SAMPLE_RULES) && BusyLines(ScreenLines(s), SAMPLE_RULES)
  {
    OneLineScreen(s);
    TooShort(s, "Do you want to proceed");
    TooShort(s, "Thinking level");
    assert SpinnerAt(s, SAMPLE_RULES.spinnerGlyphs, 0);
    assert BusyLine([s][0], Live([s], SAMPLE_RULES.liveTail, 0), SAMPLE_RULES);
  }

  lemma CapAfterSpinner(s: string)
    requires |s| == 5 && '\n' !in s && s[0] == '*' && s[2..5] == "429"
    ensures Capped(s, SAMPLE_RULES).Some?
  {
    assert OccursAt(s, "429", 2);
    InkIsNotBlank(s);
    OneLineCap(s);
  }

  lemma BusyCapJudged(s: string)
    requires |s| == 5 && '\n' !in s && s[0] == '*' && s[1] == ' ' && s[2..5] == "429"
    ensures !Blocked(s, SAMPLE_RULES) && BusyLines(ScreenLines(s), SAMPLE_RULES)
    ensures Capped(s, SAMPLE_RULES).Some? && Tail14(s) == s
  {
    OneLineScreen(s);
    SpinnerIsBusy(s);
    CapAfterSpinner(s);
  }

  lemma BusyCapScreenJudged(s: string)
    requires s == BUSY_CAP_SCREEN
    ensures !Blocked(s, SAMPLE_RULES) && BusyLines(ScreenLines(s), SAMPLE_RULES)
    ensures Capped(s, SAMPLE_RULES).Some? && Tail14(s) == s
  {
    assert s[2..5] == "429";
    BusyCapJudged(s);
  }

  lemma SampleHarnessQueues(screen: string)
    ensures MidTurnFor(SAMPLE_RULES, Identify(Some("codex"), None, screen, SAMPLE_RULES).harness) == Queue
  {
    InkIsNotBlank("codex");
  }

  lemma TypedIntoQueue(eyes: Eyes, view: Views, patience: nat, s: string)
    requires view(0) == Some(s) && !eyes.blocked(s) && eyes.busy(s) && eyes.midTurn(eyes.identify(s).harness) == Queue
    ensures PlanOf(eyes, view, patience) == TypeIntoQueue(0)
  {
  }

  /** A busy pane of a queue harness is typed into whatever cap it shows, under the same rules. */
  lemma QueueIgnoresCap(flat: string, patience: nat, eyes: Eyes)
    requires eyes == EyesOf(SAMPLE_RULES, Some("codex"), None, flat)
    ensures ValidRules(SAMPLE_RULES)
    ensures PlanOf(eyes, Tails(BusyAndCapped()), patience) == TypeIntoQueue(0)
    ensures Tails(BusyAndCapped())(0).Some? && eyes.capped(Shown(Tails(BusyAndCapped()), 0)).Some?
  {
    SampleRulesAreValid();
    BusyCapScreenJudged(BUSY_CAP_SCREEN);
    SampleHarnessQueues(BUSY_CAP_SCREEN);
    TypedIntoQueue(eyes, Tails(BusyAndCapped()), patience, BUSY_CAP_SCREEN);
  }

  /** An idle first screen with stale input that clears to an unblocked screen without any: the text
      goes there, whatever else that screen shows. */
  lemma TypedAfterClearing(eyes: Eyes, view: Views, patience: nat, s0: string, s1: string)
    requires view(0) == Some(s0) && view(1) == Some(s1)
    requires !eyes.blocked(s0) && !eyes.busy(s0) && eyes.capped(s0) == None && eyes.stale(s0)
    requires !eyes.blocked(s1) && !eyes.stale(s1)
    ensures PlanOf(eyes, view, patience) == TypeIdle(0, 1)
  {
  }

  /** On that pane the sender types into the capped seat, under rules it accepts. */
  lemma ClearingUncoversCap(flat: string, patience: nat, eyes: Eyes)
    requires eyes == EyesOf(SAMPLE_RULES, None, None, flat)
    ensures ValidRules(SAMPLE_RULES)
    ensures PlanOf(eyes, Tails(CapUncovered()), patience) == TypeIdle(0, 1)
    ensures Tails(CapUncovered())(1).Some? && eyes.capped(Shown(Tails(CapUncovered()), 1)).Some?
  {
    SampleRulesAreValid();
    StaleScreenJudged(STALE_SCREEN);
    CapScreenJudged(CAP_SCREEN);
    TypedAfterClearing(eyes, Tails(CapUncovered()), patience, STALE_SCREEN, CAP_SCREEN);
  }
}
