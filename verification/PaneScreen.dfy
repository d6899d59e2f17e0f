// What the sender reads off a pane: the last fourteen lines of text, and the rules that turn
// them into busy, blocked, capped or stale (crates/odin-say/src/say.rs:124-380, rules.rs,
// identity.rs).

module PaneScreen {
  import opened Wrappers
  import opened Sequences
  import opened Text
  import opened Log
  import UtcTime

  datatype MidTurn = Queue | Refuse

  datatype CapMarker = CapMarker(id: string, all: seq<string>)

  datatype HarnessRules = HarnessRules(name: string, detect: seq<string>, midTurn: MidTurn, queueEvidence: seq<string>)

  /** The rules file. `harnesses` is the table in its iteration order. */
  datatype Rules = Rules(
    statusMarkers: seq<string>, busyWords: seq<string>, busyExclusions: seq<string>, spinnerGlyphs: string,
    blocked: seq<string>, blockedExclusions: seq<string>, dismissibleOverlay: string,
    harnesses: seq<HarnessRules>, capMarkers: seq<CapMarker>, outputMarkers: seq<string>, resetHeader: string,
    liveTail: nat)

  /** PaneRules::parse accepts exactly these (the schema string aside). */
  predicate ValidRules(r: Rules) {
    && r.statusMarkers != [] && r.busyWords != [] && r.blocked != [] && r.harnesses != []
    && r.capMarkers != [] && (forall m :: m in r.capMarkers ==> !BlankLine(m.id) && m.all != [])
    && r.outputMarkers != [] && !BlankLine(r.resetHeader)
    && (forall h :: h in r.harnesses ==> h.detect != [] && (h.midTurn == Queue ==> h.queueEvidence != []))
    && !BlankLine(r.spinnerGlyphs) && r.liveTail > 0
  }

  // ------------------------------------------------------------------ lines

  function StripReturn(): string -> string {
    (line: string) => if line != "" && line[|line| - 1] == '\r' then line[..|line| - 1] else line
  }

  /** str::lines: newline-terminated pieces, less a carriage return before the newline, and what
      follows the last newline unless it is empty. */
  function ScreenLines(screen: string): seq<string> {
    var pieces := Split(screen);
    Map(pieces[..|pieces| - 1], StripReturn()) + if pieces[|pieces| - 1] == "" then [] else [pieces[|pieces| - 1]]
  }

  lemma WholeLines(text: string, lines: seq<string>)
    requires Split(text) == lines + [""]
    ensures ScreenLines(text) == Map(lines, StripReturn())
  {
    assert (lines + [""])[..|lines|] == lines;
  }

  lemma OpenLine(text: string, lines: seq<string>, last: string)
    requires Split(text) == lines + [last] && last != ""
    ensures ScreenLines(text) == Map(lines, StripReturn()) + [last]
  {
    assert (lines + [last])[..|lines|] == lines;
  }

  lemma EndsInEmpty(text: string) returns (lines: seq<string>)
    requires WellFormed(text)
    ensures Split(text) == lines + [""]
  {
    WellFormedSplit(text);
    lines := Split(text)[..|Split(text)| - 1];
  }

  lemma SplitSnoc(text: string, line: string, longer: string, lines: seq<string>)
    requires Split(text) == lines + [""] && '\n' !in line && longer == text + line + "\n"
    ensures Split(longer) == lines + [line] + [""]
  {
    SplitLine(text, line);
    assert (lines + [""])[..|lines|] == lines && "" + line == line;
    assert lines + [line] + [""] == lines + [line, ""];
  }

  lemma ScreenSnoc(text: string, line: string, longer: string, lines: seq<string>)
    requires Split(text) == lines + [""] && Split(longer) == lines + [line] + [""]
    ensures ScreenLines(longer) == ScreenLines(text) + [StripReturn()(line)]
  {
    WholeLines(text, lines);
    WholeLines(longer, lines + [line]);
    MapSnoc(lines, line, StripReturn());
  }

  lemma Stripped(line: string, returned: string)
    requires returned == line + "\r"
    ensures StripReturn()(returned) == line
  {
    assert returned[..|line|] == line;
  }

  /** A line counts the same whether it ends in a newline or in a carriage return and a newline. */
  lemma LineEndings(text: string, line: string, returned: string)
    requires WellFormed(text) && '\n' !in line && (line == "" || line[|line| - 1] != '\r') && returned == line + "\r"
    ensures ScreenLines(text + line + "\n") == ScreenLines(text) + [line]
    ensures ScreenLines(text + returned + "\n") == ScreenLines(text) + [line]
  {
    var lines := EndsInEmpty(text);
    var plain, longer := text + line + "\n", text + returned + "\n";
    SplitSnoc(text, line, plain, lines);
    ScreenSnoc(text, line, plain, lines);
    SplitSnoc(text, returned, longer, lines);
    ScreenSnoc(text, returned, longer, lines);
    Stripped(line, returned);
  }

  /** A last line without an ending counts too, unless it is empty. */
  lemma LastLineCounts(text: string, line: string)
    requires WellFormed(text) && '\n' !in line && line != ""
    ensures ScreenLines(text + line) == ScreenLines(text) + [line]
  {
    var lines := EndsInEmpty(text);
    SplitSuffix(text, line);
    assert (lines + [""])[..|lines|] == lines && "" + line == line;
    WholeLines(text, lines);
    OpenLine(text + line, lines, line);
  }

  function Last<T>(s: seq<T>, n: nat): seq<T> {
    if |s| <= n then s else s[|s| - n..]
  }

  /** tail14 */
  function Tail14(raw: string): string {
    Join(Last(ScreenLines(raw), 14))
  }

  lemma SplitNewline(text: string, line: string)
    requires '\n' !in line
    ensures Split(text + "\n" + line) == Split(text) + [line]
  {
    assert (text + "\n")[..|text|] == text;
    SplitSuffix(text + "\n", line);
    assert "" + line == line;
  }

  lemma {:induction false} JoinedPieces(lines: seq<string>)
    requires lines != [] && NewlineFree(lines)
    ensures Split(Join(lines)) == lines
  {
    var init, last := lines[..|lines| - 1], lines[|lines| - 1];
    assert lines == init + [last];
    if |lines| == 1 {
      SplitSuffix("", last);
      assert "" + last == last;
    } else {
      JoinedPieces(init);
      SplitNewline(Join(init), last);
    }
  }

  lemma ScreenLinesNewlineFree(screen: string)
    ensures NewlineFree(ScreenLines(screen))
  {
  }

  /** The sender never reasons about more than fourteen lines, and sees the raw text's last ones
      as they are, carriage returns and a blank last line aside. */
  lemma TailIsShort(raw: string)
    ensures |ScreenLines(Tail14(raw))| <= 14
    ensures var seen := Last(ScreenLines(raw), 14);
            seen != [] ==> Split(Tail14(raw)) == seen
  {
    ScreenLinesNewlineFree(raw);
    var seen := Last(ScreenLines(raw), 14);
    if seen != [] {
      JoinedPieces(seen);
    } else {
      assert Split("") == [""];
    }
  }

  // ------------------------------------------------------------------ flatten

  predicate IsBreak(ch: char) {
    ch == '\n' || ch == '\r' || ch == '\t'
  }

  function Spaced(): char -> char {
    (ch: char) => if IsBreak(ch) then ' ' else ch
  }

  /** Runs of spaces become one. */
  function Collapse(s: string): string {
    if s == "" then ""
    else
      var before, last := Collapse(s[..|s| - 1]), s[|s| - 1];
      if last == ' ' && |s| > 1 && s[|s| - 2] == ' ' then before else before + [last]
  }

  function Flattened(text: string): string {
    Collapse(Map(text, Spaced()))
  }

  /** flatten */
  method Flatten(text: string) returns (out: string)
    ensures out == Flattened(text)
  {
    var spaced := Map(text, Spaced());
    out := "";
    var lastSpace := false;
    for i := 0 to |spaced|
      invariant out == Collapse(spaced[..i])
      invariant lastSpace <==> i > 0 && spaced[i - 1] == ' '
    {
      assert spaced[..i + 1][..i] == spaced[..i];
      if spaced[i] == ' ' {
        if !lastSpace { out := out + " "; }
        lastSpace := true;
      } else {
        out := out + [spaced[i]];
        lastSpace := false;
      }
    }
    assert spaced[..|spaced|] == spaced;
  }

  predicate OneLine(s: string) {
    && (forall i :: 0 <= i < |s| ==> !IsBreak(s[i]))
    && (forall i :: 0 < i < |s| ==> !(s[i - 1] == ' ' && s[i] == ' '))
  }

  predicate Visible(ch: char) {
    ch != ' ' && !IsBreak(ch)
  }

  /** The same words, and blanks or none at the same ends. */
  predicate SameWords(a: string, b: string) {
    && WordsOf(a, Visible) == WordsOf(b, Visible) && (EndsIn(a, Visible) <==> EndsIn(b, Visible))
    && (a == "" <==> b == "") && (a != "" ==> (Visible(a[0]) <==> Visible(b[0])))
  }

  lemma SameWordsSnoc(a: string, b: string, ch: char)
    requires SameWords(a, b)
    ensures SameWords(a + [ch], b + [ch])
  {
    assert (a + [ch])[..|a|] == a && (b + [ch])[..|b|] == b;
  }

  lemma BlankSnoc(s: string)
    requires s != "" && !EndsIn(s, Visible)
    ensures SameWords(s, s + " ")
  {
    assert (s + " ")[..|s|] == s;
  }

  lemma {:induction false} CollapseFacts(s: string)
    requires forall i :: 0 <= i < |s| ==> !IsBreak(s[i])
    ensures OneLine(Collapse(s))
    ensures s != "" ==> Collapse(s) != "" && Collapse(s)[|Collapse(s)| - 1] == s[|s| - 1]
  {
    if s != "" {
      CollapseFacts(s[..|s| - 1]);
    }
  }

  lemma {:induction false} CollapseKeepsWords(s: string)
    ensures SameWords(Collapse(s), s)
  {
    if s != "" {
      var init, last := s[..|s| - 1], s[|s| - 1];
      CollapseKeepsWords(init);
      assert s == init + [last];
      if last == ' ' && |s| > 1 && s[|s| - 2] == ' ' {
        BlankSnoc(init);
      } else {
        SameWordsSnoc(Collapse(init), init, last);
      }
    }
  }

  lemma {:induction false} CollapseFixed(s: string)
    requires OneLine(s)
    ensures Collapse(s) == s
  {
    if s != "" {
      CollapseFixed(s[..|s| - 1]);
      assert s == s[..|s| - 1] + [s[|s| - 1]];
    }
  }

  lemma {:induction false} SpacedKeepsWords(text: string)
    ensures SameWords(Map(text, Spaced()), text)
  {
    if text != "" {
      var init := text[..|text| - 1];
      SpacedKeepsWords(init);
      assert Map(text, Spaced())[..|init|] == Map(init, Spaced());
    }
  }

  /** Flattening yields one line without double spaces, keeps the words and whether either end is
      blank, and changes nothing the second time. */
  lemma FlattenIsOneLine(text: string)
    ensures OneLine(Flattened(text)) && SameWords(Flattened(text), text)
    ensures Flattened(Flattened(text)) == Flattened(text)
  {
    CollapseFacts(Map(text, Spaced()));
    CollapseKeepsWords(Map(text, Spaced()));
    SpacedKeepsWords(text);
    var flat := Flattened(text);
    assert Map(flat, Spaced()) == flat;
    CollapseFixed(flat);
  }

  lemma LastLetter(s: string)
    requires EndsIn(s, Visible)
    ensures var words, init := WordsOf(s, Visible), WordsOf(s[..|s| - 1], Visible);
            var word := words[|words| - 1];
            && word[|word| - 1] == s[|s| - 1] && (|word| > 1 <==> EndsIn(s[..|s| - 1], Visible))
            && init == words[..|words| - 1] + if |word| > 1 then [word[..|word| - 1]] else []
  {
  }

  lemma {:induction false} NoWords(s: string)
    requires WordsOf(s, Visible) == []
    ensures forall i :: 0 <= i < |s| ==> !Visible(s[i])
  {
    if s != "" {
      NoWords(s[..|s| - 1]);
    }
  }

  lemma BlankDropped(a: string, b: string)
    requires OneLine(a) && OneLine(b) && SameWords(a, b) && a != "" && !EndsIn(a, Visible)
    ensures a[|a| - 1] == b[|b| - 1] == ' ' && SameWords(a[..|a| - 1], b[..|b| - 1])
  {
    assert |a| > 1 ==> a[|a| - 2] != ' ';
    assert |b| > 1 ==> b[|b| - 2] != ' ';
  }

  lemma LetterDropped(a: string, b: string)
    requires SameWords(a, b) && EndsIn(a, Visible)
    ensures a[|a| - 1] == b[|b| - 1] && SameWords(a[..|a| - 1], b[..|b| - 1])
  {
    LastLetter(a);
    LastLetter(b);
    if WordsOf(a[..|a| - 1], Visible) == [] {
      NoWords(a[..|a| - 1]);
      NoWords(b[..|b| - 1]);
    }
  }

  /** And it is the only such line: the words and the ends settle it. */
  lemma {:induction false} OneLineIsItsWords(a: string, b: string)
    requires OneLine(a) && OneLine(b) && SameWords(a, b)
    ensures a == b
  {
    if a != "" {
      if EndsIn(a, Visible) {
        LetterDropped(a, b);
      } else {
        BlankDropped(a, b);
      }
      OneLineIsItsWords(a[..|a| - 1], b[..|b| - 1]);
      assert a == a[..|a| - 1] + [a[|a| - 1]] && b == b[..|b| - 1] + [b[|b| - 1]];
    }
  }

  // ------------------------------------------------------------------ busy

  predicate SpinnerAt(line: string, glyphs: string, i: nat) {
    i + 1 < |line| && line[i] in glyphs && line[i + 1] == ' '
  }

  predicate HasSpinner(line: string, r: Rules) {
    exists i :: 0 <= i < |line| && SpinnerAt(line, r.spinnerGlyphs, i)
  }

  /** How many of the lines from `i` on are not blank. */
  function TailCount(lines: seq<string>, i: nat): nat
    decreases |lines| - i
  {
    if i >= |lines| then 0 else (if BlankLine(lines[i]) then 0 else 1) + TailCount(lines, i + 1)
  }

  /** One of the last `liveTail` lines that are not blank. */
  predicate Live(lines: seq<string>, liveTail: nat, i: nat) {
    i < |lines| && !BlankLine(lines[i]) && TailCount(lines, i) <= liveTail
  }

  /** live_line_indexes: collected from the bottom up. */
  method LiveLineIndexes(lines: seq<string>, liveTail: nat) returns (indexes: seq<nat>)
    requires liveTail > 0
    ensures forall i: nat :: i in indexes <==> Live(lines, liveTail, i)
  {
    indexes := [];
    var index, seen := |lines|, 0;
    while index > 0
      invariant 0 <= index <= |lines|
      invariant seen == TailCount(lines, index) < liveTail
      invariant forall i: nat :: i in indexes <==> index <= i && Live(lines, liveTail, i)
    {
      index := index - 1;
      if BlankLine(lines[index]) {
        continue;
      }
      indexes := indexes + [index];
      seen := seen + 1;
      if seen >= liveTail {
        EarlierCountsMore(lines, index);
        return;
      }
    }
  }

  lemma EarlierCountsMore(lines: seq<string>, index: nat)
    requires index < |lines|
    ensures forall i: nat :: i < index && !BlankLine(lines[i]) ==> TailCount(lines, i) > TailCount(lines, index)
  {
    forall i: nat | i < index && !BlankLine(lines[i]) ensures TailCount(lines, i) > TailCount(lines, index) {
      TailCountMonotone(lines, i + 1, index);
    }
  }

  lemma {:induction false} TailCountMonotone(lines: seq<string>, i: nat, j: nat)
    requires i <= j <= |lines|
    ensures TailCount(lines, i) >= TailCount(lines, j)
    decreases j - i
  {
    if i < j {
      TailCountMonotone(lines, i + 1, j);
    }
  }

  predicate BusyLine(line: string, live: bool, r: Rules) {
    && !ContainsAny(line, r.busyExclusions)
    && (HasSpinner(line, r) || (ContainsAny(line, r.busyWords) && (live || ContainsAny(line, r.statusMarkers))))
  }

  predicate BusyLines(lines: seq<string>, r: Rules) {
    exists i :: 0 <= i < |lines| && BusyLine(lines[i], Live(lines, r.liveTail, i), r)
  }

  /** busy */
  method IsBusy(screen: string, r: Rules) returns (busy: bool)
    requires r.liveTail > 0
    ensures busy <==> BusyLines(ScreenLines(screen), r)
  {
    var lines := ScreenLines(screen);
    var live := LiveLineIndexes(lines, r.liveTail);
    for i := 0 to |lines|
      invariant forall j :: 0 <= j < i ==> !BusyLine(lines[j], Live(lines, r.liveTail, j), r)
    {
      if BusyLine(lines[i], i in live, r) {
        return true;
      }
    }
    return false;
  }

  /** Some of the parts is in the line. */
  ghost predicate Names(line: string, parts: seq<string>) {
    exists j :: 0 <= j < |parts| && Contains(line, parts[j])
  }

  lemma NamesAny(line: string, parts: seq<string>)
    ensures Names(line, parts) <==> ContainsAny(line, parts)
  {
    if p :| p in parts && Contains(line, p) {
      var j :| 0 <= j < |parts| && parts[j] == p;
      assert Contains(line, parts[j]);
    }
  }

  /** When a line makes the pane busy: no exclusion is in it, and it has a spinner glyph before a blank,
      or a busy word while it is live or carries a status marker. */
  lemma BusyLineExactly(line: string, live: bool, r: Rules)
    ensures BusyLine(line, live, r) <==>
              && !Names(line, r.busyExclusions)
              && (|| (exists k :: 0 < k < |line| && line[k - 1] in r.spinnerGlyphs && line[k] == ' ')
                  || (Names(line, r.busyWords) && (live || Names(line, r.statusMarkers))))
  {
    NamesAny(line, r.busyExclusions);
    NamesAny(line, r.busyWords);
    NamesAny(line, r.statusMarkers);
    if HasSpinner(line, r) {
      var i :| 0 <= i < |line| && SpinnerAt(line, r.spinnerGlyphs, i);
      assert line[i + 1 - 1] in r.spinnerGlyphs && line[i + 1] == ' ';
    }
    if k :| 0 < k < |line| && line[k - 1] in r.spinnerGlyphs && line[k] == ' ' {
      assert SpinnerAt(line, r.spinnerGlyphs, k - 1);
    }
  }

  /** Old output: it may name busy words, but shows neither a spinner nor a status marker. */
  ghost predicate Scrollback(lines: seq<string>, r: Rules) {
    forall i :: 0 <= i < |lines| ==> !HasSpinner(lines[i], r) && !ContainsAny(lines[i], r.statusMarkers)
  }

  lemma {:induction false} TailCountConcat(old_: seq<string>, lines: seq<string>, i: nat)
    requires i <= |lines|
    ensures TailCount(old_ + lines, |old_| + i) == TailCount(lines, i)
    decreases |lines| - i
  {
    if i < |lines| {
      TailCountConcat(old_, lines, i + 1);
    }
  }

  /** Leftover scrollback never makes a pane busy: above a full set of live lines, old lines that
      only mention busy words change nothing. */
  lemma ScrollbackIsNotBusy(old_: seq<string>, lines: seq<string>, r: Rules)
    requires Scrollback(old_, r) && TailCount(lines, 0) >= r.liveTail
    ensures BusyLines(old_ + lines, r) <==> BusyLines(lines, r)
  {
    var all := old_ + lines;
    forall i | 0 <= i < |lines|
      ensures BusyLine(all[|old_| + i], Live(all, r.liveTail, |old_| + i), r) <==>
              BusyLine(lines[i], Live(lines, r.liveTail, i), r)
    {
      TailCountConcat(old_, lines, i);
    }
    forall i | 0 <= i < |old_| ensures !BusyLine(all[i], Live(all, r.liveTail, i), r) {
      TailCountConcat(old_, lines, 0);
      TailCountMonotone(all, i + 1, |old_|);
    }
    if BusyLines(all, r) {
      var i :| 0 <= i < |all| && BusyLine(all[i], Live(all, r.liveTail, i), r);
      assert i >= |old_|;
      assert BusyLine(lines[i - |old_|], Live(lines, r.liveTail, i - |old_|), r);
    }
    if BusyLines(lines, r) {
      var i :| 0 <= i < |lines| && BusyLine(lines[i], Live(lines, r.liveTail, i), r);
      assert BusyLine(all[|old_| + i], Live(all, r.liveTail, |old_| + i), r);
    }
  }

  // ------------------------------------------------------------------ blocked

  /** blocked: a prompt on some line that is not an ambient status line. */
  predicate Blocked(screen: string, r: Rules) {
    exists line ::
      && line in ScreenLines(screen)
      && !ContainsAny(line, r.blockedExclusions) && ContainsAny(line, r.blocked)
  }

  /** Some line names a prompt and no ambient status text. */
  ghost predicate AsksPermission(lines: seq<string>, r: Rules) {
    exists i :: 0 <= i < |lines| && Names(lines[i], r.blocked) && !Names(lines[i], r.blockedExclusions)
  }

  /** A pane is blocked exactly if it asks for a permission. */
  lemma BlockedExactly(screen: string, r: Rules)
    ensures Blocked(screen, r) <==> AsksPermission(ScreenLines(screen), r)
  {
    var lines := ScreenLines(screen);
    forall i | 0 <= i < |lines|
      ensures Names(lines[i], r.blocked) <==> ContainsAny(lines[i], r.blocked)
      ensures Names(lines[i], r.blockedExclusions) <==> ContainsAny(lines[i], r.blockedExclusions)
    {
      NamesAny(lines[i], r.blocked);
      NamesAny(lines[i], r.blockedExclusions);
    }
    if i :| 0 <= i < |lines| && Names(lines[i], r.blocked) && !Names(lines[i], r.blockedExclusions) {
      assert lines[i] in lines;
    }
  }

  // ------------------------------------------------------------------ capped

  /** A run of lines that are not blank, and where it starts. */
  datatype Block = Block(start: nat, lines: seq<string>)

  function Blocks(lines: seq<string>): (blocks: seq<Block>)
    ensures lines != [] && !BlankLine(lines[|lines| - 1]) ==> blocks != []
  {
    if lines == [] then []
    else
      var init, last := lines[..|lines| - 1], lines[|lines| - 1];
      var before := Blocks(init);
      if BlankLine(last) then before
      else if init != [] && !BlankLine(init[|init| - 1]) then
        var open := before[|before| - 1];
        before[..|before| - 1] + [Block(open.start, open.lines + [last])]
      else before + [Block(|init|, [last])]
  }

  lemma BlocksNext(lines: seq<string>, i: nat, closed: seq<Block>, current: Option<Block>)
    requires i < |lines| && (current.Some? <==> i > 0 && !BlankLine(lines[i - 1]))
    requires closed + (if current.Some? then [current.value] else []) == Blocks(lines[..i])
    ensures Blocks(lines[..i + 1]) ==
              if BlankLine(lines[i]) then Blocks(lines[..i])
              else closed + [if current.Some? then Block(current.value.start, current.value.lines + [lines[i]])
                             else Block(i, [lines[i]])]
  {
    var shown := lines[..i + 1];
    assert shown[..i] == lines[..i] && shown[i] == lines[i];
    assert i > 0 ==> lines[..i][i - 1] == lines[i - 1];
  }

  /** blocks: a run is collected until a blank line closes it. */
  method CollectBlocks(lines: seq<string>) returns (out: seq<Block>)
    ensures out == Blocks(lines)
  {
    out := [];
    var current: Option<Block> := None;
    for i := 0 to |lines|
      invariant current.Some? <==> i > 0 && !BlankLine(lines[i - 1])
      invariant out + (if current.Some? then [current.value] else []) == Blocks(lines[..i])
    {
      BlocksNext(lines, i, out, current);
      if BlankLine(lines[i]) {
        if current.Some? {
          out := out + [current.value];
        }
        current := None;
        continue;
      }
      current := match current
        case Some(open) => Some(Block(open.start, open.lines + [lines[i]]))
        case None => Some(Block(i, [lines[i]]));
    }
    assert lines[..|lines|] == lines;
    if current.Some? {
      out := out + [current.value];
    }
  }

  /** A maximal run of lines that are not blank. */
  predicate IsBlock(lines: seq<string>, b: Block) {
    var end := b.start + |b.lines|;
    && 0 < |b.lines| && end <= |lines| && b.lines == lines[b.start..end]
    && (forall k :: 0 <= k < |b.lines| ==> !BlankLine(b.lines[k]))
    && (b.start == 0 || BlankLine(lines[b.start - 1]))
    && (end == |lines| || BlankLine(lines[end]))
  }

  predicate InBlock(b: Block, i: int) {
    b.start <= i < b.start + |b.lines|
  }

  ghost predicate AllRuns(lines: seq<string>, blocks: seq<Block>) {
    forall k :: 0 <= k < |blocks| ==> IsBlock(lines, blocks[k])
  }

  ghost predicate InOrder(blocks: seq<Block>) {
    forall j, k :: 0 <= j < k < |blocks| ==> blocks[j].start + |blocks[j].lines| < blocks[k].start
  }

  ghost predicate Covered(blocks: seq<Block>, i: int) {
    exists k :: 0 <= k < |blocks| && InBlock(blocks[k], i)
  }

  /** The blocks are the maximal runs, in order; every line that is not blank is in one. */
  ghost predicate AreBlocks(lines: seq<string>, blocks: seq<Block>) {
    && AllRuns(lines, blocks)
    && InOrder(blocks)
    && (forall i :: 0 <= i < |lines| && !BlankLine(lines[i]) ==> Covered(blocks, i))
  }

  lemma RunStays(lines: seq<string>, b: Block, last: string)
    requires IsBlock(lines, b) && (BlankLine(last) || b.start + |b.lines| < |lines|)
    ensures IsBlock(lines + [last], b)
  {
  }

  lemma RunsStay(lines: seq<string>, blocks: seq<Block>, last: string)
    requires AllRuns(lines, blocks)
    requires BlankLine(last) || forall k :: 0 <= k < |blocks| ==> blocks[k].start + |blocks[k].lines| < |lines|
    ensures AllRuns(lines + [last], blocks)
  {
    forall k | 0 <= k < |blocks| ensures IsBlock(lines + [last], blocks[k]) {
      RunStays(lines, blocks[k], last);
    }
  }

  lemma CoverGrows(blocks: seq<Block>, more: seq<Block>, i: int)
    requires Covered(blocks, i) && |blocks| <= |more|
    requires forall k :: 0 <= k < |blocks| ==> blocks[k].start == more[k].start && |blocks[k].lines| <= |more[k].lines|
    ensures Covered(more, i)
  {
    var k :| 0 <= k < |blocks| && InBlock(blocks[k], i);
    assert InBlock(more[k], i);
  }

  lemma BlocksSnocBlank(lines: seq<string>, blocks: seq<Block>, last: string)
    requires AreBlocks(lines, blocks) && BlankLine(last)
    ensures AreBlocks(lines + [last], blocks)
  {
    RunsStay(lines, blocks, last);
  }

  lemma EndsBeforeBlank(lines: seq<string>, b: Block)
    requires IsBlock(lines, b) && BlankLine(lines[|lines| - 1])
    ensures b.start + |b.lines| < |lines|
  {
    assert b.lines[|b.lines| - 1] == lines[b.start + |b.lines| - 1];
  }

  lemma BlocksSnocOpen(lines: seq<string>, blocks: seq<Block>, last: string)
    requires AreBlocks(lines, blocks) && !BlankLine(last)
    requires lines == [] || BlankLine(lines[|lines| - 1])
    ensures AreBlocks(lines + [last], blocks + [Block(|lines|, [last])])
  {
    var more := blocks + [Block(|lines|, [last])];
    forall k | 0 <= k < |blocks| ensures blocks[k].start + |blocks[k].lines| < |lines| {
      assert IsBlock(lines, blocks[k]);
      EndsBeforeBlank(lines, blocks[k]);
    }
    RunsStay(lines, blocks, last);
    assert IsBlock(lines + [last], more[|blocks|]);
    assert AllRuns(lines + [last], more);
    forall i | 0 <= i < |lines + [last]| && !BlankLine((lines + [last])[i]) ensures Covered(more, i) {
      if i < |lines| {
        CoverGrows(blocks, more, i);
      } else {
        assert InBlock(more[|blocks|], i);
      }
    }
  }

  /** The last line's block is the last block. */
  lemma OpenIsLast(lines: seq<string>, blocks: seq<Block>)
    requires AreBlocks(lines, blocks) && lines != [] && !BlankLine(lines[|lines| - 1])
    ensures blocks != [] && var open := blocks[|blocks| - 1]; open.start + |open.lines| == |lines|
    ensures forall k :: 0 <= k < |blocks| - 1 ==> blocks[k].start + |blocks[k].lines| < |lines|
  {
    assert Covered(blocks, |lines| - 1);
    var k :| 0 <= k < |blocks| && InBlock(blocks[k], |lines| - 1);
    assert IsBlock(lines, blocks[k]) && IsBlock(lines, blocks[|blocks| - 1]);
  }

  lemma RunGrows(lines: seq<string>, b: Block, last: string)
    requires IsBlock(lines, b) && !BlankLine(last) && b.start + |b.lines| == |lines|
    ensures IsBlock(lines + [last], Block(b.start, b.lines + [last]))
  {
    var all := lines + [last];
    assert all[b.start..|all|] == lines[b.start..|lines|] + [last];
  }

  lemma BlocksSnocGrow(lines: seq<string>, blocks: seq<Block>, last: string)
    requires AreBlocks(lines, blocks) && !BlankLine(last) && blocks != []
    requires lines != [] && !BlankLine(lines[|lines| - 1])
    ensures var open := blocks[|blocks| - 1];
            AreBlocks(lines + [last], blocks[..|blocks| - 1] + [Block(open.start, open.lines + [last])])
  {
    var n := |blocks| - 1;
    var grown := blocks[..n] + [Block(blocks[n].start, blocks[n].lines + [last])];
    OpenIsLast(lines, blocks);
    assert IsBlock(lines, blocks[n]);
    RunGrows(lines, blocks[n], last);
    RunsStay(lines, blocks[..n], last);
    assert AllRuns(lines + [last], grown);
    forall i | 0 <= i < |lines + [last]| && !BlankLine((lines + [last])[i]) ensures Covered(grown, i) {
      if i < |lines| {
        CoverGrows(blocks, grown, i);
      } else {
        assert InBlock(grown[n], i);
      }
    }
  }

  lemma BlocksSnoc(lines: seq<string>, last: string)
    requires AreBlocks(lines, Blocks(lines))
    ensures AreBlocks(lines + [last], Blocks(lines + [last]))
  {
    assert (lines + [last])[..|lines|] == lines;
    if BlankLine(last) {
      BlocksSnocBlank(lines, Blocks(lines), last);
    } else if lines != [] && !BlankLine(lines[|lines| - 1]) {
      BlocksSnocGrow(lines, Blocks(lines), last);
    } else {
      BlocksSnocOpen(lines, Blocks(lines), last);
    }
  }

  lemma {:induction false} BlocksAreRuns(lines: seq<string>)
    ensures AreBlocks(lines, Blocks(lines))
  {
    if lines != [] {
      BlocksAreRuns(lines[..|lines| - 1]);
      BlocksSnoc(lines[..|lines| - 1], lines[|lines| - 1]);
      assert lines == lines[..|lines| - 1] + [lines[|lines| - 1]];
    }
  }

  predicate Matches(m: CapMarker, text: string) {
    forall fragment :: fragment in m.all ==> Contains(text, fragment)
  }

  /** The first marker, in file order, with all its fragments in the text. */
  function MarkerIn(markers: seq<CapMarker>, text: string): (id: Option<string>)
    ensures id.Some? <==> exists m :: m in markers && Matches(m, text)
  {
    if markers == [] then None
    else if Matches(markers[0], text) then Some(markers[0].id)
    else MarkerIn(markers[1..], text)
  }

  /** The first marker, in file order, that matches. */
  lemma {:induction false} FirstMarker(markers: seq<CapMarker>, text: string, k: nat)
    requires k < |markers| && Matches(markers[k], text) && forall j :: 0 <= j < k ==> !Matches(markers[j], text)
    ensures MarkerIn(markers, text) == Some(markers[k].id)
  {
    if k > 0 {
      FirstMarker(markers[1..], text, k - 1);
    }
  }

  predicate IsOutput(line: string, r: Rules) {
    var trimmed := TrimStart(line, IsWhitespace);
    exists m :: m in r.outputMarkers && StartsWith(trimmed, m)
  }

  /** A line is turn output exactly if an output marker stands at its first ink. */
  lemma OutputExactly(line: string, r: Rules, n: nat)
    requires n <= |line| && AllOf(line[..n], IsWhitespace) && (n < |line| ==> !IsWhitespace(line[n]))
    ensures IsOutput(line, r) <==> exists m :: m in r.outputMarkers && OccursAt(line, m, n)
  {
    var k := TrimStartIs(line, IsWhitespace);
    assert forall i :: 0 <= i < k ==> line[..k][i] == line[i] && IsWhitespace(line[i]);
    assert forall i :: 0 <= i < n ==> line[..n][i] == line[i] && IsWhitespace(line[i]);
    forall m ensures StartsWith(line[n..], m) <==> OccursAt(line, m, n) {
      assert n + |m| <= |line| ==> line[n..][..|m|] == line[n..n + |m|];
    }
  }

  predicate CapBlock(b: Block, r: Rules) {
    MarkerIn(r.capMarkers, Join(b.lines)).Some?
  }

  datatype CapHit = CapHit(marker: string, resetAt: Option<string>)

  /** The last block that carries a marker. */
  function LastHit(blocks: seq<Block>, r: Rules): (hit: Option<Block>)
    ensures hit.Some? ==> hit.value in blocks && CapBlock(hit.value, r)
  {
    if blocks == [] then None
    else if CapBlock(blocks[|blocks| - 1], r) then Some(blocks[|blocks| - 1])
    else LastHit(blocks[..|blocks| - 1], r)
  }

  predicate OutputAfter(lines: seq<string>, start: nat, r: Rules) {
    exists i :: start < i < |lines| && IsOutput(lines[i], r)
  }

  function Find(s: string, part: string): (at: Option<nat>)
    ensures at.Some? ==> at.value + |part| <= |s|
  {
    if StartsWith(s, part) then Some(0)
    else if s == "" then None
    else
      match Find(s[1..], part)
      case Some(i) => Some(i + 1)
      case None => None
  }

  /** The first occurrence. */
  lemma {:induction false} FindIsFirst(s: string, part: string)
    ensures match Find(s, part)
            case Some(i) => OccursAt(s, part, i) && forall j: nat :: j < i ==> !OccursAt(s, part, j)
            case None => forall j: nat :: !OccursAt(s, part, j)
  {
    if StartsWith(s, part) {
      assert s[0..0 + |part|] == s[..|part|];
    } else if s != "" {
      FindIsFirst(s[1..], part);
      forall j: nat | j + 1 + |part| <= |s| ensures OccursAt(s, part, j + 1) <==> OccursAt(s[1..], part, j) {
        assert s[1..][j..j + |part|] == s[j + 1..j + 1 + |part|];
      }
      assert forall j: nat :: OccursAt(s, part, j) ==> j > 0 && OccursAt(s[1..], part, j - 1);
    } else {
      assert part != "";
    }
  }

  /** str::parse::<u64> */
  function ParseU64(s: string): Option<nat> {
    var digits := if s != "" && s[0] == '+' then s[1..] else s;
    if digits == "" then None
    else
      match DigitsValue(digits)
      case Some(v) => if v < 0x1_0000_0000_0000_0000 then Some(v) else None
      case None => None
  }

  lemma {:induction false} DigitsAreInk(n: nat, width: nat)
    ensures forall ch :: ch in UtcTime.Padded(n, width) ==> '0' <= ch <= '9'
    decreases n, width
  {
    if n > 0 || width > 0 {
      DigitsAreInk(n / 10, if width == 0 then 0 else width - 1);
    }
  }

  /** Printed decimal numbers parse, signed or not, exactly below 2 to the 64. */
  lemma ParsesDecimal(n: nat)
    ensures ParseU64(UtcTime.Padded(n, 1)) == ParseU64("+" + UtcTime.Padded(n, 1)) ==
            if n < 0x1_0000_0000_0000_0000 then Some(n) else None
  {
    var digits := UtcTime.Padded(n, 1);
    UtcTime.PaddedValue(n, 1);
    DigitsAreInk(n, 1);
    assert digits[0] in digits && ("+" + digits)[1..] == digits;
  }

  function ResetKey(r: Rules): string {
    "\"" + r.resetHeader + "\":\""
  }

  /** What comes before the closing quote. */
  function Unquoted(s: string): Option<string> {
    match Find(s, "\"")
    case None => None
    case Some(end) => Some(s[..end])
  }

  /** The quoted epoch milliseconds after the header. */
  function ResetMillis(screen: string, r: Rules): Option<nat> {
    match Find(screen, ResetKey(r))
    case None => None
    case Some(at) =>
      match Unquoted(screen[at + |ResetKey(r)|..])
      case None => None
      case Some(text) => ParseU64(Trim(text, IsWhitespace))
  }

  function StampOf(millis: nat): string {
    UtcTime.FormatUtc(millis / 1000)
  }

  /** cap_reset_at: that instant as a UTC time stamp. */
  function CapResetAt(screen: string, r: Rules): Option<string> {
    match ResetMillis(screen, r)
    case None => None
    case Some(millis) => Some(StampOf(millis))
  }

  lemma TrimDigits(s: string)
    requires s != "" && forall ch :: ch in s ==> '0' <= ch <= '9'
    ensures Trim(s, IsWhitespace) == s
  {
    assert s[0] in s && s[|s| - 1] in s;
  }

  /** What follows the first header on the screen: epoch milliseconds in quotes. */
  ghost predicate QuotesReset(screen: string, r: Rules, millis: nat) {
    exists at: nat, after: string ::
      && Find(screen, ResetKey(r)) == Some(at)
      && screen[at + |ResetKey(r)|..] == UtcTime.Padded(millis, 1) + "\"" + after
  }

  lemma MillisRead(screen: string, r: Rules, millis: nat, at: nat, digits: string, after: string)
    requires Find(screen, ResetKey(r)) == Some(at)
    requires screen[at + |ResetKey(r)|..] == digits + "\"" + after
    requires digits != "" && (forall ch :: ch in digits ==> '0' <= ch <= '9') && ParseU64(digits) == Some(millis)
    ensures ResetMillis(screen, r) == Some(millis)
  {
    QuoteEnds(digits, after);
    TrimDigits(digits);
  }

  /** The instant that the screen quotes is what the cap reports, to the second. */
  lemma ResetAtRead(screen: string, r: Rules, millis: nat)
    requires QuotesReset(screen, r, millis) && millis < 0x1_0000_0000_0000_0000
    ensures CapResetAt(screen, r).Some? && UtcTime.ParseUtc(CapResetAt(screen, r).value) == Some(millis / 1000)
  {
    var digits := UtcTime.Padded(millis, 1);
    var at: nat, after: string :|
      && Find(screen, ResetKey(r)) == Some(at)
      && screen[at + |ResetKey(r)|..] == digits + "\"" + after;
    DigitsAreInk(millis, 1);
    ParsesDecimal(millis);
    MillisRead(screen, r, millis, at, digits, after);
    UtcTime.PrintedReadsBack(millis / 1000);
  }

  lemma QuoteEnds(digits: string, after: string)
    requires forall ch :: ch in digits ==> '0' <= ch <= '9'
    ensures Unquoted(digits + "\"" + after) == Some(digits)
  {
    var s := digits + "\"" + after;
    FindIsFirst(s, "\"");
    assert s[|digits|..|digits| + 1] == "\"";
    forall j: nat | j < |digits| ensures !OccursAt(s, "\"", j) {
      assert s[j] == digits[j] && digits[j] in digits;
      assert j + 1 <= |s| ==> s[j..j + 1][0] == s[j];
    }
    assert OccursAt(s, "\"", |digits|);
    assert s[..|digits|] == digits;
  }

  function Capped(screen: string, r: Rules): Option<CapHit> {
    var lines := ScreenLines(screen);
    match LastHit(Blocks(lines), r)
    case None => None
    case Some(b) =>
      if OutputAfter(lines, b.start, r) then None
      else Some(CapHit(MarkerIn(r.capMarkers, Join(b.lines)).value, CapResetAt(screen, r)))
  }

  /** capped: the scan over the blocks keeps overwriting the hit. */
  method FindCap(screen: string, r: Rules) returns (hit: Option<CapHit>)
    ensures hit == Capped(screen, r)
  {
    var lines := ScreenLines(screen);
    var lastOutput: Option<nat> := LastOutput(lines, r);
    var blocks := CollectBlocks(lines);
    var found: Option<Block> := None;
    for i := 0 to |blocks|
      invariant found == LastHit(blocks[..i], r)
    {
      LastHitNext(blocks, i, r);
      if CapBlock(blocks[i], r) {
        found := Some(blocks[i]);
      }
    }
    assert blocks[..|blocks|] == blocks;
    if found == None {
      return None;
    }
    var start := found.value.start;
    OutputIsLast(lines, start, r);
    if lastOutput.Some? && lastOutput.value > start {
      return None;
    }
    return Some(CapHit(MarkerIn(r.capMarkers, Join(found.value.lines)).value, CapResetAt(screen, r)));
  }

  /** The last output line. */
  function LastOutput(lines: seq<string>, r: Rules): (at: Option<nat>)
    ensures at.Some? ==> at.value < |lines| && IsOutput(lines[at.value], r)
    ensures forall i :: 0 <= i < |lines| && IsOutput(lines[i], r) ==> at.Some? && i <= at.value
  {
    if lines == [] then None
    else if IsOutput(lines[|lines| - 1], r) then Some(|lines| - 1)
    else LastOutput(lines[..|lines| - 1], r)
  }

  lemma OutputIsLast(lines: seq<string>, start: nat, r: Rules)
    ensures OutputAfter(lines, start, r) <==> LastOutput(lines, r).Some? && LastOutput(lines, r).value > start
  {
  }

  lemma LastHitNext(blocks: seq<Block>, i: nat, r: Rules)
    requires i < |blocks|
    ensures LastHit(blocks[..i + 1], r) ==
              if CapBlock(blocks[i], r) then Some(blocks[i]) else LastHit(blocks[..i], r)
  {
    var shown := blocks[..i + 1];
    assert shown[..i] == blocks[..i] && shown[i] == blocks[i];
  }

  lemma {:induction false} LastHitIsLast(blocks: seq<Block>, r: Rules, k: nat)
    requires k < |blocks| && CapBlock(blocks[k], r) && forall j :: k < j < |blocks| ==> !CapBlock(blocks[j], r)
    ensures LastHit(blocks, r) == Some(blocks[k])
  {
    if k < |blocks| - 1 {
      LastHitIsLast(blocks[..|blocks| - 1], r, k);
    }
  }

  lemma {:induction false} LastHitFinds(blocks: seq<Block>, r: Rules) returns (k: nat)
    requires LastHit(blocks, r).Some?
    ensures k < |blocks| && LastHit(blocks, r) == Some(blocks[k]) && CapBlock(blocks[k], r)
    ensures forall j :: k < j < |blocks| ==> !CapBlock(blocks[j], r)
  {
    k := |blocks| - 1;
    if !CapBlock(blocks[k], r) {
      k := LastHitFinds(blocks[..k], r);
    }
  }

  /** Block `k` of the pane is its newest cap message and no turn output follows where it starts. */
  ghost predicate LiveCap(lines: seq<string>, r: Rules, k: nat) {
    && k < |Blocks(lines)| && CapBlock(Blocks(lines)[k], r)
    && (forall j :: k < j < |Blocks(lines)| ==> !CapBlock(Blocks(lines)[j], r))
    && !OutputAfter(lines, Blocks(lines)[k].start, r)
  }

  /** A seat is capped exactly when the newest block that carries a cap marker has no turn output
      after its first line. */
  lemma CappedMeansLiveCap(screen: string, r: Rules)
    ensures Capped(screen, r).Some? <==> exists k :: LiveCap(ScreenLines(screen), r, k)
  {
    var lines := ScreenLines(screen);
    if Capped(screen, r).Some? {
      var k := LastHitFinds(Blocks(lines), r);
      assert LiveCap(lines, r, k);
    }
    if k :| LiveCap(lines, r, k) {
      LastHitIsLast(Blocks(lines), r, k);
    }
  }

  // ------------------------------------------------------------------ the input bar

  predicate IsPrompt(line: string) {
    StartsWith(line, "\U{203A} ") || StartsWith(line, "\U{276F} ")
  }

  function LastPrompt(lines: seq<string>): (bar: Option<string>)
    ensures bar == None ==> forall line :: line in lines ==> !IsPrompt(line)
    ensures bar.Some? ==> IsPrompt(bar.value) && bar.value in lines
  {
    if lines == [] then None
    else if IsPrompt(lines[|lines| - 1]) then Some(lines[|lines| - 1])
    else LastPrompt(lines[..|lines| - 1])
  }

  /** The bar is the last prompt line: whatever lines are above it, and no prompt line below. */
  lemma {:induction false} BarIsLastPrompt(lines: seq<string>, k: nat)
    requires k < |lines| && IsPrompt(lines[k]) && forall j :: k < j < |lines| ==> !IsPrompt(lines[j])
    ensures LastPrompt(lines) == Some(lines[k])
  {
    if k < |lines| - 1 {
      BarIsLastPrompt(lines[..|lines| - 1], k);
    }
  }

  /** input_bar: earlier prompt lines echo messages already submitted. */
  function InputBar(screen: string): Option<string> {
    LastPrompt(ScreenLines(screen))
  }

  /** The input bar is line `k`: a prompt glyph and a blank begin it and no line below. */
  ghost predicate BarAt(lines: seq<string>, k: int) {
    && 0 <= k < |lines| && Prompts(lines[k])
    && forall j :: k < j < |lines| ==> !Prompts(lines[j])
  }

  ghost predicate Prompts(line: string) {
    |line| > 1 && (line[0] == '\U{203A}' || line[0] == '\U{276F}') && line[1] == ' '
  }

  lemma PromptsIsPrompt(line: string)
    ensures Prompts(line) <==> IsPrompt(line)
  {
    assert |line| > 1 ==> line[..2] == [line[0], line[1]];
  }

  lemma BarOfScreen(screen: string) returns (k: int)
    ensures InputBar(screen).Some? <==> BarAt(ScreenLines(screen), k)
    ensures InputBar(screen).Some? ==> InputBar(screen) == Some(ScreenLines(screen)[k])
    ensures forall j :: BarAt(ScreenLines(screen), j) ==> j == k
  {
    var lines := ScreenLines(screen);
    forall i | 0 <= i < |lines| ensures Prompts(lines[i]) <==> IsPrompt(lines[i]) {
      PromptsIsPrompt(lines[i]);
    }
    k := |lines| - 1;
    while k >= 0 && !Prompts(lines[k])
      invariant -1 <= k < |lines| && forall j :: k < j < |lines| ==> !Prompts(lines[j])
    {
      k := k - 1;
    }
    if k >= 0 {
      BarIsLastPrompt(lines, k);
    }
    assert k < 0 ==> forall line :: line in lines ==> !IsPrompt(line);
  }

  predicate StaleInput(screen: string) {
    match InputBar(screen)
    case None => false
    case Some(bar) =>
      |bar| > 2 && !IsWhitespace(bar[2]) && !Contains(bar, "Ask Codex") && !Contains(bar, "Press up to edit")
  }

  predicate InBar(screen: string, head: string) {
    InputBar(screen).Some? && Contains(InputBar(screen).value, head)
  }

  predicate IsResponseOrFreshPrompt(line: string) {
    && line != ""
    && (|| line[0] == '\U{23FA}' || line[0] == '\U{2022}'
        || (line[0] in ['\U{203A}', '\U{276F}'] && forall i :: 1 <= i < |line| ==> line[i] == ' '))
  }

  ghost predicate BarHolds(lines: seq<string>, head: string) {
    exists k :: BarAt(lines, k) && Contains(lines[k], head)
  }

  lemma InBarExactly(screen: string, head: string)
    ensures InBar(screen, head) <==> BarHolds(ScreenLines(screen), head)
  {
    var k := BarOfScreen(screen);
  }

  /** The bar goes on with ink right after its blank, and shows neither known hint. */
  ghost predicate BarIsTyped(lines: seq<string>) {
    exists k :: BarAt(lines, k) && |lines[k]| >= 3 && !IsWhitespace(lines[k][2])
                && !Names(lines[k], ["Ask Codex", "Press up to edit"])
  }

  lemma StaleExactly(screen: string)
    ensures StaleInput(screen) <==> BarIsTyped(ScreenLines(screen))
  {
    var k := BarOfScreen(screen);
    if BarAt(ScreenLines(screen), k) {
      var hints := ["Ask Codex", "Press up to edit"];
      assert hints[0] == "Ask Codex" && hints[1] == "Press up to edit";
    }
  }

  /** A bullet begins a response; a fresh prompt is a glyph with nothing but blanks after it. */
  ghost predicate Responds(line: string) {
    || "\U{23FA}" <= line || "\U{2022}" <= line
    || (("\U{203A}" <= line || "\U{276F}" <= line) && forall ch :: ch in line[1..] ==> ch == ' ')
  }

  lemma RespondsIsResponse(line: string)
    ensures Responds(line) <==> IsResponseOrFreshPrompt(line)
  {
    if line != "" {
      forall i | 1 <= i < |line| ensures line[i] in line[1..] {
        assert line[1..][i - 1] == line[i];
      }
    }
  }

  /** A response line, or a fresh prompt, somewhere after an echo of the text. */
  predicate Answered(screen: string, head: string) {
    var lines := ScreenLines(screen);
    && head != ""
    && exists j :: 0 <= j < |lines| && !Contains(lines[j], head) && IsResponseOrFreshPrompt(lines[j])
                   && EchoBefore(lines, j, head)
  }

  predicate EchoBefore(lines: seq<string>, j: int, head: string) {
    exists i :: 0 <= i < j && i < |lines| && Contains(lines[i], head)
  }

  /** A response without the text comes below a line with it. */
  ghost predicate RespondsBelow(lines: seq<string>, head: string) {
    head != "" && exists i, j :: 0 <= i < j < |lines| && Contains(lines[i], head)
                                 && Responds(lines[j]) && !Contains(lines[j], head)
  }

  lemma AnsweredExactly(screen: string, head: string)
    ensures Answered(screen, head) <==> RespondsBelow(ScreenLines(screen), head)
  {
    var lines := ScreenLines(screen);
    forall j | 0 <= j < |lines| ensures Responds(lines[j]) <==> IsResponseOrFreshPrompt(lines[j]) {
      RespondsIsResponse(lines[j]);
    }
    if head != "" {
      if i, j :| 0 <= i < j < |lines| && Contains(lines[i], head)
                 && Responds(lines[j]) && !Contains(lines[j], head) {
        assert EchoBefore(lines, j, head);
      }
    }
  }

  /** answered */
  method FindAnswer(screen: string, head: string) returns (answered: bool)
    ensures answered <==> Answered(screen, head)
  {
    var lines := ScreenLines(screen);
    var seen := false;
    for i := 0 to |lines|
      invariant seen <==> head != "" && EchoBefore(lines, i, head)
      invariant head != "" ==>
                  forall j :: 0 <= j < i && !Contains(lines[j], head) && IsResponseOrFreshPrompt(lines[j]) ==>
                    !EchoBefore(lines, j, head)
    {
      if head != "" && Contains(lines[i], head) {
        seen := true;
        continue;
      }
      if seen && IsResponseOrFreshPrompt(lines[i]) {
        return true;
      }
    }
    return false;
  }

  // ------------------------------------------------------------------ harness identity

  datatype Source = Flag | Env | Detected | Unknown
  datatype Identity = Identity(harness: string, source: Source)

  function Lookup(harnesses: seq<HarnessRules>, name: string): Option<HarnessRules> {
    if harnesses == [] then None
    else if harnesses[0].name == name then Some(harnesses[0])
    else Lookup(harnesses[1..], name)
  }

  function MidTurnFor(r: Rules, harness: string): MidTurn {
    match Lookup(r.harnesses, harness)
    case Some(h) => h.midTurn
    case None => Refuse
  }

  function QueueEvidenceFor(r: Rules, harness: string): seq<string> {
    match Lookup(r.harnesses, harness)
    case Some(h) => h.queueEvidence
    case None => []
  }

  function DetectHarness(harnesses: seq<HarnessRules>, screen: string): Option<string> {
    if harnesses == [] then None
    else if ContainsAny(screen, harnesses[0].detect) then Some(harnesses[0].name)
    else DetectHarness(harnesses[1..], screen)
  }

  predicate Named(name: Option<string>) {
    name.Some? && !BlankLine(name.value)
  }

  function Identify(flag: Option<string>, env: Option<string>, screen: string, r: Rules): Identity {
    if Named(flag) then Identity(Trim(flag.value, IsWhitespace), Flag)
    else if Named(env) then Identity(Trim(env.value, IsWhitespace), Env)
    else
      match DetectHarness(r.harnesses, screen)
      case Some(name) => Identity(name, Detected)
      case None => Identity("unknown", Unknown)
  }

  lemma {:induction false} LookupFinds(harnesses: seq<HarnessRules>, name: string)
    ensures Lookup(harnesses, name).Some? ==> Lookup(harnesses, name).value in harnesses
    ensures Lookup(harnesses, name).Some? <==> exists h :: h in harnesses && h.name == name
  {
    if harnesses != [] {
      LookupFinds(harnesses[1..], name);
      assert harnesses == [harnesses[0]] + harnesses[1..];
    }
  }

  /** The first harness, in file order, that the screen names. */
  lemma {:induction false} DetectsFirst(harnesses: seq<HarnessRules>, screen: string, k: nat)
    requires k <= |harnesses| && forall j :: 0 <= j < k ==> !ContainsAny(screen, harnesses[j].detect)
    requires k < |harnesses| ==> ContainsAny(screen, harnesses[k].detect)
    ensures DetectHarness(harnesses, screen) == if k < |harnesses| then Some(harnesses[k].name) else None
  {
    if k > 0 {
      DetectsFirst(harnesses[1..], screen, k - 1);
    }
  }

  /** A named flag decides, then a named environment variable, and the screen only without both. */
  lemma FlagBeforeEnvBeforeScreen(flag: Option<string>, env: Option<string>, screen: string, r: Rules)
    ensures var who := Identify(flag, env, screen, r);
            && (who.source == Flag <==> flag.Some? && !BlankLine(flag.value))
            && (who.source == Env <==> who.source != Flag && env.Some? && !BlankLine(env.value))
            && (who.source == Flag ==> who.harness == Trim(flag.value, IsWhitespace))
            && (who.source == Env ==> who.harness == Trim(env.value, IsWhitespace))
            && (who.source == Detected ==> DetectHarness(r.harnesses, screen) == Some(who.harness))
            && (who.source == Unknown ==> who.harness == "unknown" && DetectHarness(r.harnesses, screen) == None)
  {
  }

  /** Fail closed: a pane is typed into mid-turn only under a policy whose queueing the read-back
      can prove, so only for a harness the rules name. */
  lemma QueueIsProvable(r: Rules, harness: string)
    requires ValidRules(r) && MidTurnFor(r, harness) == Queue
    ensures QueueEvidenceFor(r, harness) != []
    ensures exists h :: h in r.harnesses && h.name == harness && h.midTurn == Queue
  {
    LookupFinds(r.harnesses, harness);
    assert Lookup(r.harnesses, harness).value.name == harness by {
      LookupName(r.harnesses, harness);
    }
  }

  lemma {:induction false} LookupName(harnesses: seq<HarnessRules>, name: string)
    ensures Lookup(harnesses, name).Some? ==> Lookup(harnesses, name).value.name == name
  {
    if harnesses != [] {
      LookupName(harnesses[1..], name);
    }
  }

  /** shows_queued: the text's head and an evidence marker on one line. */
  predicate ShowsQueued(screen: string, head: string, evidence: seq<string>) {
    && !BlankLine(head)
    && exists line :: line in ScreenLines(screen) && Contains(line, head) && ContainsAny(line, evidence)
  }

  /** One line has both the text, which is not blank, and a marker of the harness. */
  ghost predicate QueueHolds(lines: seq<string>, head: string, evidence: seq<string>) {
    && (exists k :: 0 <= k < |head| && !IsWhitespace(head[k]))
    && exists i :: 0 <= i < |lines| && Contains(lines[i], head) && Names(lines[i], evidence)
  }

  lemma QueuedExactly(screen: string, head: string, evidence: seq<string>)
    ensures ShowsQueued(screen, head, evidence) <==> QueueHolds(ScreenLines(screen), head, evidence)
  {
    var lines := ScreenLines(screen);
    forall i | 0 <= i < |lines| ensures Names(lines[i], evidence) <==> ContainsAny(lines[i], evidence) {
      NamesAny(lines[i], evidence);
    }
    if i :| 0 <= i < |lines| && Contains(lines[i], head) && Names(lines[i], evidence) {
      assert lines[i] in lines;
    }
  }

  /** The text is recognised by its first forty characters, or all of a shorter one. */
  function Head(flat: string): (head: string)
    ensures head <= flat && |head| <= 40 && (|head| < 40 ==> head == flat)
  {
    if |flat| <= 40 then flat else flat[..40]
  }
}
