// Slot identity (src/protocol/role-identity.ts:48-162): one canonical string per seat, whatever
// its spelling. Unicode normalisation is a library function and appears as `fold`, of which only
// its effect on blank and on already canonical text is assumed.

module RoleSlots {
  import opened Wrappers
  import opened Text
  import opened JsonValues

  predicate IsAlnum(ch: char) {
    'A' <= ch <= 'Z' || '0' <= ch <= '9'
  }

  predicate IsSeparator(ch: char) {
    IsSpace(ch) || ch == '_' || ch == '-'
  }

  predicate CanonicalAlphabet(s: string) {
    forall i :: 0 <= i < |s| ==> IsAlnum(s[i]) || s[i] == '-' || s[i] == '/'
  }

  /** foldRoleInput on text that is already canonical, and on blank text. */
  ghost predicate LawfulFold(fold: string -> string) {
    && (forall s :: CanonicalAlphabet(s) ==> fold(s) == s)
    && (forall s :: Blank(s) ==> fold(s) == "")
  }

  /** /^[A-Z0-9]+(?:-[A-Z0-9]+)*$/ */
  predicate CanonicalComponent(s: string) {
    && s != "" && IsAlnum(s[0]) && IsAlnum(s[|s| - 1])
    && (forall i :: 0 <= i < |s| ==> IsAlnum(s[i]) || s[i] == '-')
    && (forall i :: 0 < i < |s| ==> IsAlnum(s[i - 1]) || IsAlnum(s[i]))
  }

  /** replace(/[\s_-]+/g, "-") */
  function Hyphenated(s: string): string {
    if s == "" then ""
    else
      var before, last := Hyphenated(s[..|s| - 1]), s[|s| - 1];
      if !IsSeparator(last) then before + [last]
      else if |s| > 1 && IsSeparator(s[|s| - 2]) then before
      else before + "-"
  }

  function Component(part: string): Option<string> {
    var component := Hyphenated(Trim(part, IsSpace));
    if CanonicalComponent(component) then Some(component) else None
  }

  datatype Slot = Slot(team: Option<string>, role: string)
  {
    function Canonical(): string {
      match team
      case Some(t) => t + "/" + role
      case None => role
    }

    predicate Valid() {
      CanonicalComponent(role) && (team.Some? ==> CanonicalComponent(team.value))
    }
  }

  function AllComponents(parts: seq<string>): (components: Option<seq<string>>)
    ensures components.Some? ==> |components.value| == |parts|
    ensures components.Some? ==> forall c :: c in components.value ==> CanonicalComponent(c)
  {
    if parts == [] then Some([])
    else
      var before, last := AllComponents(parts[..|parts| - 1]), Component(parts[|parts| - 1]);
      if before == None || last == None then None else Some(before.value + [last.value])
  }

  lemma {:induction false} OneUnreadablePart(parts: seq<string>, n: nat)
    requires n <= |parts| && AllComponents(parts[..n]) == None
    ensures AllComponents(parts) == None
  {
    if n < |parts| {
      assert parts[..|parts| - 1][..n] == parts[..n];
      OneUnreadablePart(parts[..|parts| - 1], n);
    } else {
      assert parts[..n] == parts;
    }
  }

  function SlotOf(components: seq<string>): Option<Slot> {
    if |components| == 1 then Some(Slot(None, components[0]))
    else if |components| == 2 then Some(Slot(Some(components[0]), components[1]))
    else None
  }

  function ParseSlot(fold: string -> string, s: string): (slot: Option<Slot>)
    ensures slot.Some? ==> slot.value.Valid()
  {
    var folded := fold(s);
    if folded == "" || |SplitOn(folded, '/')| > 2 then None
    else
      match AllComponents(SplitOn(folded, '/'))
      case None => None
      case Some(components) => SlotOf(components)
  }

  /** parseRoleSlot: the components are collected until one cannot be read. */
  method ParseRoleSlot(fold: string -> string, value: Option<Json>) returns (slot: Option<Slot>)
    ensures slot == match value case Some(String(s)) => ParseSlot(fold, s) case _ => None
  {
    if value == None || !value.value.String? { return None; }
    var folded := fold(value.value.s);
    if folded == "" { return None; }
    var parts := SplitOn(folded, '/');
    if |parts| > 2 { return None; }
    var components: seq<string> := [];
    for i := 0 to |parts|
      invariant AllComponents(parts[..i]) == Some(components)
    {
      assert parts[..i + 1][..i] == parts[..i];
      var component := Component(parts[i]);
      if component == None {
        OneUnreadablePart(parts, i + 1);
        return None;
      }
      components := components + [component.value];
    }
    assert parts[..|parts|] == parts;
    return SlotOf(components);
  }

  /** canonicalRoleSlot */
  function CanonicalSlot(fold: string -> string, value: Option<Json>): Option<string> {
    match value
    case Some(String(s)) =>
      (match ParseSlot(fold, s)
       case Some(slot) => Some(slot.Canonical())
       case None => None)
    case _ => None
  }

  /** roleSlotsEqual */
  predicate SlotsEqual(fold: string -> string, a: Option<Json>, b: Option<Json>) {
    CanonicalSlot(fold, a).Some? && CanonicalSlot(fold, a) == CanonicalSlot(fold, b)
  }

  // ------------------------------------------------------------------ what a component is

  predicate Letter(ch: char) {
    !IsSeparator(ch)
  }

  /** The words with a hyphen between any two. */
  function Hyphens(words: seq<string>): string {
    if words == [] then ""
    else if |words| == 1 then words[0]
    else Hyphens(words[..|words| - 1]) + "-" + words[|words| - 1]
  }

  lemma HyphensSnoc(words: seq<string>, last: string)
    requires words != []
    ensures Hyphens(words + [last]) == Hyphens(words) + "-" + last
  {
    assert (words + [last])[..|words|] == words;
  }

  lemma HyphensGrow(words: seq<string>, last: string, ch: char)
    ensures Hyphens(words + [last + [ch]]) == Hyphens(words + [last]) + [ch]
  {
    if words == [] {
      assert [] + [last] == [last] && [] + [last + [ch]] == [last + [ch]];
    } else {
      HyphensSnoc(words, last);
      HyphensSnoc(words, last + [ch]);
    }
  }

  lemma HyphenatedSnoc(s: string, ch: char)
    ensures Hyphenated(s + [ch]) ==
            if Letter(ch) then Hyphenated(s) + [ch] else if s == "" || EndsIn(s, Letter) then Hyphenated(s) + "-"
            else Hyphenated(s)
    ensures Letter(ch) && EndsIn(s, Letter) ==>
              var words := WordsOf(s, Letter);
              WordsOf(s + [ch], Letter) == words[..|words| - 1] + [words[|words| - 1] + [ch]]
    ensures Letter(ch) && !EndsIn(s, Letter) ==> WordsOf(s + [ch], Letter) == WordsOf(s, Letter) + [[ch]]
    ensures !Letter(ch) ==> WordsOf(s + [ch], Letter) == WordsOf(s, Letter)
  {
    assert (s + [ch])[..|s|] == s;
  }

  lemma HyphensMore(words: seq<string>, head: seq<string>, tail: string, ch: char)
    requires words == head + [tail]
    ensures Hyphens(head + [tail + [ch]]) == Hyphens(words) + [ch]
    ensures Hyphens(words + [[ch]]) == Hyphens(words) + "-" + [ch]
  {
    HyphensGrow(head, tail, ch);
    HyphensSnoc(words, [ch]);
  }

  /** Hyphenating text that starts with a letter joins its words, and leaves a hyphen behind if it
      ends with a separator. */
  lemma {:induction false} HyphenatedWords(s: string)
    requires s != "" && Letter(s[0])
    ensures WordsOf(s, Letter) != []
    ensures Hyphenated(s) == Hyphens(WordsOf(s, Letter)) + if EndsIn(s, Letter) then "" else "-"
  {
    var init, last := s[..|s| - 1], s[|s| - 1];
    assert s == init + [last];
    if init == "" {
      HyphenatedSnoc(init, last);
      assert WordsOf("", Letter) == [] && Hyphenated("") == "";
      assert [] + [[last]] == [[last]] && "" + [last] == [last] && [last] + "" == [last];
    } else {
      HyphenatedWords(init);
      HyphenatedOneMore(init, last, WordsOf(init, Letter));
    }
  }

  lemma HyphenatedOneMore(s: string, ch: char, words: seq<string>)
    requires s != "" && words == WordsOf(s, Letter) && words != []
    requires Hyphenated(s) == Hyphens(words) + if EndsIn(s, Letter) then "" else "-"
    ensures WordsOf(s + [ch], Letter) != []
    ensures Hyphenated(s + [ch]) == Hyphens(WordsOf(s + [ch], Letter)) + if Letter(ch) then "" else "-"
  {
    HyphenatedSnoc(s, ch);
    HyphensMore(words, words[..|words| - 1], words[|words| - 1], ch);
    JoinsOn(Hyphens(words), [ch]);
  }

  lemma JoinsOn(text: string, more: string)
    ensures text + "" == text && text + "" + more == text + more && text + "-" + more == text + ("-" + more)
    ensures text + more + "" == text + more && text + "-" + more + "" == text + "-" + more
  {
  }

  /** Readable text: letters and digits of the canonical alphabet at both ends, and nothing but these
      and separators between. */
  predicate Readable(s: string) {
    && s != "" && IsAlnum(s[0]) && IsAlnum(s[|s| - 1])
    && forall i :: 0 <= i < |s| ==> IsAlnum(s[i]) || IsSeparator(s[i])
  }

  lemma {:induction false} HyphenatedEnds(s: string)
    requires s != ""
    ensures var h := Hyphenated(s);
            && h != "" && (h[0] == if Letter(s[0]) then s[0] else '-')
            && (h[|h| - 1] == if Letter(s[|s| - 1]) then s[|s| - 1] else '-')
  {
    if |s| > 1 {
      HyphenatedEnds(s[..|s| - 1]);
    } else {
      assert s[..0] == "";
    }
  }

  lemma {:induction false} HyphenatedApart(s: string)
    ensures var h := Hyphenated(s); forall i :: 0 < i < |h| ==> h[i - 1] != '-' || h[i] != '-'
  {
    if s != "" {
      var init := s[..|s| - 1];
      HyphenatedApart(init);
      if init != "" {
        HyphenatedEnds(init);
      }
    }
  }

  lemma {:induction false} HyphenatedChars(s: string)
    ensures var h := Hyphenated(s);
            && (forall ch :: ch in h ==> ch == '-' || (Letter(ch) && ch in s))
            && (forall ch :: ch in s && Letter(ch) ==> ch in h)
  {
    if s != "" {
      var init, last := s[..|s| - 1], s[|s| - 1];
      HyphenatedChars(init);
      assert s == init + [last];
    }
  }

  lemma CanonicalMeansReadable(s: string)
    ensures CanonicalComponent(Hyphenated(s)) <==> Readable(s)
  {
    HyphenatedChars(s);
    HyphenatedApart(s);
    var h := Hyphenated(s);
    if s != "" {
      HyphenatedEnds(s);
    }
    if Readable(s) {
      AlnumIsInk(s[0]);
      AlnumIsInk(s[|s| - 1]);
      forall i | 0 <= i < |h| ensures IsAlnum(h[i]) || h[i] == '-' {
        assert h[i] in h;
      }
    }
    if CanonicalComponent(h) {
      forall i | 0 <= i < |s| ensures IsAlnum(s[i]) || IsSeparator(s[i]) {
        assert s[i] in s;
      }
    }
  }

  /** A component is readable exactly if its trimmed text is, and then it is its words joined by
      hyphens, whatever and however many separators stood between them. */
  lemma ComponentIsItsWords(part: string)
    ensures var s := Trim(part, IsSpace);
            Component(part) == if Readable(s) then Some(Hyphens(WordsOf(s, Letter))) else None
  {
    var s := Trim(part, IsSpace);
    CanonicalMeansReadable(s);
    if Readable(s) {
      AlnumIsInk(s[0]);
      AlnumIsInk(s[|s| - 1]);
      HyphenatedWords(s);
      JoinsOn(Hyphens(WordsOf(s, Letter)), "");
    }
  }

  /** Blanks, tabs, underscores and hyphens between two letters are one and the same. */
  lemma AnySeparator(a: string, x: string, y: string, b: string)
    requires a != "" && b != "" && IsAlnum(a[|a| - 1]) && IsAlnum(b[0]) && !IsSpace(a[0]) && !IsSpace(b[|b| - 1])
    requires x != "" && y != "" && (forall ch :: ch in x + y ==> ch in " \t_-")
    ensures Component(a + x + b) == Component(a + y + b)
  {
    SameGap(a, x, y, b);
    Alike(a + x + b, a + y + b);
  }

  lemma SameGap(a: string, x: string, y: string, b: string)
    requires a != "" && IsAlnum(a[|a| - 1])
    requires x != "" && y != "" && (forall ch :: ch in x + y ==> ch in " \t_-")
    ensures Hyphenated(a + x + b) == Hyphenated(a + y + b)
  {
    AlnumIsInk(a[|a| - 1]);
    AfterGap(a, x);
    AfterGap(a, y);
    HyphenatedRest(a + x, a + y, b);
  }

  lemma Alike(s: string, t: string)
    requires s != "" && !IsSpace(s[0]) && !IsSpace(s[|s| - 1])
    requires t != "" && !IsSpace(t[0]) && !IsSpace(t[|t| - 1])
    requires Hyphenated(s) == Hyphenated(t)
    ensures Component(s) == Component(t)
  {
    assert Trim(s, IsSpace) == s;
    assert Trim(t, IsSpace) == t;
  }

  lemma AfterGap(a: string, x: string)
    requires a != "" && Letter(a[|a| - 1]) && x != "" && forall ch :: ch in x ==> ch in " \t_-"
    ensures Hyphenated(a + x) == Hyphenated(a) + "-" && !EndsIn(a + x, Letter)
  {
    assert x[|x| - 1] in x && (a + x)[|a + x| - 1] == x[|x| - 1];
    HyphenatedGap(a, x);
  }

  lemma {:induction false} HyphenatedGap(a: string, x: string)
    requires a != "" && Letter(a[|a| - 1]) && x != "" && forall ch :: ch in x ==> IsSeparator(ch)
    ensures Hyphenated(a + x) == Hyphenated(a) + "-"
  {
    var init, last := x[..|x| - 1], x[|x| - 1];
    assert (a + x)[..|a + x| - 1] == a + init && last in x;
    if init == "" {
      assert a + init == a;
    } else {
      HyphenatedGap(a, init);
      assert init[|init| - 1] in x;
    }
  }

  lemma FirstMoves(s: string, b: string)
    requires b != ""
    ensures s + [b[0]] + b[1..] == s + b
  {
  }

  lemma HyphenatedSame(s: string, t: string, ch: char)
    requires s != "" && t != "" && Hyphenated(s) == Hyphenated(t) && (EndsIn(s, Letter) <==> EndsIn(t, Letter))
    ensures Hyphenated(s + [ch]) == Hyphenated(t + [ch])
    ensures EndsIn(s + [ch], Letter) <==> EndsIn(t + [ch], Letter)
  {
    HyphenatedSnoc(s, ch);
    HyphenatedSnoc(t, ch);
  }

  lemma {:induction false} HyphenatedRest(s: string, t: string, b: string)
    requires s != "" && t != "" && Hyphenated(s) == Hyphenated(t) && (EndsIn(s, Letter) <==> EndsIn(t, Letter))
    ensures Hyphenated(s + b) == Hyphenated(t + b)
    decreases b
  {
    if b == "" {
      assert s + b == s && t + b == t;
    } else {
      HyphenatedSame(s, t, b[0]);
      HyphenatedRest(s + [b[0]], t + [b[0]], b[1..]);
      FirstMoves(s, b);
      FirstMoves(t, b);
    }
  }

  lemma ComponentsAre(parts: seq<string>, last: string)
    ensures AllComponents(parts + [last]) ==
            if AllComponents(parts).Some? && Component(last).Some? then
              Some(AllComponents(parts).value + [Component(last).value])
            else None
  {
    assert (parts + [last])[..|parts|] == parts;
  }

  lemma OneComponent(part: string, c: Option<string>)
    requires c == Component(part)
    ensures AllComponents([part]) == if c.Some? then Some([c.value]) else None
  {
    ComponentsAre([], part);
    assert [] + [part] == [part] && AllComponents([]) == Some([]);
    assert c.Some? ==> [] + [c.value] == [c.value];
  }

  lemma TwoComponents(a: string, b: string, c: Option<string>, d: Option<string>)
    requires c == Component(a) && d == Component(b)
    ensures AllComponents([a, b]) == if c.Some? && d.Some? then Some([c.value, d.value]) else None
  {
    OneComponent(a, c);
    ComponentsAre([a], b);
    assert [a] + [b] == [a, b];
    if c.Some? && d.Some? {
      assert [c.value] + [d.value] == [c.value, d.value];
    }
  }

  lemma NoComponent()
    ensures Component("") == None
  {
  }

  /** A string names a slot exactly if its folded text is one readable component, or two with a slash
      between them, the team first. */
  lemma SlotIsItsParts(fold: string -> string, s: string, parts: seq<string>)
    requires parts == SplitOn(fold(s), '/')
    ensures ParseSlot(fold, s) ==
            if |parts| == 1 && Component(parts[0]).Some? then Some(Slot(None, Component(parts[0]).value))
            else if |parts| == 2 && Component(parts[0]).Some? && Component(parts[1]).Some? then
              Some(Slot(Component(parts[0]), Component(parts[1]).value))
            else None
  {
    if |parts| == 1 {
      assert parts == [parts[0]];
      OneComponent(parts[0], Component(parts[0]));
      NoComponent();
    } else if |parts| == 2 {
      assert parts == [parts[0], parts[1]];
      TwoComponents(parts[0], parts[1], Component(parts[0]), Component(parts[1]));
    }
  }

  // ------------------------------------------------------------------ one string per seat

  lemma AlnumIsInk(ch: char)
    requires IsAlnum(ch)
    ensures !IsSpace(ch) && !IsSeparator(ch)
  {
  }

  lemma {:induction false} HyphenatedFixed(s: string)
    requires forall i :: 0 <= i < |s| ==> IsAlnum(s[i]) || s[i] == '-'
    requires forall i :: 0 < i < |s| ==> IsAlnum(s[i - 1]) || IsAlnum(s[i])
    ensures Hyphenated(s) == s
  {
    if s != "" {
      var init, last := s[..|s| - 1], s[|s| - 1];
      HyphenatedFixed(init);
      assert s == init + [last];
      if IsAlnum(last) {
        AlnumIsInk(last);
      } else if |s| > 1 {
        AlnumIsInk(s[|s| - 2]);
      }
    }
  }

  lemma ComponentFixed(s: string)
    requires CanonicalComponent(s)
    ensures Component(s) == Some(s)
  {
    HyphenatedFixed(s);
    AlnumIsInk(s[0]);
    AlnumIsInk(s[|s| - 1]);
    assert TrimStart(s, IsSpace) == s && TrimEnd(s, IsSpace) == s;
  }

  lemma OnePart(role: string)
    requires CanonicalComponent(role)
    ensures SplitOn(role, '/') == [role]
  {
    SplitOnSuffix("", role, '/');
    assert "" + role == role;
  }

  lemma TwoParts(team: string, role: string)
    requires CanonicalComponent(team) && CanonicalComponent(role)
    ensures SplitOn(team + "/" + role, '/') == [team, role]
  {
    OnePart(team);
    assert (team + "/")[..|team|] == team;
    assert SplitOn(team + "/", '/') == [team, ""];
    SplitOnSuffix(team + "/", role, '/');
    assert "" + role == role;
  }

  lemma CanonicalParts(slot: Slot)
    requires slot.Valid()
    ensures CanonicalAlphabet(slot.Canonical()) && slot.Canonical() != ""
    ensures SplitOn(slot.Canonical(), '/') ==
            match slot.team case None => [slot.role] case Some(team) => [team, slot.role]
  {
    match slot.team
    case None => OnePart(slot.role);
    case Some(team) => TwoParts(team, slot.role);
  }

  lemma ComponentsSnoc(parts: seq<string>, components: seq<string>, last: string)
    requires AllComponents(parts) == Some(components) && CanonicalComponent(last)
    ensures AllComponents(parts + [last]) == Some(components + [last])
  {
    ComponentFixed(last);
    assert (parts + [last])[..|parts|] == parts;
  }

  lemma ComponentsFixed(a: string, b: string)
    requires CanonicalComponent(a) && CanonicalComponent(b)
    ensures AllComponents([a]) == Some([a])
    ensures AllComponents([a, b]) == Some([a, b])
  {
    ComponentsSnoc([], [], a);
    assert [] + [a] == [a];
    ComponentsSnoc([a], [a], b);
    assert [a] + [b] == [a, b];
  }

  /** Printing a slot and parsing it again gives the slot back, so the canonical string is a fixed
      point and determines team and role. */
  lemma CanonicalRoundTrip(fold: string -> string, slot: Slot)
    requires LawfulFold(fold) && slot.Valid()
    ensures ParseSlot(fold, slot.Canonical()) == Some(slot)
  {
    CanonicalParts(slot);
    ComponentsFixed(slot.team.GetOr(slot.role), slot.role);
  }

  lemma CanonicalizingTwice(fold: string -> string, value: Option<Json>)
    requires LawfulFold(fold) && CanonicalSlot(fold, value).Some?
    ensures var c := CanonicalSlot(fold, value).value; CanonicalSlot(fold, Some(String(c))) == Some(c)
  {
    CanonicalRoundTrip(fold, ParseSlot(fold, value.value.s).value);
  }

  /** Two spellings are the same seat exactly when they parse to the same team and role. */
  lemma SameSeat(fold: string -> string, a: string, b: string)
    requires LawfulFold(fold)
    ensures SlotsEqual(fold, Some(String(a)), Some(String(b))) <==>
              ParseSlot(fold, a).Some? && ParseSlot(fold, a) == ParseSlot(fold, b)
  {
    if SlotsEqual(fold, Some(String(a)), Some(String(b))) {
      CanonicalRoundTrip(fold, ParseSlot(fold, a).value);
      CanonicalRoundTrip(fold, ParseSlot(fold, b).value);
    }
  }

  lemma ReadableIsNotBlank(fold: string -> string, s: string)
    requires LawfulFold(fold) && ParseSlot(fold, s).Some?
    ensures !Blank(s)
  {
  }
}
