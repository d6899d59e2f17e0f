// String vocabulary of both source languages: white space, blankness, trimming and substring
// search. The two languages' trim() disagree on two characters.

module Text {
  import opened Wrappers

  /** Unicode white space that both languages trim. */
  predicate CommonSpace(ch: char) {
    || ch in "\t\n\r "
    || ch in ['\U{000B}', '\U{000C}', '\U{00A0}', '\U{1680}', '\U{2028}', '\U{2029}', '\U{202F}', '\U{205F}',
              '\U{3000}']
    || '\U{2000}' <= ch <= '\U{200A}'
  }

  /** What TypeScript's trim() removes: the byte-order mark, not NEXT LINE. */
  predicate IsSpace(ch: char) {
    CommonSpace(ch) || ch == '\U{FEFF}'
  }

  /** What Rust's trim() removes: NEXT LINE, not the byte-order mark. */
  predicate IsWhitespace(ch: char) {
    CommonSpace(ch) || ch == '\U{0085}'
  }

  /** TypeScript: s.trim() === "" */
  predicate Blank(s: string) {
    forall i :: 0 <= i < |s| ==> IsSpace(s[i])
  }

  /** Rust: s.trim().is_empty() */
  predicate BlankLine(s: string) {
    forall i :: 0 <= i < |s| ==> IsWhitespace(s[i])
  }

  predicate Alphanumeric(ch: char) {
    'A' <= ch <= 'Z' || 'a' <= ch <= 'z' || '0' <= ch <= '9'
  }

  /** /^[A-Za-z0-9][A-Za-z0-9._-]*$/ */
  predicate PathSegment(s: string) {
    && s != "" && Alphanumeric(s[0])
    && forall i :: 0 <= i < |s| ==> Alphanumeric(s[i]) || s[i] in "._-"
  }

  /** Such a name is one file name: no separator, no blank, not hidden and not a parent directory. */
  lemma PathSegmentIsFileName(s: string)
    requires PathSegment(s)
    ensures '/' !in s && '\\' !in s && ':' !in s && ' ' !in s && '\n' !in s && '\0' !in s
    ensures s[0] != '.' && s[0] != '-'
  {
  }

  function TrimStart(s: string, space: char -> bool): string {
    if s != "" && space(s[0]) then TrimStart(s[1..], space) else s
  }

  function TrimEnd(s: string, space: char -> bool): string {
    if s != "" && space(s[|s| - 1]) then TrimEnd(s[..|s| - 1], space) else s
  }

  function Trim(s: string, space: char -> bool): string {
    TrimEnd(TrimStart(s, space), space)
  }

  predicate AllOf(s: string, space: char -> bool) {
    forall i :: 0 <= i < |s| ==> space(s[i])
  }

  lemma {:induction false} TrimStartIs(s: string, space: char -> bool) returns (n: nat)
    ensures n <= |s| && AllOf(s[..n], space) && s[n..] == TrimStart(s, space)
    ensures n < |s| ==> !space(s[n])
  {
    if s != "" && space(s[0]) {
      var m := TrimStartIs(s[1..], space);
      n := m + 1;
      assert s[..n] == [s[0]] + s[1..][..m];
    } else {
      n := 0;
    }
  }

  lemma {:induction false} TrimEndIs(s: string, space: char -> bool) returns (n: nat)
    ensures n <= |s| && AllOf(s[n..], space) && s[..n] == TrimEnd(s, space)
    ensures n > 0 ==> !space(s[n - 1])
  {
    if s != "" && space(s[|s| - 1]) {
      n := TrimEndIs(s[..|s| - 1], space);
      assert s[n..] == s[..|s| - 1][n..] + [s[|s| - 1]];
      assert s[..|s| - 1][..n] == s[..n];
    } else {
      n := |s|;
    }
  }

  /** Trimming takes off white space and nothing else, until both ends are ink. */
  lemma TrimIs(s: string, space: char -> bool) returns (before: string, after: string)
    ensures s == before + Trim(s, space) + after && AllOf(before, space) && AllOf(after, space)
    ensures Trim(s, space) != "" ==> !space(Trim(s, space)[0]) && !space(Trim(s, space)[|Trim(s, space)| - 1])
  {
    var n := TrimStartIs(s, space);
    var rest := TrimStart(s, space);
    var m := TrimEndIs(rest, space);
    before, after := s[..n], rest[m..];
    assert s == s[..n] + s[n..] && rest == rest[..m] + rest[m..];
    assert s == before + rest[..m] + after;
  }

  predicate StartsWith(s: string, prefix: string) {
    |prefix| <= |s| && s[..|prefix|] == prefix
  }

  predicate OccursAt(s: string, part: string, i: nat) {
    i + |part| <= |s| && s[i..i + |part|] == part
  }

  predicate Contains(s: string, part: string) {
    exists i :: 0 <= i <= |s| && OccursAt(s, part, i)
  }

  predicate ContainsAny(s: string, parts: seq<string>) {
    exists p :: p in parts && Contains(s, p)
  }

  predicate EndsIn(s: string, ink: char -> bool) {
    s != "" && ink(s[|s| - 1])
  }

  /** The maximal runs of ink. */
  function WordsOf(s: string, ink: char -> bool): (words: seq<string>)
    ensures EndsIn(s, ink) ==> words != []
    ensures forall i :: 0 <= i < |words| ==> words[i] != ""
  {
    if s == "" then []
    else
      var init, last := s[..|s| - 1], s[|s| - 1];
      var before := WordsOf(init, ink);
      if !ink(last) then before
      else if EndsIn(init, ink) then before[..|before| - 1] + [before[|before| - 1] + [last]]
      else before + [[last]]
  }

  /** The value of a string of decimal digits. */
  function DigitsValue(s: string): Option<nat> {
    if s == "" then Some(0)
    else
      var last := s[|s| - 1];
      match DigitsValue(s[..|s| - 1])
      case Some(v) => if '0' <= last <= '9' then Some(10 * v + (last as int - '0' as int)) else None
      case None => None
  }

  /** text.split(separator) */
  function SplitOn(text: string, separator: char): (pieces: seq<string>)
    ensures |pieces| >= 1
    ensures forall i :: 0 <= i < |pieces| ==> separator !in pieces[i]
  {
    if text == "" then [""]
    else
      var before, last := SplitOn(text[..|text| - 1], separator), text[|text| - 1];
      if last == separator then before + [""]
      else before[..|before| - 1] + [before[|before| - 1] + [last]]
  }

  lemma SplitOnSnoc(text: string, head: seq<string>, tail: string, ch: char, separator: char)
    requires SplitOn(text, separator) == head + [tail] && ch != separator
    ensures SplitOn(text + [ch], separator) == head + [tail + [ch]]
  {
    assert (text + [ch])[..|text|] == text;
    assert (head + [tail])[..|head|] == head;
  }

  lemma {:induction false} SplitOnMore(text: string, head: seq<string>, tail: string, piece: string, separator: char)
    requires SplitOn(text, separator) == head + [tail] && separator !in piece
    ensures SplitOn(text + piece, separator) == head + [tail + piece]
  {
    if piece == "" {
      assert text + piece == text && tail + piece == tail;
    } else {
      var init, last := piece[..|piece| - 1], piece[|piece| - 1];
      SplitOnMore(text, head, tail, init, separator);
      SplitOnSnoc(text + init, head, tail + init, last, separator);
      assert text + init + [last] == text + piece && tail + init + [last] == tail + piece;
    }
  }

  lemma SplitOnSuffix(text: string, piece: string, separator: char)
    requires separator !in piece
    ensures var pieces := SplitOn(text, separator);
            SplitOn(text + piece, separator) == pieces[..|pieces| - 1] + [pieces[|pieces| - 1] + piece]
  {
    var pieces := SplitOn(text, separator);
    assert pieces == pieces[..|pieces| - 1] + [pieces[|pieces| - 1]];
    SplitOnMore(text, pieces[..|pieces| - 1], pieces[|pieces| - 1], piece, separator);
  }
}
