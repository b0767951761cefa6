/**
 * From recognizer results to the transcription string: take each result's
 * "text" field ("" when missing), join with single spaces, strip the
 * surrounding whitespace. Join, Split and Strip follow Python's `str.join`,
 * `str.split(sep)` and `str.strip()`.
 */
module Transcript {

  /** A decoded recognizer result: the string-valued fields of its JSON object. */
  type Record = map<string, string>

  const TextKey: string := "text"

  /** `result.get('text', '')`. */
  function TextOf(r: Record): string {
    if TextKey in r then r[TextKey] else ""
  }

  /** The text of every result, in order. */
  function Texts(results: seq<Record>): (texts: seq<string>)
    ensures |texts| == |results|
    ensures forall i :: 0 <= i < |results| ==> texts[i] == TextOf(results[i])
  {
    seq(|results|, i requires 0 <= i < |results| => TextOf(results[i]))
  }

  // ---------------------------------------------------------------- join / split

  /** `sep.join(parts)`: the parts in order with one `sep` between neighbours. */
  function Join(sep: string, parts: seq<string>): string
    decreases |parts|
  {
    if parts == [] then ""
    else if |parts| == 1 then parts[0]
    else parts[0] + sep + Join(sep, parts[1..])
  }

  /** `s.split(c)` for a one-character separator: the pieces between occurrences of `c`; never empty. */
  function Split(s: string, c: char): (pieces: seq<string>)
    ensures |pieces| >= 1
    decreases |s|
  {
    if s == [] then [""]
    else
      var rest := Split(s[1..], c);
      if s[0] == c then [""] + rest
      else [[s[0]] + rest[0]] + rest[1..]
  }

  /** Joining what Split produced gives the string back. */
  lemma {:induction false} JoinSplit(s: string, c: char)
    ensures Join([c], Split(s, c)) == s
    decreases |s|
  {
    if s != [] {
      var rest := Split(s[1..], c);
      JoinSplit(s[1..], c);
      if s[0] != c && |rest| > 1 {
        assert rest == [rest[0]] + rest[1..];
        assert Join([c], rest) == rest[0] + [c] + Join([c], rest[1..]);
        assert s == [s[0]] + s[1..];
      }
    }
  }

  /** A string without the separator splits into itself. */
  lemma {:induction false} SplitWithoutSeparator(p: string, c: char)
    requires c !in p
    ensures Split(p, c) == [p]
    decreases |p|
  {
    if p != [] {
      SplitWithoutSeparator(p[1..], c);
      assert p == [p[0]] + p[1..];
    }
  }

  /** A separator-free piece followed by the separator splits off as one piece. */
  lemma {:induction false} SplitAfterPiece(p: string, c: char, t: string)
    requires c !in p
    ensures Split(p + [c] + t, c) == [p] + Split(t, c)
    decreases |p|
  {
    if p == [] {
      assert p + [c] + t == [c] + t;
      assert ([c] + t)[1..] == t;
    } else {
      SplitAfterPiece(p[1..], c, t);
      assert (p + [c] + t)[1..] == p[1..] + [c] + t;
      assert p == [p[0]] + p[1..];
    }
  }

  /**
   * Join loses nothing: when no part holds the separator, splitting the
   * joined string gives the parts back, empty parts included.
   */
  lemma {:induction false} SplitJoin(parts: seq<string>, c: char)
    requires |parts| >= 1
    requires forall i :: 0 <= i < |parts| ==> c !in parts[i]
    ensures Split(Join([c], parts), c) == parts
    decreases |parts|
  {
    if |parts| == 1 {
      SplitWithoutSeparator(parts[0], c);
    } else {
      SplitJoin(parts[1..], c);
      SplitAfterPiece(parts[0], c, Join([c], parts[1..]));
      assert parts == [parts[0]] + parts[1..];
    }
  }

  /** Joining empty parts gives separators only. */
  lemma {:induction false} JoinOfEmptyParts(parts: seq<string>, c: char)
    requires forall i :: 0 <= i < |parts| ==> parts[i] == ""
    ensures forall k :: 0 <= k < |Join([c], parts)| ==> Join([c], parts)[k] == c
    decreases |parts|
  {
    if |parts| > 1 {
      JoinOfEmptyParts(parts[1..], c);
    }
  }

  // ---------------------------------------------------------------- strip

  /** The code points Python's `str.isspace` accepts, which `str.strip()` removes. */
  const Whitespace: set<char> := {
    '\t', '\n', '\U{0B}', '\U{0C}', '\r', '\U{1C}', '\U{1D}', '\U{1E}', '\U{1F}', ' ',
    '\U{85}', '\U{A0}', '\U{1680}',
    '\U{2000}', '\U{2001}', '\U{2002}', '\U{2003}', '\U{2004}', '\U{2005}',
    '\U{2006}', '\U{2007}', '\U{2008}', '\U{2009}', '\U{200A}',
    '\U{2028}', '\U{2029}', '\U{202F}', '\U{205F}', '\U{3000}'
  }

  predicate IsSpace(c: char) {
    c in Whitespace
  }

  /** Neither starts nor ends with whitespace. */
  predicate Trimmed(s: string) {
    s == [] || (!IsSpace(s[0]) && !IsSpace(s[|s| - 1]))
  }

  /** `s.lstrip()`: the suffix left after the leading whitespace. */
  function StripLeft(s: string): (r: string)
    ensures |r| <= |s| && r == s[|s| - |r|..]
    ensures forall i :: 0 <= i < |s| - |r| ==> IsSpace(s[i])
    ensures r == [] || !IsSpace(r[0])
    decreases |s|
  {
    if s != [] && IsSpace(s[0]) then StripLeft(s[1..]) else s
  }

  /** `s.rstrip()`: the prefix left before the trailing whitespace. */
  function StripRight(s: string): (r: string)
    ensures |r| <= |s| && r == s[..|r|]
    ensures forall i :: |r| <= i < |s| ==> IsSpace(s[i])
    ensures r == [] || !IsSpace(r[|r| - 1])
    decreases |s|
  {
    if s != [] && IsSpace(s[|s| - 1]) then StripRight(s[..|s| - 1]) else s
  }

  /** `r` is `s` with whitespace removed before offset `i` and after `r`, and nothing else. */
  predicate OuterTrimAt(s: string, i: nat, r: string) {
    i + |r| <= |s| && r == s[i..i + |r|]
    && (forall k :: 0 <= k < i ==> IsSpace(s[k]))
    && (forall k :: i + |r| <= k < |s| ==> IsSpace(s[k]))
  }

  /**
   * `s.strip()`: trimmed, empty exactly when `s` is all whitespace, and
   * obtained from `s` by removing leading and trailing whitespace only.
   */
  function Strip(s: string): (r: string)
    ensures Trimmed(r)
    ensures r == [] <==> forall i :: 0 <= i < |s| ==> IsSpace(s[i])
    ensures OuterTrimAt(s, |s| - |StripLeft(s)|, r)
  {
    var t := StripLeft(s);
    var r := StripRight(t);
    assert r != [] ==> r[0] == t[0];
    r
  }

  /**
   * Strip removes exactly the leading and trailing whitespace: any split of
   * `s` into whitespace, a trimmed middle and whitespace has Strip(s) as
   * its middle.
   */
  lemma StripUnique(s: string, i: nat, j: nat)
    requires i <= j <= |s|
    requires forall k :: 0 <= k < i ==> IsSpace(s[k])
    requires forall k :: j <= k < |s| ==> IsSpace(s[k])
    requires Trimmed(s[i..j])
    ensures Strip(s) == s[i..j]
  {
  }

  /** Strip leaves a string without surrounding whitespace unchanged; in particular it is idempotent. */
  lemma StripTrimmed(s: string)
    requires Trimmed(s)
    ensures Strip(s) == s
    ensures Strip(Strip(s)) == Strip(s)
  {
    StripUnique(s, 0, |s|);
  }

  // ---------------------------------------------------------------- transcription

  /** The transcription: the texts joined with single spaces, then stripped. */
  function TranscriptionText(results: seq<Record>): (text: string)
    ensures Trimmed(text)
  {
    Strip(Join(" ", Texts(results)))
  }

  /**
   * Interior spacing survives. When no text holds a space, the joined
   * texts split back into exactly the results' texts, empty ones included,
   * and the transcription is that joined string with only its leading and
   * trailing whitespace removed; when the joined string has none, the
   * transcription itself splits back into the texts.
   */
  lemma TranscriptionKeepsTexts(results: seq<Record>)
    requires |results| >= 1
    requires forall i :: 0 <= i < |results| ==> ' ' !in TextOf(results[i])
    ensures Split(Join(" ", Texts(results)), ' ') == Texts(results)
    ensures OuterTrimAt(Join(" ", Texts(results)), |Join(" ", Texts(results))| - |StripLeft(Join(" ", Texts(results)))|,
                        TranscriptionText(results))
    ensures Trimmed(Join(" ", Texts(results))) ==> Split(TranscriptionText(results), ' ') == Texts(results)
  {
    var texts := Texts(results);
    assert forall i :: 0 <= i < |texts| ==> ' ' !in texts[i];
    assert " " == [' '];
    var joined := Join([' '], texts);
    SplitJoin(texts, ' ');
    if Trimmed(joined) {
      StripTrimmed(joined);
    }
  }

  /** A final result with empty text leaves no trailing space: texts "a" and "" give "a". */
  lemma EmptyFinalText()
    ensures TranscriptionText([map[TextKey := "a"], map[]]) == "a"
  {
    var results: seq<Record> := [map[TextKey := "a"], map[]];
    assert Texts(results) == ["a", ""];
    assert Join(" ", ["a", ""]) == "a ";
    StripUnique("a ", 0, 1);
    assert "a "[0..1] == "a";
  }

  /** Results whose texts are all empty or missing give an empty transcription. */
  lemma SilentTranscription(results: seq<Record>)
    requires forall i :: 0 <= i < |results| ==> TextOf(results[i]) == ""
    ensures TranscriptionText(results) == ""
  {
    JoinOfEmptyParts(Texts(results), ' ');
    assert " " == [' '];
  }

  /** Texts "a", "" and "b" give "a  b": the empty text keeps its two separators. */
  lemma EmptyTextKeepsSeparators()
    ensures TranscriptionText([map[TextKey := "a"], map[], map[TextKey := "b"]]) == "a  b"
  {
    var results: seq<Record> := [map[TextKey := "a"], map[], map[TextKey := "b"]];
    assert Texts(results) == ["a", "", "b"];
    assert Join(" ", ["a", "", "b"]) == "a  b";
    StripTrimmed("a  b");
  }
}
