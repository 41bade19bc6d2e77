/** The string operations the source uses, on ASCII text. */
module Text {

  predicate IsSpace(c: char) {
    c == ' ' || '\t' <= c <= '\r' || '\U{1c}' <= c <= '\U{1f}'
  }

  /** `str.strip`. */
  function Strip(s: string): string {
    if s == "" then s
    else if IsSpace(s[0]) then Strip(s[1..])
    else if IsSpace(s[|s| - 1]) then Strip(s[..|s| - 1])
    else s
  }

  function LowerChar(c: char): char {
    if 'A' <= c <= 'Z' then (c as int + 32) as char else c
  }

  /** `str.lower`. */
  function Lower(s: string): (r: string)
    ensures |r| == |s|
  {
    seq(|s|, i requires 0 <= i < |s| => LowerChar(s[i]))
  }

  /** How two people's names are compared. */
  function Normalised(name: string): string {
    Lower(Strip(name))
  }

  predicate StartsWith(s: string, prefix: string) {
    prefix <= s
  }

  /** `part in s`. */
  predicate Contains(s: string, part: string) {
    part <= s || (s != "" && Contains(s[1..], part))
  }

  // ----- What they mean, character by character -----

  /** The character `lower`, which is no capital, in either case. */
  predicate ReadsAs(c: char, lower: char) {
    c == lower || ('A' <= c <= 'Z' && c as int + 32 == lower as int)
  }

  /** The word stands in the text from position `at`, in whatever case. */
  predicate SaysAt(text: string, word: string, at: int) {
    0 <= at && at + |word| <= |text| && forall i :: 0 <= i < |word| ==> ReadsAs(text[at + i], word[i])
  }

  predicate Opens(text: string, word: string) {
    SaysAt(text, word, 0)
  }

  ghost predicate Mentions(text: string, word: string) {
    exists at :: SaysAt(text, word, at)
  }

  predicate NoCapitals(word: string) {
    forall i :: 0 <= i < |word| ==> !('A' <= word[i] <= 'Z')
  }

  lemma OpensIff(text: string, word: string)
    requires NoCapitals(word)
    ensures StartsWith(Lower(text), word) <==> Opens(text, word)
  {
    var t := Lower(text);
    if word <= t {
      forall i | 0 <= i < |word|
        ensures ReadsAs(text[0 + i], word[i])
      {
        assert word[i] == t[i];
      }
    } else if Opens(text, word) {
      forall i | 0 <= i < |word|
        ensures word[i] == t[i]
      {
        assert ReadsAs(text[0 + i], word[i]);
      }
    }
  }

  lemma {:induction false} MentionsIff(text: string, word: string)
    requires NoCapitals(word)
    ensures Contains(Lower(text), word) <==> Mentions(text, word)
    decreases |text|
  {
    OpensIff(text, word);
    if text != "" {
      var rest := text[1..];
      MentionsIff(rest, word);
      assert Lower(text)[1..] == Lower(rest);
      if at :| SaysAt(rest, word, at) {
        SaysLater(text, word, at + 1);
      }
      if at :| SaysAt(text, word, at) && at > 0 {
        SaysLater(text, word, at);
      }
    }
  }

  lemma SaysLater(text: string, word: string, at: int)
    requires text != "" && at > 0
    ensures SaysAt(text, word, at) <==> SaysAt(text[1..], word, at - 1)
  {
    var rest := text[1..];
    if SaysAt(text, word, at) {
      forall i | 0 <= i < |word|
        ensures ReadsAs(rest[at - 1 + i], word[i])
      {
        assert ReadsAs(text[at + i], word[i]);
      }
    } else if SaysAt(rest, word, at - 1) {
      forall i | 0 <= i < |word|
        ensures ReadsAs(text[at + i], word[i])
      {
        assert ReadsAs(rest[at - 1 + i], word[i]);
      }
    }
  }

  predicate AllSpaces(s: string) {
    forall i :: 0 <= i < |s| ==> IsSpace(s[i])
  }

  /** `Strip` takes away blanks at both ends, and all of them. */
  lemma {:induction false} StripIs(s: string) returns (before: string, after: string)
    ensures s == before + Strip(s) + after && AllSpaces(before) && AllSpaces(after)
    ensures Strip(s) != "" ==> !IsSpace(Strip(s)[0]) && !IsSpace(Strip(s)[|Strip(s)| - 1])
  {
    hide IsSpace;
    before, after := "", "";
    if s == "" {
    } else if IsSpace(s[0]) {
      before, after := StripIs(s[1..]);
      before := [s[0]] + before;
    } else if IsSpace(s[|s| - 1]) {
      before, after := StripIs(s[..|s| - 1]);
      assert s == s[..|s| - 1] + [s[|s| - 1]];
      after := after + [s[|s| - 1]];
    }
  }
}
