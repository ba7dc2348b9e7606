/** Trimming and splitting text. */
module Text {
  import opened Wrappers

  /** White space as Unicode has it. */
  predicate Whitespace(c: char) {
    var n := c as int;
    || 9 <= n <= 13 || n == 32 || n == 0x85 || n == 0xA0 || n == 0x1680 || 0x2000 <= n <= 0x200A
    || n == 0x2028 || n == 0x2029 || n == 0x202F || n == 0x205F || n == 0x3000
  }

  function TrimEnd(s: string): string {
    if s != "" && Whitespace(s[|s| - 1]) then TrimEnd(s[..|s| - 1]) else s
  }

  function TrimStart(s: string): string {
    if s != "" && Whitespace(s[0]) then TrimStart(s[1..]) else s
  }

  function Trim(s: string): string {
    TrimStart(TrimEnd(s))
  }

  /** What is before and after the first `c`. */
  function SplitOnce(s: string, c: char): (r: Option<(string, string)>)
    ensures r.Some? ==> s == r.value.0 + [c] + r.value.1 && c !in r.value.0
    ensures r.None? ==> c !in s
  {
    if s == "" then None
    else
      assert s == [s[0]] + s[1..];
      if s[0] == c then Some(("", s[1..]))
      else match SplitOnce(s[1..], c)
        case Some((before, after)) => Some(([s[0]] + before, after))
        case None => None
  }

  lemma SplitOnceIsUnique(before: string, c: char, after: string)
    requires c !in before
    ensures SplitOnce(before + [c] + after, c) == Some((before, after))
  {
    var s := before + [c] + after;
    var r := SplitOnce(s, c).value;
    assert s[|before|] == c && s[|r.0|] == c;
    assert before == s[..|before|] == r.0;
    assert after == s[|before| + 1..] == r.1;
  }

  // ---- Words ----

  function Word(s: string): (w: string)
    ensures w <= s
  {
    if s == "" || Whitespace(s[0]) then ""
    else
      assert s == [s[0]] + s[1..];
      [s[0]] + Word(s[1..])
  }

  function Words(s: string): seq<string>
    decreases |s|
  {
    if s == "" then []
    else if Whitespace(s[0]) then Words(s[1..])
    else [Word(s)] + Words(s[|Word(s)|..])
  }

  predicate IsWord(w: string) {
    w != "" && forall i :: 0 <= i < |w| ==> !Whitespace(w[i])
  }

  function Joined(words: seq<string>): string {
    if words == [] then ""
    else if |words| == 1 then words[0]
    else words[0] + " " + Joined(words[1..])
  }

  lemma {:induction false} WordStops(w: string, rest: string)
    requires forall i :: 0 <= i < |w| ==> !Whitespace(w[i])
    requires rest == "" || Whitespace(rest[0])
    ensures Word(w + rest) == w
  {
    if w == "" {
      assert w + rest == rest;
    } else {
      assert (w + rest)[1..] == w[1..] + rest;
      WordStops(w[1..], rest);
    }
  }

  lemma {:induction false} WordsOfWord(w: string, rest: string)
    requires IsWord(w) && (rest == "" || Whitespace(rest[0]))
    ensures Words(w + rest) == [w] + Words(rest)
  {
    WordStops(w, rest);
    assert (w + rest)[|w|..] == rest && (w + rest)[0] == w[0];
  }

  /** Words joined by spaces are those words. */
  lemma {:induction false} WordsOfJoined(words: seq<string>)
    requires forall i :: 0 <= i < |words| ==> IsWord(words[i])
    ensures Words(Joined(words)) == words
  {
    if words == [] {
    } else {
      var first, rest := words[0], words[1..];
      assert words == [first] + rest;
      assert IsWord(first);
      if rest == [] {
        WordsOfWord(first, "");
        assert first + "" == first;
      } else {
        WordsOfJoined(rest);
        WordsOfWord(first, " " + Joined(rest));
        assert first + " " + Joined(rest) == first + (" " + Joined(rest));
        assert (" " + Joined(rest))[1..] == Joined(rest);
      }
    }
  }

  // ---- Lines ----

  lemma {:induction false} WordEnds(s: string)
    ensures forall i :: 0 <= i < |Word(s)| ==> !Whitespace(Word(s)[i])
    ensures |Word(s)| < |s| ==> Whitespace(s[|Word(s)|])
  {
    if s != "" && !Whitespace(s[0]) {
      WordEnds(s[1..]);
    }
  }

  /** Any blank parts the words before it from those behind it. */
  lemma {:induction false} WordsApart(a: string, blank: char, b: string)
    requires Whitespace(blank)
    ensures Words(a + [blank] + b) == Words(a) + Words(b)
    decreases |a|, 0
  {
    if a == "" {
      BlankFirst(blank, b);
      assert a + [blank] + b == [blank] + b;
    } else if Whitespace(a[0]) {
      ApartBehindBlank(a[0], a[1..], blank, b);
      assert a == [a[0]] + a[1..];
    } else {
      var w, left := FirstWord(a);
      WordsApart(left, blank, b);
      ApartBehindWord(w, left, left + [blank] + b, blank, b);
    }
  }

  lemma {:induction false} ApartBehindBlank(first: char, more: string, blank: char, b: string)
    requires Whitespace(first) && Whitespace(blank)
    ensures Words([first] + more + [blank] + b) == Words([first] + more) + Words(b)
    decreases |more|, 1
  {
    WordsApart(more, blank, b);
    BlankFirst(first, more);
    BlankFirst(first, more + [blank] + b);
    Grouped([first], more, [blank], b);
  }

  lemma ApartBehindWord(w: string, left: string, rest: string, blank: char, b: string)
    requires IsWord(w) && (left == "" || Whitespace(left[0])) && Whitespace(blank)
    requires rest == left + [blank] + b && Words(rest) == Words(left) + Words(b)
    ensures Words(w + left + [blank] + b) == Words(w + left) + Words(b)
  {
    assert rest[0] == if left == "" then blank else left[0];
    WordsOfWord(w, left);
    WordsOfWord(w, rest);
    Grouped(w, left, [blank], b);
    Regrouped([w], Words(left), Words(b));
  }

  lemma Grouped(a: string, b: string, c: string, d: string)
    ensures a + b + c + d == a + (b + c + d)
  {
  }

  lemma Regrouped(a: seq<string>, b: seq<string>, c: seq<string>)
    ensures a + b + c == a + (b + c)
  {
  }

  lemma BlankFirst(blank: char, rest: string)
    requires Whitespace(blank)
    ensures Words([blank] + rest) == Words(rest)
  {
    assert ([blank] + rest)[1..] == rest;
  }

  lemma FirstWord(s: string) returns (w: string, left: string)
    requires s != "" && !Whitespace(s[0])
    ensures s == w + left && IsWord(w) && |left| < |s| && (left == "" || Whitespace(left[0]))
  {
    w, left := Word(s), s[|Word(s)|..];
    WordEnds(s);
  }

  ghost predicate Blank(s: string) {
    forall i :: 0 <= i < |s| ==> Whitespace(s[i])
  }

  /** Blanks around a text are trimmed, and nothing else. */
  lemma TrimPadded(before: string, s: string, after: string)
    requires Blank(before) && Blank(after) && s != "" && !Whitespace(s[0]) && !Whitespace(s[|s| - 1])
    ensures Trim(before + s + after) == s
  {
    TrimBehind(before + s, after);
    assert (before + s)[|before + s| - 1] == s[|s| - 1];
    TrimBefore(before, s);
  }

  lemma {:induction false} TrimBehind(s: string, after: string)
    requires Blank(after)
    ensures TrimEnd(s + after) == TrimEnd(s)
  {
    if after == "" {
      assert s + after == s;
    } else {
      var last := |after| - 1;
      assert (s + after)[|s + after| - 1] == after[last] && (s + after)[..|s + after| - 1] == s + after[..last];
      TrimBehind(s, after[..last]);
    }
  }

  lemma {:induction false} TrimBefore(before: string, s: string)
    requires Blank(before)
    ensures TrimStart(before + s) == TrimStart(s)
  {
    if before == "" {
      assert before + s == s;
    } else {
      assert (before + s)[0] == before[0] && (before + s)[1..] == before[1..] + s;
      TrimBefore(before[1..], s);
    }
  }

  function StripReturn(line: string): string {
    if line != "" && line[|line| - 1] == '\r' then line[..|line| - 1] else line
  }

  function Lines(text: string): seq<string>
    decreases |text|
  {
    if text == "" then []
    else match SplitOnce(text, '\n')
      case Some((line, rest)) => [StripReturn(line)] + Lines(rest)
      case None => [text]
  }

  /** A final carriage return makes no difference once trimmed. */
  lemma TrimStripped(line: string)
    ensures Trim(StripReturn(line)) == Trim(line)
  {
  }
}
