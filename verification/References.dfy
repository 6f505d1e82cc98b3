/**
  Matching a stored Message-ID against a reply's References header: the header's words are joined
  by single spaces and padded, and the database tests a LIKE pattern around the id.
*/
module References {
  import opened Prelude

  /** The characters that separate words: Python's whitespace. */
  predicate IsSpace(c: char) {
    || '\U{9}' <= c <= '\U{D}' || '\U{1C}' <= c <= ' ' || c == '\U{85}' || c == '\U{A0}' || c == '\U{1680}'
    || '\U{2000}' <= c <= '\U{200A}' || c == '\U{2028}' || c == '\U{2029}' || c == '\U{202F}' || c == '\U{205F}' || c == '\U{3000}'
  }

  predicate IsWord(s: string) {
    s != "" && forall c <- s :: !IsSpace(c)
  }

  /** The header's words: its maximal runs of characters that are not whitespace. */
  function Split(s: string): (words: seq<string>)
    ensures forall w <- words :: IsWord(w)
    ensures s != "" && !IsSpace(s[|s| - 1]) ==> words != []
  {
    if s == "" then []
    else
      var c, init := s[|s| - 1], s[..|s| - 1];
      var before := Split(init);
      if IsSpace(c) then before
      else if init == "" || IsSpace(init[|init| - 1]) then before + [[c]]
      else
        var last := before[|before| - 1] + [c];
        assert before[|before| - 1] in before && IsWord(last);
        before[..|before| - 1] + [last]
  }

  function Join(words: seq<string>): string {
    if words == [] then "" else if |words| == 1 then words[0] else words[0] + " " + Join(words[1..])
  }

  /** Words between single spaces, with a space at either end; one space for no header at all. */
  function PadReferences(header: Option<string>): string {
    if header.None? || header.value == "" then " " else " " + Join(Split(header.value)) + " "
  }

  /** The message ids a References field names. */
  function Words(header: Option<string>): seq<string> {
    if header.None? then [] else Split(header.value)
  }

  /** SQL LIKE: percent is any text, underscore any character, backslash takes the next character literally. */
  predicate Like(text: string, pattern: string)
    decreases |pattern|, |text|
  {
    if pattern == "" then text == ""
    else if pattern[0] == '%' then Like(text, pattern[1..]) || (text != "" && Like(text[1..], pattern))
    else if pattern[0] == '\\' then |pattern| > 1 && text != "" && text[0] == pattern[1] && Like(text[1..], pattern[2..])
    else text != "" && (pattern[0] == '_' || text[0] == pattern[0]) && Like(text[1..], pattern[1..])
  }

  /** The shared header predicate over one outbound row's message id. */
  predicate HeaderMatch(messageId: string, inReplyTo: Option<string>, references: Option<string>) {
    inReplyTo == Some(messageId) || Like(PadReferences(references), "% " + messageId + " %")
  }

  predicate IsWild(c: char) {
    c == '%' || c == '_' || c == '\\'
  }

  predicate Literal(s: string) {
    forall c <- s :: !IsWild(c)
  }

  // ---------------------------------------------------------------------------------------------
  // What the words are
  // ---------------------------------------------------------------------------------------------

  datatype Span = Span(from: nat, to: nat)

  /** A stretch without whitespace that cannot be extended on either side. */
  predicate MaximalRun(s: string, p: Span) {
    && p.from < p.to <= |s|
    && (forall i | p.from <= i < p.to :: !IsSpace(s[i]))
    && (p.from == 0 || IsSpace(s[p.from - 1]))
    && (p.to == |s| || IsSpace(s[p.to]))
  }

  /** Where each word stands. */
  function Spans(s: string): (spans: seq<Span>)
    ensures s != "" && !IsSpace(s[|s| - 1]) ==> spans != []
  {
    if s == "" then []
    else
      var n := |s| - 1;
      var before := Spans(s[..n]);
      if IsSpace(s[n]) then before
      else if n == 0 || IsSpace(s[n - 1]) then before + [Span(n, n + 1)]
      else before[..|before| - 1] + [Span(before[|before| - 1].from, n + 1)]
  }

  lemma RunsStay(s: string, n: nat, p: Span)
    requires |s| == n + 1
    ensures p.to < n ==> (MaximalRun(s, p) <==> MaximalRun(s[..n], p))
    ensures p.to == n ==> (MaximalRun(s, p) <==> MaximalRun(s[..n], p) && IsSpace(s[n]))
    ensures p.to == n + 1 && p.from == n ==> (MaximalRun(s, p) <==> !IsSpace(s[n]) && (n == 0 || IsSpace(s[n - 1])))
    ensures p.to > n + 1 || (p.to == n + 1 && p.from > n) ==> !MaximalRun(s, p)
    ensures MaximalRun(s, p) || MaximalRun(s[..n], p) ==> p.from < p.to
    ensures n > 0 && MaximalRun(s[..n], Span(p.from, n)) ==> !IsSpace(s[n - 1])
    ensures p.to == n + 1 && p.from < n ==> (MaximalRun(s, p) <==> !IsSpace(s[n]) && MaximalRun(s[..n], Span(p.from, n)))
  {
    hide IsSpace;
  }

  /** Spans end inside the text, and only the last can reach its end. */
  lemma {:induction false} SpansEnd(s: string)
    ensures forall k | 0 <= k < |Spans(s)| - 1 :: Spans(s)[k].to < |s|
    ensures forall k | 0 <= k < |Spans(s)| :: Spans(s)[k].to <= |s|
    ensures s != "" && !IsSpace(s[|s| - 1]) ==> Spans(s)[|Spans(s)| - 1].to == |s|
  {
    hide IsSpace;
    if s != "" {
      SpansEnd(s[..|s| - 1]);
    }
  }

  /** The spans are exactly the maximal runs. */
  lemma {:induction false} SpansAreTheRuns(s: string, p: Span)
    ensures p in Spans(s) <==> MaximalRun(s, p)
    decreases |s|, 0
  {
    hide IsSpace, MaximalRun;
    if s == "" {
      NoRunInNothing(p);
    } else {
      var n := |s| - 1;
      SpansAreTheRuns(s[..n], p);
      if !IsSpace(s[n]) && n > 0 && !IsSpace(s[n - 1]) {
        ExtendedRun(s, n, p);
      } else {
        AddedRun(s, n, p);
      }
    }
  }

  lemma NoRunInNothing(p: Span)
    ensures !MaximalRun("", p)
  {
  }

  /** Whitespace adds no run, and a character after whitespace adds one of its own. */
  lemma AddedRun(s: string, n: nat, p: Span)
    requires |s| == n + 1 && (IsSpace(s[n]) || n == 0 || IsSpace(s[n - 1]))
    requires p in Spans(s[..n]) <==> MaximalRun(s[..n], p)
    ensures p in Spans(s) <==> MaximalRun(s, p)
  {
    hide IsSpace, MaximalRun;
    RunsStay(s, n, p);
    SpansEnd(s[..n]);
    assert p in Spans(s) <==> p in Spans(s[..n]) || (!IsSpace(s[n]) && p == Span(n, n + 1));
    hide Spans;
    if p in Spans(s[..n]) {
      assert p.to <= n;
    }
  }

  /** When the text's last run grows by one, that run alone is replaced. */
  lemma ExtendedRun(s: string, n: nat, p: Span)
    requires |s| == n + 1 && !IsSpace(s[n]) && n > 0 && !IsSpace(s[n - 1])
    requires p in Spans(s[..n]) <==> MaximalRun(s[..n], p)
    ensures p in Spans(s) <==> MaximalRun(s, p)
    decreases n, 1
  {
    hide IsSpace, MaximalRun;
    var before := Spans(s[..n]);
    var last := before[|before| - 1];
    assert Spans(s) == before[..|before| - 1] + [Span(last.from, n + 1)];
    SpansEnd(s[..n]);
    ReplacedLast(before, n, Span(last.from, n + 1), p);
    SpansAreTheRuns(s[..n], Span(p.from, n));
    SpansAreTheRuns(s[..n], last);
    hide Spans;
    RunsStay(s, n, p);
    RunsStay(s, n, last);
    SameEnd(s[..n], last, Span(p.from, n));
  }

  lemma ReplacedLast(before: seq<Span>, n: nat, x: Span, p: Span)
    requires before != [] && x.to == n + 1 && before[|before| - 1].to == n
    requires forall k | 0 <= k < |before| - 1 :: before[k].to < n
    ensures p in before[..|before| - 1] + [x] <==> p == x || (p in before && p.to < n)
  {
    var m := |before| - 1;
    assert before == before[..m] + [before[m]];
    assert forall q <- before[..m] :: q.to < n;
  }

  /** Two maximal runs that end together are one. */
  lemma SameEnd(s: string, p: Span, q: Span)
    ensures MaximalRun(s, p) && MaximalRun(s, q) && p.to == q.to ==> p == q
  {
    hide IsSpace;
  }

  ghost predicate Cuts(s: string, words: seq<string>, spans: seq<Span>) {
    && |words| == |spans|
    && forall k | 0 <= k < |spans| :: spans[k].from <= spans[k].to <= |s| && words[k] == s[spans[k].from..spans[k].to]
  }

  ghost predicate CutsAtSpans(s: string) {
    Cuts(s, Split(s), Spans(s))
  }

  lemma CutsLonger(s: string, n: nat, words: seq<string>, spans: seq<Span>)
    requires |s| == n + 1 && Cuts(s[..n], words, spans)
    ensures Cuts(s, words, spans)
  {
    forall k | 0 <= k < |spans| ensures words[k] == s[spans[k].from..spans[k].to] {
      assert s[..n][spans[k].from..spans[k].to] == s[spans[k].from..spans[k].to];
    }
  }

  lemma CutsGrow(s: string, words: seq<string>, spans: seq<Span>, w: string, p: Span)
    requires Cuts(s, words, spans) && p.from <= p.to <= |s| && w == s[p.from..p.to]
    ensures Cuts(s, words + [w], spans + [p])
  {
  }

  lemma {:induction false} CutsAgree(s: string)
    ensures CutsAtSpans(s)
  {
    hide IsSpace, CutsAtSpans;
    if s == "" {
      NothingToCut();
    } else {
      var n := |s| - 1;
      CutsAgree(s[..n]);
      CutsStep(s, n);
    }
  }

  lemma NothingToCut()
    ensures CutsAtSpans("")
  {
  }

  lemma CutsStep(s: string, n: nat)
    requires |s| == n + 1 && CutsAtSpans(s[..n])
    ensures CutsAtSpans(s)
  {
    hide IsSpace, Cuts;
    var words, spans := Split(s[..n]), Spans(s[..n]);
    CutsLonger(s, n, words, spans);
    SpansEnd(s[..n]);
    if !IsSpace(s[n]) && n > 0 && !IsSpace(s[n - 1]) {
      var m := |spans| - 1;
      LastCut(s, n, words, spans);
      assert Split(s) == words[..m] + [words[m] + [s[n]]] && Spans(s) == spans[..m] + [Span(spans[m].from, n + 1)];
    } else if !IsSpace(s[n]) {
      CutsGrow(s, words, spans, [s[n]], Span(n, n + 1));
    }
  }

  lemma LastCut(s: string, n: nat, words: seq<string>, spans: seq<Span>)
    requires |s| == n + 1 && spans != [] && Cuts(s, words, spans) && spans[|spans| - 1].to == n
    ensures var m := |spans| - 1;
      |words| == m + 1 && Cuts(s, words[..m] + [words[m] + [s[n]]], spans[..m] + [Span(spans[m].from, n + 1)])
  {
    var m := |spans| - 1;
    assert words[m] + [s[n]] == s[spans[m].from..n + 1];
    assert Cuts(s, words[..m], spans[..m]);
    CutsGrow(s, words[..m], spans[..m], words[m] + [s[n]], Span(spans[m].from, n + 1));
  }

  lemma SplitCutsAtSpans(s: string)
    ensures |Split(s)| == |Spans(s)|
    ensures forall k | 0 <= k < |Spans(s)| :: MaximalRun(s, Spans(s)[k]) && Split(s)[k] == s[Spans(s)[k].from..Spans(s)[k].to]
  {
    hide IsSpace;
    forall k | 0 <= k < |Spans(s)| ensures MaximalRun(s, Spans(s)[k]) {
      SpansAreTheRuns(s, Spans(s)[k]);
    }
    CutsAgree(s);
  }

  /** A word of the header is a stretch of it without whitespace, bounded by whitespace or its ends. */
  lemma SplitExactly(s: string, w: string)
    ensures w in Split(s) <==> exists p :: MaximalRun(s, p) && s[p.from..p.to] == w
  {
    SplitCutsAtSpans(s);
    if w in Split(s) {
      var k :| 0 <= k < |Split(s)| && Split(s)[k] == w;
      assert MaximalRun(s, Spans(s)[k]);
    }
    if exists p :: MaximalRun(s, p) && s[p.from..p.to] == w {
      var p :| MaximalRun(s, p) && s[p.from..p.to] == w;
      SpansAreTheRuns(s, p);
      var k :| 0 <= k < |Spans(s)| && Spans(s)[k] == p;
      assert Split(s)[k] == w;
    }
  }

  // ---------------------------------------------------------------------------------------------
  // What the pattern tests
  // ---------------------------------------------------------------------------------------------

  lemma {:induction false} AnyText(text: string)
    ensures Like(text, "%")
  {
    if text != "" {
      AnyText(text[1..]);
    }
  }

  /** A literal followed by percent tests a prefix. */
  lemma {:induction false} LiteralPrefix(text: string, literal: string)
    requires Literal(literal)
    ensures Like(text, literal + "%") <==> literal <= text
  {
    if literal == "" {
      AnyText(text);
      assert literal + "%" == "%";
    } else {
      assert (literal + "%")[1..] == literal[1..] + "%";
      assert literal[0] in literal;
      if text != "" {
        LiteralPrefix(text[1..], literal[1..]);
        assert literal == [literal[0]] + literal[1..] && text == [text[0]] + text[1..];
      }
    }
  }

  /** A leading percent tests every suffix. */
  lemma {:induction false} AnySuffix(text: string, rest: string)
    ensures Like(text, "%" + rest) <==> exists k :: 0 <= k <= |text| && Like(text[k..], rest)
    decreases |text|
  {
    assert ("%" + rest)[1..] == rest && text[0..] == text;
    if text != "" {
      AnySuffix(text[1..], rest);
      assert forall k | 0 <= k <= |text| - 1 :: text[1..][k..] == text[k + 1..];
      if exists k :: 0 <= k <= |text| && Like(text[k..], rest) {
        var k :| 0 <= k <= |text| && Like(text[k..], rest);
        if k > 0 {
          assert text[1..][k - 1..] == text[k..];
        }
      }
    }
  }

  ghost predicate Within(text: string, part: string) {
    exists k :: 0 <= k <= |text| && part <= text[k..]
  }

  lemma PatternIsSubstring(text: string, literal: string)
    requires Literal(literal)
    ensures Like(text, "%" + (literal + "%")) <==> Within(text, literal)
  {
    AnySuffix(text, literal + "%");
    forall k | 0 <= k <= |text| ensures Like(text[k..], literal + "%") <==> literal <= text[k..] {
      LiteralPrefix(text[k..], literal);
    }
  }

  // ---------------------------------------------------------------------------------------------
  // Substrings of the padded header
  // ---------------------------------------------------------------------------------------------

  function Padded(words: seq<string>): string {
    if words == [] then " " else " " + words[0] + Padded(words[1..])
  }

  lemma {:induction false} PaddedJoin(words: seq<string>)
    requires words != []
    ensures " " + Join(words) + " " == Padded(words)
  {
    if |words| == 1 {
      assert words[1..] == [];
    } else {
      PaddedJoin(words[1..]);
      assert " " + Join(words) + " " == " " + words[0] + (" " + Join(words[1..]) + " ");
    }
  }

  predicate SpaceFree(w: string) {
    forall i | 0 <= i < |w| :: w[i] != ' '
  }

  /** Two space-free texts, each followed by a space, one text beginning with both: they are the same. */
  lemma SameToSpace(a: string, b: string, rest: string)
    requires SpaceFree(a) && SpaceFree(b) && rest != "" && rest[0] == ' '
    requires b + " " <= a + rest
    ensures a == b
  {
    var text := a + rest;
    assert text[|b|] == (b + " ")[|b|] == ' ' && text[|a|] == ' ';
    assert forall i | 0 <= i < |a| :: text[i] == a[i];
    assert forall i | 0 <= i < |b| :: text[i] == (b + " ")[i] == b[i];
    if |b| < |a| {
      assert false;
    } else if |a| < |b| {
      assert false;
    } else {
      assert a == text[..|a|] == (b + " ")[..|b|] == b;
    }
  }

  lemma PaddedStartsWithSpace(words: seq<string>)
    ensures Padded(words) != "" && Padded(words)[0] == ' '
  {
  }

  /** Between spaces, a word occurs in the padded text exactly when it is one of the words. */
  lemma {:induction false} WordWithinPadded(words: seq<string>, w: string)
    requires w != "" && SpaceFree(w) && forall x <- words :: SpaceFree(x)
    ensures Within(Padded(words), " " + w + " ") <==> w in words
  {
    var part := " " + w + " ";
    if words == [] {
      assert forall k | 0 <= k <= 1 :: |Padded(words)[k..]| < |part|;
    } else {
      var rest := Padded(words[1..]);
      WordWithinPadded(words[1..], w);
      PaddedStartsWithSpace(words[1..]);
      assert Padded(words) == " " + (words[0] + rest);
      FirstOrRest(words[0], rest, w);
    }
  }

  lemma FirstOrRest(first: string, rest: string, w: string)
    requires w != "" && SpaceFree(w) && SpaceFree(first) && rest != "" && rest[0] == ' '
    ensures Within(" " + (first + rest), " " + w + " ") <==> w == first || Within(rest, " " + w + " ")
  {
    var text, part := " " + (first + rest), " " + w + " ";
    if Within(text, part) {
      var k :| 0 <= k <= |text| && part <= text[k..];
      PartBegins(first, rest, w, k);
    }
    if w == first {
      assert text[0..] == " " + w + rest;
      assert part <= text[0..];
    }
    if Within(rest, part) {
      var k :| 0 <= k <= |rest| && part <= rest[k..];
      assert text[k + 1 + |first|..] == rest[k..];
    }
  }

  /** An occurrence starts at the first word, or lies in the rest. */
  lemma PartBegins(first: string, rest: string, w: string, k: nat)
    requires w != "" && SpaceFree(w) && SpaceFree(first) && rest != "" && rest[0] == ' '
    requires k <= |" " + (first + rest)| && " " + w + " " <= (" " + (first + rest))[k..]
    ensures w == first || Within(rest, " " + w + " ")
  {
    var text, part := " " + (first + rest), " " + w + " ";
    assert text[k] == text[k..][0] == part[0] == ' ';
    assert forall i | 1 <= i <= |first| :: text[i] == first[i - 1];
    if k == 0 {
      assert text[0..] == text && text[1..] == first + rest && part[1..] == w + " ";
      SameToSpace(first, w, rest);
    } else if k <= |first| {
      assert false;
    } else {
      assert text[k..] == rest[k - 1 - |first|..];
    }
  }

  // ---------------------------------------------------------------------------------------------
  // Whole tokens
  // ---------------------------------------------------------------------------------------------

  lemma WordsAreSpaceFree(w: string)
    requires IsWord(w)
    ensures SpaceFree(w)
  {
    assert IsSpace(' ');
  }

  lemma PatternShape(id: string)
    ensures "% " + id + " %" == "%" + ((" " + id + " ") + "%")
  {
  }

  /**
    For a non-empty message id without whitespace or LIKE wildcards the padded test succeeds exactly
    when the id is a whole word of the References field, over all header texts.
   */
  lemma MatchesWholeTokens(id: string, header: Option<string>)
    requires IsWord(id) && Literal(id)
    ensures Like(PadReferences(header), "% " + id + " %") <==> id in Words(header)
  {
    var text, part := PadReferences(header), " " + id + " ";
    PatternShape(id);
    assert Literal(part) by {
      assert forall c <- part :: c == ' ' || c in id;
    }
    PatternIsSubstring(text, part);
    WordsAreSpaceFree(id);
    if Words(header) == [] {
      assert forall k | 0 <= k <= |text| :: |text[k..]| < |part|;
    } else {
      PaddedJoin(Words(header));
      forall w <- Words(header) ensures SpaceFree(w) {
        WordsAreSpaceFree(w);
      }
      WordWithinPadded(Words(header), id);
    }
  }

  // ---------------------------------------------------------------------------------------------
  // Exactly which ids
  // ---------------------------------------------------------------------------------------------

  /** A text the pattern accepts: wildcards become an x, an escaped character stands for itself. */
  function Sample(pattern: string): (text: string)
    ensures |text| <= |pattern|
  {
    if pattern == "" then ""
    else if pattern[0] == '%' || pattern[0] == '_' then "x" + Sample(pattern[1..])
    else if pattern[0] == '\\' then if |pattern| == 1 then "" else [pattern[1]] + Sample(pattern[2..])
    else [pattern[0]] + Sample(pattern[1..])
  }

  lemma {:induction false} SampleDiffers(id: string)
    requires !Literal(id)
    ensures Sample(id) != id
  {
    if id[0] != '\\' && id[0] != '%' && id[0] != '_' {
      assert !Literal(id[1..]) by {
        var c :| c in id && IsWild(c);
        assert c in id[1..];
      }
      SampleDiffers(id[1..]);
      assert Sample(id)[1..] == Sample(id[1..]);
    }
  }

  lemma {:induction false} SampleIsWord(id: string)
    requires forall i | 0 <= i < |id| :: !IsSpace(id[i])
    ensures forall i | 0 <= i < |Sample(id)| :: !IsSpace(Sample(id)[i])
    ensures id != "" && id != "\\" ==> Sample(id) != ""
    decreases |id|
  {
    if id == "" {
    } else if id[0] == '\\' {
      if |id| > 1 {
        SampleIsWord(id[2..]);
      }
    } else {
      SampleIsWord(id[1..]);
    }
  }

  /** The sample, then a space, is accepted by the id, then a space and anything. */
  lemma {:induction false} SampleAccepted(id: string)
    ensures Like(Sample(id) + " ", id + " %")
    decreases |id|
  {
    var text := Sample(id) + " ";
    if id == "" {
      AnyText("");
      AnyText(" ");
      assert " %"[1..] == "%" && " "[1..] == "";
    } else {
      assert (id + " %")[1..] == id[1..] + " %";
      if id[0] == '\\' {
        if |id| == 1 {
          // The trailing escape takes the pattern's own space.
          assert (id + " %")[2..] == "%" && text == " ";
          AnyText(text[1..]);
        } else {
          SampleAccepted(id[2..]);
          assert (id + " %")[2..] == id[2..] + " %" && text[1..] == Sample(id[2..]) + " ";
        }
      } else {
        SampleAccepted(id[1..]);
        assert text[1..] == Sample(id[1..]) + " ";
        if id[0] == '%' {
          PercentTakesOne(text, id[1..] + " %");
        }
      }
    }
  }

  lemma PercentTakesOne(text: string, rest: string)
    requires text != "" && Like(text[1..], rest)
    ensures Like(text, "%" + rest)
  {
    AnySuffix(text, rest);
    assert Like(text[1..], rest);
  }

  lemma {:induction false} WordAlone(w: string)
    requires IsWord(w)
    ensures Split(w) == [w]
  {
    var init := w[..|w| - 1];
    if init != "" {
      assert IsWord(init);
      WordAlone(init);
    }
    assert w == init + [w[|w| - 1]];
  }

  lemma MatchesItsSample(id: string)
    requires Sample(id) != "" && IsWord(Sample(id))
    ensures Like(PadReferences(Some(Sample(id))), "% " + id + " %") && Words(Some(Sample(id))) == [Sample(id)]
  {
    var w := Sample(id);
    WordAlone(w);
    SampleAccepted(id);
    var text, rest := " " + w + " ", " " + (id + " %");
    assert text[1..] == w + " " && rest[1..] == id + " %";
    assert Like(text, rest);
    AnySuffix(text, rest);
    assert text[0..] == text;
    assert "%" + rest == "% " + id + " %";
  }

  ghost predicate AlwaysWholeTokens(id: string) {
    forall header: Option<string> :: Like(PadReferences(header), "% " + id + " %") <==> id in Words(header)
  }

  /** A header of nothing but a space pads to two, which the empty id and the lone backslash accept. */
  lemma BlankHeader(id: string)
    requires id == "" || id == "\\"
    ensures Like(PadReferences(Some(" ")), "% " + id + " %") && Words(Some(" ")) == []
  {
    var text := "  ";
    assert Split("") == [] && Split(" ") == Split(" "[..0]) && " "[..0] == "";
    assert PadReferences(Some(" ")) == text;
    var rest := id + " %";
    assert text[1..] == " ";
    if id == "" {
      SampleAccepted("");
      assert rest == " %";
    } else {
      SampleAccepted("\\");
      assert Sample("\\") == "";
    }
    assert Like(" ", rest);
    assert (" " + rest)[1..] == rest && Like(text, " " + rest);
    AnySuffix(text, " " + rest);
    assert text[0..] == text;
    assert "%" + (" " + rest) == "% " + id + " %";
  }

  /** Among ids without whitespace the law holds for the non-empty ones without LIKE wildcards, and for no others. */
  lemma WholeTokensExactly(id: string)
    requires forall i | 0 <= i < |id| :: !IsSpace(id[i])
    ensures AlwaysWholeTokens(id) <==> id != "" && Literal(id)
  {
    if id != "" && Literal(id) {
      forall header: Option<string> ensures Like(PadReferences(header), "% " + id + " %") <==> id in Words(header) {
        MatchesWholeTokens(id, header);
      }
    } else if id == "" || id == "\\" {
      BlankHeader(id);
      assert !(Like(PadReferences(Some(" ")), "% " + id + " %") <==> id in Words(Some(" ")));
    } else {
      SampleIsWord(id);
      SampleDiffers(id);
      MatchesItsSample(id);
      var header := Some(Sample(id));
      assert !(Like(PadReferences(header), "% " + id + " %") <==> id in Words(header));
    }
  }
}
