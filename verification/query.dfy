/** How a question becomes search keywords (`TreeSearcher._understand_query`).
    When the language model offers a non-empty list of search terms, those
    are the keywords. Otherwise the question is lowered and split into runs
    of Latin or Cyrillic letters; stop words and words of at most two letters
    are dropped and the first five words that remain are kept. */
module Query {
  import opened Seqs
  import opened Text

  /** A character of the class `[а-яА-ЯёЁa-zA-Z]`. */
  predicate IsWordChar(c: char) {
    ('а' <= c <= 'я') || ('А' <= c <= 'Я') || c == 'ё' || c == 'Ё'
    || ('a' <= c <= 'z') || ('A' <= c <= 'Z')
  }

  /** A non-empty run of word characters. */
  predicate IsWord(w: string) {
    0 < |w| && forall i :: 0 <= i < |w| ==> IsWordChar(w[i])
  }

  /** The length of the run of word characters at the start of `s`. */
  function RunLength(s: string): (n: nat)
    ensures n <= |s|
    ensures forall i :: 0 <= i < n ==> IsWordChar(s[i])
    ensures n < |s| ==> !IsWordChar(s[n])
  {
    if |s| == 0 || !IsWordChar(s[0]) then 0 else 1 + RunLength(s[1..])
  }

  /** `re.findall(r'[а-яА-ЯёЁa-zA-Z]+', s)`: the maximal runs of word characters, left to right. */
  function Words(s: string): (r: seq<string>)
    ensures forall i :: 0 <= i < |r| ==> IsWord(r[i])
    decreases |s|
  {
    if |s| == 0 then []
    else if !IsWordChar(s[0]) then Words(s[1..])
    else
      var n := RunLength(s);
      [s[..n]] + Words(s[n..])
  }

  /** `sep.join(ws)`. */
  function Join(ws: seq<string>, sep: string): string {
    if |ws| == 0 then ""
    else if |ws| == 1 then ws[0]
    else ws[0] + sep + Join(ws[1..], sep)
  }

  /** The run at the start of a word followed by a non-word character is the word. */
  lemma {:induction false} RunLengthOfWord(w: string, rest: string)
    requires IsWord(w)
    requires |rest| == 0 || !IsWordChar(rest[0])
    ensures RunLength(w + rest) == |w|
    decreases |w|
  {
    if |w| > 1 {
      assert (w + rest)[1..] == w[1..] + rest;
      RunLengthOfWord(w[1..], rest);
    } else {
      assert (w + rest)[1..] == rest;
    }
  }

  /** Splitting words joined by blanks gives the words back. */
  lemma {:induction false} WordsOfJoin(ws: seq<string>)
    requires forall i :: 0 <= i < |ws| ==> IsWord(ws[i])
    ensures Words(Join(ws, " ")) == ws
  {
    if |ws| == 1 {
      var w := ws[0];
      RunLengthOfWord(w, "");
      assert w + "" == w;
      assert w[|w|..] == "";
    } else if |ws| > 1 {
      var w := ws[0];
      var tail := Join(ws[1..], " ");
      var s := w + " " + tail;
      assert s == w + (" " + tail);
      RunLengthOfWord(w, " " + tail);
      assert s[..|w|] == w;
      assert s[|w|..] == " " + tail;
      assert (" " + tail)[1..] == tail;
      WordsOfJoin(ws[1..]);
    }
  }

  /** Every word the splitter returns occurs in the text it was split from. */
  lemma {:induction false} WordsOccur(s: string)
    ensures forall i :: 0 <= i < |Words(s)| ==> Contains(s, Words(s)[i])
    decreases |s|
  {
    if |s| == 0 {
    } else if !IsWordChar(s[0]) {
      WordsOccur(s[1..]);
      assert Words(s) == Words(s[1..]);
      forall i | 0 <= i < |Words(s)| ensures Contains(s, Words(s)[i]) {
        assert Contains(s[1..], Words(s[1..])[i]);
        ContainsInSuffix(s, 1, Words(s)[i]);
      }
    } else {
      var n := RunLength(s);
      WordsOccur(s[n..]);
      forall i | 0 <= i < |Words(s)| ensures Contains(s, Words(s)[i]) {
        if i == 0 {
          assert MatchesAt(s, s[..n], 0);
        } else {
          assert Words(s)[i] == Words(s[n..])[i - 1];
          ContainsInSuffix(s, n, Words(s)[i]);
        }
      }
    }
  }

  lemma ContainsInSuffix(s: string, k: nat, p: string)
    requires k <= |s| && Contains(s[k..], p)
    ensures Contains(s, p)
  {
    var i :| 0 <= i <= |s[k..]| - |p| && MatchesAt(s[k..], p, i);
    assert s[k..][i..i + |p|] == s[k + i..k + i + |p|];
    assert MatchesAt(s, p, k + i);
  }

  const StopWords: set<string> := {
    "что", "как", "где", "когда", "почему", "какой", "какая", "какие",
    "это", "такое", "для", "при", "или", "если", "чем", "между"
  }

  /** The most keywords the fallback splitter returns. */
  const MaxTerms := 5

  /** A word worth searching for: longer than two characters and not a stop word. */
  predicate IsTerm(w: string) {
    |w| > 2 && w !in StopWords
  }

  /** `[w for w in ws if w not in stop_words and len(w) > 2]`. */
  function KeepTerms(ws: seq<string>): (r: seq<string>)
    ensures forall w :: w in r <==> w in ws && IsTerm(w)
    ensures forall w :: multiset(r)[w] == if IsTerm(w) then multiset(ws)[w] else 0
    ensures |r| <= |ws|
  {
    if |ws| == 0 then []
    else
      assert ws == [ws[0]] + ws[1..];
      if IsTerm(ws[0]) then [ws[0]] + KeepTerms(ws[1..])
      else KeepTerms(ws[1..])
  }

  /** Filtering keeps the words in the order they came in. */
  lemma {:induction false} KeepTermsEmbeds(ws: seq<string>)
    ensures Embeds(KeepTerms(ws), ws)
  {
    if |ws| != 0 {
      KeepTermsEmbeds(ws[1..]);
      if IsTerm(ws[0]) {
        assert KeepTerms(ws)[0] == ws[0] && KeepTerms(ws)[1..] == KeepTerms(ws[1..]);
      }
    }
  }

  /** The fallback: the first five search terms of the lowered question, or
      all of them when there are fewer. */
  function Tokenize(query: string): (r: seq<string>)
    ensures |r| <= MaxTerms
    ensures r <= KeepTerms(Words(Lower(query)))
    ensures var terms := KeepTerms(Words(Lower(query)));
      |r| == if MaxTerms <= |terms| then MaxTerms else |terms|
    ensures |r| < MaxTerms ==>
      forall w :: w in Words(Lower(query)) && IsTerm(w) ==> w in r
    ensures forall i :: 0 <= i < |r| ==>
      IsWord(r[i]) && IsTerm(r[i]) && IsLower(r[i]) && Contains(Lower(query), r[i])
  {
    var words := Words(Lower(query));
    WordsOccur(Lower(query));
    var r := Take(KeepTerms(words), MaxTerms);
    forall i | 0 <= i < |r| ensures IsWord(r[i]) && IsTerm(r[i]) && IsLower(r[i]) && Contains(Lower(query), r[i]) {
      assert r[i] in KeepTerms(words);
      var j :| 0 <= j < |words| && words[j] == r[i];
      LowerSliceIsLower(query, r[i]);
    }
    r
  }

  /** The fallback terms are words of the lowered question, in the order in
      which they occur there. */
  lemma TokenizeInOrder(query: string)
    ensures Embeds(Tokenize(query), Words(Lower(query)))
  {
    var kept := KeepTerms(Words(Lower(query)));
    KeepTermsEmbeds(Words(Lower(query)));
    if MaxTerms <= |kept| {
      EmbedsPrefix(kept, Words(Lower(query)), MaxTerms);
    }
  }

  /** A word followed by a separator splits off as the first word. */
  lemma WordThenSeparator(w: string, rest: string)
    requires IsWord(w) && 0 < |rest| && !IsWordChar(rest[0])
    ensures Words(w + rest) == [w] + Words(rest[1..])
  {
    RunLengthOfWord(w, rest);
    assert (w + rest)[..|w|] == w;
    assert (w + rest)[|w|..] == rest;
  }

  /** Two words written together form one word. */
  lemma WordAppend(x: string, y: string)
    requires IsWord(x) && IsWord(y)
    ensures IsWord(x + y)
  {
    assert forall i :: |x| <= i < |x + y| ==> (x + y)[i] == y[i - |x|];
  }

  /** A separator at the end of a text ends the last run and adds no word. */
  lemma {:induction false} WordsBeforeSeparator(s: string, sep: char)
    requires !IsWordChar(sep)
    ensures Words(s + [sep]) == Words(s)
    decreases |s|
  {
    var t := s + [sep];
    if |s| == 0 {
      assert t[1..] == [];
    } else if !IsWordChar(s[0]) {
      assert t[1..] == s[1..] + [sep];
      WordsBeforeSeparator(s[1..], sep);
    } else {
      var n := RunLength(s);
      RunLengthBeforeSeparator(s, sep);
      assert t[..n] == s[..n];
      assert t[n..] == s[n..] + [sep];
      WordsBeforeSeparator(s[n..], sep);
    }
  }

  lemma {:induction false} RunLengthBeforeSeparator(s: string, sep: char)
    requires !IsWordChar(sep)
    ensures RunLength(s + [sep]) == RunLength(s)
  {
    if |s| != 0 && IsWordChar(s[0]) {
      assert (s + [sep])[1..] == s[1..] + [sep];
      RunLengthBeforeSeparator(s[1..], sep);
    }
  }

  /** A substring of a lowered text is itself lower case. */
  lemma LowerSliceIsLower(s: string, w: string)
    requires Contains(Lower(s), w)
    ensures IsLower(w)
  {
    var i :| 0 <= i <= |Lower(s)| - |w| && MatchesAt(Lower(s), w, i);
    assert w == Lower(s[i..i + |w|]);
    LowerIsLower(s[i..i + |w|]);
  }

  /** `_understand_query(query)`. `llmTerms` is what the language model offered
      as `search_terms`, or `None` when there is no model. */
  function UnderstandQuery(query: string, llmTerms: Option<seq<string>>): (r: seq<string>)
    ensures llmTerms.Some? && llmTerms.value != [] ==> r == llmTerms.value
    ensures (llmTerms.None? || llmTerms.value == []) ==> r == Tokenize(query)
    ensures (llmTerms.None? || llmTerms.value == []) ==> |r| <= MaxTerms
    ensures (llmTerms.None? || llmTerms.value == []) ==>
      forall i :: 0 <= i < |r| ==> IsTerm(r[i]) && IsLower(r[i]) && Contains(Lower(query), r[i])
  {
    if llmTerms.Some? && llmTerms.value != [] then llmTerms.value else Tokenize(query)
  }

  lemma {:induction false} LowerAppend(a: string, b: string)
    ensures Lower(a + b) == Lower(a) + Lower(b)
  {
    MapSeqAppend(a, b, LowerChar);
  }

  lemma {:induction false} JoinIsLower(ws: seq<string>)
    requires forall i :: 0 <= i < |ws| ==> IsLower(ws[i])
    ensures IsLower(Join(ws, " "))
  {
    if |ws| > 1 {
      JoinIsLower(ws[1..]);
      LowerAppend(ws[0], " ");
      LowerAppend(ws[0] + " ", Join(ws[1..], " "));
    }
  }

  lemma {:induction false} KeepAllTerms(ws: seq<string>)
    requires forall i :: 0 <= i < |ws| ==> IsTerm(ws[i])
    ensures KeepTerms(ws) == ws
  {
    if |ws| != 0 {
      KeepAllTerms(ws[1..]);
    }
  }

  /** A question made only of lower-case search terms separated by blanks gives
      back its first five terms, in order. */
  lemma TokenizeJoin(ws: seq<string>)
    requires forall i :: 0 <= i < |ws| ==> IsWord(ws[i]) && IsLower(ws[i]) && IsTerm(ws[i])
    ensures Tokenize(Join(ws, " ")) == Take(ws, MaxTerms)
  {
    JoinIsLower(ws);
    WordsOfJoin(ws);
    KeepAllTerms(ws);
  }

  // ---------------------------------------------------------------------------
  // A worked example.

  /** The fallback on a question of the corpus: "what is delegation?" keeps
      only the word "delegation", lowered, and so does `_understand_query`
      when there is no language model. */
  lemma TokenizeExample(q: string)
    requires q == "Что такое делегирование?"
    ensures Tokenize(q) == ["делегирование"]
    ensures UnderstandQuery(q, None) == ["делегирование"]
  {
    var ws := ["что", "такое", "делегирование"];
    var p1, p2, p3, p4 := "Что", " такое", " делег", "ирование?";
    QuestionParts(q, p1, p2, p3, p4);
    LoweredParts(Join(ws, " ") + "?", p2, p3, p4);
    LowerOfParts(p1, p2, p3, p4);
    LowerExampleParts(p1, p2, p3, p4);
    ExampleWords(ws);
    WordsOfJoin(ws);
    WordsBeforeSeparator(Join(ws, " "), '?');
    ExampleTerms(ws);
    assert Lower(q) == Join(ws, " ") + "?";
    assert Words(Lower(q)) == ws;
  }

  lemma ExampleTerms(ws: seq<string>)
    requires ws == ["что", "такое", "делегирование"]
    ensures KeepTerms(ws) == ["делегирование"]
  {
  }

  /** How the example question splits into pieces. */
  lemma QuestionParts(q: string, p1: string, p2: string, p3: string, p4: string)
    requires q == "Что такое делегирование?"
    requires p1 == "Что" && p2 == " такое" && p3 == " делег" && p4 == "ирование?"
    ensures q == p1 + p2 + p3 + p4
  {
  }

  /** How the lowered words of the example, joined, split into pieces. */
  lemma LoweredParts(s: string, p2: string, p3: string, p4: string)
    requires s == Join(["что", "такое", "делегирование"], " ") + "?"
    requires p2 == " такое" && p3 == " делег" && p4 == "ирование?"
    ensures s == "что" + p2 + p3 + p4
  {
  }

  lemma LowerOfParts(p1: string, p2: string, p3: string, p4: string)
    ensures Lower(p1 + p2 + p3 + p4) == Lower(p1) + Lower(p2) + Lower(p3) + Lower(p4)
  {
    LowerAppend(p1, p2);
    LowerAppend(p1 + p2, p3);
    LowerAppend(p1 + p2 + p3, p4);
  }

  lemma LowerExampleParts(p1: string, p2: string, p3: string, p4: string)
    requires p1 == "Что" && p2 == " такое" && p3 == " делег" && p4 == "ирование?"
    ensures Lower(p1) == "что" && Lower(p2) == p2 && Lower(p3) == p3 && Lower(p4) == p4
  {
  }

  lemma ExampleWords(ws: seq<string>)
    requires ws == ["что", "такое", "делегирование"]
    ensures forall i :: 0 <= i < |ws| ==> IsWord(ws[i])
    ensures !IsWordChar('?')
  {
    assert IsWord("что");
    assert "такое" == "так" + "ое";
    WordAppend("так", "ое");
    assert "делегирование" == "делег" + "иров" + "ание";
    WordAppend("делег", "иров");
    WordAppend("делег" + "иров", "ание");
  }
}
