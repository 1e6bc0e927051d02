/** Keyword extraction from a user query (extract_keywords): punctuation is
    deleted, the query lower-cased and split on whitespace, and stopwords and
    words of at most two characters are dropped. */
module Keywords {
  import opened Text
  import opened Seqs

  /** STOPWORDS. */
  const Stopwords: set<string> := {
    "the", "was", "in", "of", "and", "to", "for", "on", "at", "a", "an", "is", "are", "it", "as", "by",
    "that", "with", "be", "or", "from", "this", "which", "can", "but", "not", "if", "then", "do", "so",
    "about", "into", "we", "our", "their", "your"
  }

  /** A character of Python's string.punctuation: !"#$%&'()*+,-./:;<=>?@[\]^_`{|}~ */
  predicate IsPunctuation(c: char) {
    ('!' <= c <= '/') || (':' <= c <= '@') || ('[' <= c <= '`') || ('{' <= c <= '~')
  }

  /** query.translate(str.maketrans('', '', string.punctuation)). */
  function RemovePunctuation(s: string): (r: string)
    ensures forall i :: 0 <= i < |r| ==> !IsPunctuation(r[i])
  {
    if |s| == 0 then ""
    else RemovePunctuation(s[..|s| - 1]) + (if IsPunctuation(s[|s| - 1]) then "" else [s[|s| - 1]])
  }

  /** Only punctuation is deleted: every other character keeps its number of
      occurrences, and the order is kept. */
  lemma {:induction false} RemovePunctuationKeepsRest(s: string)
    ensures IsSubsequence(RemovePunctuation(s), s)
    ensures forall c :: !IsPunctuation(c) ==> Count(RemovePunctuation(s), c) == Count(s, c)
  {
    if |s| > 0 {
      var s', x := s[..|s| - 1], s[|s| - 1];
      RemovePunctuationKeepsRest(s');
      assert s == s' + [x];
      if IsPunctuation(x) {
        assert RemovePunctuation(s) == RemovePunctuation(s');
        SubsequenceSkip(RemovePunctuation(s'), s', x);
      } else {
        SubsequenceKeep(RemovePunctuation(s'), s', x);
        var r := RemovePunctuation(s);
        assert r[..|r| - 1] == RemovePunctuation(s');
      }
    }
  }

  predicate NoSpace(w: string) {
    forall i :: 0 <= i < |w| ==> !IsSpace(w[i])
  }

  /** Length of the run of non-whitespace characters at the start of `t`. */
  function WordLength(t: string): (n: nat)
    ensures n <= |t| && NoSpace(t[..n]) && (n == |t| || IsSpace(t[n]))
  {
    if |t| == 0 || IsSpace(t[0]) then 0 else 1 + WordLength(t[1..])
  }

  /** str.split() without arguments: the maximal runs of non-whitespace
      characters. That each run is maximal comes from WordLength, which stops
      only at whitespace or the end; the contract and WordsCoverText state
      the words' shape and content, not where the text is cut. */
  function Words(s: string): (r: seq<string>)
    ensures forall i :: 0 <= i < |r| ==> |r[i]| > 0 && NoSpace(r[i])
    decreases |s|
  {
    var a := LeadingSpace(s);
    if a == |s| then []
    else
      var t := s[a..];
      var n := WordLength(t);
      [t[..n]] + Words(t[n..])
  }

  /** Every character of every word in `ws` is a character of `s`. */
  predicate CharsIn(ws: seq<string>, s: string) {
    forall i, j :: 0 <= i < |ws| && 0 <= j < |ws[i]| ==> ws[i][j] in s
  }

  lemma CharsInCons(w: string, ws: seq<string>, s: string)
    requires forall j :: 0 <= j < |w| ==> w[j] in s
    requires CharsIn(ws, s)
    ensures CharsIn([w] + ws, s)
  {
    var r := [w] + ws;
    forall i, j | 0 <= i < |r| && 0 <= j < |r[i]| ensures r[i][j] in s {
      if i > 0 {
        assert r[i] == ws[i - 1];
      }
    }
  }

  lemma CharsInSuffix(ws: seq<string>, s: string, a: nat)
    requires a <= |s| && CharsIn(ws, s[a..])
    ensures CharsIn(ws, s)
  {
    forall i, j | 0 <= i < |ws| && 0 <= j < |ws[i]| ensures ws[i][j] in s {
      var m :| 0 <= m < |s[a..]| && s[a..][m] == ws[i][j];
      assert s[a + m] == ws[i][j];
    }
  }

  /** Every character of a word is a character of the text. */
  lemma {:induction false} WordsFromText(s: string)
    ensures CharsIn(Words(s), s)
    decreases |s|
  {
    var a := LeadingSpace(s);
    if a < |s| {
      var t := s[a..];
      var n := WordLength(t);
      var rest := t[n..];
      assert rest == s[a + n..];
      WordsFromText(rest);
      CharsInSuffix(Words(rest), s, a + n);
      var w := t[..n];
      assert forall j :: 0 <= j < |w| ==> w[j] == s[a + j];
      CharsInCons(w, Words(rest), s);
    }
  }

  /** The characters of `s` that are not whitespace, in order. */
  function NonSpace(s: string): string {
    if |s| == 0 then "" else (if IsSpace(s[0]) then "" else [s[0]]) + NonSpace(s[1..])
  }

  function Flatten(ws: seq<string>): string {
    if |ws| == 0 then "" else ws[0] + Flatten(ws[1..])
  }

  lemma {:induction false} NonSpaceAppend(a: string, b: string)
    ensures NonSpace(a + b) == NonSpace(a) + NonSpace(b)
  {
    if |a| > 0 {
      assert (a + b)[1..] == a[1..] + b;
      NonSpaceAppend(a[1..], b);
    } else {
      assert a + b == b;
    }
  }

  lemma {:induction false} NonSpaceOfSpace(s: string)
    requires AllSpace(s)
    ensures NonSpace(s) == ""
  {
    if |s| > 0 {
      NonSpaceOfSpace(s[1..]);
    }
  }

  lemma {:induction false} NonSpaceOfWord(w: string)
    requires NoSpace(w)
    ensures NonSpace(w) == w
  {
    if |w| > 0 {
      NonSpaceOfWord(w[1..]);
    }
  }

  /** Splitting a text that has a word after its leading whitespace. */
  lemma WordsStep(s: string)
    requires LeadingSpace(s) < |s|
    ensures var t := s[LeadingSpace(s)..];
            Flatten(Words(s)) == t[..WordLength(t)] + Flatten(Words(t[WordLength(t)..]))
  {
    var a := LeadingSpace(s);
    var t := s[a..];
    var n := WordLength(t);
    var ws := Words(s);
    assert ws == [t[..n]] + Words(t[n..]);
    assert ws[1..] == Words(t[n..]);
  }

  /** The non-whitespace of such a text is that word and the non-whitespace after it. */
  lemma NonSpaceStep(s: string, a: nat, n: nat)
    requires a + n <= |s| && AllSpace(s[..a]) && NoSpace(s[a..a + n])
    ensures NonSpace(s) == s[a..a + n] + NonSpace(s[a + n..])
  {
    var w, rest := s[a..a + n], s[a + n..];
    assert s == s[..a] + (w + rest);
    NonSpaceAppend(s[..a], w + rest);
    NonSpaceAppend(w, rest);
    NonSpaceOfSpace(s[..a]);
    NonSpaceOfWord(w);
  }

  /** Splitting loses exactly the whitespace: the words, run together, are the
      non-whitespace characters of the text. */
  lemma {:induction false} WordsCoverText(s: string)
    ensures Flatten(Words(s)) == NonSpace(s)
    decreases |s|
  {
    var a := LeadingSpace(s);
    if a == |s| {
      assert s[..a] == s;
      NonSpaceOfSpace(s);
    } else {
      var t := s[a..];
      var n := WordLength(t);
      WordsStep(s);
      assert t[..n] == s[a..a + n] && t[n..] == s[a + n..];
      NonSpaceStep(s, a, n);
      WordsCoverText(t[n..]);
    }
  }

  /** The filter of the comprehension. */
  predicate IsKeyword(w: string) {
    w !in Stopwords && |w| > 2
  }

  function KeepKeywords(ws: seq<string>): (r: seq<string>)
    ensures forall i :: 0 <= i < |r| ==> IsKeyword(r[i])
  {
    if |ws| == 0 then []
    else KeepKeywords(ws[..|ws| - 1]) + (if IsKeyword(ws[|ws| - 1]) then [ws[|ws| - 1]] else [])
  }

  /** The words the query splits into after punctuation removal and lower-casing. */
  function QueryWords(query: string): seq<string> {
    Words(ToLower(RemovePunctuation(query)))
  }

  /** extract_keywords. */
  function ExtractKeywords(query: string): seq<string> {
    KeepKeywords(QueryWords(query))
  }

  /** The filter keeps the order and every repetition of a kept word, and
      drops every other word. */
  lemma {:induction false} KeepKeywordsExact(ws: seq<string>)
    ensures IsSubsequence(KeepKeywords(ws), ws)
    ensures forall w :: Count(KeepKeywords(ws), w) == (if IsKeyword(w) then Count(ws, w) else 0)
  {
    if |ws| > 0 {
      var ws', x := ws[..|ws| - 1], ws[|ws| - 1];
      KeepKeywordsExact(ws');
      var r', r := KeepKeywords(ws'), KeepKeywords(ws);
      assert ws' + [x] == ws;
      if IsKeyword(x) {
        assert r[..|r| - 1] == r' && r[|r| - 1] == x;
        SubsequenceKeep(r', ws', x);
      } else {
        assert r == r';
        SubsequenceSkip(r', ws', x);
      }
      forall w ensures Count(r, w) == (if IsKeyword(w) then Count(ws, w) else 0) {
        assert Count(ws, w) == Count(ws', w) + (if x == w then 1 else 0);
      }
    }
  }

  /** Every keyword is longer than two characters, not a stopword, and holds
      no punctuation, no whitespace and no upper-case ASCII letter. */
  lemma KeywordShape(query: string)
    ensures forall k :: k in ExtractKeywords(query) ==>
              && |k| > 2 && k !in Stopwords && NoSpace(k)
              && (forall i :: 0 <= i < |k| ==> !IsPunctuation(k[i]) && !IsUpperAscii(k[i]))
  {
    var lowered := ToLower(RemovePunctuation(query));
    assert forall m :: 0 <= m < |lowered| ==> !IsPunctuation(lowered[m]);
    var ws := Words(lowered);
    WordsFromText(lowered);
    KeepKeywordsExact(ws);
    SubsequenceMembers(KeepKeywords(ws), ws);
    forall k | k in ExtractKeywords(query)
      ensures |k| > 2 && k !in Stopwords && NoSpace(k)
      ensures forall i :: 0 <= i < |k| ==> !IsPunctuation(k[i]) && !IsUpperAscii(k[i])
    {
      var p :| 0 <= p < |KeepKeywords(ws)| && KeepKeywords(ws)[p] == k;
      var q :| 0 <= q < |ws| && ws[q] == k;
      forall i | 0 <= i < |k|
        ensures !IsPunctuation(k[i]) && !IsUpperAscii(k[i])
      {
        assert ws[q][i] in lowered;
      }
    }
  }

  /** Keywords come in query order, and a keyword repeated in the query is
      repeated as often in the result. */
  lemma KeywordsInQueryOrder(query: string)
    ensures IsSubsequence(ExtractKeywords(query), QueryWords(query))
    ensures forall w :: IsKeyword(w) ==> Count(ExtractKeywords(query), w) == Count(QueryWords(query), w)
  {
    KeepKeywordsExact(QueryWords(query));
  }

  lemma {:induction false} CountPositive(ws: seq<string>, i: nat)
    requires i < |ws|
    ensures Count(ws, ws[i]) > 0
  {
    if i < |ws| - 1 {
      CountPositive(ws[..|ws| - 1], i);
    }
  }

  /** The result is empty exactly when every word of the query is a stopword
      or has at most two characters. */
  lemma NoKeywords(query: string)
    ensures ExtractKeywords(query) == [] <==>
            forall i :: 0 <= i < |QueryWords(query)| ==> !IsKeyword(QueryWords(query)[i])
  {
    var ws := QueryWords(query);
    var r := ExtractKeywords(query);
    KeepKeywordsExact(ws);
    if r == [] {
      forall i | 0 <= i < |ws|
        ensures !IsKeyword(ws[i])
      {
        CountPositive(ws, i);
        assert Count(r, ws[i]) == 0;
      }
    } else {
      SubsequenceMembers(r, ws);
      assert r[0] in ws;
    }
  }
}
