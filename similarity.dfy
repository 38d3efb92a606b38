/** The duplicate-title heuristic `postDoubt` runs before saving a doubt. */
module Similarity {
  import opened Records
  import opened Text
  import Seqs

  /** The eleven words that never count as keywords. */
  const StopWords: seq<string> :=
    ["how", "to", "the", "what", "is", "can", "you", "help", "for", "with", "and"]

  predicate IsKeyword(w: string) {
    |w| > 2 && w !in StopWords
  }

  /** The lower-cased whitespace-separated tokens of a title. */
  function TitleWords(title: string): seq<string> {
    Words(Lower(title))
  }

  /** The new title's tokens longer than two characters that are not stop
      words, repeats included, in title order. */
  function Keywords(title: string): seq<string> {
    Seqs.Filter(TitleWords(title), IsKeyword)
  }

  /** How many of the keywords, counted with their repeats, occur among the
      existing title's tokens (which are not filtered). */
  function MatchCount(keywords: seq<string>, existingWords: seq<string>): nat {
    |Seqs.Filter(keywords, (w: string) => w in existingWords)|
  }

  predicate IsSimilar(title: string, existingTitle: string) {
    MatchCount(Keywords(title), TitleWords(existingTitle)) >= 2
  }

  /** The stored doubts whose titles share at least two keywords with
      `title`, in storage order. */
  function SimilarDoubts(title: string, doubts: seq<Doubt>): seq<Doubt> {
    Seqs.Filter(doubts, (d: Doubt) => IsSimilar(title, d.title))
  }

  /** A keyword is exactly a lower-cased token of the title that is longer
      than two characters and not a stop word; each occurs in the keywords
      as often as among the title's tokens. */
  lemma KeywordsAreLongNonStopTokens(title: string, w: string)
    ensures w in Keywords(title) <==> w in TitleWords(title) && |w| > 2 && w !in StopWords
    ensures multiset(Keywords(title))[w] == if IsKeyword(w) then multiset(TitleWords(title))[w] else 0
  {
    Seqs.FilterMembers(TitleWords(title), IsKeyword);
    Seqs.FilterCounts(TitleWords(title), IsKeyword);
  }

  /** A doubt is reported exactly when it is stored and similar. */
  lemma SimilarDoubtsAreTheSimilarOnes(title: string, doubts: seq<Doubt>, d: Doubt)
    ensures d in SimilarDoubts(title, doubts) <==> d in doubts && IsSimilar(title, d.title)
  {
    Seqs.FilterMembers(doubts, (d: Doubt) => IsSimilar(title, d.title));
  }

  /** A title with fewer than two keywords is never similar to anything. */
  lemma FewKeywordsNeverSimilar(title: string, existingTitle: string)
    requires |Keywords(title)| < 2
    ensures !IsSimilar(title, existingTitle)
  {
  }

  /** Leaving stop words and short tokens in the existing title changes
      nothing: matching against its keywords gives the same count. */
  lemma ExistingSideFilterIrrelevant(title: string, existingTitle: string)
    ensures MatchCount(Keywords(title), TitleWords(existingTitle))
         == MatchCount(Keywords(title), Keywords(existingTitle))
  {
    var ks := Keywords(title);
    var ew := TitleWords(existingTitle);
    forall w | w in ks
      ensures (w in ew) == (w in Keywords(existingTitle))
    {
      KeywordsAreLongNonStopTokens(title, w);
      KeywordsAreLongNonStopTokens(existingTitle, w);
    }
    Seqs.FilterCongruent(ks, (w: string) => w in ew, (w: string) => w in Keywords(existingTitle));
  }

  /** Case does not matter: the check lower-cases both titles first. */
  lemma SimilarityIgnoresCase(title: string, existingTitle: string)
    ensures IsSimilar(Lower(title), existingTitle) == IsSimilar(title, existingTitle)
    ensures IsSimilar(title, Lower(existingTitle)) == IsSimilar(title, existingTitle)
  {
    LowerIdempotent(title);
    LowerIdempotent(existingTitle);
  }

  /** A title made of words joined by single spaces has those words,
      lower-cased, as its tokens. */
  lemma TitleWordsOfJoin(ws: seq<string>)
    requires |ws| >= 1
    requires forall k :: 0 <= k < |ws| ==> ws[k] != "" && NoSpace(ws[k])
    ensures TitleWords(JoinWords(ws)) == LowerAll(ws)
  {
    LowerJoin(ws);
    forall k | 0 <= k < |ws| ensures LowerAll(ws)[k] != "" && NoSpace(LowerAll(ws)[k]) {
      LowerKeepsWord(ws[k]);
    }
    SplitJoinRoundTrip(LowerAll(ws));
  }

  /** On token lists: two leading keywords both found in the existing
      tokens give two matches. */
  lemma SharedPairCounts(la: string, lb: string, lc: string)
    requires IsKeyword(la) && IsKeyword(lb)
    ensures MatchCount(Seqs.Filter([la, lb, lc], IsKeyword), [la, lb]) >= 2
  {
    assert [la, lb, lc] == [la, lb] + [lc];
    Seqs.FilterAppend([la, lb], [lc], IsKeyword);
    assert Seqs.Filter([la, lb], IsKeyword) == [la, lb] by {
      assert [la, lb][1..] == [lb];
    }
    var inE := (w: string) => w in [la, lb];
    Seqs.FilterAppend([la, lb], Seqs.Filter([lc], IsKeyword), inE);
    assert Seqs.Filter([la, lb], inE) == [la, lb] by {
      assert [la, lb][1..] == [lb];
    }
  }

  /** On token lists: a keyword said twice matches twice; the other way
      round, the one keyword present matches once. */
  lemma RepeatedPairCounts(lw: string, lx: string)
    requires IsKeyword(lw) && lx != lw
    ensures MatchCount(Seqs.Filter([lw, lw], IsKeyword), [lx, lw]) == 2
    ensures MatchCount(Seqs.Filter([lx, lw], IsKeyword), [lw, lw]) <= 1
  {
    assert [lw, lw][1..] == [lw];
    assert Seqs.Filter([lw, lw], IsKeyword) == [lw, lw];
    assert Seqs.Filter([lw, lw], (v: string) => v in [lx, lw]) == [lw, lw];
    assert [lx, lw] == [lx] + [lw];
    Seqs.FilterAppend([lx], [lw], IsKeyword);
    var ks := Seqs.Filter([lx, lw], IsKeyword);
    var inE := (v: string) => v in [lw, lw];
    Seqs.FilterAppend(Seqs.Filter([lx], IsKeyword), [lw], inE);
    assert |Seqs.Filter(Seqs.Filter([lx], IsKeyword), inE)| == 0;
  }

  /** Two shared keywords are enough: "A B C" is similar to "A B" whenever
      the lower-cased A and B are keywords, whatever C is. */
  lemma TwoSharedKeywordsMakeSimilar(a: string, b: string, c: string)
    requires a != "" && NoSpace(a) && b != "" && NoSpace(b) && c != "" && NoSpace(c)
    requires IsKeyword(Lower(a)) && IsKeyword(Lower(b))
    ensures IsSimilar(JoinWords([a, b, c]), JoinWords([a, b]))
  {
    TitleWordsOfJoin([a, b, c]);
    TitleWordsOfJoin([a, b]);
    assert LowerAll([a, b, c]) == [Lower(a), Lower(b), Lower(c)];
    assert LowerAll([a, b]) == [Lower(a), Lower(b)];
    SharedPairCounts(Lower(a), Lower(b), Lower(c));
  }

  /** Matches are counted with repeats and only the new title is filtered,
      so the relation is not symmetric: "W W" is similar to "X W" through
      one keyword said twice, while "X W" is not similar to "W W". */
  lemma RepeatedKeywordCountsTwice(w: string, x: string)
    requires w != "" && NoSpace(w) && x != "" && NoSpace(x)
    requires IsKeyword(Lower(w)) && Lower(x) != Lower(w)
    ensures IsSimilar(JoinWords([w, w]), JoinWords([x, w]))
    ensures !IsSimilar(JoinWords([x, w]), JoinWords([w, w]))
  {
    TitleWordsOfJoin([w, w]);
    TitleWordsOfJoin([x, w]);
    assert LowerAll([w, w]) == [Lower(w), Lower(w)];
    assert LowerAll([x, w]) == [Lower(x), Lower(w)];
    RepeatedPairCounts(Lower(w), Lower(x));
  }

  /** The stored title, spelled as its two words joined by a space. */
  lemma StoredNewtonTitle()
    ensures JoinWords(["Newton-Raphson", "Convergence"]) == "Newton-Raphson Convergence"
  {
  }

  /** The new title, spelled as its three words joined by spaces. */
  lemma NewNewtonTitle()
    ensures JoinWords(["Newton-Raphson", "Convergence", "Proof"]) == "Newton-Raphson Convergence Proof"
  {
  }

  /** The new doubt "Newton-Raphson Convergence Proof" collides with the
      stored "Newton-Raphson Convergence": its keywords "newton-raphson" and
      "convergence" both occur there. */
  lemma NewtonRaphsonExample()
    ensures IsSimilar("Newton-Raphson Convergence Proof", "Newton-Raphson Convergence")
  {
    TwoSharedKeywordsMakeSimilar("Newton-Raphson", "Convergence", "Proof");
    StoredNewtonTitle();
    NewNewtonTitle();
  }
}
