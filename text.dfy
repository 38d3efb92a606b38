/** The string operations the similarity check is built from:
    `toLowerCase()` and `split(/\s+/)`. */
module Text {

  /** The characters JavaScript's regular-expression class `\s` matches:
      tab to carriage return, space, no-break space, the Ogham space mark,
      the spaces U+2000 to U+200A, the line and paragraph separators, the
      narrow no-break and medium mathematical spaces, the ideographic space
      and the byte-order mark. */
  predicate IsSpace(c: char) {
    if c <= ' ' then c == ' ' || ('\t' <= c <= '\r')
    else (
      '\U{00A0}' <= c &&
      (c == '\U{00A0}' || c == '\U{1680}' || ('\U{2000}' <= c <= '\U{200A}')
       || c == '\U{2028}' || c == '\U{2029}' || c == '\U{202F}' || c == '\U{205F}'
       || c == '\U{3000}' || c == '\U{FEFF}'))
  }

  predicate NoSpace(s: string) {
    forall k :: 0 <= k < |s| ==> !IsSpace(s[k])
  }

  /** `toLowerCase()` on one character, for the letters A to Z. */
  function LowerChar(c: char): (d: char)
    ensures 'A' <= c <= 'Z' ==> d as int == c as int + 32
    ensures !('A' <= c <= 'Z') ==> d == c
    ensures IsSpace(d) == IsSpace(c)
    ensures !('A' <= d <= 'Z')
  {
    if 'A' <= c <= 'Z' then (c as int + 32) as char else c
  }

  function Lower(s: string): (r: string)
    ensures |r| == |s|
  {
    seq(|s|, k requires 0 <= k < |s| => LowerChar(s[k]))
  }

  /** Lower-casing twice is lower-casing once. */
  lemma LowerIdempotent(s: string)
    ensures Lower(Lower(s)) == Lower(s)
  {
    assert forall k :: 0 <= k < |s| ==> Lower(Lower(s))[k] == LowerChar(LowerChar(s[k]));
  }

  /** The index of the first whitespace character of `s`, or `|s|`. */
  function FirstSpace(s: string): (i: nat)
    ensures i <= |s|
    decreases |s|
  {
    if s == [] || IsSpace(s[0]) then 0 else 1 + FirstSpace(s[1..])
  }

  lemma {:induction false} FirstSpaceSpec(s: string)
    ensures NoSpace(s[..FirstSpace(s)])
    ensures FirstSpace(s) < |s| ==> IsSpace(s[FirstSpace(s)])
    decreases |s|
  {
    if s != [] && !IsSpace(s[0]) {
      FirstSpaceSpec(s[1..]);
      var i := FirstSpace(s);
      assert forall k :: 1 <= k < i ==> s[..i][k] == s[1..][..i - 1][k - 1];
    }
  }

  /** The end of the run of whitespace that starts at `i`. */
  function SpaceRunEnd(s: string, i: nat): (j: nat)
    requires i <= |s|
    ensures i <= j <= |s|
    decreases |s| - i
  {
    if i < |s| && IsSpace(s[i]) then SpaceRunEnd(s, i + 1) else i
  }

  lemma {:induction false} SpaceRunEndSpec(s: string, i: nat)
    requires i <= |s|
    ensures forall k :: i <= k < SpaceRunEnd(s, i) ==> IsSpace(s[k])
    ensures SpaceRunEnd(s, i) < |s| ==> !IsSpace(s[SpaceRunEnd(s, i)])
    decreases |s| - i
  {
    if i < |s| && IsSpace(s[i]) {
      SpaceRunEndSpec(s, i + 1);
    }
  }

  /** `s.split(/\s+/)`: the pieces between maximal runs of whitespace. A
      leading or trailing run leaves an empty first or last piece, and the
      empty string splits into one empty piece. */
  function Words(s: string): (ws: seq<string>)
    ensures |ws| >= 1
    decreases |s|
  {
    var i := FirstSpace(s);
    if i == |s| then [s] else [s[..i]] + Words(s[SpaceRunEnd(s, i)..])
  }

  /** No piece contains whitespace. */
  lemma {:induction false} WordsHaveNoSpace(s: string)
    ensures forall w :: w in Words(s) ==> NoSpace(w)
    decreases |s|
  {
    var i := FirstSpace(s);
    FirstSpaceSpec(s);
    if i == |s| {
      assert s[..i] == s;
    } else {
      WordsHaveNoSpace(s[SpaceRunEnd(s, i)..]);
    }
  }

  /** The characters of `s` that are not whitespace, in order. */
  function NonSpace(s: string): string
    decreases |s|
  {
    if s == [] then []
    else (if IsSpace(s[0]) then [] else [s[0]]) + NonSpace(s[1..])
  }

  function Concat(ws: seq<string>): string
    decreases |ws|
  {
    if ws == [] then [] else ws[0] + Concat(ws[1..])
  }

  lemma {:induction false} NonSpaceAppend(a: string, b: string)
    ensures NonSpace(a + b) == NonSpace(a) + NonSpace(b)
    decreases |a|
  {
    if a != [] {
      var head := if IsSpace(a[0]) then [] else [a[0]];
      assert (a + b)[0] == a[0] && (a + b)[1..] == a[1..] + b;
      assert NonSpace(a + b) == head + NonSpace(a[1..] + b);
      NonSpaceAppend(a[1..], b);
      assert NonSpace(a) == head + NonSpace(a[1..]);
    } else {
      assert a + b == b;
    }
  }

  lemma {:induction false} NonSpaceOfNoSpace(s: string)
    requires NoSpace(s)
    ensures NonSpace(s) == s
    decreases |s|
  {
    if s != [] {
      NonSpaceOfNoSpace(s[1..]);
    }
  }

  lemma {:induction false} NonSpaceOfSpaces(s: string)
    requires forall k :: 0 <= k < |s| ==> IsSpace(s[k])
    ensures NonSpace(s) == []
    decreases |s|
  {
    if s != [] {
      NonSpaceOfSpaces(s[1..]);
    }
  }

  /** A space-free piece, then whitespace, then a rest: only the piece and
      the rest's non-whitespace survive. */
  lemma NonSpaceAroundRun(piece: string, run: string, rest: string)
    requires NonSpace(piece) == piece && NonSpace(run) == []
    ensures NonSpace(piece + run + rest) == piece + NonSpace(rest)
  {
    NonSpaceAppend(piece + run, rest);
    NonSpaceAppend(piece, run);
  }

  /** The piece before the first whitespace keeps all its characters. */
  lemma PrefixKeepsAll(s: string)
    ensures NonSpace(s[..FirstSpace(s)]) == s[..FirstSpace(s)]
  {
    FirstSpaceSpec(s);
    NonSpaceOfNoSpace(s[..FirstSpace(s)]);
  }

  /** A run of whitespace keeps nothing. */
  lemma RunKeepsNothing(s: string, i: nat)
    requires i <= |s|
    ensures NonSpace(s[i..SpaceRunEnd(s, i)]) == []
  {
    var run := s[i..SpaceRunEnd(s, i)];
    SpaceRunEndSpec(s, i);
    forall k | 0 <= k < |run| ensures IsSpace(run[k]) {
      assert run[k] == s[i + k];
    }
    NonSpaceOfSpaces(run);
  }

  /** Splitting loses no character but whitespace: the pieces, run
      together, are the input with its whitespace removed. */
  lemma {:induction false} WordsKeepEveryOtherChar(s: string)
    ensures Concat(Words(s)) == NonSpace(s)
    decreases |s|
  {
    var i := FirstSpace(s);
    PrefixKeepsAll(s);
    if i == |s| {
      assert s[..i] == s;
      assert Concat([s]) == s + Concat([]);
    } else {
      var j := SpaceRunEnd(s, i);
      var ws := Words(s);
      assert ws[0] == s[..i] && ws[1..] == Words(s[j..]);
      WordsKeepEveryOtherChar(s[j..]);
      RunKeepsNothing(s, i);
      NonSpaceAroundRun(s[..i], s[i..j], s[j..]);
      assert s == s[..i] + s[i..j] + s[j..];
    }
  }

  /** The first whitespace character is the one with none before it. */
  lemma FirstSpaceAt(s: string, i: nat)
    requires i < |s| && NoSpace(s[..i]) && IsSpace(s[i])
    ensures FirstSpace(s) == i
  {
    FirstSpaceSpec(s);
  }

  /** A piece with no whitespace, one space and a rest that does not start
      with whitespace split into that piece followed by the rest's pieces. */
  lemma WordsCons(a: string, b: string)
    requires NoSpace(a)
    requires b == [] || !IsSpace(b[0])
    ensures Words(a + " " + b) == [a] + Words(b)
  {
    var s := a + " " + b;
    assert s[..|a|] == a;
    FirstSpaceAt(s, |a|);
    if b != [] {
      assert s[|a| + 1] == b[0];
    }
    assert SpaceRunEnd(s, |a| + 1) == |a| + 1;
    assert SpaceRunEnd(s, |a|) == |a| + 1;
    assert s[|a| + 1..] == b;
  }

  /** A string without whitespace is a single piece. */
  lemma WordsOfNoSpace(a: string)
    requires NoSpace(a)
    ensures Words(a) == [a]
  {
    FirstSpaceSpec(a);
    assert FirstSpace(a) == |a|;
    assert a[..|a|] == a;
  }

  /** Words written out with one space between neighbours. */
  function JoinWords(ws: seq<string>): string
    decreases |ws|
  {
    if ws == [] then ""
    else if |ws| == 1 then ws[0]
    else ws[0] + " " + JoinWords(ws[1..])
  }

  /** Splitting undoes joining for non-empty words without whitespace. */
  lemma {:induction false} SplitJoinRoundTrip(ws: seq<string>)
    requires |ws| >= 1
    requires forall k :: 0 <= k < |ws| ==> ws[k] != "" && NoSpace(ws[k])
    ensures Words(JoinWords(ws)) == ws
    decreases |ws|
  {
    if |ws| == 1 {
      WordsOfNoSpace(ws[0]);
    } else {
      var rest := JoinWords(ws[1..]);
      assert rest[0] == ws[1][0] by {
        if |ws| > 2 {
          assert rest == ws[1] + " " + JoinWords(ws[2..]);
        }
      }
      WordsCons(ws[0], rest);
      SplitJoinRoundTrip(ws[1..]);
    }
  }

  lemma LowerAppend(a: string, b: string)
    ensures Lower(a + b) == Lower(a) + Lower(b)
  {
  }

  /** Each word lower-cased. */
  function LowerAll(ws: seq<string>): (ls: seq<string>)
    ensures |ls| == |ws|
  {
    seq(|ws|, k requires 0 <= k < |ws| => Lower(ws[k]))
  }

  /** Lower-casing keeps a word non-empty and free of whitespace. */
  lemma LowerKeepsWord(w: string)
    requires w != "" && NoSpace(w)
    ensures Lower(w) != "" && NoSpace(Lower(w))
  {
  }

  /** Lower-casing a joined title lower-cases each word; the single spaces
      between them stay. */
  lemma {:induction false} LowerJoin(ws: seq<string>)
    ensures Lower(JoinWords(ws)) == JoinWords(LowerAll(ws))
    decreases |ws|
  {
    if |ws| > 1 {
      LowerJoin(ws[1..]);
      LowerAppend(ws[0] + " ", JoinWords(ws[1..]));
      LowerAppend(ws[0], " ");
      assert Lower(" ") == " ";
      assert LowerAll(ws)[1..] == LowerAll(ws[1..]);
    }
  }
}
