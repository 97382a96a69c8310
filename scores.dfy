/** The text `_write_scores_to_clipboard` puts on the clipboard: one numbered
    line per score, in list order. A score is kept as the text `%s` renders
    for it. */
module ScoreClipboard {
  import opened PyText

  /** The body of line `n`: the number, a colon, a space, the score. */
  function Body(n: nat, s: string): string {
    IntToStr(n) + ": " + s
  }

  /** `'%s: %s\n' % (str(n), s)`: the body and its newline. */
  function Line(n: nat, s: string): string {
    Body(n, s) + "\n"
  }

  /** The numbered lines of `scores`, the first of them numbered `first`. */
  function NumberedFrom(first: nat, scores: seq<string>): string
    decreases |scores|
  {
    if scores == [] then "" else Line(first, scores[0]) + NumberedFrom(first + 1, scores[1..])
  }

  /** The clipboard text for `scores`, numbering from 1. */
  function ScoresText(scores: seq<string>): string {
    NumberedFrom(1, scores)
  }

  lemma {:induction false} NumberedSnoc(first: nat, scores: seq<string>, s: string)
    ensures NumberedFrom(first, scores + [s]) == NumberedFrom(first, scores) + Line(first + |scores|, s)
    decreases |scores|
  {
    if scores == [] {
      assert [] + [s] == [s];
      assert NumberedFrom(first, [s]) == Line(first, s) + NumberedFrom(first + 1, []);
    } else {
      var longer := scores + [s];
      assert longer[0] == scores[0] && longer[1..] == scores[1..] + [s];
      NumberedSnoc(first + 1, scores[1..], s);
      var head := Line(first, scores[0]);
      calc {
        NumberedFrom(first, longer);
        head + NumberedFrom(first + 1, scores[1..] + [s]);
        head + (NumberedFrom(first + 1, scores[1..]) + Line(first + |scores|, s));
        (head + NumberedFrom(first + 1, scores[1..])) + Line(first + |scores|, s);
        NumberedFrom(first, scores) + Line(first + |scores|, s);
      }
    }
  }

  /** The loop of `_write_scores_to_clipboard`, which appends the line of
      each score as `enumerate` yields it. */
  method FormatScores(allScores: seq<string>) returns (scores: string)
    ensures scores == ScoresText(allScores)
  {
    scores := "";
    for i := 0 to |allScores|
      invariant scores == NumberedFrom(1, allScores[..i])
    {
      assert allScores[..i + 1] == allScores[..i] + [allScores[i]];
      NumberedSnoc(1, allScores[..i], allScores[i]);
      scores := scores + Line(i + 1, allScores[i]);
    }
    assert allScores[..|allScores|] == allScores;
  }

  // ---------------------------------------------------------------------
  // Reading the text back line by line

  /** Scans `t`, with `cur` the line read so far; every newline ends a line. */
  function LinesFrom(t: string, cur: string): seq<string>
    decreases |t|
  {
    if t == [] then (if cur == [] then [] else [cur])
    else if t[0] == '\n' then [cur] + LinesFrom(t[1..], [])
    else LinesFrom(t[1..], cur + [t[0]])
  }

  /** The lines of `t`, each without its terminating newline. */
  function Lines(t: string): seq<string> {
    LinesFrom(t, [])
  }

  predicate NoNewline(s: string) {
    forall i :: 0 <= i < |s| ==> s[i] != '\n'
  }

  lemma {:induction false} LinesFromPlain(u: string, rest: string, cur: string)
    requires NoNewline(u)
    ensures LinesFrom(u + rest, cur) == LinesFrom(rest, cur + u)
    decreases |u|
  {
    if u == [] {
      assert u + rest == rest && cur + u == cur;
    } else {
      assert (u + rest)[0] == u[0] && (u + rest)[1..] == u[1..] + rest;
      assert cur + u == (cur + [u[0]]) + u[1..];
      LinesFromPlain(u[1..], rest, cur + [u[0]]);
    }
  }

  /** A line's body never holds a newline, given a score without one. */
  lemma BodyNoNewline(n: nat, s: string)
    requires NoNewline(s)
    ensures NoNewline(Body(n, s))
  {
    var d := IntToStr(n);
    forall i | 0 <= i < |d| ensures d[i] != '\n' {
      assert !IsSpace(d[i]);
    }
    var b := Body(n, s);
    forall i | 0 <= i < |b| ensures b[i] != '\n' {
      if i < |d| {
        assert b[i] == d[i];
      } else if i >= |d| + 2 {
        assert b[i] == s[i - |d| - 2];
      }
    }
  }

  /** A newline-free body followed by a newline is read as one line. */
  lemma LinesCons(b: string, rest: string)
    requires NoNewline(b)
    ensures Lines(b + "\n" + rest) == [b] + Lines(rest)
  {
    assert b + "\n" + rest == b + ("\n" + rest);
    LinesFromPlain(b, "\n" + rest, []);
    assert [] + b == b;
    assert ("\n" + rest)[0] == '\n' && ("\n" + rest)[1..] == rest;
  }

  lemma {:induction false} LinesNumbered(first: nat, scores: seq<string>)
    requires forall i :: 0 <= i < |scores| ==> NoNewline(scores[i])
    ensures |Lines(NumberedFrom(first, scores))| == |scores|
    ensures forall i :: 0 <= i < |scores| ==>
              Lines(NumberedFrom(first, scores))[i] == Body(first + i, scores[i])
    decreases |scores|
  {
    if scores != [] {
      var b := Body(first, scores[0]);
      var tail := scores[1..];
      var rest := NumberedFrom(first + 1, tail);
      BodyNoNewline(first, scores[0]);
      assert NumberedFrom(first, scores) == Line(first, scores[0]) + rest;
      assert Line(first, scores[0]) == b + "\n";
      LinesCons(b, rest);
      LinesNumbered(first + 1, tail);
      var lrest := Lines(rest);
      var ls := Lines(NumberedFrom(first, scores));
      assert ls == [b] + lrest;
      forall i | 0 <= i < |scores| ensures ls[i] == Body(first + i, scores[i]) {
        if i > 0 {
          assert ls[i] == lrest[i - 1];
          assert tail[i - 1] == scores[i];
        }
      }
    }
  }

  /** The clipboard text holds exactly one line per score; line `i` reads
      `"<i+1>: <score i>"`, so scores are numbered from 1 in list order, and
      every line, the last included, ends with a newline. */
  lemma ScoreLines(scores: seq<string>)
    requires forall i :: 0 <= i < |scores| ==> NoNewline(scores[i])
    ensures |Lines(ScoresText(scores))| == |scores|
    ensures forall i :: 0 <= i < |scores| ==> Lines(ScoresText(scores))[i] == Body(i + 1, scores[i])
    ensures ScoresText(scores) == "" <==> scores == []
    ensures scores != [] ==> ScoresText(scores)[|ScoresText(scores)| - 1] == '\n'
  {
    LinesNumbered(1, scores);
    if scores != [] {
      var n := |scores|;
      assert scores == scores[..n - 1] + [scores[n - 1]];
      NumberedSnoc(1, scores[..n - 1], scores[n - 1]);
    }
  }
}
