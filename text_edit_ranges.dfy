/** Several edits at once: applied last-first, as `apply_text_edits` does,
    non-overlapping edits with distinct starts each replace their own range
    of the original text, its offsets measured on the original. */
module TextEditRanges {
  import opened PyText
  import opened TextEdits
  import TextEditProperties

  function End(e: TextEdit): Position { e.range.end }

  /** The index in `Join(lines)` of the position `p`. */
  function LineOffset(lines: seq<string>, p: Position): nat
    requires p.line < |lines|
  {
    |Join(lines[..p.line])| + p.character
  }

  /** `p` names an existing line and an offset within it (its terminator
      included). */
  predicate ValidPosition(lines: seq<string>, p: Position) {
    p.line < |lines| && p.character <= |lines[p.line]|
  }

  /** An edit whose range lies inside the document, its start not after its
      end. */
  predicate InDocument(lines: seq<string>, e: TextEdit) {
    ValidPosition(lines, Start(e)) && ValidPosition(lines, End(e)) && AtOrBefore(Start(e), End(e))
  }

  /** Edits listed last-in-document first, all inside the document, each
      ending at or before the start of the edit listed before it and
      starting strictly before it; the first one ends at or before `bound`
      and starts strictly before it. */
  predicate ChainBelow(lines: seq<string>, es: seq<TextEdit>, bound: Position)
    decreases |es|
  {
    es == [] ||
    (InDocument(lines, es[0]) && AtOrBefore(End(es[0]), bound) && Before(Start(es[0]), bound)
     && ChainBelow(lines, es[1..], Start(es[0])))
  }

  /** Non-overlapping edits inside the document, listed last-in-document
      first, with distinct starts. */
  predicate Chain(lines: seq<string>, es: seq<TextEdit>) {
    es == [] || (InDocument(lines, es[0]) && ChainBelow(lines, es[1..], Start(es[0])))
  }

  /** A range of the original text, by offsets, and the text that replaces it. */
  datatype Span = Span(from: nat, to: nat, text: string)

  /** The spans of `es`, measured on `lines`. */
  function SpansOf(lines: seq<string>, es: seq<TextEdit>): (spans: seq<Span>)
    requires forall i :: 0 <= i < |es| ==> InDocument(lines, es[i])
    ensures |spans| == |es|
    ensures forall i :: 0 <= i < |es| ==>
              InDocument(lines, es[i])
              && spans[i] == Span(LineOffset(lines, Start(es[i])), LineOffset(lines, End(es[i])), EditText(es[i]))
    decreases |es|
  {
    if es == [] then []
    else
      assert InDocument(lines, es[0]);
      assert forall i :: 0 <= i < |es[1..]| ==> es[1..][i] == es[i + 1];
      [Span(LineOffset(lines, Start(es[0])), LineOffset(lines, End(es[0])), EditText(es[0]))]
        + SpansOf(lines, es[1..])
  }

  /** Spans listed last first, each within the text before the span listed
      before it, the first within the first `n` characters. */
  predicate DisjointBelow(spans: seq<Span>, n: nat)
    decreases |spans|
  {
    spans == [] ||
    (spans[0].from <= spans[0].to <= n && DisjointBelow(spans[1..], spans[0].from))
  }

  /** `s` with each span replaced by its text, the spans listed last first:
      the later spans only touch the text before the first one. */
  function ReplaceSpans(s: string, spans: seq<Span>): string
    decreases |spans|
  {
    if spans == [] then s
    else ReplaceSpans(Take(s, spans[0].from), spans[1..]) + spans[0].text + Drop(s, spans[0].to)
  }

  // Offsets.

  lemma OffsetWithin(lines: seq<string>, p: Position)
    requires ValidPosition(lines, p)
    ensures LineOffset(lines, p) <= |Join(lines)|
  {
    TextEditProperties.JoinAround(lines, p.line);
  }

  /** Offsets grow with positions. */
  lemma OffsetMonotone(lines: seq<string>, p: Position, q: Position)
    requires ValidPosition(lines, p) && ValidPosition(lines, q) && AtOrBefore(p, q)
    ensures LineOffset(lines, p) <= LineOffset(lines, q)
  {
    if p.line < q.line {
      var k, m := p.line, q.line;
      assert lines[..m] == lines[..k] + lines[k..m];
      JoinAppend(lines[..k], lines[k..m]);
      assert lines[k..m][0] == lines[k] && lines[k..m][1..] == lines[k + 1..m];
    }
  }

  /** The text before and after an in-document position. */
  lemma AroundOffset(lines: seq<string>, p: Position)
    requires ValidPosition(lines, p)
    ensures LineOffset(lines, p) <= |Join(lines)|
    ensures Take(Join(lines), LineOffset(lines, p)) == Join(lines[..p.line]) + lines[p.line][..p.character]
    ensures Drop(Join(lines), LineOffset(lines, p)) == lines[p.line][p.character..] + Join(lines[p.line + 1..])
  {
    var k := p.line;
    TextEditProperties.JoinAround(lines, k);
    var a, l, b := Join(lines[..k]), lines[k], Join(lines[k + 1..]);
    assert Join(lines) == a + l + b;
    SplitAt(a, l, b, p.character);
  }

  lemma SplitAt(a: string, l: string, b: string, c: nat)
    requires c <= |l|
    ensures (a + l + b)[..|a| + c] == a + l[..c]
    ensures (a + l + b)[|a| + c..] == l[c..] + b
  {
    assert a + l + b == (a + l[..c]) + (l[c..] + b);
  }

  /** One edit inside the document, seen on the joined text: the text of
      its range is replaced by its new text. */
  lemma OneEditJoined(lines: seq<string>, e: TextEdit)
    requires InDocument(lines, e)
    ensures Join(ApplyEdit(lines, e)) ==
              Take(Join(lines), LineOffset(lines, Start(e))) + EditText(e)
                + Drop(Join(lines), LineOffset(lines, End(e)))
  {
    var s, t := Start(e), End(e);
    var newLine := Take(lines[s.line], s.character) + EditText(e) + Drop(lines[t.line], t.character);
    TextEditProperties.SpanReplaced(lines, e);
    TextEditProperties.JoinReplaced(lines, s.line, t.line, newLine);
    AroundOffset(lines, s);
    AroundOffset(lines, t);
    TextEditProperties.Regroup(Join(lines[..s.line]), lines[s.line][..s.character], EditText(e),
                               lines[t.line][t.character..], Join(lines[t.line + 1..]));
  }

  // The edits listed after the first one are untouched by it.

  /** `lines2` agrees with `lines` on everything before position `p`. */
  predicate AgreeBefore(lines: seq<string>, lines2: seq<string>, p: Position) {
    ValidPosition(lines, p) && ValidPosition(lines2, p)
    && lines2[..p.line] == lines[..p.line]
    && lines2[p.line][..p.character] == lines[p.line][..p.character]
  }

  /** An edit keeps everything before its start. */
  lemma EditKeepsBefore(lines: seq<string>, e: TextEdit)
    requires InDocument(lines, e)
    ensures AgreeBefore(lines, ApplyEdit(lines, e), Start(e))
  {
    var s, t := Start(e), End(e);
    var newLine := Take(lines[s.line], s.character) + EditText(e) + Drop(lines[t.line], t.character);
    TextEditProperties.SpanReplaced(lines, e);
    var after := lines[..s.line] + [newLine] + lines[t.line + 1..];
    assert after[s.line] == newLine;
    assert after[..s.line] == lines[..s.line];
    assert newLine[..s.character] == lines[s.line][..s.character];
  }

  /** A position at or before `p` keeps its validity and its offset. */
  lemma PositionKept(lines: seq<string>, lines2: seq<string>, p: Position, q: Position)
    requires AgreeBefore(lines, lines2, p)
    requires ValidPosition(lines, q) && AtOrBefore(q, p)
    ensures ValidPosition(lines2, q) && LineOffset(lines2, q) == LineOffset(lines, q)
  {
    if q.line < p.line {
      assert lines2[q.line] == lines2[..p.line][q.line] == lines[..p.line][q.line] == lines[q.line];
      assert lines2[..q.line] == lines2[..p.line][..q.line];
      assert lines[..q.line] == lines[..p.line][..q.line];
    }
  }

  lemma {:induction false} ChainKept(lines: seq<string>, lines2: seq<string>, p: Position,
                                     es: seq<TextEdit>, bound: Position)
    requires AgreeBefore(lines, lines2, p)
    requires ChainBelow(lines, es, bound) && AtOrBefore(bound, p)
    ensures ChainBelow(lines2, es, bound)
    ensures (forall i :: 0 <= i < |es| ==> InDocument(lines, es[i]))
            && (forall i :: 0 <= i < |es| ==> InDocument(lines2, es[i]))
            && SpansOf(lines2, es) == SpansOf(lines, es)
    decreases |es|
  {
    if es != [] {
      var e := es[0];
      PositionKept(lines, lines2, p, Start(e));
      PositionKept(lines, lines2, p, End(e));
      ChainKept(lines, lines2, p, es[1..], Start(e));
      forall i | 0 <= i < |es| ensures InDocument(lines, es[i]) && InDocument(lines2, es[i]) {
        if i > 0 {
          assert es[i] == es[1..][i - 1];
        }
      }
    }
  }

  // The spans of a chain are disjoint.

  lemma {:induction false} ChainSpansDisjoint(lines: seq<string>, es: seq<TextEdit>, bound: Position)
    requires ChainBelow(lines, es, bound) && ValidPosition(lines, bound)
    ensures (forall i :: 0 <= i < |es| ==> InDocument(lines, es[i]))
            && DisjointBelow(SpansOf(lines, es), LineOffset(lines, bound))
    decreases |es|
  {
    if es != [] {
      var e := es[0];
      ChainSpansDisjoint(lines, es[1..], Start(e));
      forall i | 0 <= i < |es| ensures InDocument(lines, es[i]) {
        if i > 0 {
          assert es[i] == es[1..][i - 1];
        }
      }
      OffsetMonotone(lines, Start(e), End(e));
      OffsetMonotone(lines, End(e), bound);
      assert SpansOf(lines, es)[1..] == SpansOf(lines, es[1..]);
    }
  }

  /** A prefix carrying all spans can be replaced first and the rest of
      the text appended. */
  lemma ReplaceSpansAppend(p: string, q: string, spans: seq<Span>)
    requires DisjointBelow(spans, |p|)
    ensures ReplaceSpans(p + q, spans) == ReplaceSpans(p, spans) + q
  {
    if spans != [] {
      var a, b := spans[0].from, spans[0].to;
      assert Take(p + q, a) == Take(p, a);
      assert Drop(p + q, b) == Drop(p, b) + q;
    }
  }

  /** Replacing the first span and then the rest, each on the text left
      by the one before, is replacing all of them on the original. */
  lemma ReplaceFirstSpan(whole: string, a: nat, b: nat, t: string, spans: seq<Span>)
    requires a <= b <= |whole| && DisjointBelow(spans, a)
    ensures ReplaceSpans(Take(whole, a) + t + Drop(whole, b), spans)
            == ReplaceSpans(whole, [Span(a, b, t)] + spans)
  {
    var p, q := Take(whole, a), t + Drop(whole, b);
    var all := [Span(a, b, t)] + spans;
    assert |p| == a;
    calc {
      ReplaceSpans(p + t + Drop(whole, b), spans);
      { assert p + t + Drop(whole, b) == p + q; }
      ReplaceSpans(p + q, spans);
      { ReplaceSpansAppend(p, q, spans); }
      ReplaceSpans(p, spans) + q;
      ReplaceSpans(p, spans) + t + Drop(whole, b);
      { assert all[0] == Span(a, b, t) && all[1..] == spans; }
      ReplaceSpans(whole, all);
    }
  }

  /** After the first edit of a chain, the rest is still a chain, with the
      same spans, all before the first edit's start. */
  lemma ChainAfterFirst(lines: seq<string>, es: seq<TextEdit>)
    requires es != [] && Chain(lines, es)
    ensures var lines2 := ApplyEdit(lines, es[0]);
      Chain(lines2, es[1..])
      && (forall i :: 0 <= i < |es[1..]| ==> InDocument(lines, es[1..][i]))
      && (forall i :: 0 <= i < |es[1..]| ==> InDocument(lines2, es[1..][i]))
      && SpansOf(lines2, es[1..]) == SpansOf(lines, es[1..])
      && DisjointBelow(SpansOf(lines, es[1..]), LineOffset(lines, Start(es[0])))
  {
    var e, rest := es[0], es[1..];
    var s := Start(e);
    var lines2 := ApplyEdit(lines, e);
    EditKeepsBefore(lines, e);
    ChainKept(lines, lines2, s, rest, s);
    ChainSpansDisjoint(lines, rest, s);
    if rest != [] {
      assert ChainBelow(lines2, rest, s);
    }
  }

  /** Applying a chain to the lines replaces each edit's range of the
      joined text, measured before any edit, by its new text. */
  lemma {:induction false} ApplyChain(lines: seq<string>, es: seq<TextEdit>)
    requires Chain(lines, es)
    ensures (forall i :: 0 <= i < |es| ==> InDocument(lines, es[i]))
            && DisjointBelow(SpansOf(lines, es), |Join(lines)|)
            && Join(ApplyInOrder(lines, es)) == ReplaceSpans(Join(lines), SpansOf(lines, es))
    decreases |es|
  {
    if es != [] {
      var e, rest := es[0], es[1..];
      var lines2 := ApplyEdit(lines, e);
      var whole := Join(lines);
      var a, b := LineOffset(lines, Start(e)), LineOffset(lines, End(e));
      ChainAfterFirst(lines, es);
      ApplyChain(lines2, rest);
      forall i | 0 <= i < |es| ensures InDocument(lines, es[i]) {
        if i > 0 {
          assert es[i] == rest[i - 1];
        }
      }
      var spans := SpansOf(lines, rest);
      assert SpansOf(lines, es) == [Span(a, b, EditText(e))] + spans;
      OneEditJoined(lines, e);
      OffsetMonotone(lines, Start(e), End(e));
      OffsetWithin(lines, End(e));
      ReplaceFirstSpan(whole, a, b, EditText(e), spans);
      assert ApplyInOrder(lines, es) == ApplyInOrder(lines2, rest);
    }
  }

  // From the chain to the input list.

  lemma {:induction false} ChainBelowBefore(lines: seq<string>, es: seq<TextEdit>, bound: Position)
    requires ChainBelow(lines, es, bound)
    ensures forall i :: 0 <= i < |es| ==> Before(Start(es[i]), bound)
    ensures forall i, j :: 0 <= i < j < |es| ==> Before(Start(es[j]), Start(es[i]))
    decreases |es|
  {
    if es != [] {
      ChainBelowBefore(lines, es[1..], Start(es[0]));
      forall i, j | 0 <= i < j < |es| ensures Before(Start(es[j]), Start(es[i])) {
        assert es[j] == es[1..][j - 1];
        if i > 0 {
          assert es[i] == es[1..][i - 1];
        }
      }
    }
  }

  /** A chain is sorted last-first with distinct starts. */
  lemma ChainSorted(lines: seq<string>, es: seq<TextEdit>)
    requires Chain(lines, es)
    ensures SortedDescending(es) && DistinctStarts(es)
  {
    if es != [] {
      ChainBelowBefore(lines, es[1..], Start(es[0]));
      forall i, j | 0 <= i < j < |es| ensures Before(Start(es[j]), Start(es[i])) {
        assert es[j] == es[1..][j - 1];
        if i > 0 {
          assert es[i] == es[1..][i - 1];
        }
      }
    }
  }

  /** `apply_text_edits` on edits with distinct starts that, put last-first
      as `ordered`, do not overlap and lie inside the document: every edit
      replaces its own range of the original content, its offsets measured
      on the original, whatever order the edits are given in. */
  lemma EditsReplaceTheirRanges(content: string, edits: seq<TextEdit>, ordered: seq<TextEdit>)
    requires DistinctStarts(edits) && multiset(edits) == multiset(ordered)
    requires Chain(SplitLines(content), ordered)
    ensures var lines := SplitLines(content);
      (forall i :: 0 <= i < |ordered| ==> InDocument(lines, ordered[i]))
      && (forall i :: 0 <= i < |ordered| ==>
            SpansOf(lines, ordered)[i]
            == Span(TextEditProperties.Offset(content, Start(ordered[i])),
                    TextEditProperties.Offset(content, End(ordered[i])), EditText(ordered[i])))
      && DisjointBelow(SpansOf(lines, ordered), |content|)
      && EditedContent(content, edits) == ReplaceSpans(content, SpansOf(lines, ordered))
  {
    var lines := SplitLines(content);
    ChainSorted(lines, ordered);
    TextEditProperties.OrderIrrelevant(content, edits, ordered);
    var sorted := SortByStartDescending(ordered);
    TextEditProperties.SortedIsUnique(sorted, ordered);
    ApplyChain(lines, ordered);
    SpansMeasuredOnContent(content, ordered);
    JoinSplitLines(content);
  }

  /** The offsets of the spans are the offsets into the content. */
  lemma SpansMeasuredOnContent(content: string, es: seq<TextEdit>)
    requires forall i :: 0 <= i < |es| ==> InDocument(SplitLines(content), es[i])
    ensures forall i :: 0 <= i < |es| ==>
              SpansOf(SplitLines(content), es)[i]
              == Span(TextEditProperties.Offset(content, Start(es[i])),
                      TextEditProperties.Offset(content, End(es[i])), EditText(es[i]))
  {
    var lines := SplitLines(content);
    forall i | 0 <= i < |es|
      ensures SpansOf(lines, es)[i]
              == Span(TextEditProperties.Offset(content, Start(es[i])),
                      TextEditProperties.Offset(content, End(es[i])), EditText(es[i]))
    {
      assert InDocument(lines, es[i]);
      assert TextEditProperties.Offset(content, Start(es[i])) == LineOffset(lines, Start(es[i]));
      assert TextEditProperties.Offset(content, End(es[i])) == LineOffset(lines, End(es[i]));
    }
  }
}
