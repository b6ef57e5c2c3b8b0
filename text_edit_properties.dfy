/** What `apply_text_edits` promises, stated on the content it returns. */
module TextEditProperties {
  import opened PyText
  import opened TextEdits

  /** The whole content is the lines before line `k`, line `k`, and the rest. */
  lemma JoinAround(lines: seq<string>, k: nat)
    requires k < |lines|
    ensures Join(lines) == Join(lines[..k]) + lines[k] + Join(lines[k + 1..])
  {
    assert lines == lines[..k] + lines[k..];
    JoinAppend(lines[..k], lines[k..]);
    assert lines[k..][1..] == lines[k + 1..];
  }

  /** The index in `content` of the position `p`, when `p` names an existing
      line and a character offset within that line (its terminator included). */
  function Offset(content: string, p: Position): (o: nat)
    requires p.line < |SplitLines(content)|
    requires p.character <= |SplitLines(content)[p.line]|
    ensures o <= |content|
  {
    var lines := SplitLines(content);
    JoinSplitLines(content);
    JoinAround(lines, p.line);
    |Join(lines[..p.line])| + p.character
  }

  /** A list of one edit is already sorted. */
  lemma SortOne(e: TextEdit)
    ensures SortByStartDescending([e]) == [e]
  {
    assert [e][1..] == [];
  }

  lemma OneEdit(content: string, e: TextEdit)
    ensures EditedContent(content, [e]) == Join(ApplyEdit(SplitLines(content), e))
  {
    var lines := SplitLines(content);
    SortOne(e);
    assert [e][1..] == [];
    assert ApplyInOrder(lines, [e]) == ApplyInOrder(ApplyEdit(lines, e), []);
  }

  /** Replacing lines `s..t` by one line, seen on the joined text. */
  lemma JoinReplaced(lines: seq<string>, s: nat, t: nat, line: string)
    requires s <= t < |lines|
    ensures Join(lines[..s] + [line] + lines[t + 1..]) == Join(lines[..s]) + line + Join(lines[t + 1..])
  {
    JoinAppend(lines[..s] + [line], lines[t + 1..]);
    JoinAppend(lines[..s], [line]);
    assert [line][1..] == [];
  }

  /** With no edits the content comes back unchanged: the keep-ends split
      joins back to the original string. */
  lemma {:induction false} NoEditsNoChange(content: string)
    ensures EditedContent(content, []) == content
  {
    JoinSplitLines(content);
  }

  /** An edit whose range lies inside the list of lines, its end line not
      before its start line, replaces the lines it spans by one. */
  lemma SpanReplaced(lines: seq<string>, e: TextEdit)
    requires e.range.start.line <= e.range.end.line < |lines|
    ensures var s, t := e.range.start, e.range.end;
      ApplyEdit(lines, e) == lines[..s.line]
        + [Take(lines[s.line], s.character) + EditText(e) + Drop(lines[t.line], t.character)]
        + lines[t.line + 1..]
  {
    if e.range.start.line == e.range.end.line {
      SingleLineCase(lines, e);
    } else {
      CollapseCase(lines, e);
    }
  }

  /** An edit whose range lies inside the document replaces exactly the text
      between its start and end offsets by its new text. This covers a splice
      within one line (`sc == ec` is a pure insertion, an empty new text a
      pure deletion) and a span over several lines, which collapses into one. */
  lemma {:induction false} ReplacesRange(content: string, e: TextEdit)
    requires e.range.start.line <= e.range.end.line < |SplitLines(content)|
    requires e.range.start.character <= |SplitLines(content)[e.range.start.line]|
    requires e.range.end.character <= |SplitLines(content)[e.range.end.line]|
    ensures EditedContent(content, [e]) ==
              content[..Offset(content, e.range.start)] + EditText(e)
                + content[Offset(content, e.range.end)..]
  {
    var lines := SplitLines(content);
    var s, t := e.range.start, e.range.end;
    var newLine := Take(lines[s.line], s.character) + EditText(e) + Drop(lines[t.line], t.character);
    var before, after := Join(lines[..s.line]), Join(lines[t.line + 1..]);
    OneEdit(content, e);
    SpanReplaced(lines, e);
    JoinReplaced(lines, s.line, t.line, newLine);
    assert EditedContent(content, [e]) == before + newLine + after;
    PrefixBefore(content, s);
    SuffixAfter(content, t);
    assert Take(lines[s.line], s.character) == lines[s.line][..s.character];
    assert Drop(lines[t.line], t.character) == lines[t.line][t.character..];
    Regroup(before, lines[s.line][..s.character], EditText(e), lines[t.line][t.character..], after);
  }

  lemma Regroup(p: string, a: string, text: string, b: string, q: string)
    ensures p + (a + text + b) + q == (p + a) + text + (b + q)
  {}

  lemma Reassociate(p: string, a: string, b: string, q: string)
    ensures p + (a + b) + q == p + a + b + q
  {}

  /** The content before position `p`. */
  lemma PrefixBefore(content: string, p: Position)
    requires p.line < |SplitLines(content)|
    requires p.character <= |SplitLines(content)[p.line]|
    ensures content[..Offset(content, p)] ==
              Join(SplitLines(content)[..p.line]) + SplitLines(content)[p.line][..p.character]
  {
    var lines := SplitLines(content);
    JoinSplitLines(content);
    JoinAround(lines, p.line);
  }

  /** The content from position `p` on. */
  lemma SuffixAfter(content: string, p: Position)
    requires p.line < |SplitLines(content)|
    requires p.character <= |SplitLines(content)[p.line]|
    ensures content[Offset(content, p)..] ==
              SplitLines(content)[p.line][p.character..] + Join(SplitLines(content)[p.line + 1..])
  {
    var lines := SplitLines(content);
    JoinSplitLines(content);
    JoinAround(lines, p.line);
  }

  /** A multi-line edit inside the document leaves `end - start` fewer lines. */
  lemma CollapseRemovesLines(lines: seq<string>, e: TextEdit)
    requires e.range.start.line < e.range.end.line < |lines|
    ensures |ApplyEdit(lines, e)| == |lines| - (e.range.end.line - e.range.start.line)
    ensures ApplyEdit(lines, e)[..e.range.start.line] == lines[..e.range.start.line]
    ensures ApplyEdit(lines, e)[e.range.start.line + 1..] == lines[e.range.end.line + 1..]
  {
    CollapseCase(lines, e);
  }

  /** A single-line edit keeps the number of lines and every other line. */
  lemma SingleLineKeepsOthers(lines: seq<string>, e: TextEdit)
    requires e.range.start.line == e.range.end.line < |lines|
    ensures |ApplyEdit(lines, e)| == |lines|
    ensures forall i :: 0 <= i < |lines| && i != e.range.start.line ==> ApplyEdit(lines, e)[i] == lines[i]
  {
    var l := e.range.start.line;
    var line := Take(lines[l], e.range.start.character) + EditText(e) + Drop(lines[l], e.range.end.character);
    SingleLineCase(lines, e);
    ReplaceAt(lines, l, line);
  }

  /** An edit starting beyond the last line pads the document with `"\n"`
      lines up to its start line, which then holds the new text alone: the
      list ends with exactly `start.line + 1` entries. */
  lemma {:induction false} PadsPastEnd(content: string, e: TextEdit)
    requires e.range.start.line >= |SplitLines(content)|
    ensures |ApplyEdit(SplitLines(content), e)| == e.range.start.line + 1
    ensures EditedContent(content, [e]) ==
              content + Join(Newlines(e.range.start.line - |SplitLines(content)|)) + EditText(e)
  {
    var lines := SplitLines(content);
    OneEdit(content, e);
    PastEndCase(lines, e);
    JoinSplitLines(content);
    var pad := Newlines(e.range.start.line - |lines|);
    JoinAppend(lines + pad, [EditText(e)]);
    JoinAppend(lines, pad);
    assert [EditText(e)][1..] == [];
  }

  /** An edit that starts inside the document but ends beyond its last line
      treats the end text as empty and removes no line: everything after the
      start line survives. */
  lemma {:induction false} EndPastEndKeepsTail(content: string, e: TextEdit)
    requires e.range.start.line < |SplitLines(content)| <= e.range.end.line
    ensures var lines := SplitLines(content); var l := e.range.start.line;
      EditedContent(content, [e]) ==
        Join(lines[..l]) + Take(lines[l], e.range.start.character) + EditText(e) + Join(lines[l + 1..])
  {
    var lines := SplitLines(content);
    var l := e.range.start.line;
    var line := Take(lines[l], e.range.start.character) + EditText(e);
    OneEdit(content, e);
    EndPastEndCase(lines, e);
    ReplaceAt(lines, l, line);
    JoinReplaced(lines, l, l, line);
    Reassociate(Join(lines[..l]), Take(lines[l], e.range.start.character), EditText(e), Join(lines[l + 1..]));
  }

  lemma HeadGroup(s: seq<TextEdit>)
    requires s != []
    ensures WithStart(s, Start(s[0])) != []
  {
    assert WithStart(s, Start(s[0]))[0] == s[0];
  }

  /** Two sorted lists with the same edits at every start position are the
      same list. */
  lemma {:induction false} SortedIsUnique(a: seq<TextEdit>, b: seq<TextEdit>)
    requires SortedDescending(a) && SortedDescending(b)
    requires forall p :: WithStart(a, p) == WithStart(b, p)
    ensures a == b
    decreases |a|
  {
    if a == [] || b == [] {
      // a non-empty list has a non-empty group at its first start
      if a != [] {
        HeadGroup(a);
      } else if b != [] {
        HeadGroup(b);
      }
    } else {
      HeadsAgree(a, b);
      TailGroups(a, b);
      SortedTail(a);
      SortedTail(b);
      SortedIsUnique(a[1..], b[1..]);
      assert a == [a[0]] + a[1..] && b == [b[0]] + b[1..];
    }
  }

  lemma SortedTail(s: seq<TextEdit>)
    requires s != [] && SortedDescending(s)
    ensures SortedDescending(s[1..])
  {
    forall i, j | 0 <= i < j < |s[1..]| ensures AtOrBefore(Start(s[1..][j]), Start(s[1..][i])) {
      assert s[1..][i] == s[i + 1] && s[1..][j] == s[j + 1];
    }
  }

  /** Every edit of a sorted list starts no later than its first edit. */
  lemma NoLaterThanHead(s: seq<TextEdit>, e: TextEdit)
    requires s != [] && SortedDescending(s) && e in s
    ensures AtOrBefore(Start(e), Start(s[0]))
  {
    var k :| 0 <= k < |s| && s[k] == e;
    if k > 0 {
      assert AtOrBefore(Start(s[k]), Start(s[0]));
    }
  }

  /** Two sorted lists with the same groups begin with the same edit. */
  lemma HeadsAgree(a: seq<TextEdit>, b: seq<TextEdit>)
    requires a != [] && b != []
    requires SortedDescending(a) && SortedDescending(b)
    requires forall p :: WithStart(a, p) == WithStart(b, p)
    ensures a[0] == b[0]
  {
    var p, q := Start(a[0]), Start(b[0]);
    assert WithStart(a, p)[0] == a[0];
    assert a[0] in WithStart(b, p);
    NoLaterThanHead(b, a[0]);
    assert WithStart(b, q)[0] == b[0];
    assert b[0] in WithStart(a, q);
    NoLaterThanHead(a, b[0]);
    assert p == q;
  }

  /** Lists with the same groups and the same first edit have tails with
      the same groups. */
  lemma TailGroups(a: seq<TextEdit>, b: seq<TextEdit>)
    requires a != [] && b != [] && a[0] == b[0]
    requires forall p :: WithStart(a, p) == WithStart(b, p)
    ensures forall r :: WithStart(a[1..], r) == WithStart(b[1..], r)
  {
    forall r ensures WithStart(a[1..], r) == WithStart(b[1..], r) {
      var h := if Start(a[0]) == r then [a[0]] else [];
      assert WithStart(a, r) == h + WithStart(a[1..], r);
      assert WithStart(b, r) == h + WithStart(b[1..], r);
      assert (h + WithStart(a[1..], r))[|h|..] == WithStart(a[1..], r);
      assert (h + WithStart(b[1..], r))[|h|..] == WithStart(b[1..], r);
    }
  }

  /** The input order of the edits matters only among edits that start at
      the same position: the engine sorts them first. */
  lemma SameGroupsSameResult(content: string, e1: seq<TextEdit>, e2: seq<TextEdit>)
    requires forall p :: WithStart(e1, p) == WithStart(e2, p)
    ensures EditedContent(content, e1) == EditedContent(content, e2)
  {
    var s1, s2 := SortByStartDescending(e1), SortByStartDescending(e2);
    forall p ensures WithStart(s1, p) == WithStart(s2, p) {
      assert WithStart(s1, p) == WithStart(e1, p);
    }
    SortedIsUnique(s1, s2);
  }

  /** In a list with distinct starts, the edits starting at `p` are the one
      edit there, if any. */
  lemma {:induction false} DistinctGroup(s: seq<TextEdit>, p: Position)
    requires DistinctStarts(s)
    ensures (exists i :: 0 <= i < |s| && Start(s[i]) == p) ==>
              exists i :: 0 <= i < |s| && Start(s[i]) == p && WithStart(s, p) == [s[i]]
    ensures (forall i :: 0 <= i < |s| ==> Start(s[i]) != p) ==> WithStart(s, p) == []
  {
    if s != [] {
      assert DistinctStarts(s[1..]) by {
        forall i, j | 0 <= i < j < |s[1..]| ensures Start(s[1..][i]) != Start(s[1..][j]) {
          assert s[1..][i] == s[i + 1] && s[1..][j] == s[j + 1];
        }
      }
      DistinctGroup(s[1..], p);
      if Start(s[0]) == p {
        forall i | 0 <= i < |s[1..]| ensures Start(s[1..][i]) != p {
          assert s[1..][i] == s[i + 1];
        }
        assert WithStart(s, p) == [s[0]];
      } else {
        if exists i :: 0 <= i < |s| && Start(s[i]) == p {
          var i :| 0 <= i < |s| && Start(s[i]) == p;
          assert s[1..][i - 1] == s[i];
          var j :| 0 <= j < |s[1..]| && Start(s[1..][j]) == p && WithStart(s[1..], p) == [s[1..][j]];
          assert s[j + 1] == s[1..][j];
        }
        if forall i :: 0 <= i < |s| ==> Start(s[i]) != p {
          forall i | 0 <= i < |s[1..]| ensures Start(s[1..][i]) != p {
            assert s[1..][i] == s[i + 1];
          }
        }
      }
    }
  }

  /** For edits with pairwise distinct start positions, the result does not
      depend on the order in which the edits are listed. */
  lemma {:induction false} OrderIrrelevant(content: string, e1: seq<TextEdit>, e2: seq<TextEdit>)
    requires multiset(e1) == multiset(e2)
    requires DistinctStarts(e1) && DistinctStarts(e2)
    ensures EditedContent(content, e1) == EditedContent(content, e2)
  {
    forall p ensures WithStart(e1, p) == WithStart(e2, p) {
      DistinctGroup(e1, p);
      DistinctGroup(e2, p);
      if exists i :: 0 <= i < |e1| && Start(e1[i]) == p {
        var i :| 0 <= i < |e1| && Start(e1[i]) == p && WithStart(e1, p) == [e1[i]];
        assert e1[i] in multiset(e2);
        var j :| 0 <= j < |e2| && e2[j] == e1[i];
        var j' :| 0 <= j' < |e2| && Start(e2[j']) == p && WithStart(e2, p) == [e2[j']];
        assert Start(e2[j]) == Start(e2[j']);
        assert j == j';
      } else {
        forall j | 0 <= j < |e2| ensures Start(e2[j]) != p {
          assert e2[j] in multiset(e1);
          var i :| 0 <= i < |e1| && e1[i] == e2[j];
        }
      }
    }
    SameGroupsSameResult(content, e1, e2);
  }

  /** A snippet edit inserts its snippet's literal value, exactly as a plain
      edit with that text would. */
  lemma SnippetIsLiteral(content: string, r: Range, snippet: string)
    ensures EditedContent(content, [SnippetTextEdit(r, StringValue(snippet))]) ==
            EditedContent(content, [TextEdit(r, snippet)])
  {
    OneEdit(content, SnippetTextEdit(r, StringValue(snippet)));
    OneEdit(content, TextEdit(r, snippet));
  }
}
