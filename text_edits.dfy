/** The text-edit engine: `_get_edit_text` and `apply_text_edits` of
    src/lsp_client/utils/workspace_edit.py.

    Offsets are indices into the line's characters (the source indexes
    Python strings by code point); positions are LSP `uinteger`s, so `nat`. */
module TextEdits {
  import opened PyText

  datatype Position = Position(line: nat, character: nat)

  datatype Range = Range(start: Position, end: Position)

  /** The `value` of a snippet string. */
  datatype StringValue = StringValue(value: string)

  /** The three edit shapes a `TextDocumentEdit` may carry. */
  datatype TextEdit =
    | TextEdit(range: Range, newText: string)
    | AnnotatedTextEdit(range: Range, newText: string, annotationId: string)
    | SnippetTextEdit(range: Range, snippet: StringValue)

  /** `_get_edit_text`: a snippet is inserted as its literal value, with no
      placeholder expansion. */
  function EditText(e: TextEdit): string {
    if e.SnippetTextEdit? then e.snippet.value else e.newText
  }

  function Start(e: TextEdit): Position { e.range.start }

  /** `p` comes strictly before `q` in `(line, character)` order. */
  predicate Before(p: Position, q: Position) {
    p.line < q.line || (p.line == q.line && p.character < q.character)
  }

  predicate AtOrBefore(p: Position, q: Position) {
    Before(p, q) || p == q
  }

  /** Last start position first. */
  predicate SortedDescending(s: seq<TextEdit>) {
    forall i, j :: 0 <= i < j < |s| ==> AtOrBefore(Start(s[j]), Start(s[i]))
  }

  /** The edits of `s` that start at `p`, in their order in `s`. Two edit
      lists with the same such groups for every `p` differ only in how
      edits starting at different places are interleaved. */
  function WithStart(s: seq<TextEdit>, p: Position): (r: seq<TextEdit>)
    ensures forall e :: e in r ==> e in s && Start(e) == p
    ensures |r| <= |s|
  {
    if s == [] then []
    else (if Start(s[0]) == p then [s[0]] else []) + WithStart(s[1..], p)
  }

  /** No two edits of `s` share a start position. */
  predicate DistinctStarts(s: seq<TextEdit>) {
    forall i, j :: 0 <= i < j < |s| ==> Start(s[i]) != Start(s[j])
  }

  /** One step of an insertion sort: `x` goes in front of the first edit that
      starts at or before it, so among equal starts it stays first. */
  function Insert(x: TextEdit, t: seq<TextEdit>): (r: seq<TextEdit>)
    ensures |r| == |t| + 1
  {
    if t == [] || AtOrBefore(Start(t[0]), Start(x)) then [x] + t
    else [t[0]] + Insert(x, t[1..])
  }

  lemma {:induction false} InsertPermutes(x: TextEdit, t: seq<TextEdit>)
    ensures multiset(Insert(x, t)) == multiset(t) + multiset{x}
  {
    if !(t == [] || AtOrBefore(Start(t[0]), Start(x))) {
      InsertPermutes(x, t[1..]);
      assert t == [t[0]] + t[1..];
    }
  }

  lemma {:induction false} InsertSorted(x: TextEdit, t: seq<TextEdit>)
    requires SortedDescending(t)
    ensures SortedDescending(Insert(x, t))
  {
    if !(t == [] || AtOrBefore(Start(t[0]), Start(x))) {
      var rest := Insert(x, t[1..]);
      InsertSorted(x, t[1..]);
      InsertPermutes(x, t[1..]);
      var r := [t[0]] + rest;
      forall j | 1 <= j < |r| ensures AtOrBefore(Start(r[j]), Start(r[0])) {
        assert r[j] in multiset(rest);
        assert r[j] in multiset(t[1..]) + multiset{x};
        if r[j] != x {
          assert r[j] in t[1..];
          var k :| 0 <= k < |t[1..]| && t[1..][k] == r[j];
          assert t[k + 1] == r[j];
        }
      }
    }
  }

  lemma {:induction false} InsertKeepsGroups(x: TextEdit, t: seq<TextEdit>, p: Position)
    requires SortedDescending(t)
    ensures WithStart(Insert(x, t), p) ==
              if Start(x) == p then [x] + WithStart(t, p) else WithStart(t, p)
  {
    if t == [] || AtOrBefore(Start(t[0]), Start(x)) {
      assert ([x] + t)[1..] == t;
    } else {
      var rest := Insert(x, t[1..]);
      InsertKeepsGroups(x, t[1..], p);
      assert ([t[0]] + rest)[1..] == rest;
      assert t == [t[0]] + t[1..];
      assert Start(t[0]) != Start(x);
    }
  }

  /** Python's `sorted(edits, key=start, reverse=True)`: stable, so edits
      with the same start keep their input order. */
  function SortByStartDescending(s: seq<TextEdit>): (r: seq<TextEdit>)
    ensures SortedDescending(r)
    ensures multiset(r) == multiset(s)
    ensures forall p :: WithStart(r, p) == WithStart(s, p)
  {
    if s == [] then []
    else
      var t := SortByStartDescending(s[1..]);
      InsertSorted(s[0], t);
      InsertPermutes(s[0], t);
      assert s == [s[0]] + s[1..];
      assert forall p :: WithStart(Insert(s[0], t), p) == WithStart(s, p) by {
        forall p ensures WithStart(Insert(s[0], t), p) == WithStart(s, p) {
          InsertKeepsGroups(s[0], t, p);
        }
      }
      Insert(s[0], t)
  }

  /** `count` copies of the padding line `"\n"`. */
  function Newlines(count: nat): (r: seq<string>)
    ensures |r| == count && forall i :: 0 <= i < count ==> r[i] == "\n"
  {
    if count == 0 then [] else Newlines(count - 1) + ["\n"]
  }

  /** What an edit over `r` with text `text` does to the list of lines,
      case by case. */
  function Splice(lines: seq<string>, r: Range, text: string): seq<string>
  {
    var s := r.start;
    var t := r.end;
    if s.line >= |lines| then
      // beyond the last line: pad with "\n" lines, then the text is the new last line
      lines + Newlines(s.line - |lines|) + [text]
    else
      var first := lines[s.line];
      if s.line == t.line then
        lines[..s.line] + [Take(first, s.character) + text + Drop(first, t.character)]
          + lines[s.line + 1..]
      else if |lines| <= t.line then
        // end beyond the last line: the end text counts as "", no line is removed
        lines[s.line := Take(first, s.character) + text]
      else if s.line < t.line then
        // the span collapses into one line
        lines[..s.line] + [Take(first, s.character) + text + Drop(lines[t.line], t.character)]
          + lines[t.line + 1..]
      else
        // an end before the start: the start line is rewritten, nothing is removed
        lines[s.line := Take(first, s.character) + text + Drop(lines[t.line], t.character)]
  }

  /** What one edit does to the list of lines. */
  function ApplyEdit(lines: seq<string>, e: TextEdit): seq<string> {
    Splice(lines, e.range, EditText(e))
  }

  // ApplyEdit unfolded, one lemma per case of the source's if/else chain.

  lemma PastEndCase(lines: seq<string>, e: TextEdit)
    requires e.range.start.line >= |lines|
    ensures ApplyEdit(lines, e) == lines + Newlines(e.range.start.line - |lines|) + [EditText(e)]
  {}

  lemma SingleLineCase(lines: seq<string>, e: TextEdit)
    requires e.range.start.line == e.range.end.line < |lines|
    ensures var l := e.range.start.line;
      ApplyEdit(lines, e) == lines[..l]
        + [Take(lines[l], e.range.start.character) + EditText(e) + Drop(lines[l], e.range.end.character)]
        + lines[l + 1..]
  {}

  lemma EndPastEndCase(lines: seq<string>, e: TextEdit)
    requires e.range.start.line < |lines| <= e.range.end.line
    ensures var l := e.range.start.line;
      ApplyEdit(lines, e) == lines[l := Take(lines[l], e.range.start.character) + EditText(e)]
  {}

  lemma CollapseCase(lines: seq<string>, e: TextEdit)
    requires e.range.start.line < e.range.end.line < |lines|
    ensures var l := e.range.start.line; var m := e.range.end.line;
      ApplyEdit(lines, e) == lines[..l]
        + [Take(lines[l], e.range.start.character) + EditText(e) + Drop(lines[m], e.range.end.character)]
        + lines[m + 1..]
  {}

  lemma EndBeforeStartCase(lines: seq<string>, e: TextEdit)
    requires e.range.end.line < e.range.start.line < |lines|
    ensures var l := e.range.start.line; var m := e.range.end.line;
      ApplyEdit(lines, e) ==
        lines[l := Take(lines[l], e.range.start.character) + EditText(e) + Drop(lines[m], e.range.end.character)]
  {}

  /** The edits applied one after the other, in the order given. */
  function ApplyInOrder(lines: seq<string>, edits: seq<TextEdit>): seq<string>
    decreases |edits|
  {
    if edits == [] then lines else ApplyInOrder(ApplyEdit(lines, edits[0]), edits[1..])
  }

  /** One more edit taken off the front of the list still to apply. */
  lemma ApplyInOrderStep(lines: seq<string>, edits: seq<TextEdit>, i: nat)
    requires i < |edits|
    ensures ApplyInOrder(lines, edits[i..]) == ApplyInOrder(ApplyEdit(lines, edits[i]), edits[i + 1..])
  {
    assert edits[i..][0] == edits[i] && edits[i..][1..] == edits[i + 1..];
  }

  /** Putting `line` between the lines before and after `k` is updating
      line `k`. */
  lemma ReplaceAt(lines: seq<string>, k: nat, line: string)
    requires k < |lines|
    ensures lines[..k] + [line] + lines[k + 1..] == lines[k := line]
  {}

  /** Setting line `l` and deleting the lines after it up to `m` keeps the
      lines before `l` and after `m`. */
  lemma CollapseAt(lines: seq<string>, l: nat, m: nat, line: string)
    requires l < m < |lines|
    ensures DeleteSlice(lines[l := line], l + 1, m + 1) == lines[..l] + [line] + lines[m + 1..]
  {
    var r := lines[l := line];
    assert r[..l + 1] == lines[..l] + [line];
    assert r[m + 1..] == lines[m + 1..];
  }

  /** The content `apply_text_edits(content, edits)` returns. */
  function EditedContent(content: string, edits: seq<TextEdit>): string {
    Join(ApplyInOrder(SplitLines(content), SortByStartDescending(edits)))
  }

  /** The body of the loop of `apply_text_edits`: splice one edit into the
      list of lines, padding, overwriting and deleting in place. */
  method SpliceEdit(lines: seq<string>, edit: TextEdit) returns (result: seq<string>)
    ensures result == ApplyEdit(lines, edit)
  {
    result := lines;
    var newText := EditText(edit);
    var startLine := edit.range.start.line;
    var startChar := edit.range.start.character;
    var endLine := edit.range.end.line;
    var endChar := edit.range.end.character;
    if startLine >= |result| {
      while |result| <= startLine
        invariant |lines| <= |result| <= startLine + 1
        invariant result == lines + Newlines(|result| - |lines|)
      {
        result := result + ["\n"];
      }
      result := result[startLine := newText];
      assert result == lines + Newlines(startLine - |lines|) + [newText];
      PastEndCase(lines, edit);
      return;
    }
    var startLineContent := result[startLine];
    var endLineContent := if endLine >= |result| then "" else result[endLine];
    if startLine == endLine {
      var newLine := Take(startLineContent, startChar) + newText + Drop(startLineContent, endChar);
      result := result[startLine := newLine];
      ReplaceAt(lines, startLine, newLine);
      SingleLineCase(lines, edit);
    } else {
      var newLine := Take(startLineContent, startChar) + newText + Drop(endLineContent, endChar);
      result := result[startLine := newLine];
      if endLine < |result| {
        result := DeleteSlice(result, startLine + 1, endLine + 1);
        if startLine < endLine {
          CollapseAt(lines, startLine, endLine, newLine);
          CollapseCase(lines, edit);
        } else {
          EndBeforeStartCase(lines, edit);
        }
      } else {
        assert newLine == Take(startLineContent, startChar) + newText;
        EndPastEndCase(lines, edit);
      }
    }
  }

  /** `apply_text_edits`: split into lines, sort the edits last-first, splice
      each into the list of lines, join. */
  method ApplyTextEdits(content: string, edits: seq<TextEdit>) returns (r: string)
    ensures r == EditedContent(content, edits)
  {
    var lines := SplitLines(content);
    var sorted := SortByStartDescending(edits);
    for i := 0 to |sorted|
      invariant ApplyInOrder(lines, sorted[i..]) == ApplyInOrder(SplitLines(content), sorted)
    {
      ApplyInOrderStep(lines, sorted, i);
      lines := SpliceEdit(lines, sorted[i]);
    }
    assert sorted[|sorted|..] == [];
    r := Join(lines);
  }
}
