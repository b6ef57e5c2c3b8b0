/** `apply_text_edits` on the concrete documents of the repository's unit
    tests, derived from the general lemmas. */
module TextEditCases {
  import opened PyText
  import opened TextEdits
  import opened TextEditProperties

  /** A string whose only line break, if any, is its last character. */
  predicate OneLine(s: string) {
    |s| > 0 && forall i :: 0 <= i < |s| - 1 ==> !IsLineBreak(s[i])
  }

  /** The first line of `l + rest` is `l` when `l` is one line ending in
      "\n". */
  lemma {:induction false} FirstLineIs(l: string, rest: string)
    requires OneLine(l) && l[|l| - 1] == '\n'
    ensures FirstLineLength(l + rest) == |l|
    decreases |l|
  {
    var s := l + rest;
    if |l| > 1 {
      assert !IsLineBreak(s[0]) && s[0] == l[0];
      assert s[1..] == l[1..] + rest;
      assert OneLine(l[1..]) by {
        forall i | 0 <= i < |l[1..]| - 1 ensures !IsLineBreak(l[1..][i]) {
          assert l[1..][i] == l[i + 1];
        }
      }
      FirstLineIs(l[1..], rest);
    }
  }

  /** A line ending in "\n" is split off whole. */
  lemma {:induction false} SplitFirstLine(l: string, rest: string)
    requires OneLine(l) && l[|l| - 1] == '\n'
    ensures SplitLines(l + rest) == [l] + SplitLines(rest)
  {
    var s := l + rest;
    FirstLineIs(l, rest);
    assert s[..|l|] == l && s[|l|..] == rest;
  }

  lemma {:induction false} SplitOneLine(l: string)
    requires OneLine(l) && l[|l| - 1] == '\n'
    ensures SplitLines(l) == [l]
  {
    SplitFirstLine(l, []);
    assert l + [] == l;
  }

  /** Three lines, each ending in "\n", split back into those lines. */
  lemma {:induction false} SplitThree(a: string, b: string, c: string)
    requires OneLine(a) && a[|a| - 1] == '\n'
    requires OneLine(b) && b[|b| - 1] == '\n'
    requires OneLine(c) && c[|c| - 1] == '\n'
    ensures SplitLines(a + (b + c)) == [a, b, c]
  {
    SplitOneLine(c);
    SplitFirstLine(b, c);
    SplitFirstLine(a, b + c);
  }

  /** An edit on the only line of a one-line document splices that line. */
  lemma {:induction false} EditOnlyLine(s: string, e: TextEdit)
    requires OneLine(s) && s[|s| - 1] == '\n'
    requires e.range.start.line == 0 && e.range.end.line == 0
    ensures EditedContent(s, [e]) == Take(s, e.range.start.character) + EditText(e) + Drop(s, e.range.end.character)
  {
    SplitOneLine(s);
    OneEdit(s, e);
    SingleLineCase([s], e);
    var line := Take(s, e.range.start.character) + EditText(e) + Drop(s, e.range.end.character);
    assert Join([line]) == line + Join([]);
  }

  function Edit(sl: nat, sc: nat, el: nat, ec: nat, text: string): TextEdit {
    TextEdit(Range(Position(sl, sc), Position(el, ec)), text)
  }

  /** Replacing `mid` in the line `x + mid + y`. */
  lemma {:induction false} SpliceParts(x: string, mid: string, y: string, text: string)
    ensures Take(x + mid + y, |x|) + text + Drop(x + mid + y, |x| + |mid|) == x + text + y
  {
    var s := x + mid + y;
    assert s[..|x|] == x && s[|x| + |mid|..] == y;
  }

  /** The edit `e` of `mid` in the one-line document `s == x + mid + y`. */
  lemma {:induction false} EditOnlyLineParts(s: string, e: TextEdit, x: string, mid: string, y: string, text: string)
    requires s == x + mid + y
    requires OneLine(s) && s[|s| - 1] == '\n'
    requires e == Edit(0, |x|, 0, |x| + |mid|, text)
    ensures EditedContent(s, [e]) == x + text + y
  {
    EditOnlyLine(s, e);
    SpliceParts(x, mid, y, text);
  }

  // The concrete cases below state their documents as concatenations of
  // the parts an edit touches, and each fact about a literal is a lemma of
  // its own, so that no proof has to evaluate a function on a literal.

  lemma HelloWorldIsOneLine() ensures OneLine("Hello world\n") {}
  lemma HelloBeautifulIsOneLine() ensures OneLine("Hello beautiful world\n") {}
  lemma PrintHelloIsOneLine() ensures OneLine("print('hello')\n") {}
  lemma VersionIsOneLine() ensures OneLine("version 0\n") && OneLine("version 1\n") {}
  lemma LinesAreOneLine() ensures OneLine("line 1\n") && OneLine("line 2\n") && OneLine("line 3\n") {}

  /** Replacing a word on one line. */
  lemma ReplaceWord()
    ensures EditedContent("Hello " + "world" + "\n", [Edit(0, 6, 0, 11, "Python")]) == "Hello " + "Python" + "\n"
  {
    HelloWorldIsOneLine();
    assert "Hello world\n" == "Hello " + "world" + "\n";
    EditOnlyLineParts("Hello " + "world" + "\n", Edit(0, 6, 0, 11, "Python"), "Hello ", "world", "\n", "Python");
  }

  /** An empty range inserts. */
  lemma InsertAtPoint()
    ensures EditedContent("Hello" + "" + " world\n", [Edit(0, 5, 0, 5, " beautiful")]) == "Hello" + " beautiful" + " world\n"
  {
    HelloWorldIsOneLine();
    assert "Hello world\n" == "Hello" + "" + " world\n";
    EditOnlyLineParts("Hello" + "" + " world\n", Edit(0, 5, 0, 5, " beautiful"), "Hello", "", " world\n", " beautiful");
  }

  /** An empty text deletes. */
  lemma DeleteRange()
    ensures EditedContent("Hello" + " beautiful " + "world\n", [Edit(0, 5, 0, 16, "")]) == "Hello" + "" + "world\n"
  {
    HelloBeautifulIsOneLine();
    assert "Hello beautiful world\n" == "Hello" + " beautiful " + "world\n";
    EditOnlyLineParts("Hello" + " beautiful " + "world\n", Edit(0, 5, 0, 16, ""), "Hello", " beautiful ", "world\n", "");
  }

  /** The edit of the applicator's unit tests. */
  lemma ReplaceCallArgument()
    ensures EditedContent("print('" + "hello" + "')\n", [Edit(0, 7, 0, 12, "world")]) == "print('" + "world" + "')\n"
  {
    PrintHelloIsOneLine();
    assert "print('hello')\n" == "print('" + "hello" + "')\n";
    EditOnlyLineParts("print('" + "hello" + "')\n", Edit(0, 7, 0, 12, "world"), "print('", "hello", "')\n", "world");
  }

  /** The two requests of the sequential-edit test, each replacing the
      version digit. */
  lemma BumpVersion()
    ensures EditedContent("version " + "0" + "\n", [Edit(0, 8, 0, 9, "1")]) == "version " + "1" + "\n"
    ensures EditedContent("version " + "1" + "\n", [Edit(0, 8, 0, 9, "2")]) == "version " + "2" + "\n"
  {
    VersionIsOneLine();
    assert "version 0\n" == "version " + "0" + "\n";
    assert "version 1\n" == "version " + "1" + "\n";
    EditOnlyLineParts("version " + "0" + "\n", Edit(0, 8, 0, 9, "1"), "version ", "0", "\n", "1");
    EditOnlyLineParts("version " + "1" + "\n", Edit(0, 8, 0, 9, "2"), "version ", "1", "\n", "2");
  }

  /** An edit of `m` on line `k` of `lines`, where that line is
      `x + m + y`, replaces that line with `x + t + y`. */
  lemma EditLine(lines: seq<string>, k: nat, x: string, m: string, y: string, t: string)
    requires k < |lines| && lines[k] == x + m + y
    ensures ApplyEdit(lines, Edit(k, |x|, k, |x| + |m|, t)) == lines[k := x + t + y]
  {
    var e := Edit(k, |x|, k, |x| + |m|, t);
    SingleLineCase(lines, e);
    SpliceParts(x, m, y, t);
    assert Take(lines[k], |x|) + EditText(e) + Drop(lines[k], |x| + |m|) == x + t + y;
    ReplaceAt(lines, k, x + t + y);
  }

  /** The two edits, sorted last-first, applied to the three lines. */
  lemma TwoLinesInOrder(x0: string, m0: string, y0: string, x1: string, m1: string, y1: string,
                        c: string, t0: string, t1: string)
    ensures var e0, e1 := Edit(0, |x0|, 0, |x0| + |m0|, t0), Edit(1, |x1|, 1, |x1| + |m1|, t1);
      ApplyInOrder([x0 + m0 + y0, x1 + m1 + y1, c], SortByStartDescending([e0, e1]))
        == [x0 + t0 + y0, x1 + t1 + y1, c]
  {
    var a, b := x0 + m0 + y0, x1 + m1 + y1;
    var a', b' := x0 + t0 + y0, x1 + t1 + y1;
    var e0, e1 := Edit(0, |x0|, 0, |x0| + |m0|, t0), Edit(1, |x1|, 1, |x1| + |m1|, t1);
    SortTwo(e0, e1);
    EditLine([a, b, c], 1, x1, m1, y1, t1);
    assert [a, b, c][1 := b'] == [a, b', c];
    EditLine([a, b', c], 0, x0, m0, y0, t0);
    assert [a, b', c][0 := a'] == [a', b', c];
    assert [e1, e0][1..] == [e0] && [e0][1..] == [];
    assert ApplyInOrder([a, b, c], [e1, e0]) == ApplyInOrder([a, b', c], [e0]);
    assert ApplyInOrder([a, b', c], [e0]) == ApplyInOrder([a', b', c], []);
  }

  /** Two edits, the first starting before the second, sort into the
      reverse order. */
  lemma SortTwo(e0: TextEdit, e1: TextEdit)
    requires Before(Start(e0), Start(e1))
    ensures SortByStartDescending([e0, e1]) == [e1, e0]
  {
    assert [e0, e1][1..] == [e1] && [e1][1..] == [];
    SortOne(e1);
  }

  /** Two edits on different lines of a three-line document, given
      first-to-last, each splice their own line. */
  lemma {:induction false} EditTwoLines(x0: string, m0: string, y0: string, x1: string, m1: string, y1: string,
                                        c: string, t0: string, t1: string)
    requires OneLine(x0 + m0 + y0) && (x0 + m0 + y0)[|x0 + m0 + y0| - 1] == '\n'
    requires OneLine(x1 + m1 + y1) && (x1 + m1 + y1)[|x1 + m1 + y1| - 1] == '\n'
    requires OneLine(c) && c[|c| - 1] == '\n'
    ensures EditedContent((x0 + m0 + y0) + ((x1 + m1 + y1) + c),
                          [Edit(0, |x0|, 0, |x0| + |m0|, t0), Edit(1, |x1|, 1, |x1| + |m1|, t1)])
              == (x0 + t0 + y0) + ((x1 + t1 + y1) + c)
  {
    var a', b' := x0 + t0 + y0, x1 + t1 + y1;
    SplitThree(x0 + m0 + y0, x1 + m1 + y1, c);
    TwoLinesInOrder(x0, m0, y0, x1, m1, y1, c, t0, t1);
    JoinThree(a', b', c);
  }

  lemma JoinThree(a: string, b: string, c: string)
    ensures Join([a, b, c]) == a + (b + c)
  {
    assert [a, b, c][1..] == [b, c] && [b, c][1..] == [c] && [c][1..] == [];
    assert Join([c]) == c + Join([]) == c;
    assert Join([b, c]) == b + Join([c]);
  }

  /** An edit from the start of the first of three lines to the start of
      the third leaves its text in front of the third line. */
  lemma CollapseFirstTwoLines(a: string, b: string, c: string, text: string)
    ensures ApplyEdit([a, b, c], Edit(0, 0, 2, 0, text)) == [text + c]
  {
    var lines := [a, b, c];
    CollapseCase(lines, Edit(0, 0, 2, 0, text));
    assert lines[..0] == [] && lines[3..] == [];
    WholeLines(a, text, c);
  }

  /** Splicing from the start of one line to the start of another keeps
      nothing of the first and all of the second. */
  lemma WholeLines(a: string, text: string, c: string)
    ensures Take(a, 0) + text + Drop(c, 0) == text + c
  {
    assert Take(a, 0) == [];
    assert Drop(c, 0) == c;
  }

  /** An edit from the start of the first line to the start of the third
      replaces the first two lines with its text. */
  lemma {:induction false} CollapseFirstTwo(a: string, b: string, c: string, text: string)
    requires OneLine(a) && a[|a| - 1] == '\n'
    requires OneLine(b) && b[|b| - 1] == '\n'
    requires OneLine(c) && c[|c| - 1] == '\n'
    ensures EditedContent(a + (b + c), [Edit(0, 0, 2, 0, text)]) == text + c
  {
    SplitThree(a, b, c);
    OneEdit(a + (b + c), Edit(0, 0, 2, 0, text));
    CollapseFirstTwoLines(a, b, c, text);
    assert Join([text + c]) == text + c + Join([]);
  }

  /** Two whole lines collapse into the edit's text. */
  lemma CollapseTwoLines()
    ensures EditedContent("line 1\n" + ("line 2\n" + "line 3\n"), [Edit(0, 0, 2, 0, "replaced\n")]) == "replaced\n" + "line 3\n"
  {
    LinesAreOneLine();
    CollapseFirstTwo("line 1\n", "line 2\n", "line 3\n", "replaced\n");
  }

  // Two edits with the same start. The Language Server Protocol allows an
  // insertion and a replacement at the same position, the insertion listed
  // first, and expects both texts in the result. The stable last-first sort
  // keeps the insertion first, so the replacement, measured on the line the
  // insertion produced, overwrites the inserted text instead of `mid`.

  /** Edits with the same start keep their given order. */
  lemma SortSameStart(e0: TextEdit, e1: TextEdit)
    requires Start(e0) == Start(e1)
    ensures SortByStartDescending([e0, e1]) == [e0, e1]
  {
    assert [e0, e1][1..] == [e1];
    SortOne(e1);
  }

  /** Inserting `ins` in front of `rest` on a single line. */
  lemma InsertOnLine(x: string, rest: string, ins: string)
    ensures ApplyEdit([x + rest], Edit(0, |x|, 0, |x|, ins)) == [x + (ins + rest)]
  {
    EditLine([x + "" + rest], 0, x, "", rest, ins);
    assert x + "" + rest == x + rest;
    assert x + ins + rest == x + (ins + rest);
  }

  /** Replacing the first `n` characters of `after` on a single line. */
  lemma ReplaceOnLine(x: string, after: string, n: nat, rep: string)
    requires n <= |after|
    ensures ApplyEdit([x + after], Edit(0, |x|, 0, |x| + n, rep)) == [x + rep + after[n..]]
  {
    EditLine([x + after], 0, x, after[..n], after[n..], rep);
    assert x + after[..n] + after[n..] == x + after;
  }

  /** The two same-start edits applied in the given order to a single line. */
  lemma InsertThenReplace(x: string, mid: string, y: string, ins: string, rep: string)
    ensures ApplyInOrder([x + mid + y], [Edit(0, |x|, 0, |x|, ins), Edit(0, |x|, 0, |x| + |mid|, rep)])
              == [x + rep + Drop(ins + mid + y, |mid|)]
  {
    var e0, e1 := Edit(0, |x|, 0, |x|, ins), Edit(0, |x|, 0, |x| + |mid|, rep);
    var es := [e0, e1];
    var after := ins + mid + y;
    var lines1 := [x + after];
    ApplyInOrderStep([x + mid + y], es, 0);
    InsertOnLine(x, mid + y, ins);
    assert x + mid + y == x + (mid + y) && ins + (mid + y) == after;
    ApplyInOrderStep(lines1, es, 1);
    ReplaceOnLine(x, after, |mid|, rep);
    assert es[0..] == es && es[2..] == [];
  }

  /** An insertion of `ins` and a replacement of `mid` by `rep`, both at the
      start of `mid` on a one-line document: the result keeps `rep` and
      whatever of `ins + mid + y` lies past the first `|mid|` characters. */
  lemma SameStartInsertOverwritten(x: string, mid: string, y: string, ins: string, rep: string)
    requires OneLine(x + mid + y) && (x + mid + y)[|x + mid + y| - 1] == '\n'
    ensures EditedContent(x + mid + y, [Edit(0, |x|, 0, |x|, ins), Edit(0, |x|, 0, |x| + |mid|, rep)])
              == x + rep + Drop(ins + mid + y, |mid|)
  {
    var r := x + rep + Drop(ins + mid + y, |mid|);
    SplitOneLine(x + mid + y);
    SortSameStart(Edit(0, |x|, 0, |x|, ins), Edit(0, |x|, 0, |x| + |mid|, rep));
    InsertThenReplace(x, mid, y, ins, rep);
    assert [r][1..] == [] && Join([r]) == r + Join([]);
  }

  lemma SameStartParts(s: string, es: seq<TextEdit>, x: string, mid: string, y: string, ins: string, rep: string)
    requires s == x + mid + y
    requires OneLine(s) && s[|s| - 1] == '\n'
    requires es == [Edit(0, |x|, 0, |x|, ins), Edit(0, |x|, 0, |x| + |mid|, rep)]
    ensures EditedContent(s, es) == x + rep + Drop(ins + mid + y, |mid|)
  {
    SameStartInsertOverwritten(x, mid, y, ins, rep);
  }

  /** On "a\n", inserting "b" and replacing "a" by "c", both at the start:
      the result is "ca\n", the inserted "b" lost and "a" kept. */
  lemma SameStartInsertLost()
    ensures EditedContent("a\n", [Edit(0, 0, 0, 0, "b"), Edit(0, 0, 0, 1, "c")]) == "c" + "a\n"
  {
    assert OneLine("a\n");
    SameStartParts("a\n", [Edit(0, 0, 0, 0, "b"), Edit(0, 0, 0, 1, "c")], "", "a", "\n", "b", "c");
    assert Drop("b" + "a" + "\n", 1) == "a\n";
  }
}
