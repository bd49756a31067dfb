/**
 * The EPUB table-of-contents injector: it rewrites the package document
 * (`content.opf`) by writing, after each of its lines, the line paired with
 * every marker that line contains, and it assembles the links of the
 * contents page from the chapter files listed in the navigation document.
 * Archive reads and XML parsing are inputs here: the package document as its
 * lines, the navigation document as its `content` `src` values in document
 * order, and each chapter as its first `h1` text and its `h2` headings.
 */
module InjectEpubToc {
  import opened Wrappers
  import opened Strings

  /** One entry of an insertions table: after a line containing `marker`, write `line`. */
  datatype Insertion = Insertion(marker: string, line: string)

  const TitlePageItem: string := "<item id=\"title_page\" href=\"title_page.xhtml\" media-type=\"application/xhtml+xml\" />"
  const ContentsItem: string := "<item id=\"contents\" href=\"contents.xhtml\" media-type=\"application/xhtml+xml\" />"
  const TitlePageItemref: string := "<itemref idref=\"title_page\" />"
  const ContentsItemref: string := "<itemref idref=\"contents\" />"

  /** The table `insert_opf_reference` uses, in its order. */
  function OpfInsertions(): seq<Insertion>
  {
    [Insertion(TitlePageItem, ContentsItem), Insertion(TitlePageItemref, ContentsItemref)]
  }

  /** How many entries of `insertions` have a marker that `line` contains. */
  ghost function MarkerCount(line: string, insertions: seq<Insertion>): nat
  {
    if insertions == [] then 0
    else (if Occurs(insertions[0].marker, line) then 1 else 0) + MarkerCount(line, insertions[1..])
  }

  /**
   * The lines written right after `line`: for each entry, in table order,
   * whose marker `line` contains, that entry's line.
   */
  ghost function InsertionsAfter(line: string, insertions: seq<Insertion>): (r: seq<string>)
    ensures |r| <= |insertions|
  {
    if insertions == [] then []
    else
      var last := insertions[|insertions| - 1];
      InsertionsAfter(line, insertions[..|insertions| - 1]) +
      (if Occurs(last.marker, line) then [last.line] else [])
  }

  /** One more table entry: its line is written last, if the line holds its marker. */
  lemma InsertionsAfterStep(line: string, insertions: seq<Insertion>, k: nat)
    requires k < |insertions|
    ensures InsertionsAfter(line, insertions[..k + 1]) ==
      InsertionsAfter(line, insertions[..k]) + (if Occurs(insertions[k].marker, line) then [insertions[k].line] else [])
  {
    assert insertions[..k + 1][..k] == insertions[..k];
  }

  /**
   * Only the lines of entries whose marker `line` holds are written, in table
   * order; a line holding no marker gets nothing after it.
   */
  lemma {:induction false} InsertionsAfterMeaning(line: string, insertions: seq<Insertion>)
    ensures forall x <- InsertionsAfter(line, insertions) ::
      exists k :: 0 <= k < |insertions| && Occurs(insertions[k].marker, line) && insertions[k].line == x
    ensures (forall k :: 0 <= k < |insertions| ==> !Occurs(insertions[k].marker, line)) ==>
      InsertionsAfter(line, insertions) == []
  {
    if insertions != [] {
      var n := |insertions| - 1;
      InsertionsAfterMeaning(line, insertions[..n]);
      forall x <- InsertionsAfter(line, insertions)
        ensures exists k :: 0 <= k < |insertions| && Occurs(insertions[k].marker, line) && insertions[k].line == x
      {
        if x in InsertionsAfter(line, insertions[..n]) {
          var k :| 0 <= k < n && Occurs(insertions[..n][k].marker, line) && insertions[..n][k].line == x;
          assert insertions[k] == insertions[..n][k];
        } else {
          assert Occurs(insertions[n].marker, line) && insertions[n].line == x;
        }
      }
      if forall k :: 0 <= k < |insertions| ==> !Occurs(insertions[k].marker, line) {
        assert forall k :: 0 <= k < n ==> insertions[..n][k] == insertions[k];
      }
    }
  }

  /** Counting from the front and collecting from the back agree. */
  lemma {:induction false} MarkerCountSplit(line: string, a: seq<Insertion>, b: seq<Insertion>)
    ensures MarkerCount(line, a + b) == MarkerCount(line, a) + MarkerCount(line, b)
  {
    if a != [] {
      MarkerCountSplit(line, a[1..], b);
      assert (a + b)[1..] == a[1..] + b;
    } else {
      assert a + b == b;
    }
  }

  /** One line is written after `line` per table entry whose marker it contains. */
  lemma {:induction false} InsertionsAfterCount(line: string, insertions: seq<Insertion>)
    ensures |InsertionsAfter(line, insertions)| == MarkerCount(line, insertions)
  {
    if insertions != [] {
      var n := |insertions| - 1;
      InsertionsAfterCount(line, insertions[..n]);
      MarkerCountSplit(line, insertions[..n], [insertions[n]]);
      assert insertions[..n] + [insertions[n]] == insertions;
    }
  }

  /** The rewritten document: each original line followed by its insertions. */
  ghost function Inserted(lines: seq<string>, insertions: seq<Insertion>): seq<string>
  {
    if lines == [] then []
    else
      var n := |lines| - 1;
      Inserted(lines[..n], insertions) + [lines[n]] + InsertionsAfter(lines[n], insertions)
  }

  /** `insert_lines`: write each original line, then the insertion of every marker it contains. */
  method InsertLines(lines: seq<string>, insertions: seq<Insertion>) returns (out: seq<string>)
    ensures out == Inserted(lines, insertions)
  {
    out := [];
    for i := 0 to |lines|
      invariant out == Inserted(lines[..i], insertions)
    {
      out := out + [lines[i]];
      ghost var head := out;
      for k := 0 to |insertions|
        invariant out == head + InsertionsAfter(lines[i], insertions[..k])
      {
        InsertionsAfterStep(lines[i], insertions, k);
        if Includes(lines[i], insertions[k].marker) {
          out := out + [insertions[k].line];
        }
      }
      assert insertions[..|insertions|] == insertions;
      InsertedStep(lines, insertions, i);
    }
    assert lines[..|lines|] == lines;
  }

  /** Where original line `i` lands in the rewritten document. */
  ghost function Offset(lines: seq<string>, insertions: seq<Insertion>, i: nat): nat
    requires i <= |lines|
  {
    |Inserted(lines[..i], insertions)|
  }

  /** The rewrite works line by line: rewriting a concatenation concatenates the rewrites. */
  lemma {:induction false} InsertedAppend(a: seq<string>, b: seq<string>, insertions: seq<Insertion>)
    ensures Inserted(a + b, insertions) == Inserted(a, insertions) + Inserted(b, insertions)
  {
    if b == [] {
      assert a + b == a;
    } else {
      var n := |b| - 1;
      var ab := a + b;
      assert ab[..|ab| - 1] == a + b[..n];
      assert ab[|ab| - 1] == b[n];
      InsertedAppend(a, b[..n], insertions);
      var x, y, z, w := Inserted(a, insertions), Inserted(b[..n], insertions), [b[n]], InsertionsAfter(b[n], insertions);
      assert Inserted(ab, insertions) == x + y + z + w;
      assert Inserted(b, insertions) == y + z + w;
      Assoc(x, y, z, w);
    }
  }

  lemma Assoc<T>(x: seq<T>, y: seq<T>, z: seq<T>, w: seq<T>)
    ensures x + y + z + w == x + (y + z + w)
  {
  }

  /**
   * Original line `i` is written at `Offset(i)` and its insertions take the
   * positions after it, up to where the next original line begins.
   */
  lemma InsertedLayout(lines: seq<string>, insertions: seq<Insertion>, i: nat)
    requires i < |lines|
    ensures var out, o, after := Inserted(lines, insertions), Offset(lines, insertions, i), InsertionsAfter(lines[i], insertions);
      o + 1 + |after| <= |out| && out[o] == lines[i] && Offset(lines, insertions, i + 1) == o + 1 + |after|
  {
    var head, after := Inserted(lines[..i], insertions), InsertionsAfter(lines[i], insertions);
    SplitAt(lines, insertions, i);
    InsertedStep(lines, insertions, i);
    BlockAt(head, lines[i], after, Inserted(lines[i + 1..], insertions), Inserted(lines, insertions), Offset(lines, insertions, i), 0);
  }

  /** The `j`-th line written after original line `i` sits `j + 1` places after it. */
  lemma InsertionWritten(lines: seq<string>, insertions: seq<Insertion>, i: nat, j: nat)
    requires i < |lines| && j < |InsertionsAfter(lines[i], insertions)|
    ensures var out, o := Inserted(lines, insertions), Offset(lines, insertions, i);
      o + 1 + j < |out| && out[o + 1 + j] == InsertionsAfter(lines[i], insertions)[j]
  {
    var head, after := Inserted(lines[..i], insertions), InsertionsAfter(lines[i], insertions);
    SplitAt(lines, insertions, i);
    BlockAt(head, lines[i], after, Inserted(lines[i + 1..], insertions), Inserted(lines, insertions), Offset(lines, insertions, i), j);
  }

  /** The rewrite, split around original line `i`. */
  lemma SplitAt(lines: seq<string>, insertions: seq<Insertion>, i: nat)
    requires i < |lines|
    ensures Inserted(lines, insertions) ==
      Inserted(lines[..i], insertions) + [lines[i]] + InsertionsAfter(lines[i], insertions) + Inserted(lines[i + 1..], insertions)
  {
    assert lines[..i + 1] + lines[i + 1..] == lines;
    InsertedAppend(lines[..i + 1], lines[i + 1..], insertions);
    InsertedStep(lines, insertions, i);
  }

  /** In `head + [x] + after + rest`, `x` and then `after` come right after `head`. */
  lemma BlockAt<T>(head: seq<T>, x: T, after: seq<T>, rest: seq<T>, out: seq<T>, o: nat, j: nat)
    requires out == head + [x] + after + rest && o == |head|
    ensures o + 1 + |after| <= |out| && out[o] == x
    ensures j < |after| ==> out[o + 1 + j] == after[j]
  {
  }

  /** One more original line adds that line and its insertions. */
  lemma InsertedStep(lines: seq<string>, insertions: seq<Insertion>, i: nat)
    requires i < |lines|
    ensures Inserted(lines[..i + 1], insertions) ==
      Inserted(lines[..i], insertions) + [lines[i]] + InsertionsAfter(lines[i], insertions)
  {
    var upto := lines[..i + 1];
    assert upto[..i] == lines[..i] && upto[i] == lines[i];
  }

  /** Original lines keep their order: a later line is written further down. */
  lemma OffsetsIncrease(lines: seq<string>, insertions: seq<Insertion>, i: nat, j: nat)
    requires i < j < |lines|
    ensures Offset(lines, insertions, i) < Offset(lines, insertions, j)
  {
    InsertedLayout(lines, insertions, i);
    assert lines[..i + 1] + lines[i + 1..j] == lines[..j];
    InsertedAppend(lines[..i + 1], lines[i + 1..j], insertions);
  }

  /** Total number of markers the lines contain, each line counted against the whole table. */
  ghost function TotalMarkers(lines: seq<string>, insertions: seq<Insertion>): nat
  {
    if lines == [] then 0 else MarkerCount(lines[0], insertions) + TotalMarkers(lines[1..], insertions)
  }

  lemma {:induction false} TotalMarkersSplit(a: seq<string>, b: seq<string>, insertions: seq<Insertion>)
    ensures TotalMarkers(a + b, insertions) == TotalMarkers(a, insertions) + TotalMarkers(b, insertions)
  {
    if a != [] {
      TotalMarkersSplit(a[1..], b, insertions);
      assert (a + b)[1..] == a[1..] + b;
    } else {
      assert a + b == b;
    }
  }

  /** The output has one line per original line plus one per marker contained. */
  lemma {:induction false} InsertedLength(lines: seq<string>, insertions: seq<Insertion>)
    ensures |Inserted(lines, insertions)| == |lines| + TotalMarkers(lines, insertions)
  {
    if lines != [] {
      var n := |lines| - 1;
      InsertedLength(lines[..n], insertions);
      InsertionsAfterCount(lines[n], insertions);
      TotalMarkersSplit(lines[..n], [lines[n]], insertions);
      assert lines[..n] + [lines[n]] == lines;
    }
  }

  /** What a two-entry table writes after one line. */
  lemma TwoInsertionsAfter(line: string, first: Insertion, second: Insertion)
    ensures InsertionsAfter(line, [first, second]) ==
      (if Occurs(first.marker, line) then [first.line] else []) +
      (if Occurs(second.marker, line) then [second.line] else [])
  {
    var table := [first, second];
    assert table[..1] == [first] && table[..1][..0] == [];
    assert InsertionsAfter(line, table[..1]) == (if Occurs(first.marker, line) then [first.line] else []);
  }

  /** With a two-entry table, the first entry's line directly follows a line holding its marker. */
  lemma FirstFollowsMarker(lines: seq<string>, first: Insertion, second: Insertion, i: nat)
    requires i < |lines| && Occurs(first.marker, lines[i])
    ensures var out, o := Inserted(lines, [first, second]), Offset(lines, [first, second], i);
      o + 1 < |out| && out[o + 1] == first.line
  {
    TwoInsertionsAfter(lines[i], first, second);
    InsertionWritten(lines, [first, second], i, 0);
  }

  /**
   * With a two-entry table, the second entry's line follows a line holding
   * its marker, after the first entry's line if the same line holds both.
   */
  lemma SecondFollowsMarker(lines: seq<string>, first: Insertion, second: Insertion, i: nat)
    requires i < |lines| && Occurs(second.marker, lines[i])
    ensures var out, o := Inserted(lines, [first, second]), Offset(lines, [first, second], i);
      (!Occurs(first.marker, lines[i]) ==> o + 1 < |out| && out[o + 1] == second.line) &&
      (Occurs(first.marker, lines[i]) ==> o + 2 < |out| && out[o + 2] == second.line)
  {
    TwoInsertionsAfter(lines[i], first, second);
    if Occurs(first.marker, lines[i]) {
      InsertionWritten(lines, [first, second], i, 1);
    } else {
      InsertionWritten(lines, [first, second], i, 0);
    }
  }

  /**
   * With the package-document table, the `contents` item directly follows a
   * line holding the `title_page` item, and the `contents` itemref follows a
   * line holding the `title_page` itemref (one place further down if the
   * same line also holds the `title_page` item, whose `contents` item comes
   * first).
   */
  lemma ContentsFollowTitlePage(lines: seq<string>, i: nat)
    requires i < |lines|
    ensures var out, o := Inserted(lines, OpfInsertions()), Offset(lines, OpfInsertions(), i);
      (Occurs(TitlePageItem, lines[i]) ==> o + 1 < |out| && out[o + 1] == ContentsItem) &&
      (Occurs(TitlePageItemref, lines[i]) && !Occurs(TitlePageItem, lines[i]) ==>
        o + 1 < |out| && out[o + 1] == ContentsItemref) &&
      (Occurs(TitlePageItemref, lines[i]) && Occurs(TitlePageItem, lines[i]) ==>
        o + 2 < |out| && out[o + 2] == ContentsItemref)
  {
    var item, itemref := Insertion(TitlePageItem, ContentsItem), Insertion(TitlePageItemref, ContentsItemref);
    if Occurs(TitlePageItem, lines[i]) {
      FirstFollowsMarker(lines, item, itemref, i);
    }
    if Occurs(TitlePageItemref, lines[i]) {
      SecondFollowsMarker(lines, item, itemref, i);
    }
  }

  // ---- The contents page ----

  /** An `h2` of a chapter: its `id` attribute (empty when absent) and its text. */
  datatype Heading = Heading(id: string, text: string)

  /** A parsed chapter: the text of its first `h1`, if any, and its `h2`s in document order. */
  datatype Chapter = Chapter(h1: Option<string>, h2s: seq<Heading>)

  predicate IsDigit(c: char)
  {
    '0' <= c <= '9'
  }

  /** "ch" followed by a digit at position `i` of `name`. */
  predicate ChapterAt(name: string, i: int)
  {
    0 <= i && i + 3 <= |name| && name[i] == 'c' && name[i + 1] == 'h' && IsDigit(name[i + 2])
  }

  /** `name =~ /ch\d/`: somewhere in `name`, "ch" followed by a digit. */
  ghost predicate MatchesChapterPattern(name: string)
  {
    exists i :: ChapterAt(name, i)
  }

  /** The regular-expression test, scanning from the left. */
  function IsChapterFile(name: string): (b: bool)
    ensures b <==> MatchesChapterPattern(name)
  {
    if |name| < 3 then
      assert forall i :: !ChapterAt(name, i);
      false
    else
      ChapterPatternStep(name);
      ChapterAt(name, 0) || IsChapterFile(name[1..])
  }

  /** The pattern matches at the start of `name` or somewhere after its first character. */
  lemma ChapterPatternStep(name: string)
    requires |name| >= 3
    ensures MatchesChapterPattern(name) <==> ChapterAt(name, 0) || MatchesChapterPattern(name[1..])
  {
    var tail := name[1..];
    if MatchesChapterPattern(tail) {
      var i :| ChapterAt(tail, i);
      assert ChapterAt(name, i + 1);
    }
    if MatchesChapterPattern(name) && !ChapterAt(name, 0) {
      var i :| ChapterAt(name, i);
      assert ChapterAt(tail, i - 1);
    }
  }

  /** The chapter files: the `src` values that match `/ch\d/`, in document order. */
  function ChapterFiles(srcs: seq<string>): (r: seq<string>)
    ensures forall f <- r :: f in srcs && MatchesChapterPattern(f)
    ensures forall s <- srcs :: MatchesChapterPattern(s) ==> s in r
    ensures |r| <= |srcs|
  {
    if srcs == [] then []
    else (if IsChapterFile(srcs[0]) then [srcs[0]] else []) + ChapterFiles(srcs[1..])
  }

  /**
   * The filter works name by name: the chapter files of a concatenation are
   * those of each part, in order, so document order and repeated names are kept.
   */
  lemma {:induction false} ChapterFilesAppend(a: seq<string>, b: seq<string>)
    ensures ChapterFiles(a + b) == ChapterFiles(a) + ChapterFiles(b)
  {
    if a == [] {
      assert a + b == b;
    } else {
      assert (a + b)[0] == a[0] && (a + b)[1..] == a[1..] + b;
      ChapterFilesAppend(a[1..], b);
      var head := if IsChapterFile(a[0]) then [a[0]] else [];
      assert ChapterFiles(a + b) == head + (ChapterFiles(a[1..]) + ChapterFiles(b));
      assert ChapterFiles(a) == head + ChapterFiles(a[1..]);
    }
  }

  /** A single `src` is kept exactly when it matches `/ch\d/`. */
  lemma ChapterFilesOne(src: string)
    ensures ChapterFiles([src]) == if MatchesChapterPattern(src) then [src] else []
  {
    var one := [src];
    assert one[1..] == [];
  }

  /** The chapter's link paragraph. */
  function ParagraphLine(file: string, title: string): string
  {
    "<p><a href=\"" + file + "\">" + title + "</a></p>"
  }

  /** The list item of one `h2`. */
  function ItemLine(file: string, h: Heading): string
  {
    "  <li><a href=\"" + file + "#" + h.id + "\">" + h.text + "</a></li>"
  }

  function ItemLines(file: string, h2s: seq<Heading>): (r: seq<string>)
    ensures |r| == |h2s| && forall j :: 0 <= j < |h2s| ==> r[j] == ItemLine(file, h2s[j])
  {
    if h2s == [] then [] else ItemLines(file, h2s[..|h2s| - 1]) + [ItemLine(file, h2s[|h2s| - 1])]
  }

  /** What one chapter contributes: its paragraph, `<ul>`, an item per `h2`, `</ul>`. */
  function ChapterLines(file: string, title: string, h2s: seq<Heading>): (r: seq<string>)
    ensures |r| == |h2s| + 3
    ensures r[0] == ParagraphLine(file, title) && r[1] == "<ul>" && r[|r| - 1] == "</ul>"
    ensures forall j :: 0 <= j < |h2s| ==> r[j + 2] == ItemLine(file, h2s[j])
  {
    [ParagraphLine(file, title), "<ul>"] + ItemLines(file, h2s) + ["</ul>"]
  }

  /** Lines joined as the string built with `<<`: each one followed by a newline. */
  function Unlines(lines: seq<string>): string
  {
    if lines == [] then "" else Unlines(lines[..|lines| - 1]) + lines[|lines| - 1] + "\n"
  }

  lemma {:induction false} UnlinesAppend(a: seq<string>, b: seq<string>)
    ensures Unlines(a + b) == Unlines(a) + Unlines(b)
  {
    if b != [] {
      var n := |b| - 1;
      UnlinesAppend(a, b[..n]);
      assert (a + b)[..|a + b| - 1] == a + b[..n];
    } else {
      assert a + b == a;
    }
  }

  /**
   * The contents lines for `files`, or the first file that cannot be used:
   * one missing from the archive (the read raises) or without an `h1` (the
   * call on `nil` raises).
   */
  function TocLines(files: seq<string>, archive: map<string, Chapter>): Result<seq<string>, string>
  {
    if files == [] then Success([])
    else
      var n := |files| - 1;
      match TocLines(files[..n], archive)
      case Failure(f) => Failure(f)
      case Success(lines) =>
        if files[n] !in archive || archive[files[n]].h1.None? then Failure(files[n])
        else Success(lines + ChapterLines(files[n], archive[files[n]].h1.value, archive[files[n]].h2s))
  }

  /** A failure on a prefix of the files is the failure of the whole list. */
  lemma {:induction false} TocFailureSticks(files: seq<string>, archive: map<string, Chapter>, j: nat)
    requires j <= |files| && TocLines(files[..j], archive).Failure?
    ensures TocLines(files, archive) == TocLines(files[..j], archive)
  {
    if j < |files| {
      var n := |files| - 1;
      assert files[..n][..j] == files[..j];
      TocFailureSticks(files[..n], archive, j);
    } else {
      assert files[..j] == files;
    }
  }

  /** Number of `h2`s over the chapters of `files`. */
  function HeadingCount(files: seq<string>, archive: map<string, Chapter>): nat
  {
    if files == [] then 0
    else
      var last := files[|files| - 1];
      HeadingCount(files[..|files| - 1], archive) + (if last in archive then |archive[last].h2s| else 0)
  }

  /** A successful table of contents has three lines per chapter plus one per `h2`. */
  lemma {:induction false} TocLineCount(files: seq<string>, archive: map<string, Chapter>)
    requires TocLines(files, archive).Success?
    ensures |TocLines(files, archive).value| == 3 * |files| + HeadingCount(files, archive)
  {
    if files != [] {
      TocLineCount(files[..|files| - 1], archive);
    }
  }

  /** Appending a line to the list appends it and a newline to the string. */
  lemma UnlinesSnoc(lines: seq<string>, line: string)
    ensures Unlines(lines + [line]) == Unlines(lines) + line + "\n"
  {
    assert (lines + [line])[..|lines|] == lines;
  }

  lemma ItemLinesStep(file: string, h2s: seq<Heading>, k: nat)
    requires k < |h2s|
    ensures ItemLines(file, h2s[..k + 1]) == ItemLines(file, h2s[..k]) + [ItemLine(file, h2s[k])]
  {
    assert h2s[..k + 1][..k] == h2s[..k];
  }

  /** One more chapter file: the contents so far, extended by that chapter or failing on it. */
  lemma TocStep(files: seq<string>, archive: map<string, Chapter>, i: nat)
    requires i < |files|
    ensures TocLines(files[..i + 1], archive) ==
      match TocLines(files[..i], archive)
      case Failure(f) => Failure(f)
      case Success(lines) =>
        if files[i] !in archive || archive[files[i]].h1.None? then Failure(files[i])
        else Success(lines + ChapterLines(files[i], archive[files[i]].h1.value, archive[files[i]].h2s))
  {
    assert files[..i + 1][..i] == files[..i];
  }

  /** Two lines, some more lines, and a closing line, joined. */
  lemma UnlinesFrame(p: string, q: string, items: seq<string>, z: string)
    ensures Unlines([p, q] + items + [z]) == p + "\n" + q + "\n" + Unlines(items) + z + "\n"
  {
    UnlinesSnoc([p, q] + items, z);
    UnlinesAppend([p, q], items);
    UnlinesSnoc([p], q);
    UnlinesSnoc([], p);
    assert [p] + [q] == [p, q];
    assert [] + [p] == [p];
    assert "" + p == p;
  }

  /** The inner loop of `contents_xhtml_links`: one list item per `h2`. */
  method ItemLinks(file: string, h2s: seq<Heading>) returns (out: string)
    ensures out == Unlines(ItemLines(file, h2s))
  {
    out := "";
    for k := 0 to |h2s|
      invariant out == Unlines(ItemLines(file, h2s[..k]))
    {
      ItemLinesStep(file, h2s, k);
      UnlinesSnoc(ItemLines(file, h2s[..k]), ItemLine(file, h2s[k]));
      out := out + ItemLine(file, h2s[k]) + "\n";
    }
    assert h2s[..|h2s|] == h2s;
  }

  /**
   * `contents_xhtml_links`: the link lines of every chapter file in order,
   * joined into one string; a chapter that cannot be read or has no `h1`
   * makes the whole call fail.
   */
  method ContentsXhtmlLinks(srcs: seq<string>, archive: map<string, Chapter>) returns (r: Result<string, string>)
    ensures TocLines(ChapterFiles(srcs), archive).Failure? ==>
      r == Failure(TocLines(ChapterFiles(srcs), archive).error)
    ensures TocLines(ChapterFiles(srcs), archive).Success? ==>
      r == Success(Unlines(TocLines(ChapterFiles(srcs), archive).value))
  {
    var files := ChapterFiles(srcs);
    var toc := "";
    ghost var lines: seq<string> := [];
    for i := 0 to |files|
      invariant TocLines(files[..i], archive) == Success(lines)
      invariant toc == Unlines(lines)
    {
      var file := files[i];
      TocStep(files, archive, i);
      if file !in archive || archive[file].h1.None? {
        TocFailureSticks(files, archive, i + 1);
        return Failure(file);
      }
      var chapter := archive[file];
      var title := chapter.h1.value;
      var items := ItemLinks(file, chapter.h2s);
      var text := ParagraphLine(file, title) + "\n" + "<ul>" + "\n" + items + "</ul>" + "\n";
      UnlinesFrame(ParagraphLine(file, title), "<ul>", ItemLines(file, chapter.h2s), "</ul>");
      toc := toc + text;
      UnlinesAppend(lines, ChapterLines(file, title, chapter.h2s));
      lines := lines + ChapterLines(file, title, chapter.h2s);
    }
    assert files[..|files|] == files;
    return Success(toc);
  }
}
