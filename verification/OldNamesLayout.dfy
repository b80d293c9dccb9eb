/** The blank lines of the list of old names: an addition keeps the list neat. */
module OldNamesLayout {
  import opened Wrappers
  import opened OldNames
  import S = OldNamesSections
  import L = OldNamesLaws

  /** A section line or a marker. */
  predicate Breaks(line: string) {
    StartsWith(line, HEADER) || line == IFDEF || line == ELIF || line == ENDIF
  }

  /** A line may follow `before` inside a part: a blank line stands before each section line and
      marker, and nowhere else. */
  predicate Follows(before: string, line: string) {
    before == "" <==> Breaks(line)
  }

  predicate InsidePart(lines: Lines) {
    lines != [] && 1 <= |Markers(lines)| <= 2
  }

  predicate Neat(lines: Lines) {
    lines == [] ||
    (var n := |lines| - 1;
     Neat(lines[..n]) && (InsidePart(lines[..n]) ==> Follows(lines[n - 1], lines[n])))
  }

  lemma NeatAppend(lines: Lines, x: string)
    ensures Neat(lines + [x]) <==> Neat(lines) && (InsidePart(lines) ==> Follows(lines[|lines| - 1], x))
  {
    hide InsidePart, Follows;
    assert (lines + [x])[..|lines|] == lines;
  }

  lemma BlankFollows()
    ensures !Breaks("")
  {
  }

  lemma ContentFollows(e: Entry, mode: nat)
    ensures !Breaks(Content(e, mode)) && Content(e, mode) != ""
  {
    L.ContentPlain(e, mode);
  }

  lemma SectionFollows(e: Entry)
    ensures Breaks(Section(e)) && Section(e) != ""
  {
    L.SectionIsHeader(e);
  }

  /** Without the blank line that the define overwrites. */
  lemma CutNeat(done: Lines)
    requires Neat(done) && InsidePart(done)
    ensures var d := S.Cut(done); d != [] && Neat(d) && d[|d| - 1] != ""
  {
    var d := S.Cut(done);
    NoMarkers();
    BlankFollows();
    hide Markers, Neat, Breaks;
    S.GrownByBlank(d);
    NeatAppend(d, "");
    assert done[|done| - 1] == "" ==> done == d + [""];
  }

  /** The define goes in, over a blank line if there is one. */
  lemma ContentNeat(e: Entry, mode: nat, done: Lines, trailing: bool)
    requires Neat(done) && InsidePart(done)
    ensures var d := WithContent(done, Content(e, mode), trailing);
      && Neat(d) && InsidePart(d) && Markers(d) == Markers(done)
      && (d[|d| - 1] == "" <==> trailing)
  {
    hide Content, Markers, Neat, Breaks, S.Cut, WithContent;
    var c, d := Content(e, mode), S.Cut(done);
    CutNeat(done);
    ContentFollows(e, mode);
    BlankFollows();
    S.CutIs(e, done, c);
    S.GrownByContent(e, mode, d);
    S.GrownByBlank(d + [c]);
    NeatAppend(d, c);
    NeatAppend(d + [c], "");
  }

  lemma NoMarkers()
    ensures Markers([]) == []
  {
  }

  lemma SectionNeat(e: Entry, done: Lines)
    requires Neat(done) && InsidePart(done) && done[|done| - 1] == ""
    ensures Neat(done + [Section(e)]) && InsidePart(done + [Section(e)])
  {
    SectionFollows(e);
    hide Section, Markers, Neat, Breaks;
    S.GrownBySection(e, done);
    NeatAppend(done, Section(e));
  }

  /** What the pass has written so far is neat, and ends as what it has read so far. */
  ghost predicate NeatSoFar(st: Scan, before: Lines) {
    && Neat(st.done) && |Markers(st.done)| == |Markers(before)| == st.mode <= 3
    && (st.mode != 0 ==> st.done != [])
    && (before == [] <==> st.done == []) && (before != [] ==> st.done[|st.done| - 1] == before[|before| - 1])
  }

  /** Before a section line or a marker: the entry's lines, whichever are missing. */
  lemma AddedNeat(e: Entry, st: Scan)
    requires Neat(st.done) && InsidePart(st.done) && st.done[|st.done| - 1] == "" && !st.contentAdded
    ensures var s := if st.sectionAdded then st.done else st.done + [Section(e)];
      var d := WithContent(s, Content(e, st.mode), true);
      Neat(d) && InsidePart(d) && d[|d| - 1] == ""
  {
    hide Section, Content, WithContent, Markers, Neat;
    if !st.sectionAdded {
      SectionNeat(e, st.done);
    }
    ContentNeat(e, st.mode, if st.sectionAdded then st.done else st.done + [Section(e)], true);
  }

  lemma FinishedNeat(e: Entry, st: Scan)
    requires Neat(st.done) && InsidePart(st.done) && st.done[|st.done| - 1] == ""
    requires st.contentAdded ==> st.sectionAdded
    ensures var d := Finished(e, st); Neat(d) && InsidePart(d) && d[|d| - 1] == ""
  {
    hide Section, Content, WithContent, Markers, Neat;
    if !st.contentAdded {
      AddedNeat(e, st);
    }
  }

  lemma StepNeat(e: Entry, st: Scan, before: Lines, line: string)
    requires NeatSoFar(st, before) && Neat(before + [line]) && Step(e, st, line).Some?
    requires st.contentAdded ==> st.sectionAdded
    ensures Neat(Step(e, st, line).value.done)
  {
    NeatAppend(before, line);
    NeatAppend(st.done, line);
    hide Section, Content, WithContent, Markers, Neat, Less, Finished;
    if line == ELIF || line == ENDIF {
      FinishedNeat(e, st);
      NeatAppend(Finished(e, st), line);
    } else if L.Added(e, st, line) != [] {
      var s := if st.sectionAdded then st.done else st.done + [Section(e)];
      var trailing := StartsWith(line, HEADER);
      if trailing {
        AddedNeat(e, st);
      } else {
        ContentNeat(e, st.mode, st.done, false);
      }
      NeatAppend(WithContent(s, Content(e, st.mode), trailing), line);
    }
  }

  lemma StepEnds(e: Entry, st: Scan, line: string)
    requires st.mode != 0 ==> st.done != []
    requires Step(e, st, line).Some?
    ensures var d := Step(e, st, line).value.done; d != [] && d[|d| - 1] == line
  {
    hide Section, Content, WithContent, Less, Finished, StartsWith;
  }

  lemma {:induction false} PassNeat(e: Entry, lines: Lines)
    requires Neat(lines) && Pass(e, lines).Some?
    ensures NeatSoFar(Pass(e, lines).value, lines)
  {
    hide Step, Markers;
    AcceptsMarkersInOrder(e, lines);
    S.StandsInItsSection(e, lines);
    L.SectionFirst(e, lines);
    if lines != [] {
      var before, line := lines[..|lines| - 1], lines[|lines| - 1];
      assert lines == before + [line];
      PassNeat(e, before);
      L.SectionFirst(e, before);
      StepNeat(e, Pass(e, before).value, before, line);
      StepEnds(e, Pass(e, before).value, line);
    }
  }

  /** A list in which blank lines stand before section lines and markers, and nowhere else, is such a
      list after an addition. */
  lemma StaysNeat(e: Entry, lines: Lines)
    requires Neat(lines) && Pass(e, lines).Some?
    ensures Neat(Pass(e, lines).value.done)
  {
    PassNeat(e, lines);
  }

  // ---------- an example ----------

  lemma LinesOfTheEntry()
    ensures var e := Entry("h", "A", "B");
      && Section(e) == "/* ##h */" && Content(e, 1) == "#define A B" && Content(e, 2) == "#define A A_renamed_B"
  {
    assert "/* ##" + "h" + " */" == "/* ##h */";
    assert "#define " + "A" + " " + "B" == "#define A B";
    assert "#define " + "A" + " " + "A" + "_renamed_" + "B" == "#define A A_renamed_B";
  }

  /** What a marker line adds to a part without sections. */
  lemma FinishedEmpty(e: Entry, done: Lines, mode: nat)
    requires done != []
    ensures Finished(e, Scan(done, mode, false, false)) == done + [Section(e), Content(e, mode), ""]
  {
    L.SectionIsHeader(e);
    hide Section, Content;
    assert done + [Section(e)] + [Content(e, mode)] + [""] == done + [Section(e), Content(e, mode), ""];
  }

  lemma PassTwo(e: Entry, lines: Lines, st: Scan, x: string, y: string, u: Scan, v: Scan)
    requires Pass(e, lines) == Some(st) && (st.mode != 0 ==> st.done != []) && (u.mode != 0 ==> u.done != [])
    requires Step(e, st, x) == Some(u) && Step(e, u, y) == Some(v)
    ensures Pass(e, lines + [x, y]) == Some(v)
  {
    hide Step, Pass;
    L.Appended(e, lines, x);
    L.Appended(e, lines + [x], y);
    assert lines + [x] + [y] == lines + [x, y];
  }

  /** A marker line that closes a part without sections, and a blank line after it. */
  lemma ClosesEmpty(e: Entry, lines: Lines, done: Lines, mode: nat, line: string)
    requires Pass(e, lines) == Some(Scan(done, mode, false, false)) && done != []
    requires (mode == 1 && line == ELIF) || (mode == 2 && line == ENDIF)
    ensures Pass(e, lines + [line, ""])
      == Some(Scan(done + [Section(e), Content(e, mode), "", line, ""], mode + 1, false, false))
  {
    MarkersDiffer();
    FinishedEmpty(e, done, mode);
    hide Section, Content, Pass, Finished, InPart;
    var all := done + [Section(e), Content(e, mode), ""];
    assert all + [line] + [""] == done + [Section(e), Content(e, mode), "", line, ""];
    PassTwo(e, lines, Scan(done, mode, false, false), line, "", Scan(all + [line], mode + 1, false, false),
      Scan(all + [line] + [""], mode + 1, false, false));
  }

  lemma OpensEmpty(e: Entry)
    ensures Pass(e, [IFDEF, ""]) == Some(Scan([IFDEF, ""], 1, false, false))
  {
    MarkersDiffer();
    hide InPart, Finished;
    assert Pass(e, []) == Some(START) && [] + [IFDEF, ""] == [IFDEF, ""];
    assert [] + [IFDEF] == [IFDEF] && [IFDEF] + [""] == [IFDEF, ""];
    hide Pass;
    PassTwo(e, [], START, IFDEF, "", Scan([IFDEF], 1, false, false), Scan([IFDEF, ""], 1, false, false));
  }

  /** An entry goes into both parts of an empty list. */
  lemma FirstEntry(e: Entry)
    ensures var st := Pass(e, [IFDEF, "", ELIF, "", ENDIF, ""]);
      && st.Some?
      && st.value.done
        == [IFDEF, "", Section(e), Content(e, 1), "", ELIF, "", Section(e), Content(e, 2), "", ENDIF, ""]
  {
    var first, second := [IFDEF, ""], [IFDEF, "", ELIF, ""];
    var done := first + [Section(e), Content(e, 1), "", ELIF, ""];
    hide Section, Content, Pass;
    OpensEmpty(e);
    ClosesEmpty(e, first, first, 1, ELIF);
    assert first + [ELIF, ""] == second && second + [ENDIF, ""] == [IFDEF, "", ELIF, "", ENDIF, ""];
    ClosesEmpty(e, second, done, 2, ENDIF);
  }
}
