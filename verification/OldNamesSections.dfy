/** Where an addition leaves its lines: each define stands in its part, under its section. */
module OldNamesSections {
  import opened Wrappers
  import opened OldNames
  import L = OldNamesLaws

  /** The section line above the end of `lines`, if there is one since the last marker. */
  function Under(lines: Lines): Option<string> {
    if lines == [] then None
    else
      var line := lines[|lines| - 1];
      if line == IFDEF || line == ELIF || line == ENDIF then None
      else if StartsWith(line, HEADER) then Some(line)
      else Under(lines[..|lines| - 1])
  }

  /** Line `k` is the entry's define for the part it stands in, under the entry's section. */
  ghost predicate StandsAt(e: Entry, mode: nat, lines: Lines, k: int)
    requires mode <= 3
  {
    && 0 <= k < |lines| && lines[k] == Content(e, mode)
    && Markers(lines[..k]) == MARKERS[..mode] && Under(lines[..k]) == Some(Section(e))
  }

  ghost predicate Stands(e: Entry, mode: nat, lines: Lines)
    requires mode <= 3
  {
    exists k :: StandsAt(e, mode, lines, k)
  }

  // ---------- growing a file ----------

  lemma StandsGrows(e: Entry, mode: nat, lines: Lines, x: string)
    requires mode <= 3 && Stands(e, mode, lines)
    ensures Stands(e, mode, lines + [x])
  {
    var k :| StandsAt(e, mode, lines, k);
    assert (lines + [x])[..k] == lines[..k];
    assert StandsAt(e, mode, lines + [x], k);
  }

  /** Without a blank line at the end. */
  lemma StandsWithoutBlank(e: Entry, mode: nat, lines: Lines)
    requires mode <= 3 && Stands(e, mode, lines) && lines != [] && lines[|lines| - 1] == ""
    ensures Stands(e, mode, lines[..|lines| - 1])
  {
    var k :| StandsAt(e, mode, lines, k);
    L.ContentPlain(e, mode);
    assert lines[..|lines| - 1][..k] == lines[..k];
    assert StandsAt(e, mode, lines[..|lines| - 1], k);
  }

  lemma Grown(lines: Lines, x: string)
    ensures var marker := x == IFDEF || x == ELIF || x == ENDIF;
      && Markers(lines + [x]) == Markers(lines) + (if marker then [x] else [])
      && Under(lines + [x]) == if marker then None else if StartsWith(x, HEADER) then Some(x) else Under(lines)
  {
    assert (lines + [x])[..|lines|] == lines;
  }

  lemma GrownByBlank(lines: Lines)
    ensures Markers(lines + [""]) == Markers(lines) && Under(lines + [""]) == Under(lines)
  {
    MarkersDiffer();
    Grown(lines, "");
  }

  lemma GrownByContent(e: Entry, mode: nat, lines: Lines)
    ensures var c := Content(e, mode);
      Markers(lines + [c]) == Markers(lines) && Under(lines + [c]) == Under(lines)
  {
    L.ContentPlain(e, mode);
    hide Content;
    Grown(lines, Content(e, mode));
  }

  lemma GrownBySection(e: Entry, lines: Lines)
    ensures Markers(lines + [Section(e)]) == Markers(lines)
    ensures Under(lines + [Section(e)]) == Some(Section(e))
  {
    L.SectionIsHeader(e);
    hide Section;
    Grown(lines, Section(e));
  }

  /** `done` without a blank line at its end, which the define overwrites. */
  function Cut(done: Lines): Lines
    requires done != []
  {
    if done[|done| - 1] == "" then done[..|done| - 1] else done
  }

  lemma CutIs(e: Entry, done: Lines, c: string)
    requires done != []
    ensures Markers(Cut(done)) == Markers(done) && Under(Cut(done)) == Under(done)
    ensures forall m: nat :: m <= 3 && Stands(e, m, done) ==> Stands(e, m, Cut(done))
    ensures WithContent(done, c, false) == Cut(done) + [c] && WithContent(done, c, true) == Cut(done) + [c] + [""]
  {
    if done[|done| - 1] == "" {
      GrownByBlank(Cut(done));
      assert done == Cut(done) + [""];
    }
    hide Stands;
    forall m: nat | m <= 3 && Stands(e, m, done) ensures Stands(e, m, Cut(done)) {
      if done[|done| - 1] == "" {
        StandsWithoutBlank(e, m, done);
      }
    }
  }

  lemma StandsThere(e: Entry, mode: nat, d: Lines)
    requires mode <= 3 && Markers(d) == MARKERS[..mode] && Under(d) == Some(Section(e))
    ensures Stands(e, mode, d + [Content(e, mode)])
  {
    var c := Content(e, mode);
    assert (d + [c])[..|d|] == d;
    assert StandsAt(e, mode, d + [c], |d|);
  }

  /** The define goes in under its section, and the other one stays where it stood. */
  lemma Written(e: Entry, mode: nat, done: Lines, trailing: bool)
    requires done != [] && mode <= 3
    requires Markers(done) == MARKERS[..mode] && Under(done) == Some(Section(e))
    ensures var d := WithContent(done, Content(e, mode), trailing);
      && Stands(e, mode, d) && Markers(d) == Markers(done)
      && forall m: nat :: m <= 3 && Stands(e, m, done) ==> Stands(e, m, d)
  {
    hide Stands, Content, Section, WithContent, Markers, Under, Cut;
    var c, d := Content(e, mode), Cut(done);
    CutIs(e, done, c);
    StandsThere(e, mode, d);
    GrownByContent(e, mode, d);
    Copied(e, d, c);
    GrownByBlank(d + [c]);
    Copied(e, d + [c], "");
  }

  // ---------- the pass ----------

  /** What holds of the lines before the cursor. */
  ghost predicate InPlace(e: Entry, st: Scan) {
    && st.mode <= 3 && Markers(st.done) == MARKERS[..st.mode]
    && (st.mode != 0 ==> st.done != []) && (st.contentAdded ==> st.sectionAdded)
    && ((st.mode == 1 || st.mode == 2) && st.sectionAdded && !st.contentAdded ==> Under(st.done) == Some(Section(e)))
    && (st.mode >= 2 || (st.mode == 1 && st.contentAdded) ==> Stands(e, 1, st.done))
    && (st.mode >= 3 || (st.mode == 2 && st.contentAdded) ==> Stands(e, 2, st.done))
  }

  /** The line itself, copied. */
  lemma Copied(e: Entry, done: Lines, line: string)
    ensures forall m: nat :: m <= 3 && Stands(e, m, done) ==> Stands(e, m, done + [line])
  {
    hide Stands;
    forall m: nat | m <= 3 && Stands(e, m, done) ensures Stands(e, m, done + [line]) {
      StandsGrows(e, m, done, line);
    }
  }

  /** The section goes in, and then the define. */
  lemma WrittenBoth(e: Entry, st: Scan, trailing: bool)
    requires InPlace(e, st) && (st.mode == 1 || st.mode == 2) && !st.contentAdded
    ensures var s := if st.sectionAdded then st.done else st.done + [Section(e)];
      var d := WithContent(s, Content(e, st.mode), trailing);
      && Stands(e, st.mode, d) && Markers(d) == Markers(st.done)
      && forall m: nat :: m <= 3 && Stands(e, m, st.done) ==> Stands(e, m, d)
  {
    hide Stands, Content, Section, WithContent, Markers, Under;
    var s := if st.sectionAdded then st.done else st.done + [Section(e)];
    GrownBySection(e, st.done);
    Copied(e, st.done, Section(e));
    Written(e, st.mode, s, trailing);
  }

  lemma FinishedInPlace(e: Entry, st: Scan)
    requires InPlace(e, st) && (st.mode == 1 || st.mode == 2)
    ensures var d := Finished(e, st);
      && d != [] && Markers(d) == Markers(st.done) && Stands(e, st.mode, d)
      && (st.mode == 2 ==> Stands(e, 1, d))
  {
    hide Stands, Content, Section, WithContent, Markers, Under;
    if !st.contentAdded {
      WrittenBoth(e, st, true);
      WithContentIsNotEmpty(e, st);
    }
  }

  lemma WithContentIsNotEmpty(e: Entry, st: Scan)
    requires st.done != []
    ensures Finished(e, st) != []
  {
  }

  lemma MarkersBefore(mode: nat)
    requires mode < 3
    ensures MARKERS[..mode] + [MARKERS[mode]] == MARKERS[..mode + 1]
  {
  }

  /** A marker line. */
  lemma MarkerInPlace(e: Entry, st: Scan, line: string)
    requires InPlace(e, st) && Step(e, st, line).Some? && (line == IFDEF || line == ELIF || line == ENDIF)
    ensures InPlace(e, Step(e, st, line).value)
  {
    MarkersDiffer();
    if st.mode < 3 {
      MarkersBefore(st.mode);
    }
    hide Stands, Content, Section, WithContent, Markers, Under, Less, StartsWith;
    var done := if line == IFDEF then st.done else Finished(e, st);
    if line != IFDEF {
      FinishedInPlace(e, st);
    }
    hide Finished;
    Grown(done, line);
    Copied(e, done, line);
  }

  /** Any other line before which nothing goes in. */
  lemma CopyInPlace(e: Entry, st: Scan, line: string)
    requires InPlace(e, st) && Step(e, st, line).Some?
    requires line != IFDEF && line != ELIF && line != ENDIF && L.Added(e, st, line) == []
    ensures InPlace(e, Step(e, st, line).value)
  {
    L.SectionIsHeader(e);
    if Under(st.done) == Some(Section(e)) {
      Found(e, st, line);
    }
    hide Stands, Content, Section, WithContent, Markers, Under, Less, StartsWith;
    Grown(st.done, line);
    Copied(e, st.done, line);
  }

  /** The define that was there already. */
  lemma Found(e: Entry, st: Scan, line: string)
    requires st.mode <= 3 && Markers(st.done) == MARKERS[..st.mode] && Under(st.done) == Some(Section(e))
    ensures line == Content(e, st.mode) ==> Stands(e, st.mode, st.done + [line])
  {
    assert (st.done + [line])[..|st.done|] == st.done;
    if line == Content(e, st.mode) {
      assert StandsAt(e, st.mode, st.done + [line], |st.done|);
    }
  }

  /** The lines that go in before `line`. */
  lemma AddInPlace(e: Entry, st: Scan, line: string)
    requires InPlace(e, st) && Step(e, st, line).Some?
    requires line != IFDEF && line != ELIF && line != ENDIF && L.Added(e, st, line) != []
    ensures InPlace(e, Step(e, st, line).value)
  {
    hide Stands, Content, Section, WithContent, Markers, Under, Less, StartsWith;
    var trailing := StartsWith(line, HEADER);
    WrittenBoth(e, st, trailing);
    var s := if st.sectionAdded then st.done else st.done + [Section(e)];
    var d := WithContent(s, Content(e, st.mode), trailing);
    Grown(d, line);
    Copied(e, d, line);
  }

  lemma {:induction false} PassInPlace(e: Entry, lines: Lines)
    requires Pass(e, lines).Some?
    ensures InPlace(e, Pass(e, lines).value)
  {
    hide Step, InPlace;
    if lines == [] {
      StartInPlace(e);
    } else {
      var before := lines[..|lines| - 1];
      PassInPlace(e, before);
      InPlaceKnows(e, Pass(e, before).value);
      var st, line := Pass(e, before).value, lines[|lines| - 1];
      if line == IFDEF || line == ELIF || line == ENDIF {
        MarkerInPlace(e, st, line);
      } else if L.Added(e, st, line) == [] {
        CopyInPlace(e, st, line);
      } else {
        AddInPlace(e, st, line);
      }
    }
  }

  lemma StartInPlace(e: Entry)
    ensures InPlace(e, START)
  {
  }

  lemma InPlaceKnows(e: Entry, st: Scan)
    requires InPlace(e, st)
    ensures st.mode != 0 ==> st.done != []
  {
  }

  /** After an addition each define stands in its own part, under the entry's section: the first one
      when the file has the marker that ends its part, the second one when it has all markers. Markers
      are as before. */
  lemma StandsInItsSection(e: Entry, lines: Lines)
    requires Markers(lines) <= MARKERS
    ensures Pass(e, lines).Some? && Markers(Pass(e, lines).value.done) == Markers(lines)
    ensures var file := Pass(e, lines).value.done;
      && (|Markers(lines)| >= 2 ==> Stands(e, 1, file))
      && (|Markers(lines)| == 3 ==> Stands(e, 2, file))
  {
    AcceptsMarkersInOrder(e, lines);
    PassInPlace(e, lines);
    hide Pass, Stands;
    assert Markers(lines) == MARKERS[..|Markers(lines)|];
  }
}
