/** build-scripts/rename_api.py: adding an entry to the list of old names, line by line. */
module OldNames {
  import opened Wrappers

  type Lines = seq<string>

  const IFDEF := "#ifdef SDL_ENABLE_OLD_NAMES"
  const ELIF := "#elif !defined(SDL_DISABLE_OLD_NAMES)"
  const ENDIF := "#endif /* SDL_ENABLE_OLD_NAMES */"
  const HEADER := "/* ##"

  /** A renamed symbol and the header it used to be in. */
  datatype Entry = Entry(header: string, oldName: string, newName: string)

  /** Python's order of strings. */
  predicate Less(a: string, b: string) {
    if b == "" then false
    else if a == "" then true
    else a[0] < b[0] || (a[0] == b[0] && Less(a[1..], b[1..]))
  }

  predicate StartsWith(line: string, prefix: string) {
    |prefix| <= |line| && line[..|prefix|] == prefix
  }

  function Section(e: Entry): string {
    HEADER + e.header + " */"
  }

  /** The line that defines the old name, in the enabled and in the disabled part of the file. */
  function Content(e: Entry, mode: nat): string {
    if mode == 1 then "#define " + e.oldName + " " + e.newName
    else "#define " + e.oldName + " " + e.oldName + "_renamed_" + e.newName
  }

  // ---------- the pass as a machine on lines ----------

  /** How far the pass has come: the lines before the cursor, and the flags. */
  datatype Scan = Scan(done: Lines, mode: nat, sectionAdded: bool, contentAdded: bool)

  const START := Scan([], 0, false, false)

  /** add_content: a blank line before the cursor is reused. */
  function WithContent(done: Lines, content: string, trailing: bool): Lines
    requires done != []
  {
    (if done[|done| - 1] == "" then done[..|done| - 1] else done) + [content] + if trailing then [""] else []
  }

  /** What a marker line adds to the part it ends. */
  function Finished(e: Entry, st: Scan): Lines
    requires st.done != []
  {
    var done := if st.sectionAdded then st.done else st.done + [Section(e)];
    if st.contentAdded then done else WithContent(done, Content(e, st.mode), true)
  }

  /** One pass of the loop body over `line`; None is the exception. */
  function Step(e: Entry, st: Scan, line: string): Option<Scan>
    requires st.mode != 0 ==> st.done != []
  {
    if line == IFDEF then
      if st.mode == 0 then Some(Scan(st.done + [line], 1, false, false)) else None
    else if line == ELIF then
      if st.mode == 1 then Some(Scan(Finished(e, st) + [line], 2, false, false)) else None
    else if line == ENDIF then
      if st.mode == 2 then Some(Scan(Finished(e, st) + [line], 3, st.sectionAdded, st.contentAdded)) else None
    else if line != "" && (st.mode == 1 || st.mode == 2) then Some(InPart(e, st, line))
    else Some(st.(done := st.done + [line]))
  }

  /** A line of the enabled or the disabled part. */
  function InPart(e: Entry, st: Scan, line: string): Scan
    requires st.done != []
  {
    var content := Content(e, st.mode);
    if StartsWith(line, HEADER) then
      if st.sectionAdded then
        if st.contentAdded then st.(done := st.done + [line])
        else st.(done := WithContent(st.done, content, true) + [line], contentAdded := true)
      else if line == Section(e) then st.(done := st.done + [line], sectionAdded := true)
      else if Less(Section(e), line) then
        Scan(WithContent(st.done + [Section(e)], content, true) + [line], st.mode, true, true)
      else st.(done := st.done + [line])
    else if st.sectionAdded && !st.contentAdded then
      if content == line then st.(done := st.done + [line], contentAdded := true)
      else if Less(content, line) then
        st.(done := WithContent(st.done, content, false) + [line], contentAdded := true)
      else st.(done := st.done + [line])
    else st.(done := st.done + [line])
  }

  lemma StepMovesOn(e: Entry, st: Scan, line: string)
    requires st.mode != 0 ==> st.done != []
    ensures Step(e, st, line).Some? ==> Step(e, st, line).value.done != []
  {
  }

  /** The whole pass over `lines`. */
  function Pass(e: Entry, lines: Lines): (st: Option<Scan>)
    ensures st.Some? && lines != [] ==> st.value.done != []
    ensures st.Some? && st.value.mode != 0 ==> st.value.done != []
  {
    if lines == [] then Some(START)
    else
      var before := Pass(e, lines[..|lines| - 1]);
      if before == None then None
      else
        StepMovesOn(e, before.value, lines[|lines| - 1]);
        Step(e, before.value, lines[|lines| - 1])
  }

  // ---------- which files the pass accepts ----------

  /** The markers that open, divide and close the two parts, in order. */
  const MARKERS := [IFDEF, ELIF, ENDIF]

  /** The marker lines of a file. */
  function Markers(lines: Lines): Lines {
    if lines == [] then [] else Markers(lines[..|lines| - 1]) + MarkerOf(lines[|lines| - 1])
  }

  function MarkerOf(line: string): Lines {
    if line == IFDEF || line == ELIF || line == ENDIF then [line] else []
  }

  lemma MarkersDiffer()
    ensures IFDEF != ELIF && ELIF != ENDIF && IFDEF != ENDIF && "" !in MARKERS
  {
    assert IFDEF[1] == 'i' && ELIF[1] == ENDIF[1] == 'e' && ELIF[2] == 'l' && ENDIF[2] == 'n';
  }

  /** One more marker is in order exactly when it is the next one. */
  lemma NextMarker(ms: Lines, line: string)
    requires ms <= MARKERS
    ensures ms + [line] <= MARKERS <==> |ms| < 3 && line == MARKERS[|ms|]
  {
    assert |ms| < 3 ==> ms + [MARKERS[|ms|]] == MARKERS[..|ms| + 1];
  }

  lemma MarkersCut(lines: Lines, ms: Lines)
    requires lines != [] && Markers(lines) <= ms
    ensures Markers(lines[..|lines| - 1]) <= ms
  {
    hide MarkerOf;
    PrefixCut(Markers(lines[..|lines| - 1]), MarkerOf(lines[|lines| - 1]), ms);
  }

  lemma PrefixCut(a: Lines, b: Lines, c: Lines)
    requires a + b <= c
    ensures a <= c
  {
    assert a == (a + b)[..|a|] == c[..|a + b|][..|a|];
  }

  /** The pass accepts a file if and only if its markers come in order, each at most once, none
      without those before it. */
  lemma {:induction false} AcceptsMarkersInOrder(e: Entry, lines: Lines)
    ensures Pass(e, lines).Some? <==> Markers(lines) <= MARKERS
    ensures Pass(e, lines).Some? ==> Pass(e, lines).value.mode == |Markers(lines)|
  {
    hide Finished, InPart;
    if lines != [] {
      var before, line := lines[..|lines| - 1], lines[|lines| - 1];
      AcceptsMarkersInOrder(e, before);
      MarkersDiffer();
      if Markers(before) <= MARKERS {
        NextMarker(Markers(before), line);
        InPartKeepsMode(e, Pass(e, before).value, line);
      } else if Markers(lines) <= MARKERS {
        MarkersCut(lines, MARKERS);
      }
    }
  }

  lemma InPartKeepsMode(e: Entry, st: Scan, line: string)
    requires st.mode != 0 ==> st.done != []
    ensures st.done != [] ==> InPart(e, st, line).mode == st.mode
  {
    hide Content, Section, WithContent, Less;
  }

  // ---------- the pass in place ----------

  /** The file of old names, as lines, and the list of lines that the script edits. */
  class Editor {
    var file: Lines
    var lines: Lines

    constructor (file: Lines)
      ensures this.file == file
    {
      this.file, lines := file, [];
    }

    /** add_line. */
    method AddLine(i: nat, section: string) returns (j: nat)
      requires i <= |lines|
      modifies this`lines
      ensures j == i + 1 <= |lines|
      ensures lines[..j] == old(lines)[..i] + [section] && lines[j..] == old(lines)[i..]
    {
      lines := lines[..i] + [section] + lines[i..];
      j := i + 1;
    }

    /** add_content: never asked to look before the first line. */
    method AddContent(i: nat, content: string, addTrailingLine: bool) returns (j: nat)
      requires 0 < i <= |lines|
      modifies this`lines
      ensures i <= j <= |lines|
      ensures lines[..j] == WithContent(old(lines)[..i], content, addTrailingLine)
      ensures lines[j..] == old(lines)[i..]
    {
      j := i;
      if lines[i - 1] == "" {
        lines := lines[i - 1 := content];
        assert lines[..i] == old(lines)[..i - 1] + [content];
      } else {
        j := AddLine(i, content);
      }
      assert lines[..j] == WithContent(old(lines)[..i], content, false);
      if addTrailingLine {
        j := AddLine(j, "");
      }
    }

    /** One pass of the loop body: the lines before the cursor are `st.done`, and the line under the
        cursor is `line`. */
    method Visit(e: Entry, i: nat, ghost st: Scan, mode: nat, sectionAdded: bool, contentAdded: bool)
      returns (ok: bool, j: nat, newMode: nat, nowSection: bool, nowContent: bool)
      requires i < |lines| && st == Scan(lines[..i], mode, sectionAdded, contentAdded)
      requires mode != 0 ==> i != 0
      modifies this`lines
      ensures ok == Step(e, st, old(lines)[i]).Some?
      ensures ok ==> j < |lines| && lines[j..] == old(lines)[i..]
      ensures ok ==> Step(e, st, old(lines)[i]).value == Scan(lines[..j] + [lines[j]], newMode, nowSection, nowContent)
    {
      ok, j, newMode, nowSection, nowContent := true, i, mode, sectionAdded, contentAdded;
      var line := lines[i];
      var section, content := Section(e), Content(e, mode);
      if line == IFDEF {
        if mode == 0 {
          newMode, nowSection, nowContent := 1, false, false;
        } else {
          ok := false;
        }
      } else if line == ELIF {
        if mode == 1 {
          j := Finish(e, i, mode, sectionAdded, contentAdded);
          newMode, nowSection, nowContent := 2, false, false;
        } else {
          ok := false;
        }
      } else if line == ENDIF {
        if mode == 2 {
          j := Finish(e, i, mode, sectionAdded, contentAdded);
          newMode := 3;
        } else {
          ok := false;
        }
      } else if line != "" && (mode == 1 || mode == 2) {
        if StartsWith(line, HEADER) {
          if sectionAdded {
            if !contentAdded {
              j := AddContent(i, content, true);
              nowContent := true;
            }
          } else if line == section {
            nowSection := true;
          } else if Less(section, line) {
            j := AddLine(i, section);
            nowSection := true;
            j := AddContent(j, content, true);
            nowContent := true;
          }
        } else if sectionAdded && !contentAdded {
          if content == line {
            nowContent := true;
          } else if Less(content, line) {
            j := AddContent(i, content, false);
            nowContent := true;
          }
        }
      }
    }

    /** What both closing markers do first. */
    method Finish(e: Entry, i: nat, mode: nat, sectionAdded: bool, contentAdded: bool) returns (j: nat)
      requires 0 < i < |lines|
      modifies this`lines
      ensures i <= j < |lines| && lines[j..] == old(lines)[i..]
      ensures lines[..j] == Finished(e, Scan(old(lines)[..i], mode, sectionAdded, contentAdded))
    {
      j := i;
      if !sectionAdded {
        j := AddLine(j, Section(e));
      }
      if !contentAdded {
        j := AddContent(j, Content(e, mode), true);
      }
    }

    /** add_symbol_to_oldnames: the file becomes what the pass makes of it, or stays as it is when the
        markers are out of order. Every pass of the loop leaves one line less to look at, although
        the list grows. */
    method AddSymbol(e: Entry) returns (ok: bool)
      modifies this
      ensures ok <==> Markers(old(file)) <= MARKERS
      ensures ok == Pass(e, old(file)).Some?
      ensures file == if ok then Pass(e, old(file)).value.done else old(file)
    {
      AcceptsMarkersInOrder(e, file);
      hide Step, Markers;
      lines := file;
      var mode: nat, sectionAdded, contentAdded := 0, false, false;
      var i: nat := 0;
      ghost var k: nat := 0;
      ghost var st := START;
      while i < |lines|
        invariant i <= |lines| && k <= |file| && file == old(file)
        invariant lines[i..] == file[k..] && st == Scan(lines[..i], mode, sectionAdded, contentAdded)
        invariant Pass(e, file[..k]) == Some(st)
        decreases |lines| - i
      {
        PassOn(e, file, k);
        assert lines[i] == lines[i..][0] == file[k];
        ok, i, mode, sectionAdded, contentAdded := Visit(e, i, st, mode, sectionAdded, contentAdded);
        if !ok {
          return;
        }
        assert lines[..i] + [lines[i]] == lines[..i + 1] && lines[i..][1..] == lines[i + 1..];
        assert file[k..][1..] == file[k + 1..];
        st := Step(e, st, file[k]).value;
        i := i + 1;
        k := k + 1;
      }
      assert file[..k] == file && lines[..i] == lines;
      ok := true;
      file := lines;
    }
  }

  /** The pass over one more line of the file. */
  lemma PassOn(e: Entry, file: Lines, k: nat)
    requires k < |file| && Pass(e, file[..k]).Some?
    ensures Pass(e, file[..k + 1]) == Step(e, Pass(e, file[..k]).value, file[k])
    ensures Pass(e, file[..k + 1]) == None ==> Pass(e, file) == None
  {
    assert file[..k + 1][..k] == file[..k];
    if Pass(e, file[..k + 1]) == None {
      FailsEarly(e, file, k + 1);
    }
  }

  /** A pass that fails on the first lines fails on the file. */
  lemma {:induction false} FailsEarly(e: Entry, lines: Lines, k: nat)
    requires k <= |lines| && Pass(e, lines[..k]) == None
    ensures Pass(e, lines) == None
    decreases |lines|
  {
    if k == |lines| {
      assert lines[..k] == lines;
    } else {
      assert lines[..|lines| - 1][..k] == lines[..k];
      FailsEarly(e, lines[..|lines| - 1], k);
    }
  }
}
