/** What adding an old name does to the file, and what its reader then sees. */
module OldNamesLaws {
  import opened Wrappers
  import opened OldNames

  // ---------- the lines an entry adds ----------

  lemma ContentPlain(e: Entry, mode: nat)
    ensures var c := Content(e, mode);
      c != "" && c != IFDEF && c != ELIF && c != ENDIF && !StartsWith(c, HEADER)
  {
    var c := Content(e, mode);
    assert c[..8] == "#define ";
    assert c[0] == '#' && c[1] == 'd';
    assert IFDEF[1] == 'i' && ELIF[1] == 'e' && ENDIF[1] == 'e' && HEADER[0] == '/';
  }

  lemma SectionIsHeader(e: Entry)
    ensures var s := Section(e); StartsWith(s, HEADER) && s != "" && s != IFDEF && s != ELIF && s != ENDIF
  {
    var s := Section(e);
    assert s[..|HEADER|] == HEADER && s[0] == HEADER[0] == '/';
    assert IFDEF[0] == '#' && ELIF[0] == '#' && ENDIF[0] == '#';
  }

  lemma Appended(e: Entry, done: Lines, line: string)
    requires Pass(e, done).Some?
    ensures Pass(e, done + [line]) == Step(e, Pass(e, done).value, line)
  {
    assert (done + [line])[..|done|] == done;
  }

  // ---------- idempotence ----------

  /** The flags no longer matter after the last marker. */
  ghost predicate Alike(st: Scan, u: Scan) {
    st.done == u.done && st.mode == u.mode && (st.mode == 3 || st == u)
  }

  /** A pass that ends with a blank line was in the same state before it. */
  lemma WithoutBlank(e: Entry, st: Scan)
    requires st.done != [] && st.done[|st.done| - 1] == "" && Pass(e, st.done) == Some(st)
    ensures Pass(e, st.done[..|st.done| - 1]) == Some(st.(done := st.done[..|st.done| - 1]))
  {
    var d := st.done[..|st.done| - 1];
    var before := Pass(e, d).value;
    assert st.done == d + [""];
    assert st == before.(done := before.done + [""]);
    assert before.done == st.done[..|st.done| - 1];
  }

  /** Reading back the content line just written sets the flag and nothing else. */
  lemma ContentIsRead(e: Entry, st: Scan, trailing: bool)
    requires Pass(e, st.done) == Some(st) && st.done != [] && (st.mode == 1 || st.mode == 2)
    requires st.sectionAdded && !st.contentAdded
    ensures var d := WithContent(st.done, Content(e, st.mode), trailing);
      Pass(e, d) == Some(Scan(d, st.mode, true, true))
  {
    var c := Content(e, st.mode);
    ContentPlain(e, st.mode);
    var blank := st.done[|st.done| - 1] == "";
    var d := if blank then st.done[..|st.done| - 1] else st.done;
    if blank {
      WithoutBlank(e, st);
      assert d != [] by {
        assert Pass(e, d).value.mode != 0;
      }
    }
    hide Content, Pass;
    Appended(e, d, c);
    if trailing {
      Appended(e, d + [c], "");
      assert d + [c] + [""] == WithContent(st.done, c, trailing);
    } else {
      assert d + [c] == WithContent(st.done, c, trailing);
    }
  }

  /** Reading back a section line that was missing sets its flag. */
  lemma SectionIsRead(e: Entry, st: Scan)
    requires Pass(e, st.done) == Some(st) && st.done != [] && (st.mode == 1 || st.mode == 2)
    requires !st.sectionAdded
    ensures var d := st.done + [Section(e)]; Pass(e, d) == Some(Scan(d, st.mode, true, st.contentAdded))
  {
    SectionIsHeader(e);
    hide Section, Content;
    Appended(e, st.done, Section(e));
  }

  /** Content never goes in without a section. */
  lemma {:induction false} SectionFirst(e: Entry, lines: Lines)
    requires Pass(e, lines).Some?
    ensures var st := Pass(e, lines).value; st.mode <= 3 && (st.contentAdded ==> st.sectionAdded)
  {
    if lines != [] {
      SectionFirst(e, lines[..|lines| - 1]);
      hide WithContent, Content, Section;
    }
  }

  /** What a marker adds is read back as complete. */
  lemma FinishedIsRead(e: Entry, st: Scan)
    requires Pass(e, st.done) == Some(st) && st.done != [] && (st.mode == 1 || st.mode == 2)
    requires st.contentAdded ==> st.sectionAdded
    ensures Pass(e, Finished(e, st)) == Some(Scan(Finished(e, st), st.mode, true, true))
  {
    hide Pass, Content, Section, WithContent;
    if !st.sectionAdded {
      SectionIsRead(e, st);
      ContentIsRead(e, Scan(st.done + [Section(e)], st.mode, true, false), true);
    } else if !st.contentAdded {
      ContentIsRead(e, st, true);
    }
  }

  /** Reading back what one step wrote ends in the same state. */
  lemma StepIsRead(e: Entry, st: Scan, line: string)
    requires Pass(e, st.done) == Some(st) && (st.mode != 0 ==> st.done != [])
    requires st.contentAdded ==> st.sectionAdded
    requires Step(e, st, line).Some?
    ensures var u := Step(e, st, line).value;
      Pass(e, u.done).Some? && Alike(u, Pass(e, u.done).value)
  {
    hide Pass, Content, Section, WithContent, Less;
    var u := Step(e, st, line).value;
    if line == ELIF || line == ENDIF {
      FinishedIsRead(e, st);
      hide Finished;
      Appended(e, Finished(e, st), line);
      FinishedTwice(e, Scan(Finished(e, st), st.mode, true, true));
    } else if u.done == st.done + [line] {
      Appended(e, st.done, line);
    } else if st.sectionAdded {
      ContentIsRead(e, st, StartsWith(line, HEADER));
      Appended(e, WithContent(st.done, Content(e, st.mode), StartsWith(line, HEADER)), line);
    } else {
      SectionIsRead(e, st);
      var v := Scan(st.done + [Section(e)], st.mode, true, false);
      ContentIsRead(e, v, true);
      Appended(e, WithContent(v.done, Content(e, st.mode), true), line);
    }
  }

  lemma FinishedTwice(e: Entry, st: Scan)
    requires st.done != [] && st.sectionAdded && st.contentAdded
    ensures Finished(e, st) == st.done
  {
  }

  /** The file the pass writes is one that the pass leaves alone. */
  lemma {:induction false} PassIsRead(e: Entry, lines: Lines)
    requires Pass(e, lines).Some?
    ensures var st := Pass(e, lines).value; Pass(e, st.done).Some? && Alike(st, Pass(e, st.done).value)
  {
    hide Step, Alike;
    if lines == [] {
      AlikeItself(START);
    } else {
      var before := Pass(e, lines[..|lines| - 1]).value;
      PassIsRead(e, lines[..|lines| - 1]);
      SectionFirst(e, lines[..|lines| - 1]);
      ReadOn(e, before, lines[|lines| - 1]);
    }
  }

  lemma AlikeItself(st: Scan)
    ensures Alike(st, st)
  {
  }

  /** After the last marker the flags differ, but then every line is just copied. */
  lemma ReadOn(e: Entry, st: Scan, line: string)
    requires Pass(e, st.done).Some? && Alike(st, Pass(e, st.done).value)
    requires st.mode <= 3 && (st.mode != 0 ==> st.done != []) && (st.contentAdded ==> st.sectionAdded)
    requires Step(e, st, line).Some?
    ensures var u := Step(e, st, line).value; Pass(e, u.done).Some? && Alike(u, Pass(e, u.done).value)
  {
    if st.mode == 3 {
      hide Pass, InPart, Finished;
      Appended(e, st.done, line);
    } else {
      hide Pass, Step;
      StepIsRead(e, st, line);
    }
  }

  /** Adding the same entry a second time changes nothing, for every file that the first addition
      accepts. */
  lemma Idempotent(e: Entry, lines: Lines)
    requires Pass(e, lines).Some?
    ensures var once := Pass(e, lines).value.done;
      Pass(e, once).Some? && Pass(e, once).value.done == once
  {
    hide Pass;
    PassIsRead(e, lines);
  }

  // ---------- nothing is lost ----------

  function NonBlank(lines: Lines): Lines {
    if lines == [] then []
    else NonBlank(lines[..|lines| - 1]) + if lines[|lines| - 1] == "" then [] else [lines[|lines| - 1]]
  }

  /** `a` is `b` with some lines left out. */
  ghost predicate Within(a: Lines, b: Lines) {
    a == [] || (b != [] &&
      ((a[|a| - 1] == b[|b| - 1] && Within(a[..|a| - 1], b[..|b| - 1])) || Within(a, b[..|b| - 1])))
  }

  lemma WithinGrows(a: Lines, b: Lines, x: string)
    requires Within(a, b)
    ensures Within(a, b + [x]) && Within(a + [x], b + [x])
  {
    assert (b + [x])[..|b|] == b && (a + [x])[..|a|] == a;
  }

  lemma NonBlankAppend(lines: Lines, x: string)
    ensures NonBlank(lines + [x]) == NonBlank(lines) + if x == "" then [] else [x]
  {
    assert (lines + [x])[..|lines|] == lines;
  }

  /** A blank line may be overwritten; nothing else is. */
  lemma ContentAdds(done: Lines, content: string, trailing: bool)
    requires done != [] && content != ""
    ensures NonBlank(WithContent(done, content, trailing)) == NonBlank(done) + [content]
  {
    var d := if done[|done| - 1] == "" then done[..|done| - 1] else done;
    NonBlankAppend(d, content);
    NonBlankAppend(d + [content], "");
    if trailing {
      assert d + [content] + [""] == WithContent(done, content, true);
    } else {
      assert d + [content] == WithContent(done, content, false);
    }
  }

  /** The entry's own lines that a step adds before the line itself. */
  function Added(e: Entry, st: Scan, line: string): Lines {
    var both := [Section(e), Content(e, st.mode)];
    if line == ELIF || line == ENDIF then
      if !st.sectionAdded then both else if !st.contentAdded then both[1..] else []
    else if line == IFDEF || line == "" || (st.mode != 1 && st.mode != 2) then []
    else if StartsWith(line, HEADER) then
      if st.sectionAdded then (if st.contentAdded then [] else both[1..])
      else if line != Section(e) && Less(Section(e), line) then both
      else []
    else if st.sectionAdded && !st.contentAdded
      && Content(e, st.mode) != line && Less(Content(e, st.mode), line) then both[1..]
    else []
  }

  /** The section line, if it is missing, and the content line. */
  lemma BothAdd(e: Entry, st: Scan, trailing: bool)
    requires st.done != []
    ensures var s := if st.sectionAdded then st.done else st.done + [Section(e)];
      NonBlank(WithContent(s, Content(e, st.mode), trailing))
      == NonBlank(st.done) + if st.sectionAdded then [Content(e, st.mode)] else [Section(e), Content(e, st.mode)]
  {
    ContentPlain(e, st.mode);
    SectionIsHeader(e);
    hide NonBlank, WithContent, Content, Section;
    NonBlankAppend(st.done, Section(e));
    ContentAdds(if st.sectionAdded then st.done else st.done + [Section(e)], Content(e, st.mode), trailing);
    assert NonBlank(st.done) + [Section(e)] + [Content(e, st.mode)]
      == NonBlank(st.done) + [Section(e), Content(e, st.mode)];
  }

  lemma StepAdds(e: Entry, st: Scan, line: string)
    requires st.mode != 0 ==> st.done != []
    requires Step(e, st, line).Some?
    requires st.mode <= 3 && (st.contentAdded ==> st.sectionAdded)
    ensures NonBlank(Step(e, st, line).value.done)
      == NonBlank(st.done) + Added(e, st, line) + if line == "" then [] else [line]
  {
    hide NonBlank, Less, WithContent, Content, Section, StartsWith;
    var u := Step(e, st, line).value;
    if Added(e, st, line) == [] {
      assert NonBlank(st.done) + [] == NonBlank(st.done);
      NonBlankAppend(st.done, line);
    } else {
      var trailing := line == ELIF || line == ENDIF || StartsWith(line, HEADER);
      BothAdd(e, st, trailing);
      NonBlankAppend(u.done[..|u.done| - 1], line);
      assert u.done == u.done[..|u.done| - 1] + [line];
    }
  }

  /** Every line that is not blank is still there, in the same order. */
  lemma {:induction false} KeepsLines(e: Entry, lines: Lines)
    requires Pass(e, lines).Some?
    ensures Within(NonBlank(lines), NonBlank(Pass(e, lines).value.done))
  {
    hide Step, Added, Within, NonBlank;
    if lines != [] {
      var before, line := lines[..|lines| - 1], lines[|lines| - 1];
      KeepsLines(e, before);
      SectionFirst(e, before);
      var st := Pass(e, before).value;
      StepAdds(e, st, line);
      assert lines == before + [line];
      NonBlankAppend(before, line);
      WithinMore(NonBlank(before), NonBlank(st.done), Added(e, st, line));
      var a, b := NonBlank(before), NonBlank(st.done) + Added(e, st, line);
      WithinGrows(a, b, line);
      assert a + [] == a && b + [] == b;
    } else {
      NothingWithin();
    }
  }

  lemma NothingWithin()
    ensures Within(NonBlank([]), NonBlank([]))
  {
  }

  lemma {:induction false} WithinMore(a: Lines, b: Lines, more: Lines)
    requires Within(a, b)
    ensures Within(a, b + more)
  {
    hide Within;
    if more == [] {
      assert b + more == b;
    } else {
      var n := |more| - 1;
      WithinMore(a, b, more[..n]);
      WithinGrows(a, b + more[..n], more[n]);
      assert b + more == b + more[..n] + [more[n]];
    }
  }

  function Flag(b: bool): nat {
    if b then 1 else 0
  }

  /** How many lines a pass in this state may have added. */
  function Budget(st: Scan): nat {
    if st.mode == 0 then 0
    else if st.mode == 1 then Flag(st.sectionAdded) + Flag(st.contentAdded)
    else if st.mode == 2 then 2 + Flag(st.sectionAdded) + Flag(st.contentAdded)
    else 4
  }

  /** What the file has once a part is complete. */
  ghost predicate Complete(e: Entry, st: Scan, lines: Lines) {
    && (st.sectionAdded || st.mode >= 2 ==> Section(e) in lines)
    && (st.mode == 1 && st.contentAdded ==> Content(e, 1) in lines)
    && (st.mode >= 2 ==> Content(e, 1) in lines)
    && (st.mode == 2 && st.contentAdded ==> Content(e, 2) in lines)
    && (st.mode == 3 ==> Content(e, 2) in lines)
  }

  lemma StepCompletes(e: Entry, st: Scan, line: string, before: Lines)
    requires st.mode != 0 ==> st.done != []
    requires Step(e, st, line).Some? && st.mode <= 3 && (st.contentAdded ==> st.sectionAdded)
    requires Complete(e, st, before)
    ensures var u := Step(e, st, line).value;
      && Complete(e, u, before + Added(e, st, line) + if line == "" then [] else [line])
      && |Added(e, st, line)| + Budget(st) <= Budget(u)
  {
    SectionIsHeader(e);
    ContentPlain(e, 1);
    ContentPlain(e, 2);
    hide Less, Section, WithContent, StartsWith;
    assert st.mode == 3 ==> Content(e, st.mode) == Content(e, 2);
    hide Content;
  }

  /** The only lines added are the section line and the two definitions, at most one of each per part;
      a file with all its markers then has all three. */
  lemma {:induction false} AddsItsOwnLines(e: Entry, lines: Lines)
    requires Pass(e, lines).Some?
    ensures var st := Pass(e, lines).value;
      && (forall x :: x in NonBlank(st.done) ==>
            x in NonBlank(lines) || x in [Section(e), Content(e, 1), Content(e, 2)])
      && |NonBlank(st.done)| <= |NonBlank(lines)| + Budget(st)
      && Complete(e, st, NonBlank(st.done))
  {
    hide Step, NonBlank, Complete, Budget;
    if lines == [] {
      assert Complete(e, START, NonBlank([])) && |NonBlank([])| == 0 by {
        EmptyComplete(e);
      }
    } else {
      var before, line := lines[..|lines| - 1], lines[|lines| - 1];
      AddsItsOwnLines(e, before);
      SectionFirst(e, before);
      var st := Pass(e, before).value;
      StepAdds(e, st, line);
      StepCompletes(e, st, line, NonBlank(st.done));
      assert lines == before + [line];
      NonBlankAppend(before, line);
      AddedIsOwn(e, st, line);
    }
  }

  lemma EmptyComplete(e: Entry)
    ensures Complete(e, START, NonBlank([])) && |NonBlank([])| == 0
  {
  }

  lemma AddedIsOwn(e: Entry, st: Scan, line: string)
    ensures forall x :: x in Added(e, st, line) ==> x in [Section(e), Content(e, 1), Content(e, 2)]
  {
    hide Less, Section, StartsWith;
  }
}
