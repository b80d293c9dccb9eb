/** Adding an old name to a sorted list of old names leaves it sorted. */
module OldNamesOrder {
  import opened Wrappers
  import opened OldNames
  import L = OldNamesLaws

  lemma {:induction false} Trichotomy(a: string, b: string)
    ensures Less(a, b) || Less(b, a) || a == b
  {
    if a != "" && b != "" && a[0] == b[0] {
      Trichotomy(a[1..], b[1..]);
      assert a == [a[0]] + a[1..] && b == [b[0]] + b[1..];
    }
  }

  /** Where a reader that checks the order is: the part, the section in it, the last line of that. */
  datatype Order = Order(mode: nat, section: Option<string>, last: Option<string>)

  predicate Before(a: Option<string>, b: string) {
    a == None || Less(a.value, b)
  }

  /** Headers must rise within a part, and lines within a section; None is out of order. Lines before
      the first section of a part, blank lines and lines outside the parts are free. */
  function Check(o: Order, line: string): Option<Order> {
    if line == IFDEF then Some(Order(1, None, None))
    else if line == ELIF then Some(Order(2, None, None))
    else if line == ENDIF then Some(Order(3, None, None))
    else if line == "" || (o.mode != 1 && o.mode != 2) then Some(o)
    else if StartsWith(line, HEADER) then
      if Before(o.section, line) then Some(Order(o.mode, Some(line), None)) else None
    else if o.section == None then Some(o)
    else if Before(o.last, line) then Some(o.(last := Some(line)))
    else None
  }

  function Sorted(lines: Lines): Option<Order> {
    if lines == [] then Some(Order(0, None, None))
    else
      var o := Sorted(lines[..|lines| - 1]);
      if o == None then None else Check(o.value, lines[|lines| - 1])
  }

  lemma SortedAppend(lines: Lines, line: string)
    requires Sorted(lines).Some?
    ensures Sorted(lines + [line]) == Check(Sorted(lines).value, line)
  {
    assert (lines + [line])[..|lines|] == lines;
  }

  lemma SortedBlank(lines: Lines)
    requires lines != [] && lines[|lines| - 1] == ""
    ensures Sorted(lines[..|lines| - 1]) == Sorted(lines)
  {
    hide Check;
    if Sorted(lines[..|lines| - 1]).Some? {
      BlankIsFree(Sorted(lines[..|lines| - 1]).value);
    }
  }

  lemma BlankIsFree(o: Order)
    ensures Check(o, "") == Some(o)
  {
  }

  /** The pass and the order check go hand in hand. */
  ghost predicate InStep(e: Entry, st: Scan, o: Order) {
    && o.mode == st.mode
    && ((st.mode == 1 || st.mode == 2) && !st.sectionAdded ==> Before(o.section, Section(e)))
    && ((st.mode == 1 || st.mode == 2) && st.sectionAdded && !st.contentAdded ==>
          o.section == Some(Section(e)) && Before(o.last, Content(e, st.mode)))
  }

  /** Writing the content line in its section keeps the order. */
  lemma ContentSorts(e: Entry, done: Lines, o: Order, trailing: bool)
    requires done != [] && Sorted(done) == Some(o) && (o.mode == 1 || o.mode == 2)
    requires o.section.Some? && Before(o.last, Content(e, o.mode))
    ensures Sorted(WithContent(done, Content(e, o.mode), trailing)) == Some(o.(last := Some(Content(e, o.mode))))
  {
    var c := Content(e, o.mode);
    L.ContentPlain(e, o.mode);
    hide Content, Less;
    var d := if done[|done| - 1] == "" then done[..|done| - 1] else done;
    if done[|done| - 1] == "" {
      SortedBlank(done);
    }
    SortedAppend(d, c);
    if trailing {
      SortedAppend(d + [c], "");
      assert d + [c] + [""] == WithContent(done, c, true);
    } else {
      assert d + [c] == WithContent(done, c, false);
    }
  }

  lemma SectionSorts(e: Entry, done: Lines, o: Order)
    requires Sorted(done) == Some(o) && (o.mode == 1 || o.mode == 2) && Before(o.section, Section(e))
    ensures Sorted(done + [Section(e)]) == Some(Order(o.mode, Some(Section(e)), None))
  {
    L.SectionIsHeader(e);
    hide Section, Less;
    SortedAppend(done, Section(e));
  }

  /** The entry's lines before a closing marker. */
  lemma FinishedSorts(e: Entry, st: Scan, o: Order)
    requires st.done != [] && Sorted(st.done) == Some(o) && InStep(e, st, o) && (st.mode == 1 || st.mode == 2)
    requires st.contentAdded ==> st.sectionAdded
    ensures Sorted(Finished(e, st)).Some?
  {
    hide Section, Content, Less, WithContent, Sorted;
    if !st.sectionAdded {
      SectionSorts(e, st.done, o);
      ContentSorts(e, st.done + [Section(e)], Order(o.mode, Some(Section(e)), None), true);
    } else if !st.contentAdded {
      ContentSorts(e, st.done, o, true);
    }
  }

  lemma StepSorts(e: Entry, st: Scan, line: string, o: Order)
    requires (st.mode != 0 ==> st.done != []) && (st.contentAdded ==> st.sectionAdded)
    requires Sorted(st.done) == Some(o) && InStep(e, st, o)
    requires Step(e, st, line).Some? && Check(o, line).Some?
    ensures var u := Step(e, st, line).value;
      Sorted(u.done) == Check(o, line) && InStep(e, u, Check(o, line).value)
  {
    Trichotomy(line, Section(e));
    Trichotomy(line, Content(e, st.mode));
    hide Section, Content, Less, WithContent, Sorted, StartsWith;
    if line == ELIF || line == ENDIF {
      FinishedSorts(e, st, o);
      SortedAppend(Finished(e, st), line);
    } else if L.Added(e, st, line) == [] {
      SortedAppend(st.done, line);
    } else {
      var s, p := st.done, o;
      if !st.sectionAdded {
        SectionSorts(e, st.done, o);
        s, p := st.done + [Section(e)], Order(o.mode, Some(Section(e)), None);
      }
      var trailing := StartsWith(line, HEADER);
      ContentSorts(e, s, p, trailing);
      SortedAppend(WithContent(s, Content(e, st.mode), trailing), line);
    }
  }

  /** A file whose sections and lines are in order is so after an addition. */
  lemma {:induction false} StaysSorted(e: Entry, lines: Lines)
    requires Pass(e, lines).Some? && Sorted(lines).Some?
    ensures var st := Pass(e, lines).value;
      Sorted(st.done) == Sorted(lines) && InStep(e, st, Sorted(lines).value)
  {
    hide Step, Check, InStep;
    if lines == [] {
      StartInStep(e);
    } else {
      var before, line := lines[..|lines| - 1], lines[|lines| - 1];
      StaysSorted(e, before);
      L.SectionFirst(e, before);
      StepSorts(e, Pass(e, before).value, line, Sorted(before).value);
    }
  }

  lemma StartInStep(e: Entry)
    ensures InStep(e, START, Order(0, None, None))
  {
  }
}
