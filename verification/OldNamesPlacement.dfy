/** In a sorted list of old names, which defines decide whether the reader sees a new one. */
module OldNamesPlacement {
  import opened Wrappers
  import opened OldNames
  import opened OldNamesOrder
  import opened OldNamesReader
  import L = OldNamesLaws

  lemma {:induction false} LessTransitive(a: string, b: string, c: string)
    requires Less(a, b) && Less(b, c)
    ensures Less(a, c)
  {
    if a != "" && a[0] == b[0] && b[0] == c[0] {
      LessTransitive(a[1..], b[1..], c[1..]);
    }
  }

  lemma {:induction false} LessOneWay(a: string, b: string)
    ensures !(Less(a, b) && Less(b, a)) && !Less(a, a)
  {
    if a != "" && b != "" && a[0] == b[0] {
      LessOneWay(a[1..], b[1..]);
    }
    if a != "" {
      LessOneWay(a[1..], a[1..]);
    }
  }

  /** A line in a later section than the entry's, or in the same section with a greater line. */
  predicate Later(e: Entry, section: Option<string>, line: string) {
    && section.Some?
    && (Less(Section(e), section.value) || (section.value == Section(e) && Less(Content(e, 1), line)))
  }

  /** The defines of the first part that stand later than the entry would, in order. */
  function LaterDefines(py: Python, e: Entry, lines: Lines): seq<Pair>
    requires Sorted(lines).Some? && Read(py, lines).Some?
  {
    if lines == [] then []
    else
      var n := |lines| - 1;
      LaterDefines(py, e, lines[..n])
      + LaterIn(py, e, Sorted(lines[..n]).value.section, Read(py, lines[..n]).value, lines[n])
  }

  /** What one line adds to them. */
  function LaterIn(py: Python, e: Entry, section: Option<string>, r: Reading, line: string): seq<Pair>
    requires ReadStep(py, r, line).Some?
  {
    if Later(e, section, line) then ReadStep(py, r, line).value.pairs[|r.pairs|..] else []
  }

  /** Once the content is placed, the order check stands at or behind it. */
  ghost predicate Past(e: Entry, st: Scan, o: Order) {
    st.mode == 1 && st.contentAdded ==>
      && o.section.Some?
      && (|| Less(Section(e), o.section.value)
          || (o.section.value == Section(e) && o.last.Some?
              && (o.last.value == Content(e, 1) || Less(Content(e, 1), o.last.value))))
  }

  /** The defines behind the place of the entry are the later ones. */
  ghost predicate Behind(k: Option<nat>, pairs: seq<Pair>, later: seq<Pair>) {
    match k
    case None => later == []
    case Some(n) => n <= |pairs| && pairs[n..] == later
  }

  lemma PastStep(e: Entry, st: Scan, line: string, o: Order)
    requires (st.mode != 0 ==> st.done != []) && (st.contentAdded ==> st.sectionAdded)
    requires InStep(e, st, o) && Past(e, st, o)
    requires Step(e, st, line).Some? && Check(o, line).Some?
    ensures Past(e, Step(e, st, line).value, Check(o, line).value)
  {
    if o.section.Some? && Less(Section(e), o.section.value) && Less(o.section.value, line) {
      LessTransitive(Section(e), o.section.value, line);
    }
    if o.last.Some? && Less(Content(e, 1), o.last.value) && Less(o.last.value, line) {
      LessTransitive(Content(e, 1), o.last.value, line);
    }
    L.ContentPlain(e, 1);
    L.SectionIsHeader(e);
    hide Less, Content, Section, WithContent, Finished, StartsWith;
  }

  /** Before the content is placed no define is later; after that every one is. */
  lemma LaterIffPlaced(e: Entry, st: Scan, line: string, o: Order)
    requires (st.mode != 0 ==> st.done != []) && (st.contentAdded ==> st.sectionAdded)
    requires InStep(e, st, o) && Past(e, st, o) && st.mode == 1 && StartsWith(line, DEFINE)
    requires Step(e, st, line).Some? && Check(o, line).Some?
    ensures var v := Step(e, st, line).value;
      && v.mode == 1
      && (Later(e, o.section, line) <==> (v.contentAdded && line != Content(e, 1)) || st.contentAdded)
  {
    var s, c := Section(e), Content(e, 1);
    PlainDefine(line);
    LessOneWay(c, line);
    LessOneWay(line, line);
    if o.section.Some? {
      LessOneWay(s, o.section.value);
    }
    if o.last.Some? && Less(c, o.last.value) && Less(o.last.value, line) {
      LessTransitive(c, o.last.value, line);
    }
    LessOneWay(s, s);
    hide Less, Content, Section, WithContent, Finished, StartsWith;
  }

  lemma BehindStep(py: Python, e: Entry, st: Scan, line: string, o: Order, r: Reading, k: Option<nat>, later: seq<Pair>)
    requires (st.mode != 0 ==> st.done != []) && (st.contentAdded ==> st.sectionAdded)
    requires InStep(e, st, o) && Past(e, st, o) && r.mode == st.mode && Behind(k, r.pairs, later)
    requires k.Some? <==> st.mode >= 2 || (st.mode == 1 && st.contentAdded)
    requires Step(e, st, line).Some? && Check(o, line).Some? && ReadStep(py, r, line).Some?
    ensures Behind(NextPlace(py, e, st, line, r, k), ReadStep(py, r, line).value.pairs,
                   later + LaterIn(py, e, o.section, r, line))
  {
    var r' := ReadStep(py, r, line).value;
    if r.mode == 1 && StartsWith(line, DEFINE) {
      PlainDefine(line);
      LaterIffPlaced(e, st, line, o);
      hide Step, Later, Words, Check, Content;
      assert r'.pairs == r.pairs + [r'.pairs[|r.pairs|]];
    } else {
      hide Step, Later, Words, Check, Content;
      assert r'.pairs == r.pairs;
    }
  }

  lemma {:induction false} BehindIsLater(py: Python, e: Entry, lines: Lines)
    requires Readable(py, e) && Pass(e, lines).Some? && Read(py, lines).Some? && Sorted(lines).Some?
    ensures Past(e, Pass(e, lines).value, Sorted(lines).value)
    ensures Behind(Place(py, e, lines), Read(py, lines).value.pairs, LaterDefines(py, e, lines))
  {
    hide Step, Check, ReadStep, Past, Behind, InStep, Readable, Follows, NextPlace, LaterIn;
    if lines == [] {
      NothingBehind(e);
    } else {
      var before, line := lines[..|lines| - 1], lines[|lines| - 1];
      var st, o, r := Pass(e, before).value, Sorted(before).value, Read(py, before).value;
      BehindIsLater(py, e, before);
      L.SectionFirst(e, before);
      StaysSorted(e, before);
      PassFollows(py, e, before);
      PlaceKnown(e, st, r, Read(py, st.done).value, Place(py, e, before));
      PastStep(e, st, line, o);
      BehindStep(py, e, st, line, o, r, Place(py, e, before), LaterDefines(py, e, before));
    }
  }

  lemma PlaceKnown(e: Entry, st: Scan, r: Reading, u: Reading, k: Option<nat>)
    requires Follows(e, st, r, u, k)
    ensures r.mode == st.mode && (k.Some? <==> st.mode >= 2 || (st.mode == 1 && st.contentAdded))
  {
  }

  lemma NothingBehind(e: Entry)
    ensures Past(e, START, Order(0, None, None)) && Behind(None, [], [])
  {
  }

  /** After an addition to a sorted file with its markers, the reader maps the old name to the new one
      if and only if the defines in later sections, or greater in the same section, give the old name
      no other meaning. */
  lemma SortedReaderSeesTheNewName(py: Python, e: Entry, lines: Lines)
    requires Readable(py, e) && Pass(e, lines).Some? && Read(py, lines).Some? && Sorted(lines).Some?
    requires Read(py, lines).value.mode >= 2
    ensures var u := Read(py, Pass(e, lines).value.done);
      var later := MapOf(LaterDefines(py, e, lines));
      && u.Some? && e.oldName in MapOf(u.value.pairs)
      && (MapOf(u.value.pairs)[e.oldName] == e.newName <==>
          (e.oldName in later ==> later[e.oldName] == e.newName))
  {
    hide Pass, Read, Sorted, Place, LaterDefines, MapOf, Readable;
    BehindIsLater(py, e, lines);
    ReaderSeesTheNewName(py, e, lines);
  }
}
