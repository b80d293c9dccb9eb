/** build-scripts/rename_symbols.py: reading the list of old names back. */
module OldNamesReader {
  import opened Wrappers
  import opened OldNames
  import L = OldNamesLaws

  const DEFINE := "#define "

  type Pair = (string, string)

  /** The characters that separate words. */
  datatype Python = Python(isSpace: char -> bool)

  // ---------- words ----------

  /** The word at the front of `s`. */
  function Word(py: Python, s: string): (w: string)
    ensures |w| <= |s| && w == s[..|w|]
    ensures forall i :: 0 <= i < |w| ==> !py.isSpace(w[i])
    ensures |w| == |s| || py.isSpace(s[|w|])
  {
    if s == "" || py.isSpace(s[0]) then "" else [s[0]] + Word(py, s[1..])
  }

  /** str.split without arguments. */
  function Words(py: Python, s: string): seq<string> {
    if s == "" then []
    else if py.isSpace(s[0]) then Words(py, s[1..])
    else
      var w := Word(py, s);
      [w] + Words(py, s[|w|..])
  }

  ghost predicate IsWord(py: Python, w: string) {
    w != "" && forall i :: 0 <= i < |w| ==> !py.isSpace(w[i])
  }

  lemma {:induction false} WordIs(py: Python, w: string, rest: string)
    requires forall i :: 0 <= i < |w| ==> !py.isSpace(w[i])
    requires rest == "" || py.isSpace(rest[0])
    ensures Word(py, w + rest) == w
  {
    if w == "" {
      assert w + rest == rest;
    } else {
      assert (w + rest)[1..] == w[1..] + rest;
      WordIs(py, w[1..], rest);
    }
  }

  lemma FirstWord(py: Python, w: string, rest: string)
    requires IsWord(py, w) && (rest == "" || py.isSpace(rest[0]))
    ensures Words(py, w + rest) == [w] + Words(py, rest)
  {
    WordIs(py, w, rest);
    assert (w + rest)[|w|..] == rest;
  }

  // ---------- reading ----------

  /** What the reader knows: the mode and the pairs it has met. */
  datatype Reading = Reading(mode: nat, pairs: seq<Pair>)

  /** One pass of the loop; None is an exception. */
  function ReadStep(py: Python, r: Reading, line: string): Option<Reading> {
    if line == IFDEF then (if r.mode == 0 then Some(r.(mode := 1)) else None)
    else if line == ELIF then (if r.mode == 1 then Some(r.(mode := 2)) else None)
    else if line == ENDIF then (if r.mode == 2 then Some(r.(mode := 3)) else None)
    else if r.mode == 1 && StartsWith(line, DEFINE) then
      var words := Words(py, line);
      if |words| < 3 then None else Some(r.(pairs := r.pairs + [(words[1], words[2])]))
    else Some(r)
  }

  function Read(py: Python, lines: Lines): Option<Reading> {
    if lines == [] then Some(Reading(0, []))
    else
      var r := Read(py, lines[..|lines| - 1]);
      if r == None then None else ReadStep(py, r.value, lines[|lines| - 1])
  }

  /** The dictionary the pairs build: later pairs win. */
  function MapOf(pairs: seq<Pair>): map<string, string> {
    if pairs == [] then map[]
    else
      var last := pairs[|pairs| - 1];
      MapOf(pairs[..|pairs| - 1])[last.0 := last.1]
  }

  lemma {:induction false} ReadFails(py: Python, lines: Lines, k: nat)
    requires k <= |lines| && Read(py, lines[..k]) == None
    ensures Read(py, lines) == None
    decreases |lines|
  {
    if k == |lines| {
      assert lines[..k] == lines;
    } else {
      assert lines[..|lines| - 1][..k] == lines[..k];
      ReadFails(py, lines[..|lines| - 1], k);
    }
  }

  /** One more line of the file that the reader gets through. */
  lemma ReadUpTo(py: Python, lines: Lines, k: nat)
    requires k < |lines| && Read(py, lines[..k]).Some?
    ensures Read(py, lines[..k + 1]) == ReadStep(py, Read(py, lines[..k]).value, lines[k])
    ensures Read(py, lines[..k + 1]) == None ==> Read(py, lines) == None
  {
    assert lines[..k + 1][..k] == lines[..k];
    if Read(py, lines[..k + 1]) == None {
      ReadFails(py, lines, k + 1);
    }
  }

  lemma MapAppend(pairs: seq<Pair>, x: Pair)
    ensures MapOf(pairs + [x]) == MapOf(pairs)[x.0 := x.1]
  {
    assert (pairs + [x])[..|pairs|] == pairs;
  }

  // ---------- what is read, by the lines alone ----------

  /** Line `k` starts like a define and stands between the first two markers. */
  predicate FirstPartDefine(lines: Lines, k: int) {
    0 <= k < |lines| && Markers(lines[..k]) == [IFDEF] && StartsWith(lines[k], DEFINE)
  }

  lemma FirstPartPrefix(lines: Lines, n: nat, k: int)
    requires n <= |lines|
    ensures FirstPartDefine(lines[..n], k) <==> k < n && FirstPartDefine(lines, k)
    ensures FirstPartDefine(lines, k) ==> 0 <= k < |lines|
  {
    if 0 <= k < n {
      assert lines[..n][..k] == lines[..k];
    }
  }

  /** One more line that is read. */
  lemma ReadStepIs(py: Python, r: Reading, ms: Lines, line: string)
    requires ms <= MARKERS && r.mode == |ms|
    ensures var define := ms == [IFDEF] && StartsWith(line, DEFINE);
      var ms' := ms + MarkerOf(line);
      var r' := ReadStep(py, r, line);
      && (r'.Some? <==> ms' <= MARKERS && (define ==> |Words(py, line)| >= 3))
      && (r'.Some? ==>
            && r'.value.mode == |ms'|
            && r'.value.pairs == r.pairs + if define then [(Words(py, line)[1], Words(py, line)[2])] else [])
  {
    MarkersDiffer();
    NextMarker(ms, line);
    if StartsWith(line, DEFINE) {
      PlainDefine(line);
    }
    assert r.mode == 1 <==> ms == [IFDEF] by {
      assert |ms| == 1 ==> ms[0] == MARKERS[0];
    }
    hide Words, StartsWith;
  }

  /** Every define of the first part has a name and a meaning. */
  ghost predicate DefinesComplete(py: Python, lines: Lines) {
    forall k :: FirstPartDefine(lines, k) ==> |Words(py, lines[k])| >= 3
  }

  lemma CompleteGrows(py: Python, lines: Lines)
    requires lines != []
    ensures var n := |lines| - 1;
      DefinesComplete(py, lines) <==>
        && DefinesComplete(py, lines[..n])
        && (Markers(lines[..n]) == [IFDEF] && StartsWith(lines[n], DEFINE) ==> |Words(py, lines[n])| >= 3)
  {
    var n := |lines| - 1;
    hide FirstPartDefine, Words, Markers, StartsWith;
    LastOne(lines);
    forall k
      ensures FirstPartDefine(lines[..n], k) <==> k < n && FirstPartDefine(lines, k)
      ensures FirstPartDefine(lines, k) ==> 0 <= k <= n
    {
      FirstPartPrefix(lines, n, k);
    }
  }

  /** The reader gets through a file if and only if its markers come in order and every define between
      the first two has a name and a meaning. */
  lemma {:induction false} ReadsMarkersInOrder(py: Python, lines: Lines)
    ensures Read(py, lines).Some? <==> Markers(lines) <= MARKERS && DefinesComplete(py, lines)
    ensures Read(py, lines).Some? ==> Read(py, lines).value.mode == |Markers(lines)|
  {
    hide ReadStep, Words, StartsWith, MarkerOf, DefinesComplete;
    if lines != [] {
      var n := |lines| - 1;
      ReadsMarkersInOrder(py, lines[..n]);
      CompleteGrows(py, lines);
      if Read(py, lines[..n]).Some? {
        ReadStepIs(py, Read(py, lines[..n]).value, Markers(lines[..n]), lines[n]);
      } else if Markers(lines) <= MARKERS {
        MarkersCut(lines, MARKERS);
      }
    } else {
      NothingRead(py);
    }
  }

  lemma NothingRead(py: Python)
    ensures Read(py, []) == Some(Reading(0, [])) && Markers([]) == [] && DefinesComplete(py, [])
  {
  }

  /** Line `k` defines `name`, and no later line of the first part does. */
  predicate LastDefine(py: Python, lines: Lines, k: int, name: string) {
    && Defines(py, lines, k, name)
    && forall j :: k < j < |lines| ==> !Defines(py, lines, j, name)
  }

  predicate Defines(py: Python, lines: Lines, k: int, name: string) {
    FirstPartDefine(lines, k) && |Words(py, lines[k])| >= 3 && Words(py, lines[k])[1] == name
  }

  /** What the dictionary says of a name: the meaning in the last line that defines it. */
  ghost predicate MeansLast(py: Python, lines: Lines, m: map<string, string>, name: string) {
    && (name in m ==> exists k :: LastDefine(py, lines, k, name))
    && forall k :: LastDefine(py, lines, k, name) ==> name in m && m[name] == Words(py, lines[k])[2]
  }

  /** One more line. */
  lemma MeansLastStep(py: Python, lines: Lines, m: map<string, string>, name: string)
    requires lines != [] && MeansLast(py, lines[..|lines| - 1], m, name)
    requires FirstPartDefine(lines, |lines| - 1) ==> |Words(py, lines[|lines| - 1])| >= 3
    ensures var words := Words(py, lines[|lines| - 1]);
      MeansLast(py, lines, if FirstPartDefine(lines, |lines| - 1) then m[words[1] := words[2]] else m, name)
  {
    var n := |lines| - 1;
    var now := Defines(py, lines, n, name);
    assert now <==> FirstPartDefine(lines, n) && Words(py, lines[n])[1] == name;
    hide Words, FirstPartDefine, Defines;
    forall k
      ensures LastDefine(py, lines, k, name) <==> if now then k == n else LastDefine(py, lines[..n], k, name)
      ensures LastDefine(py, lines[..n], k, name) ==> 0 <= k < n && lines[..n][k] == lines[k]
    {
      LastDefineGrows(py, lines, k, name);
    }
    hide LastDefine;
    if now {
      assert LastDefine(py, lines, n, name);
    }
  }

  lemma {:induction false} ReadMeansLast(py: Python, lines: Lines, name: string)
    requires Read(py, lines).Some?
    ensures MeansLast(py, lines, MapOf(Read(py, lines).value.pairs), name)
  {
    hide ReadStep, Words, FirstPartDefine, MeansLast, DefinesComplete;
    if lines != [] {
      var n := |lines| - 1;
      var r := Read(py, lines[..n]).value;
      ReadMeansLast(py, lines[..n], name);
      ReadsMarkersInOrder(py, lines[..n]);
      ReadStepIs(py, r, Markers(lines[..n]), lines[n]);
      LastOne(lines);
      MeansLastStep(py, lines, MapOf(r.pairs), name);
      if FirstPartDefine(lines, n) {
        MapAppend(r.pairs, (Words(py, lines[n])[1], Words(py, lines[n])[2]));
      } else {
        assert r.pairs + [] == r.pairs;
      }
    } else {
      NothingDefined(py, name);
    }
  }

  lemma LastDefineGrows(py: Python, lines: Lines, k: int, name: string)
    requires lines != []
    ensures var n := |lines| - 1;
      LastDefine(py, lines, k, name) <==>
        if Defines(py, lines, n, name) then k == n else LastDefine(py, lines[..n], k, name)
    ensures LastDefine(py, lines[..|lines| - 1], k, name) ==> 0 <= k < |lines| - 1
  {
    var n := |lines| - 1;
    hide FirstPartDefine, Words, Markers, StartsWith;
    forall j
      ensures Defines(py, lines[..n], j, name) <==> j < n && Defines(py, lines, j, name)
      ensures Defines(py, lines, j, name) ==> 0 <= j <= n
    {
      FirstPartPrefix(lines, n, j);
    }
  }

  lemma LastOne(lines: Lines)
    requires lines != []
    ensures var n := |lines| - 1;
      FirstPartDefine(lines, n) <==> Markers(lines[..n]) == [IFDEF] && StartsWith(lines[n], DEFINE)
  {
  }

  lemma NothingDefined(py: Python, name: string)
    ensures MeansLast(py, [], map[], name)
  {
  }

  /** get_all_replacements. */
  method GetAllReplacements(py: Python, lines: Lines) returns (ok: bool, replacements: map<string, string>)
    ensures ok <==> Markers(lines) <= MARKERS && DefinesComplete(py, lines)
    ensures ok ==> forall name :: MeansLast(py, lines, replacements, name)
    ensures ok == Read(py, lines).Some?
    ensures ok ==> replacements == MapOf(Read(py, lines).value.pairs)
  {
    hide Read, MapOf, Markers, DefinesComplete, MeansLast;
    ReadsMarkersInOrder(py, lines);
    ok, replacements := ReadOn(py, lines);
    if ok {
      forall name ensures MeansLast(py, lines, replacements, name) {
        ReadMeansLast(py, lines, name);
      }
    }
  }

  /** Its loop. */
  method ReadOn(py: Python, lines: Lines) returns (ok: bool, replacements: map<string, string>)
    ensures ok == Read(py, lines).Some?
    ensures ok ==> replacements == MapOf(Read(py, lines).value.pairs)
  {
    ghost var r := Reading(0, []);
    assert lines[..0] == [] && lines[..|lines|] == lines;
    assert Read(py, lines[..0]) == Some(r) && MapOf(r.pairs) == map[];
    hide Read, MapOf, Words, StartsWith;
    replacements := map[];
    var mode := 0;
    for k := 0 to |lines|
      invariant Read(py, lines[..k]) == Some(r)
      invariant r.mode == mode && MapOf(r.pairs) == replacements
    {
      var line := lines[k];
      ReadUpTo(py, lines, k);
      if line == IFDEF {
        if mode == 0 {
          mode := 1;
        } else {
          return false, map[];
        }
      } else if line == ELIF {
        if mode == 1 {
          mode := 2;
        } else {
          return false, map[];
        }
      } else if line == ENDIF {
        if mode == 2 {
          mode := 3;
        } else {
          return false, map[];
        }
      } else if mode == 1 && StartsWith(line, DEFINE) {
        var words := Words(py, line);
        if |words| < 3 {
          return false, map[];
        }
        MapAppend(r.pairs, (words[1], words[2]));
        replacements := replacements[words[1] := words[2]];
      }
      r := ReadStep(py, r, line).value;
    }
    ok := true;
  }

  // ---------- reading what the writer wrote ----------

  /** Names as the script gets them: words that the reader will see whole. */
  ghost predicate Readable(py: Python, e: Entry) {
    && IsWord(py, e.oldName) && IsWord(py, e.newName) && IsWord(py, "#define") && py.isSpace(' ')
  }

  /** A word, a space, and the words of the rest. */
  lemma NextWord(py: Python, w: string, rest: string)
    requires IsWord(py, w) && py.isSpace(' ')
    ensures Words(py, w + (" " + rest)) == [w] + Words(py, rest)
  {
    FirstWord(py, w, " " + rest);
    assert (" " + rest)[1..] == rest;
  }

  lemma LastWord(py: Python, w: string)
    requires IsWord(py, w)
    ensures Words(py, w) == [w]
  {
    FirstWord(py, w, "");
    assert w + "" == w;
  }

  lemma ContentWords(py: Python, e: Entry)
    requires Readable(py, e)
    ensures Words(py, Content(e, 1)) == ["#define", e.oldName, e.newName]
    ensures StartsWith(Content(e, 1), DEFINE)
  {
    ContentIs(e);
    hide Words, Content, StartsWith;
    NextWord(py, "#define", e.oldName + (" " + e.newName));
    NextWord(py, e.oldName, e.newName);
    LastWord(py, e.newName);
  }

  lemma ContentIs(e: Entry)
    ensures Content(e, 1) == "#define" + (" " + (e.oldName + (" " + e.newName)))
    ensures StartsWith(Content(e, 1), DEFINE)
  {
    assert Content(e, 1)[..8] == DEFINE;
    assert "#define " == "#define" + " ";
  }

  lemma ReadAppend(py: Python, lines: Lines, line: string)
    requires Read(py, lines).Some?
    ensures Read(py, lines + [line]) == ReadStep(py, Read(py, lines).value, line)
  {
    assert (lines + [line])[..|lines|] == lines;
  }

  /** `b` is `a`, with `x` put in after the first `k` pairs, or already standing there. */
  ghost predicate Placed(a: seq<Pair>, b: seq<Pair>, x: Pair, k: Option<nat>) {
    match k
    case None => b == a
    case Some(n) => n <= |a| && (b == a[..n] + [x] + a[n..] || (n > 0 && a[n - 1] == x && b == a))
  }

  lemma PlacedAppend(a: seq<Pair>, b: seq<Pair>, x: Pair, k: Option<nat>, y: Pair)
    requires Placed(a, b, x, k)
    ensures Placed(a + [y], b + [y], x, k)
  {
    if k.Some? && b != a {
      assert b + [y] == (a + [y])[..k.value] + [x] + (a + [y])[k.value..];
    }
  }

  lemma PlacedNow(a: seq<Pair>, x: Pair)
    ensures Placed(a, a + [x], x, Some(|a|)) && Placed(a + [x], a + [x], x, Some(|a| + 1))
  {
    assert a + [x] == a[..|a|] + [x] + a[|a|..];
  }

  /** A blank line at the end makes no difference to the reader. */
  lemma ReadBlank(py: Python, lines: Lines)
    requires lines != [] && lines[|lines| - 1] == "" && Read(py, lines).Some?
    ensures Read(py, lines[..|lines| - 1]) == Read(py, lines)
  {
  }

  /** Writing a content line adds its pair in the first part and nothing in the second. */
  lemma ContentReads(py: Python, e: Entry, done: Lines, mode: nat, trailing: bool)
    requires Readable(py, e) && done != [] && Read(py, done).Some?
    requires Read(py, done).value.mode == mode && (mode == 1 || mode == 2)
    ensures var r := Read(py, done).value;
      Read(py, WithContent(done, Content(e, mode), trailing))
      == Some(if mode == 1 then r.(pairs := r.pairs + [(e.oldName, e.newName)]) else r)
  {
    var c := Content(e, mode);
    L.ContentPlain(e, mode);
    if mode == 1 {
      ContentWords(py, e);
    }
    hide Content, Words;
    var d := if done[|done| - 1] == "" then done[..|done| - 1] else done;
    if done[|done| - 1] == "" {
      ReadBlank(py, done);
    }
    ReadAppend(py, d, c);
    if trailing {
      ReadAppend(py, d + [c], "");
      assert d + [c] + [""] == WithContent(done, c, true);
    } else {
      assert d + [c] == WithContent(done, c, false);
    }
  }

  lemma DefineStarts(s: string)
    ensures StartsWith(s, DEFINE) ==> s != "" && s[0] == '#'
  {
  }

  lemma SectionReads(py: Python, e: Entry, done: Lines)
    requires Read(py, done).Some?
    ensures Read(py, done + [Section(e)]) == Read(py, done)
  {
    L.SectionIsHeader(e);
    var s := Section(e);
    assert s[..|HEADER|][0] == HEADER[0];
    DefineStarts(s);
    hide Section, Words;
    ReadAppend(py, done, s);
  }

  /** Where the new define stands among the defines of the file, once it is known. */
  function NextPlace(py: Python, e: Entry, st: Scan, line: string, r: Reading, k: Option<nat>): Option<nat>
    requires (st.mode != 0 ==> st.done != []) && Step(e, st, line).Some? && ReadStep(py, r, line).Some?
  {
    var v := Step(e, st, line).value;
    if k.Some? || v.mode == 0 || (v.mode == 1 && !v.contentAdded) then k
    else if line == Content(e, 1) then Some(|ReadStep(py, r, line).value.pairs|)
    else Some(|r.pairs|)
  }

  /** How many defines the reader of the original file meets before the place of the new one,
      counting the new one itself if it was there. */
  function Place(py: Python, e: Entry, lines: Lines): Option<nat>
    requires Pass(e, lines).Some? && Read(py, lines).Some?
  {
    if lines == [] then None
    else
      var n := |lines| - 1;
      NextPlace(py, e, Pass(e, lines[..n]).value, lines[n], Read(py, lines[..n]).value, Place(py, e, lines[..n]))
  }

  /** How the reading of the edited file relates to the reading of the original. */
  ghost predicate Follows(e: Entry, st: Scan, r: Reading, u: Reading, k: Option<nat>) {
    && r.mode == u.mode == st.mode
    && Placed(r.pairs, u.pairs, (e.oldName, e.newName), k)
    && (k.Some? <==> st.mode >= 2 || (st.mode == 1 && st.contentAdded))
  }

  lemma FinishedReads(py: Python, e: Entry, st: Scan, r: Reading, u: Reading, k: Option<nat>)
    requires Readable(py, e) && st.done != [] && Read(py, st.done) == Some(u) && Follows(e, st, r, u, k)
    requires (st.mode == 1 || st.mode == 2) && (st.contentAdded ==> st.sectionAdded)
    ensures Read(py, Finished(e, st)).Some?
    ensures Follows(e, st.(sectionAdded := true, contentAdded := true), r, Read(py, Finished(e, st)).value,
                    if k.Some? then k else Some(|r.pairs|))
  {
    hide Words, Content, Section, WithContent, Read, Readable;
    PlacedNow(r.pairs, (e.oldName, e.newName));
    var done := if st.sectionAdded then st.done else st.done + [Section(e)];
    SectionReads(py, e, st.done);
    if !st.contentAdded {
      ContentReads(py, e, done, st.mode, true);
    }
  }

  /** The same line read by both. */
  lemma BothRead(py: Python, e: Entry, st: Scan, done: Lines, line: string, r: Reading, u: Reading, v: Scan,
      k: Option<nat>)
    requires Read(py, done) == Some(u) && Follows(e, st, r, u, k) && ReadStep(py, r, line).Some?
    requires v.mode == ReadStep(py, r, line).value.mode
    requires st.mode == 0 || v.mode == st.mode || (st.sectionAdded && st.contentAdded)
    requires v.mode == 1 && v.contentAdded ==>
      st.contentAdded || (line == Content(e, 1) && Readable(py, e) && st.mode == 1)
    requires v.mode == 1 && st.mode == 1 && st.contentAdded ==> v.contentAdded
    requires v.mode == 1 && st.mode != 1 ==> !v.contentAdded
    ensures Read(py, done + [line]).Some?
    ensures Follows(e, v, ReadStep(py, r, line).value, Read(py, done + [line]).value,
                    if k.Some? || v.mode == 0 || (v.mode == 1 && !v.contentAdded) then k
                    else Some(|ReadStep(py, r, line).value.pairs|))
  {
    if line == Content(e, 1) && Readable(py, e) {
      ContentWords(py, e);
      L.ContentPlain(e, 1);
    }
    hide Words, Content;
    ReadAppend(py, done, line);
    var r' := ReadStep(py, r, line).value;
    var x := (e.oldName, e.newName);
    if r'.pairs != r.pairs {
      PlacedAppend(r.pairs, u.pairs, x, k, r'.pairs[|r.pairs|]);
      PlacedNow(r.pairs, x);
    }
  }

  /** At a closing marker. */
  lemma MarkerFollows(py: Python, e: Entry, st: Scan, line: string, r: Reading, u: Reading, k: Option<nat>)
    requires Readable(py, e) && (st.mode != 0 ==> st.done != []) && (st.contentAdded ==> st.sectionAdded)
    requires Read(py, st.done) == Some(u) && Follows(e, st, r, u, k)
    requires Step(e, st, line).Some? && ReadStep(py, r, line).Some?
    requires line == ELIF || line == ENDIF
    ensures var v := Step(e, st, line).value;
      && Read(py, v.done).Some?
      && Follows(e, v, ReadStep(py, r, line).value, Read(py, v.done).value, NextPlace(py, e, st, line, r, k))
  {
    L.ContentPlain(e, 1);
    hide Readable, Finished, Read, Content, Section, Placed;
    FinishedReads(py, e, st, r, u, k);
    var done := Finished(e, st);
    var place := if k.Some? then k else Some(|r.pairs|);
    BothRead(py, e, st.(sectionAdded := true, contentAdded := true), done, line, r, Read(py, done).value,
      Step(e, st, line).value, place);
  }

  /** At a line before which something goes in. */
  lemma AddedFollows(py: Python, e: Entry, st: Scan, line: string, r: Reading, u: Reading, k: Option<nat>)
    requires Readable(py, e) && (st.mode != 0 ==> st.done != []) && (st.contentAdded ==> st.sectionAdded)
    requires Read(py, st.done) == Some(u) && Follows(e, st, r, u, k)
    requires Step(e, st, line).Some? && ReadStep(py, r, line).Some?
    requires line != ELIF && line != ENDIF && L.Added(e, st, line) != []
    ensures var v := Step(e, st, line).value;
      && Read(py, v.done).Some?
      && Follows(e, v, ReadStep(py, r, line).value, Read(py, v.done).value, NextPlace(py, e, st, line, r, k))
  {
    L.ContentPlain(e, 1);
    PlacedNow(r.pairs, (e.oldName, e.newName));
    hide Read, Section, Content, WithContent, Less;
    SectionReads(py, e, st.done);
    var s := if st.sectionAdded then st.done else st.done + [Section(e)];
    var trailing := StartsWith(line, HEADER);
    ContentReads(py, e, s, st.mode, trailing);
    var done := WithContent(s, Content(e, st.mode), trailing);
    var place := if k.Some? then k else Some(|r.pairs|);
    BothRead(py, e, Step(e, st, line).value, done, line, r, Read(py, done).value, Step(e, st, line).value, place);
  }

  lemma StepFollows(py: Python, e: Entry, st: Scan, line: string, r: Reading, u: Reading, k: Option<nat>)
    requires Readable(py, e) && (st.mode != 0 ==> st.done != []) && (st.contentAdded ==> st.sectionAdded)
    requires Read(py, st.done) == Some(u) && Follows(e, st, r, u, k)
    requires Step(e, st, line).Some? && ReadStep(py, r, line).Some?
    ensures var v := Step(e, st, line).value;
      && Read(py, v.done).Some?
      && Follows(e, v, ReadStep(py, r, line).value, Read(py, v.done).value, NextPlace(py, e, st, line, r, k))
  {
    if line == ELIF || line == ENDIF {
      MarkerFollows(py, e, st, line, r, u, k);
    } else if L.Added(e, st, line) != [] {
      AddedFollows(py, e, st, line, r, u, k);
    } else {
      L.ContentPlain(e, 1);
      hide Read, Section, WithContent, Placed;
      BothRead(py, e, st, st.done, line, r, u, Step(e, st, line).value, k);
    }
  }

  lemma {:induction false} PassFollows(py: Python, e: Entry, lines: Lines)
    requires Readable(py, e) && Pass(e, lines).Some? && Read(py, lines).Some?
    ensures var st := Pass(e, lines).value;
      && Read(py, st.done).Some?
      && Follows(e, st, Read(py, lines).value, Read(py, st.done).value, Place(py, e, lines))
  {
    hide Step, ReadStep, Readable, Follows, NextPlace;
    if lines == [] {
      NothingFollows(e);
    } else {
      var before, line := lines[..|lines| - 1], lines[|lines| - 1];
      PassFollows(py, e, before);
      L.SectionFirst(e, before);
      var st := Pass(e, before).value;
      StepFollows(py, e, st, line, Read(py, before).value, Read(py, st.done).value, Place(py, e, before));
    }
  }

  lemma NothingFollows(e: Entry)
    ensures Follows(e, START, Reading(0, []), Reading(0, []), None)
  {
  }

  // ---------- the dictionary ----------

  /** Reading on overrides what was read before. */
  lemma {:induction false} MapConcat(a: seq<Pair>, b: seq<Pair>)
    ensures MapOf(a + b) == MapOf(a) + MapOf(b)
  {
    if b == [] {
      assert a + b == a;
    } else {
      var n := |b| - 1;
      assert (a + b)[..|a| + n] == a + b[..n];
      MapConcat(a, b[..n]);
    }
  }

  lemma {:induction false} MapAgrees(pairs: seq<Pair>, x: Pair)
    requires forall p :: p in pairs && p.0 == x.0 ==> p.1 == x.1
    ensures x.0 in MapOf(pairs) ==> MapOf(pairs)[x.0] == x.1
  {
    if pairs != [] {
      assert pairs[|pairs| - 1] in pairs;
      MapAgrees(pairs[..|pairs| - 1], x);
    }
  }

  /** The dictionary of the edited file: what stood before the new define, then it, then what
      stood behind it. */
  lemma PlacedMap(a: seq<Pair>, b: seq<Pair>, x: Pair, n: nat)
    requires Placed(a, b, x, Some(n))
    ensures n <= |a| && MapOf(b) == MapOf(a[..n])[x.0 := x.1] + MapOf(a[n..])
    ensures MapOf(a) == MapOf(a[..n]) + MapOf(a[n..])
  {
    hide MapOf;
    assert a == a[..n] + a[n..];
    MapConcat(a[..n], a[n..]);
    MapAppend(a[..n], x);
    if b == a[..n] + [x] + a[n..] {
      MapConcat(a[..n] + [x], a[n..]);
    } else {
      assert a[..n] == a[..n - 1] + [x];
      MapAppend(a[..n - 1], x);
    }
  }

  /** After an addition to a file with its markers, the reader maps every other name as before, and
      the old name to the new one if and only if no define behind the place of the new one gives the
      old name another meaning. */
  lemma ReaderSeesTheNewName(py: Python, e: Entry, lines: Lines)
    requires Readable(py, e) && Pass(e, lines).Some? && Read(py, lines).Some?
    requires Read(py, lines).value.mode >= 2
    ensures var u := Read(py, Pass(e, lines).value.done);
      var r := Read(py, lines).value;
      var k := Place(py, e, lines);
      && u.Some? && k.Some? && k.value <= |r.pairs|
      && MapOf(u.value.pairs) - {e.oldName} == MapOf(r.pairs) - {e.oldName}
      && e.oldName in MapOf(u.value.pairs)
      && var behind := MapOf(r.pairs[k.value..]);
        MapOf(u.value.pairs)[e.oldName] == e.newName <==>
          (e.oldName in behind ==> behind[e.oldName] == e.newName)
  {
    PassFollows(py, e, lines);
    hide Pass, Readable, Read, MapOf, Place;
    var r, u := Read(py, lines).value, Read(py, Pass(e, lines).value.done).value;
    PlacedMap(r.pairs, u.pairs, (e.oldName, e.newName), Place(py, e, lines).value);
  }

  /** In particular when no other define of the first part uses the old name. */
  lemma NoOtherDefine(py: Python, e: Entry, lines: Lines)
    requires Readable(py, e) && Pass(e, lines).Some? && Read(py, lines).Some?
    requires Read(py, lines).value.mode >= 2
    requires forall p :: p in Read(py, lines).value.pairs && p.0 == e.oldName ==> p.1 == e.newName
    ensures var u := Read(py, Pass(e, lines).value.done);
      u.Some? && MapOf(u.value.pairs) == MapOf(Read(py, lines).value.pairs)[e.oldName := e.newName]
  {
    ReaderSeesTheNewName(py, e, lines);
    hide Pass, Readable, Read, MapOf, Place;
    var r, u := Read(py, lines).value.pairs, Read(py, Pass(e, lines).value.done).value.pairs;
    var k := Place(py, e, lines).value;
    forall p | p in r[k..] && p.0 == e.oldName ensures p.1 == e.newName {
      assert p in r;
    }
    MapAgrees(r[k..], (e.oldName, e.newName));
    assert MapOf(u) == (MapOf(u) - {e.oldName})[e.oldName := e.newName];
    assert MapOf(r)[e.oldName := e.newName] == (MapOf(r) - {e.oldName})[e.oldName := e.newName];
  }

  lemma {:induction false} LessAfter(prefix: string, a: string, b: string)
    ensures Less(prefix + a, prefix + b) == Less(a, b)
  {
    if prefix == "" {
      assert prefix + a == a && prefix + b == b;
    } else {
      assert (prefix + a)[1..] == prefix[1..] + a && (prefix + b)[1..] == prefix[1..] + b;
      LessAfter(prefix[1..], a, b);
    }
  }

  /** The lines of the example below. */
  lemma ExampleLines()
    ensures var e, z := Entry("h", "A", "B"), Entry("h", "A", "Z");
      && Content(e, 1) == "#define A B" && Content(z, 1) == "#define A Z" && Section(e) == "/* ##h */"
      && Less(Content(e, 1), Content(z, 1)) && Content(e, 1) != Content(z, 1)
  {
    assert "#define A " + "B" == "#define A B" && "#define A " + "Z" == "#define A Z";
    assert Less("B", "Z");
    LessAfter("#define A ", "B", "Z");
    assert Content(Entry("h", "A", "B"), 1) == "#define A " + "B";
    assert Content(Entry("h", "A", "Z"), 1) == "#define A " + "Z";
  }

  /** One step of the pass from a known state. */
  lemma PassOne(e: Entry, lines: Lines, st: Scan, line: string, u: Scan)
    requires Pass(e, lines) == Some(st) && (st.mode != 0 ==> st.done != []) && Step(e, st, line) == Some(u)
    ensures Pass(e, lines + [line]) == Some(u)
  {
    L.Appended(e, lines, line);
  }

  lemma NothingPassed(e: Entry)
    ensures Pass(e, []) == Some(START)
  {
  }

  /** A define that sorts after the new one stays behind it. */
  lemma GoesBefore(e: Entry, c: string)
    requires Less(Content(e, 1), c) && Content(e, 1) != c && StartsWith(c, DEFINE)
    ensures var s := Section(e);
      Pass(e, [IFDEF, s, c, ELIF]) == Some(Scan([IFDEF, s, Content(e, 1), c, ELIF], 2, false, false))
  {
    hide Pass, Less, StartsWith, Content, Section;
    var s, b := Section(e), Content(e, 1);
    L.SectionIsHeader(e);
    PlainDefine(c);
    NothingPassed(e);
    MarkersDiffer();
    assert [] + [IFDEF] == [IFDEF];
    var one := Scan([IFDEF], 1, false, false);
    PassOne(e, [], START, IFDEF, one);
    assert [IFDEF] + [s] == [IFDEF, s];
    var two := Scan([IFDEF, s], 1, true, false);
    PassOne(e, [IFDEF], one, s, two);
    assert [IFDEF, s] + [c] == [IFDEF, s, c] && [IFDEF, s, b] + [c] == [IFDEF, s, b, c];
    assert WithContent([IFDEF, s], b, false) == [IFDEF, s, b];
    var three := Scan([IFDEF, s, b, c], 1, true, true);
    PassOne(e, [IFDEF, s], two, c, three);
    assert [IFDEF, s, c] + [ELIF] == [IFDEF, s, c, ELIF] && [IFDEF, s, b, c] + [ELIF] == [IFDEF, s, b, c, ELIF];
    hide InPart, WithContent;
    PassOne(e, [IFDEF, s, c], three, ELIF, Scan([IFDEF, s, b, c, ELIF], 2, false, false));
  }

  lemma PlainDefine(c: string)
    requires StartsWith(c, DEFINE)
    ensures c != "" && c != IFDEF && c != ELIF && c != ENDIF && !StartsWith(c, HEADER)
  {
    assert c[..8] == DEFINE;
    assert c[0] == '#' && c[1] == 'd';
    assert IFDEF[1] == 'i' && ELIF[1] == 'e' && ENDIF[1] == 'e' && HEADER[0] == '/';
  }

  /** The reader takes the later of two defines. */
  lemma LaterWins(py: Python, e: Entry, z: Entry)
    requires Readable(py, e) && Readable(py, z) && e.oldName == z.oldName
    ensures var lines := [IFDEF, Section(e), Content(e, 1), Content(z, 1), ELIF];
      Read(py, lines).Some? && MapOf(Read(py, lines).value.pairs) == map[e.oldName := z.newName]
  {
    var s, b, c := Section(e), Content(e, 1), Content(z, 1);
    L.ContentPlain(e, 1);
    L.ContentPlain(z, 1);
    ContentWords(py, e);
    ContentWords(py, z);
    assert Read(py, []) == Some(Reading(0, []));
    hide Words, Read, StartsWith, Content, Section;
    ReadAppend(py, [], IFDEF);
    assert [] + [IFDEF] == [IFDEF];
    SectionReads(py, e, [IFDEF]);
    assert [IFDEF] + [s] == [IFDEF, s];
    ReadAppend(py, [IFDEF, s], b);
    assert [IFDEF, s] + [b] == [IFDEF, s, b];
    ReadAppend(py, [IFDEF, s, b], c);
    assert [IFDEF, s, b] + [c] == [IFDEF, s, b, c];
    ReadAppend(py, [IFDEF, s, b, c], ELIF);
    assert [IFDEF, s, b, c] + [ELIF] == [IFDEF, s, b, c, ELIF];
    var x, y := (e.oldName, e.newName), (z.oldName, z.newName);
    assert Read(py, [IFDEF, s, b, c, ELIF]).value.pairs == [x, y];
    var none: seq<Pair> := [];
    assert [x, y][..1] == [x] && [x][..0] == none;
    assert MapOf([x]) == map[x.0 := x.1];
    assert MapOf([x, y]) == MapOf([x])[y.0 := y.1];
  }

  /** Without that proviso the reader may see another name: a define of the same old name that sorts
      after the new one wins. */
  lemma AnotherDefineWins(py: Python)
    requires Readable(py, Entry("h", "A", "B")) && IsWord(py, "Z")
    ensures var e := Entry("h", "A", "B");
      var st := Pass(e, [IFDEF, "/* ##h */", "#define A Z", ELIF]);
      && st == Some(Scan([IFDEF, "/* ##h */", "#define A B", "#define A Z", ELIF], 2, false, false))
      && Read(py, st.value.done).Some?
      && MapOf(Read(py, st.value.done).value.pairs) == map["A" := "Z"]
  {
    var e, z := Entry("h", "A", "B"), Entry("h", "A", "Z");
    ExampleLines();
    ContentWords(py, z);
    GoesBefore(e, Content(z, 1));
    LaterWins(py, e, z);
  }
}
