/** Workload lines of the configuration file as the tuner reads and writes them
    (`toolchain/config_parser.py`).

    Four dictionaries share their keys, the workload ids; here they are one dictionary of entries, in
    insertion order. Loading turns text into numbers and spells ranges out; writing back prints lists only.
    Groups may be empty in memory, and that is the one thing that writing and loading do not restore. */
module ConfigFile {
  import opened Text
  import opened PyText

  datatype Entry = Entry(phases: string, remote: seq<int>, app: seq<seq<int>>, disp: seq<seq<int>>)

  /** `range(a, b + 1)`. */
  function Range(a: int, b: int): (r: seq<int>)
    ensures |r| == (if b < a then 0 else b - a + 1) && forall i :: 0 <= i < |r| ==> r[i] == a + i
    decreases b - a
  {
    if b < a then [] else Range(a, b - 1) + [b]
  }

  function IntList(s: string): Parsed<seq<int>> { Each(Split(s, ','), PyInt) }

  /** Either `a-b`, which must have exactly two parts, or a list. */
  function AppGroup(s: string): Parsed<seq<int>> {
    if '-' in s then
      var p := Split(s, '-');
      if |p| != 2 || PyInt(p[0]).Throws? || PyInt(p[1]).Throws? then Throws
      else Value(Range(PyInt(p[0]).value, PyInt(p[1]).value))
    else IntList(s)
  }

  function AppGroups(s: string): Parsed<seq<seq<int>>> { Each(Split(s, '|'), AppGroup) }

  function DispGroups(s: string): Parsed<seq<seq<int>>> { Each(Split(s, '|'), IntList) }

  function Values(line: string): seq<string> { Texts(Split(Strip(line), ':'), Strip) }

  /** The entry that six values describe. */
  function EntryOf(v: seq<string>): Parsed<(int, Entry)>
    requires |v| >= 6
  {
    var id, remote, app, disp := PyInt(v[1]), IntList(v[3]), AppGroups(v[4]), DispGroups(v[5]);
    if id.Throws? || remote.Throws? || app.Throws? || disp.Throws? then Throws
    else Value((id.value, Entry(v[2], remote.value, app.value, disp.value)))
  }

  /** A line with more than one colon. A missing value raises an exception, further values are ignored. */
  function LoadWorkload(line: string): Parsed<(int, Entry)> {
    var v := Values(line);
    if |v| < 6 || v[0] != "workload" then Throws else EntryOf(v)
  }

  function IntText(xs: seq<int>): string { Join(Texts(xs, Str), ',') }

  function GroupText(groups: seq<seq<int>>): string { Join(Texts(groups, IntText), '|') }

  function Pieces(id: int, e: Entry): (p: seq<string>)
    ensures |p| == 6
  {
    ["workload ", " " + Str(id) + " ", " " + e.phases + " ", " " + IntText(e.remote) + " ",
     " " + GroupText(e.app) + " ", " " + GroupText(e.disp)]
  }

  /** A line of `write_back`, without its line end. */
  function WriteWorkload(id: int, e: Entry): string { Join(Pieces(id, e), ':') }

  // What a loaded entry looks like

  predicate NonNegative(xs: seq<int>) { forall i :: 0 <= i < |xs| ==> xs[i] >= 0 }

  /** Every loaded entry is like this; an application group may be empty. */
  predicate Loaded(e: Entry) {
    && Stripped(e.phases) && ':' !in e.phases && e.remote != [] && e.app != [] && e.disp != []
    && (forall g :: 0 <= g < |e.app| ==> NonNegative(e.app[g]))
    && (forall g :: 0 <= g < |e.disp| ==> e.disp[g] != [])
  }

  predicate NoEmptyGroup(e: Entry) { forall g :: 0 <= g < |e.app| ==> e.app[g] != [] }

  lemma IntListIs(s: string)
    ensures IntList(s).Value? ==> IntList(s).value != []
    ensures IntList(s).Value? && '-' !in s ==> NonNegative(IntList(s).value)
  {
    if IntList(s).Value? {
      var xs, p := IntList(s).value, Split(s, ',');
      EachIs(p, PyInt, xs);
      if '-' !in s {
        SplitHasOnly(s, ',', '-');
        forall i | 0 <= i < |xs| ensures xs[i] >= 0 {
          assert PyInt(p[i]) == Value(xs[i]);
          PyIntSign(p[i]);
        }
      }
    }
  }

  lemma {:induction false} SplitHasOnly(s: string, c: char, d: char)
    requires d !in s
    ensures NoneHas(Split(s, c), d)
  {
    var n := Before(s, c);
    if n < |s| { SplitHasOnly(s[n + 1..], c, d); }
  }

  lemma AppGroupIs(s: string)
    ensures AppGroup(s).Value? ==> NonNegative(AppGroup(s).value)
  {
    if '-' in s {
      var p := Split(s, '-');
      if |p| == 2 { PyIntSign(p[0]); }
    } else {
      IntListIs(s);
    }
  }

  lemma LoadedEntry(v: seq<string>)
    requires |v| >= 6 && Stripped(v[2]) && ':' !in v[2]
    ensures EntryOf(v).Value? ==> Loaded(EntryOf(v).value.1)
  {
    if EntryOf(v).Value? {
      var e := EntryOf(v).value.1;
      IntListIs(v[3]);
      EachIs(Split(v[4], '|'), AppGroup, e.app);
      EachIs(Split(v[5], '|'), IntList, e.disp);
      forall g | 0 <= g < |e.app| ensures NonNegative(e.app[g]) {
        assert AppGroup(Split(v[4], '|')[g]) == Value(e.app[g]);
        AppGroupIs(Split(v[4], '|')[g]);
      }
      forall g | 0 <= g < |e.disp| ensures e.disp[g] != [] {
        assert IntList(Split(v[5], '|')[g]) == Value(e.disp[g]);
        IntListIs(Split(v[5], '|')[g]);
      }
    }
  }

  lemma LoadWorkloadIs(line: string)
    ensures LoadWorkload(line).Value? ==> Loaded(LoadWorkload(line).value.1)
  {
    var v, p := Values(line), Split(Strip(line), ':');
    if |v| >= 6 {
      StripIs(p[2]);
      assert v[2] == Strip(p[2]);
      LoadedEntry(v);
    }
  }

  // The round trip of one line

  lemma IntTextChars(xs: seq<int>, d: char)
    requires d != ',' && !IsDigit(d) && (d == '-' ==> NonNegative(xs))
    ensures d !in IntText(xs)
  {
    forall i | 0 <= i < |xs| ensures d !in Texts(xs, Str)[i] { StrChars(xs[i]); }
    JoinHasOnly(Texts(xs, Str), ',', d);
  }

  lemma IntListOfText(xs: seq<int>)
    ensures IntList(IntText(xs)) == if xs == [] then Throws else Value(xs)
  {
    var t := Texts(xs, Str);
    if xs == [] {
      assert Split("", ',') == [""];
      assert [""][..0] == [];
    } else {
      forall i | 0 <= i < |t| ensures ',' !in t[i] { StrChars(xs[i]); }
      SplitOfJoin(t, ',');
      forall i | 0 <= i < |xs| ensures PyInt(t[i]) == Value(xs[i]) { PyIntOfStr(xs[i]); }
      EachIs(t, PyInt, xs);
    }
  }

  lemma AppGroupOfText(xs: seq<int>)
    requires NonNegative(xs)
    ensures AppGroup(IntText(xs)) == if xs == [] then Throws else Value(xs)
  {
    IntTextChars(xs, '-');
    IntListOfText(xs);
  }

  lemma GroupSplit(groups: seq<seq<int>>)
    requires groups != []
    ensures Split(GroupText(groups), '|') == Texts(groups, IntText)
  {
    var t := Texts(groups, IntText);
    forall g | 0 <= g < |t| ensures '|' !in t[g] { IntTextChars(groups[g], '|'); }
    SplitOfJoin(t, '|');
  }

  lemma DispGroupsOfText(groups: seq<seq<int>>)
    requires groups != [] && forall g :: 0 <= g < |groups| ==> groups[g] != []
    ensures DispGroups(GroupText(groups)) == Value(groups)
  {
    GroupSplit(groups);
    var t := Texts(groups, IntText);
    forall g | 0 <= g < |t| ensures IntList(t[g]) == Value(groups[g]) { IntListOfText(groups[g]); }
    EachIs(t, IntList, groups);
  }

  lemma AppGroupsOfText(groups: seq<seq<int>>)
    requires groups != [] && forall g :: 0 <= g < |groups| ==> NonNegative(groups[g])
    ensures (forall g :: 0 <= g < |groups| ==> groups[g] != []) ==> AppGroups(GroupText(groups)) == Value(groups)
    ensures (exists g :: 0 <= g < |groups| && groups[g] == []) ==> AppGroups(GroupText(groups)).Throws?
  {
    GroupSplit(groups);
    var t := Texts(groups, IntText);
    forall g | 0 <= g < |t| ensures AppGroup(t[g]) == if groups[g] == [] then Throws else Value(groups[g]) {
      AppGroupOfText(groups[g]);
    }
    EachIs(t, AppGroup, groups);
    if exists g :: 0 <= g < |groups| && groups[g] == [] {
      var g :| 0 <= g < |groups| && groups[g] == [];
      EachThrows(t, AppGroup, g);
    }
  }

  lemma GroupTextChars(groups: seq<seq<int>>, d: char)
    requires d != ',' && d != '|' && d != '-' && !IsDigit(d)
    ensures d !in GroupText(groups)
  {
    forall g | 0 <= g < |groups| ensures d !in Texts(groups, IntText)[g] { IntTextChars(groups[g], d); }
    JoinHasOnly(Texts(groups, IntText), '|', d);
  }

  lemma TextsStripped(xs: seq<int>, groups: seq<seq<int>>)
    ensures Stripped(IntText(xs)) && ':' !in IntText(xs) && Stripped(GroupText(groups)) && ':' !in GroupText(groups)
  {
    var a, b := IntText(xs), GroupText(groups);
    IntTextChars(xs, ':');
    GroupTextChars(groups, ':');
    if a != "" {
      if IsSpace(a[0]) { IntTextChars(xs, a[0]); }
      if IsSpace(a[|a| - 1]) { IntTextChars(xs, a[|a| - 1]); }
    }
    if b != "" {
      if IsSpace(b[0]) { GroupTextChars(groups, b[0]); }
      if IsSpace(b[|b| - 1]) { GroupTextChars(groups, b[|b| - 1]); }
    }
  }

  lemma GroupTextNotEmpty(groups: seq<seq<int>>)
    requires groups != [] && groups[|groups| - 1] != []
    ensures GroupText(groups) != ""
  {
    var xs := groups[|groups| - 1];
    StrChars(xs[|xs| - 1]);
    JoinLast(Texts(xs, Str), ',');
    JoinLast(Texts(groups, IntText), '|');
  }

  lemma PiecesClean(id: int, e: Entry)
    requires Loaded(e)
    ensures NoneHas(Pieces(id, e), ':')
  {
    StrChars(id);
    TextsStripped(e.remote, e.app);
    TextsStripped(e.remote, e.disp);
  }

  /** The written line starts and ends with something other than white space. */
  lemma LineStripped(id: int, e: Entry)
    requires Loaded(e)
    ensures Strip(WriteWorkload(id, e)) == WriteWorkload(id, e)
  {
    var last := GroupText(e.disp);
    GroupTextNotEmpty(e.disp);
    TextsStripped([], e.disp);
    assert (" " + last)[|" " + last| - 1] == last[|last| - 1];
    JoinEnds(Pieces(id, e), ':');
    StrippedStays(WriteWorkload(id, e));
  }

  /** The six values written. */
  predicate WrittenAs(v: seq<string>, id: int, e: Entry) {
    && |v| == 6 && v[0] == "workload" && v[1] == Str(id) && v[2] == e.phases && v[3] == IntText(e.remote)
    && v[4] == GroupText(e.app) && v[5] == GroupText(e.disp)
  }

  lemma FirstPieces(id: int, e: Entry)
    requires Loaded(e)
    ensures Strip(Pieces(id, e)[0]) == "workload" && Strip(Pieces(id, e)[1]) == Str(id) && Strip(Pieces(id, e)[2]) == e.phases
  {
    StripPadded("workload");
    assert "workload" + " " == "workload ";
    StrStripped(id);
    StripPadded(Str(id));
    StripPadded(e.phases);
  }

  lemma LastPieces(id: int, e: Entry)
    ensures Strip(Pieces(id, e)[3]) == IntText(e.remote)
    ensures Strip(Pieces(id, e)[4]) == GroupText(e.app) && Strip(Pieces(id, e)[5]) == GroupText(e.disp)
  {
    TextsStripped(e.remote, e.app);
    TextsStripped(e.remote, e.disp);
    StripPadded(IntText(e.remote));
    StripPadded(GroupText(e.app));
    StripPadded(GroupText(e.disp));
  }

  lemma WrittenValues(id: int, e: Entry)
    requires Loaded(e)
    ensures WrittenAs(Values(WriteWorkload(id, e)), id, e)
  {
    LineStripped(id, e);
    PiecesClean(id, e);
    SplitOfJoin(Pieces(id, e), ':');
    FirstPieces(id, e);
    LastPieces(id, e);
  }

  lemma LoadFrom(v: seq<string>, id: int, e: Entry)
    requires |v| == 6 && PyInt(v[1]) == Value(id) && v[2] == e.phases && IntList(v[3]) == Value(e.remote)
    requires DispGroups(v[5]) == Value(e.disp)
    ensures AppGroups(v[4]) == Value(e.app) ==> EntryOf(v) == Value((id, e))
    ensures AppGroups(v[4]).Throws? ==> EntryOf(v).Throws?
  {
  }

  /** A loaded entry is written and loaded back unchanged, unless one of its application groups is empty, as a
      range written backwards makes it: then loading raises an exception. */
  lemma LineRoundTrip(id: int, e: Entry)
    requires Loaded(e)
    ensures NoEmptyGroup(e) ==> LoadWorkload(WriteWorkload(id, e)) == Value((id, e))
    ensures !NoEmptyGroup(e) ==> LoadWorkload(WriteWorkload(id, e)).Throws?
  {
    WrittenValues(id, e);
    PyIntOfStr(id);
    IntListOfText(e.remote);
    AppGroupsOfText(e.app);
    DispGroupsOfText(e.disp);
    LoadFrom(Values(WriteWorkload(id, e)), id, e);
  }

  // Whole files

  /** A dictionary in insertion order. */
  type Dict = seq<(int, Entry)>

  function IndexOf(d: Dict, id: int): (i: nat)
    ensures i <= |d| && (i < |d| ==> d[i].0 == id) && forall k :: 0 <= k < i ==> d[k].0 != id
  {
    if d == [] || d[0].0 == id then 0 else 1 + IndexOf(d[1..], id)
  }

  /** `d[id] = e`: a known key keeps its place. */
  function Put(d: Dict, id: int, e: Entry): Dict {
    var i := IndexOf(d, id);
    if i < |d| then d[i := (id, e)] else d + [(id, e)]
  }

  /** One line. Lines with a single colon set other parameters and leave the workloads alone. */
  function LoadLine(d: Dict, line: string): Parsed<Dict> {
    if (line != "" && line[0] == '#') || Strip(line) == "" then Value(d)
    else if |Split(line, ':')| == 1 then Throws
    else if |Split(line, ':')| == 2 then Value(d)
    else
      match LoadWorkload(line)
      case Throws => Throws
      case Value(w) => Value(Put(d, w.0, w.1))
  }

  function LoadLines(lines: seq<string>): Parsed<Dict> {
    if lines == [] then Value([]) else
      match LoadLines(lines[..|lines| - 1])
      case Throws => Throws
      case Value(d) => LoadLine(d, lines[|lines| - 1])
  }

  function WriteBack(d: Dict): seq<string> {
    if d == [] then [] else WriteBack(d[..|d| - 1]) + [WriteWorkload(d[|d| - 1].0, d[|d| - 1].1)]
  }

  predicate Sound(d: Dict) {
    && (forall i :: 0 <= i < |d| ==> Loaded(d[i].1))
    && forall i, j :: 0 <= i < j < |d| ==> d[i].0 != d[j].0
  }

  lemma PutIsSound(d: Dict, id: int, e: Entry)
    requires Sound(d) && Loaded(e)
    ensures Sound(Put(d, id, e))
  {
  }

  lemma {:induction false} LoadedFileIsSound(lines: seq<string>)
    ensures LoadLines(lines).Value? ==> Sound(LoadLines(lines).value)
  {
    if lines != [] {
      var line := lines[|lines| - 1];
      LoadedFileIsSound(lines[..|lines| - 1]);
      LoadWorkloadIs(line);
      if LoadLines(lines[..|lines| - 1]).Value? && LoadWorkload(line).Value? {
        var w := LoadWorkload(line).value;
        PutIsSound(LoadLines(lines[..|lines| - 1]).value, w.0, w.1);
      }
    }
  }

  lemma LoadWrittenLine(d: Dict, id: int, e: Entry)
    requires Loaded(e) && IndexOf(d, id) == |d|
    ensures NoEmptyGroup(e) ==> LoadLine(d, WriteWorkload(id, e)) == Value(d + [(id, e)])
    ensures !NoEmptyGroup(e) ==> LoadLine(d, WriteWorkload(id, e)).Throws?
  {
    LineStripped(id, e);
    PiecesClean(id, e);
    SplitOfJoin(Pieces(id, e), ':');
    GroupTextNotEmpty(e.disp);
    JoinEnds(Pieces(id, e), ':');
    LineRoundTrip(id, e);
  }

  predicate NoEmptyGroups(d: Dict) { forall i :: 0 <= i < |d| ==> NoEmptyGroup(d[i].1) }

  lemma OneMoreLine(lines: seq<string>, d: Dict, id: int, e: Entry)
    requires LoadLines(lines) == Value(d) && Loaded(e) && IndexOf(d, id) == |d|
    ensures NoEmptyGroup(e) ==> LoadLines(lines + [WriteWorkload(id, e)]) == Value(d + [(id, e)])
    ensures !NoEmptyGroup(e) ==> LoadLines(lines + [WriteWorkload(id, e)]).Throws?
  {
    assert (lines + [WriteWorkload(id, e)])[..|lines|] == lines;
    LoadWrittenLine(d, id, e);
  }

  lemma NoMoreLines(lines: seq<string>, line: string)
    requires LoadLines(lines).Throws?
    ensures LoadLines(lines + [line]).Throws?
  {
    assert (lines + [line])[..|lines|] == lines;
  }

  lemma AllButLast(d: Dict)
    requires Sound(d) && d != []
    ensures var p, last := d[..|d| - 1], d[|d| - 1];
            && d == p + [last] && Sound(p) && Loaded(last.1) && IndexOf(p, last.0) == |p|
            && (NoEmptyGroups(d) <==> NoEmptyGroups(p) && NoEmptyGroup(last.1))
  {
  }

  lemma {:induction false} WrittenFileLoads(d: Dict)
    requires Sound(d)
    ensures NoEmptyGroups(d) ==> LoadLines(WriteBack(d)) == Value(d)
    ensures !NoEmptyGroups(d) ==> LoadLines(WriteBack(d)).Throws?
  {
    if d != [] {
      var p, last := d[..|d| - 1], d[|d| - 1];
      AllButLast(d);
      WrittenFileLoads(p);
      if NoEmptyGroups(p) {
        OneMoreLine(WriteBack(p), p, last.0, last.1);
      } else {
        NoMoreLines(WriteBack(p), WriteWorkload(last.0, last.1));
      }
    }
  }

  /** What was loaded from any text, once written back, loads to the same workloads in the same order, exactly
      when no application group is empty. */
  lemma FileRoundTrip(lines: seq<string>)
    requires LoadLines(lines).Value?
    ensures var d := LoadLines(lines).value;
            LoadLines(WriteBack(d)) == Value(d) <==> NoEmptyGroups(d)
  {
    LoadedFileIsSound(lines);
    WrittenFileLoads(LoadLines(lines).value);
  }

  /** A range written a-b is the group a, a + 1, up to b. */
  lemma RangeIsSpelledOut(a: nat, b: nat)
    ensures var g := AppGroup(Str(a) + "-" + Str(b));
            && g.Value? && |g.value| == (if b < a then 0 else b - a + 1)
            && forall i :: 0 <= i < |g.value| ==> g.value[i] == a + i
  {
    StrChars(a);
    StrChars(b);
    var p := [Str(a), Str(b)];
    assert Join(p[1..], '-') == Str(b);
    assert Join(p, '-') == Str(a) + "-" + Str(b);
    SplitOfJoin(p, '-');
    PyIntOfStr(a);
    PyIntOfStr(b);
    assert (Str(a) + "-" + Str(b))[|Str(a)|] == '-';
  }

  /** A backward range is accepted on loading and cannot be loaded back. */
  lemma BackwardRangeIsEmpty(a: nat, b: nat)
    requires b < a
    ensures AppGroup(Str(a) + "-" + Str(b)) == Value([])
  {
    RangeIsSpelledOut(a, b);
  }

  // Lines that are no workloads

  /** Comments, blank lines, and lines with exactly one colon. */
  predicate IsSkipped(line: string) {
    (line != "" && line[0] == '#') || AllSpace(line) || multiset(line)[':'] == 1
  }

  lemma BlankIff(line: string)
    ensures Strip(line) == "" <==> AllSpace(line)
  {
    var a, b := StripTakesSpace(line);
    if Strip(line) != "" {
      StripIs(line);
      assert line[|a|] == Strip(line)[0] && !IsSpace(line[|a|]);
    }
  }

  lemma SkippedLine(d: Dict, line: string)
    requires IsSkipped(line)
    ensures LoadLine(d, line) == Value(d)
  {
    BlankIff(line);
    JoinOfSplit(line, ':');
  }

  /** Lines that are no workloads change nothing, wherever they stand. */
  lemma {:induction false} SkippedAnywhere(before: seq<string>, line: string, after: seq<string>)
    requires IsSkipped(line)
    ensures LoadLines(before + [line] + after) == LoadLines(before + after)
    decreases |after|
  {
    var all := before + [line] + after;
    if after == [] {
      assert all[..|all| - 1] == before && before + after == before;
      if LoadLines(before).Value? { SkippedLine(LoadLines(before).value, line); }
    } else {
      var rest := after[..|after| - 1];
      SkippedAnywhere(before, line, rest);
      assert all[..|all| - 1] == before + [line] + rest;
      assert (before + after)[..|before + after| - 1] == before + rest;
    }
  }

  /** Any other line must be a workload: without a colon, or with another first value, it ends the loading. */
  lemma {:induction false} MalformedAnywhere(before: seq<string>, line: string, after: seq<string>)
    requires !IsSkipped(line) && (':' !in line || Values(line)[0] != "workload")
    ensures LoadLines(before + [line] + after).Throws?
    decreases |after|
  {
    var all := before + [line] + after;
    if after == [] {
      assert all[..|all| - 1] == before;
      BlankIff(line);
      JoinOfSplit(line, ':');
    } else {
      MalformedAnywhere(before, line, after[..|after| - 1]);
      assert all[..|all| - 1] == before + [line] + after[..|after| - 1];
    }
  }

  /** A second line for a workload replaces the first, in its place; a new one goes to the end. */
  lemma LaterLineReplaces(d: Dict, id: int, e: Entry, i: nat)
    requires Sound(d) && i <= |d| && (i < |d| ==> d[i].0 == id) && (i == |d| ==> forall k :: 0 <= k < |d| ==> d[k].0 != id)
    requires Loaded(e) && NoEmptyGroup(e)
    ensures LoadLine(d, WriteWorkload(id, e)) == Value(if i < |d| then d[i := (id, e)] else d + [(id, e)])
  {
    LineStripped(id, e);
    PiecesClean(id, e);
    SplitOfJoin(Pieces(id, e), ':');
    GroupTextNotEmpty(e.disp);
    JoinEnds(Pieces(id, e), ':');
    LineRoundTrip(id, e);
    var k := IndexOf(d, id);
    assert k == i;
  }

  // The tuner's verifier

  /** Cores in the groups of one workload. */
  function Cores(groups: seq<seq<int>>): nat {
    if groups == [] then 0 else Cores(groups[..|groups| - 1]) + |groups[|groups| - 1]|
  }

  function AppCores(d: Dict): nat {
    if d == [] then 0 else AppCores(d[..|d| - 1]) + Cores(d[|d| - 1].1.app)
  }

  function DispCores(d: Dict): nat {
    if d == [] then 0 else DispCores(d[..|d| - 1]) + Cores(d[|d| - 1].1.disp)
  }

  /** The places of the cores in some groups. */
  function Seats(groups: seq<seq<int>>): set<(nat, nat)> {
    set g: nat, j: nat | g < |groups| && j < |groups[g]| :: (g, j)
  }

  lemma {:induction false} CoresAreSeats(groups: seq<seq<int>>)
    ensures Cores(groups) == |Seats(groups)|
  {
    if groups == [] {
      assert Seats(groups) == {};
    } else {
      var n := |groups| - 1;
      CoresAreSeats(groups[..n]);
      RowSeats(n, |groups[n]|);
      assert Seats(groups) == Seats(groups[..n]) + set j: nat | j < |groups[n]| :: (n, j);
    }
  }

  lemma {:induction false} RowSeats(g: nat, n: nat)
    ensures |set j: nat | j < n :: (g, j)| == n
  {
    if n == 0 {
      assert (set j: nat | j < n :: (g, j)) == {};
    } else {
      RowSeats(g, n - 1);
      assert (set j: nat | j < n :: (g, j)) == (set j: nat | j < n - 1 :: (g, j)) + {(g, n - 1)};
    }
  }

  lemma {:induction false} Tagged(i: nat, s: set<(nat, nat)>)
    ensures |set p | p in s :: (i, p)| == |s|
  {
    if s == {} {
      assert (set p | p in s :: (i, p)) == {};
    } else {
      var q :| q in s;
      Tagged(i, s - {q});
      assert (set p | p in s :: (i, p)) == (set p | p in s - {q} :: (i, p)) + {(i, q)};
    }
  }

  /** The places of the cores in several lists of groups. */
  function AllSeats(gs: seq<seq<seq<int>>>): set<(nat, (nat, nat))> {
    set i: nat, p | i < |gs| && p in Seats(gs[i]) :: (i, p)
  }

  lemma SeatsNext(gs: seq<seq<seq<int>>>, last: seq<seq<int>>)
    ensures |AllSeats(gs + [last])| == |AllSeats(gs)| + Cores(last)
  {
    var n: nat := |gs|;
    var tagged := set p | p in Seats(last) :: (n, p);
    Tagged(n, Seats(last));
    CoresAreSeats(last);
    SeatsSplit(gs, last);
    assert AllSeats(gs) !! tagged;
  }

  lemma SeatsSplit(gs: seq<seq<seq<int>>>, last: seq<seq<int>>)
    ensures AllSeats(gs + [last]) == AllSeats(gs) + set p | p in Seats(last) :: (|gs|, p)
  {
    var more := gs + [last];
    assert more[|gs|] == last && forall i: nat :: i < |gs| ==> more[i] == gs[i];
  }

  /** The application groups, and the dispatcher groups, of each workload. */
  function AppGroupsOf(d: Dict): seq<seq<seq<int>>> { seq(|d|, i requires 0 <= i < |d| => d[i].1.app) }

  function DispGroupsOf(d: Dict): seq<seq<seq<int>>> { seq(|d|, i requires 0 <= i < |d| => d[i].1.disp) }

  /** The verifier compares its two settings with the numbers of cores in the groups. */
  lemma {:induction false} CoresAreCounted(d: Dict)
    ensures AppCores(d) == |AllSeats(AppGroupsOf(d))| && DispCores(d) == |AllSeats(DispGroupsOf(d))|
  {
    if d == [] {
      assert AllSeats(AppGroupsOf(d)) == {} && AllSeats(DispGroupsOf(d)) == {};
    } else {
      var p, last := d[..|d| - 1], d[|d| - 1].1;
      CoresAreCounted(p);
      assert AppGroupsOf(d) == AppGroupsOf(p) + [last.app] && DispGroupsOf(d) == DispGroupsOf(p) + [last.disp];
      SeatsNext(AppGroupsOf(p), last.app);
      SeatsNext(DispGroupsOf(p), last.disp);
    }
  }

  /** One dispatcher core for each application group. */
  predicate OneDispatcherEach(e: Entry) {
    |e.disp| == |e.app| && forall g :: 0 <= g < |e.disp| ==> |e.disp[g]| == 1
  }

  /** What `verify_tunable_paras` accepts. */
  predicate Verified(d: Dict, appCoreNum: int, dispQueueNum: int) {
    && AppCores(d) == appCoreNum && DispCores(d) == dispQueueNum
    && forall i :: 0 <= i < |d| ==> OneDispatcherEach(d[i].1)
  }

  lemma {:induction false} CoresOfSingles(groups: seq<seq<int>>)
    requires forall g :: 0 <= g < |groups| ==> |groups[g]| == 1
    ensures Cores(groups) == |groups|
  {
    if groups != [] { CoresOfSingles(groups[..|groups| - 1]); }
  }

  function GroupNum(d: Dict): nat {
    if d == [] then 0 else GroupNum(d[..|d| - 1]) + |d[|d| - 1].1.app|
  }

  /** In a verified configuration there are as many dispatcher queues as application groups. */
  lemma {:induction false} QueuePerGroup(d: Dict)
    requires forall i :: 0 <= i < |d| ==> OneDispatcherEach(d[i].1)
    ensures DispCores(d) == GroupNum(d)
  {
    if d != [] {
      QueuePerGroup(d[..|d| - 1]);
      CoresOfSingles(d[|d| - 1].1.disp);
    }
  }

  class Config {
    var workloads: Dict // the four workloads_map_* dictionaries, which always have the same keys

    constructor ()
      ensures workloads == []
    {
      workloads := [];
    }

    /** `for core in text.split(","): tmp.append(int(core))`. */
    static method ParseInts(text: string) returns (r: Parsed<seq<int>>)
      ensures r == IntList(text)
    {
      var pieces, xs := Split(text, ','), [];
      for i := 0 to |pieces|
        invariant Each(pieces[..i], PyInt) == Value(xs)
      {
        var x := PyInt(pieces[i]);
        if x.Throws? {
          EachThrows(pieces, PyInt, i);
          return Throws;
        }
        EachNext(pieces, PyInt, i, xs, x.value);
        xs := xs + [x.value];
      }
      assert pieces[..|pieces|] == pieces;
      r := Value(xs);
    }

    /** `for core in range(start, end + 1): tmp.append(core)`. */
    static method AppendRange(start: int, end: int) returns (tmp: seq<int>)
      ensures tmp == Range(start, end)
    {
      tmp := [];
      var core := start;
      while core <= end
        invariant core == start || core <= end + 1
        invariant start <= core && tmp == Range(start, core - 1)
      {
        tmp := tmp + [core];
        core := core + 1;
      }
    }

    static method ParseAppGroup(group: string) returns (r: Parsed<seq<int>>)
      ensures r == AppGroup(group)
    {
      if '-' !in group {
        r := ParseInts(group);
        return;
      }
      var p := Split(group, '-');
      if |p| != 2 { return Throws; }
      var start, end := PyInt(p[0]), PyInt(p[1]);
      if start.Throws? || end.Throws? { return Throws; }
      var tmp := AppendRange(start.value, end.value);
      r := Value(tmp);
    }

    static method ParseAppGroups(text: string) returns (r: Parsed<seq<seq<int>>>)
      ensures r == AppGroups(text)
    {
      var pieces, groups := Split(text, '|'), [];
      for i := 0 to |pieces|
        invariant Each(pieces[..i], AppGroup) == Value(groups)
      {
        var g := ParseAppGroup(pieces[i]);
        if g.Throws? {
          EachThrows(pieces, AppGroup, i);
          return Throws;
        }
        EachNext(pieces, AppGroup, i, groups, g.value);
        groups := groups + [g.value];
      }
      assert pieces[..|pieces|] == pieces;
      r := Value(groups);
    }

    static method ParseDispGroups(text: string) returns (r: Parsed<seq<seq<int>>>)
      ensures r == DispGroups(text)
    {
      var pieces, groups := Split(text, '|'), [];
      for i := 0 to |pieces|
        invariant Each(pieces[..i], IntList) == Value(groups)
      {
        var g := ParseInts(pieces[i]);
        if g.Throws? {
          EachThrows(pieces, IntList, i);
          return Throws;
        }
        EachNext(pieces, IntList, i, groups, g.value);
        groups := groups + [g.value];
      }
      assert pieces[..|pieces|] == pieces;
      r := Value(groups);
    }

    static method ParseWorkload(line: string) returns (r: Parsed<(int, Entry)>)
      ensures r == LoadWorkload(line)
    {
      var v := Values(line);
      if |v| < 6 || v[0] != "workload" { return Throws; }
      var id := PyInt(v[1]);
      var remote := ParseInts(v[3]);
      var app := ParseAppGroups(v[4]);
      var disp := ParseDispGroups(v[5]);
      if id.Throws? || remote.Throws? || app.Throws? || disp.Throws? { return Throws; }
      r := Value((id.value, Entry(v[2], remote.value, app.value, disp.value)));
    }

    /** `load_config`; false means that an exception ended it. */
    method LoadConfig(lines: seq<string>) returns (ok: bool)
      modifies this
      requires workloads == []
      ensures ok <==> LoadLines(lines).Value?
      ensures ok ==> LoadLines(lines) == Value(workloads)
    {
      for i := 0 to |lines|
        invariant LoadLines(lines[..i]) == Value(workloads)
      {
        assert lines[..i + 1][..i] == lines[..i];
        var line := lines[i];
        var blank := (line != "" && line[0] == '#') || Strip(line) == "";
        if !blank {
          if |Split(line, ':')| == 1 {
            StillThrows(lines, i);
            return false;
          }
          if |Split(line, ':')| != 2 {
            var w := ParseWorkload(line);
            if w.Throws? {
              StillThrows(lines, i);
              return false;
            }
            workloads := Put(workloads, w.value.0, w.value.1);
          }
        }
      }
      assert lines[..|lines|] == lines;
      ok := true;
    }

    static method CountCores(groups: seq<seq<int>>) returns (n: nat)
      ensures n == Cores(groups)
    {
      n := 0;
      for g := 0 to |groups|
        invariant n == Cores(groups[..g])
      {
        assert groups[..g + 1][..g] == groups[..g];
        n := n + |groups[g]|;
      }
      assert groups[..|groups|] == groups;
    }

    static method AllSingle(groups: seq<seq<int>>) returns (ok: bool)
      ensures ok <==> forall g :: 0 <= g < |groups| ==> |groups[g]| == 1
    {
      for g := 0 to |groups|
        invariant forall k :: 0 <= k < g ==> |groups[k]| == 1
      {
        if |groups[g]| != 1 { return false; }
      }
      ok := true;
    }

    /** `verify_tunable_paras`; false means that it raised an exception. */
    method VerifyTunableParas(appCoreNum: int, dispQueueNum: int) returns (ok: bool)
      ensures ok <==>
                && AppCores(workloads) == appCoreNum && DispCores(workloads) == dispQueueNum
                && forall i :: 0 <= i < |workloads| ==>
                     && |workloads[i].1.disp| == |workloads[i].1.app|
                     && forall g :: 0 <= g < |workloads[i].1.disp| ==> |workloads[i].1.disp[g]| == 1
    {
      var appGroupNum, coreNum := [], 0;
      for i := 0 to |workloads|
        invariant |appGroupNum| == i && forall k :: 0 <= k < i ==> appGroupNum[k] == |workloads[k].1.app|
        invariant coreNum == AppCores(workloads[..i])
      {
        assert workloads[..i + 1][..i] == workloads[..i];
        appGroupNum := appGroupNum + [|workloads[i].1.app|];
        var n := CountCores(workloads[i].1.app);
        coreNum := coreNum + n;
      }
      assert workloads[..|workloads|] == workloads;
      if coreNum != appCoreNum { return false; }
      coreNum := 0;
      for idx := 0 to |workloads|
        invariant coreNum == DispCores(workloads[..idx])
        invariant forall k :: 0 <= k < idx ==> OneDispatcherEach(workloads[k].1)
      {
        assert workloads[..idx + 1][..idx] == workloads[..idx];
        if |workloads[idx].1.disp| != appGroupNum[idx] { return false; }
        var single := AllSingle(workloads[idx].1.disp);
        if !single { return false; }
        var n := CountCores(workloads[idx].1.disp);
        coreNum := coreNum + n;
      }
      ok := coreNum == dispQueueNum;
    }

    /** `write_back`: one line per workload, in dictionary order. */
    method WriteBackLines() returns (lines: seq<string>)
      ensures lines == WriteBack(workloads)
    {
      lines := [];
      for i := 0 to |workloads|
        invariant lines == WriteBack(workloads[..i])
      {
        assert workloads[..i + 1][..i] == workloads[..i];
        lines := lines + [WriteWorkload(workloads[i].0, workloads[i].1)];
      }
      assert workloads[..|workloads|] == workloads;
    }
  }

  lemma {:induction false} StillThrows(lines: seq<string>, i: nat)
    requires i < |lines| && LoadLines(lines[..i + 1]).Throws?
    ensures LoadLines(lines).Throws?
    decreases |lines|
  {
    if i == |lines| - 1 {
      assert lines[..i + 1] == lines;
    } else {
      assert lines[..|lines| - 1][..i + 1] == lines[..i + 1];
      StillThrows(lines[..|lines| - 1], i);
    }
  }
}
