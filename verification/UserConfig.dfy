/** Workload lines as the datapath reads them (`src/config.h`, `src/config.cc`).

    A line holds the workload type, the pipeline phases, the remote dispatchers, the application groups and
    the dispatchers, separated by colons; groups are separated by bars and workspaces by commas, or given as
    a range. Every workspace id is checked against the number of workspaces, and no application workspace
    may be assigned twice. A failed check and an exception of `std::stoi` both end the program. */
module UserConfig {
  import opened Text
  import opened PyText
  import opened ConfigFile

  const WS_LIMIT: int := 17       // kInvalidWsId
  const WORKLOAD_LIMIT: int := 17 // kInvalidWorkloadType
  const BYTE: int := 256

  function TrimLeft(s: string): string {
    if s != "" && s[0] == ' ' then TrimLeft(s[1..]) else s
  }

  function TrimRight(s: string): string {
    if s != "" && s[|s| - 1] == ' ' then TrimRight(s[..|s| - 1]) else s
  }

  /** `trim`: a blank text makes `substr` throw. */
  function Trim(s: string): Parsed<string> {
    var t := TrimRight(TrimLeft(s));
    if t == "" then Throws else Value(t)
  }

  /** `uint8_t ws_id = std::stoi(text)` and its range check. */
  function WsId(s: string): Parsed<int> {
    match Stoi(s)
    case Throws => Throws
    case Value(n) => if n % BYTE < WS_LIMIT then Value(n % BYTE) else Throws
  }

  /** Which workload and which group a workspace belongs to. */
  datatype Owners = Owners(workload: map<int, int>, group: map<int, int>)

  function Assign(o: Owners, kind: int, g: int, ids: seq<int>): Parsed<Owners> {
    if ids == [] then Value(o) else
      match Assign(o, kind, g, ids[..|ids| - 1])
      case Throws => Throws
      case Value(p) =>
        var ws := ids[|ids| - 1];
        if ws in p.workload then Throws // "Workspace already assigned to a workload"
        else Value(Owners(p.workload[ws := kind], p.group[ws := g]))
  }

  datatype GroupInfo = Malformed | Ids(ids: seq<int>)

  /** A group's workspaces; `a-b` is spelled out. A malformed group is reported and skipped. */
  function GroupIds(s: string): Parsed<GroupInfo> {
    if '-' in s then
      var p := Tokens(s, '-');
      if |p| != 2 then Value(Malformed)
      else if WsId(p[0]).Throws? || WsId(p[1]).Throws? then Throws
      else Value(Ids(Range(WsId(p[0]).value, WsId(p[1]).value)))
    else
      var p := Tokens(s, ',');
      if p == [] then Value(Malformed) else
        match Each(p, WsId)
        case Throws => Throws
        case Value(ids) => Value(Ids(ids))
  }

  /** One more group after those of r; a malformed one takes no index. */
  function NextGroup(r: (Owners, seq<seq<int>>), kind: int, text: string): Parsed<(Owners, seq<seq<int>>)> {
    match GroupIds(text)
    case Throws => Throws
    case Value(Malformed) => Value(r)
    case Value(Ids(ids)) =>
      match Assign(r.0, kind, |r.1|, ids)
      case Throws => Throws
      case Value(p) => Value((p, r.1 + [ids]))
  }

  function ReadGroups(o: Owners, kind: int, texts: seq<string>): Parsed<(Owners, seq<seq<int>>)> {
    if texts == [] then Value((o, [])) else
      match ReadGroups(o, kind, texts[..|texts| - 1])
      case Throws => Throws
      case Value(r) => NextGroup(r, kind, texts[|texts| - 1])
  }

  /** The maps of `workloads_config`. */
  datatype Maps = Maps(phases: map<int, seq<string>>, app: map<int, seq<seq<int>>>, disp: map<int, seq<int>>,
                       remote: map<int, seq<int>>, owners: Owners)

  function Add<T>(m: map<int, seq<T>>, k: int, more: seq<T>): map<int, seq<T>> {
    if more == [] then m else m[k := if k in m then m[k] + more else more]
  }

  /** `config_workload`: type, phases, remote dispatchers, application groups, dispatchers; further values have
      no effect. */
  function ConfigWorkload(m: Maps, values: seq<string>): Parsed<Maps> {
    if values == [] then Value(m) else
    if Stoi(values[0]).Throws? || Stoi(values[0]).value % BYTE >= WORKLOAD_LIMIT then Throws else
      var kind := Stoi(values[0]).value % BYTE;
      var phases := if |values| > 1 then Tokens(values[1], ',') else [];
      var remote := if |values| > 2 then Each(Tokens(values[2], ','), WsId) else Value([]);
      var groups := ReadGroups(m.owners, kind, if |values| > 3 then Tokens(values[3], '|') else []);
      var disp := if |values| > 4 then Each(Tokens(values[4], '|'), WsId) else Value([]);
      if remote.Throws? || groups.Throws? || disp.Throws? then Throws else
        Value(Maps(Add(m.phases, kind, phases), Add(m.app, kind, groups.value.1), Add(m.disp, kind, disp.value),
                   Add(m.remote, kind, remote.value), groups.value.0))
  }

  /** The first character that is no space is a hash. */
  predicate IsComment(line: string) {
    var t := TrimLeft(line);
    t != "" && t[0] == '#'
  }

  /** A line of `load`: comments and lines of one piece are skipped, a blank piece of another makes `trim` throw, and
      keys other than `workload` do not concern the maps. */
  function ReadLine(m: Maps, line: string): Parsed<Maps> {
    if IsComment(line) || |Tokens(line, ':')| < 2 then Value(m) else
      match Each(Tokens(line, ':'), Trim)
      case Throws => Throws
      case Value(v) => if v == [] || v[0] != "workload" then Value(m) else ConfigWorkload(m, v[1..])
  }

  // Reading what the tuner wrote

  predicate InRange(xs: seq<int>) { forall i :: 0 <= i < |xs| ==> 0 <= xs[i] < WS_LIMIT }

  predicate Fresh(ids: seq<int>, o: Owners) { forall i :: 0 <= i < |ids| ==> ids[i] !in o.workload }

  /** No workspace stands twice in the groups. */
  predicate AllDistinct(groups: seq<seq<int>>) {
    && (forall g, i, j :: 0 <= g < |groups| && 0 <= i < j < |groups[g]| ==> groups[g][i] != groups[g][j])
    && (forall g, h, i, j :: 0 <= g < h < |groups| && 0 <= i < |groups[g]| && 0 <= j < |groups[h]| ==>
          groups[g][i] != groups[h][j])
  }

  /** What the tuner's verifier checks of one workload (`config_parser.py:98-120`), ids in range, and every
      application workspace assigned once. */
  predicate Accepted(o: Owners, id: int, e: Entry) {
    && Loaded(e) && NoEmptyGroup(e) && e.phases != "" && 0 <= id < WORKLOAD_LIMIT
    && OneDispatcherEach(e) && (forall g :: 0 <= g < |e.disp| ==> InRange(e.disp[g]))
    && InRange(e.remote) && (forall g :: 0 <= g < |e.app| ==> InRange(e.app[g]) && Fresh(e.app[g], o))
    && AllDistinct(e.app)
  }

  lemma WsIdOfStr(n: int)
    requires 0 <= n < WS_LIMIT
    ensures WsId(Str(n)) == Value(n)
  {
    StoiOfDec(n);
  }

  lemma IntTextTokens(xs: seq<int>)
    requires xs != [] && InRange(xs)
    ensures Tokens(IntText(xs), ',') == Texts(xs, Str) && Each(Tokens(IntText(xs), ','), WsId) == Value(xs)
  {
    var t := Texts(xs, Str);
    forall i | 0 <= i < |xs| ensures ',' !in t[i] && t[i] != "" && WsId(t[i]) == Value(xs[i]) {
      StrChars(xs[i]);
      WsIdOfStr(xs[i]);
    }
    TokensOfJoin(t, ',');
    EachIs(t, WsId, xs);
  }

  lemma GroupIdsOfText(xs: seq<int>)
    requires xs != [] && InRange(xs)
    ensures GroupIds(IntText(xs)) == Value(Ids(xs))
  {
    IntTextChars(xs, '-');
    IntTextTokens(xs);
  }

  /** The ids, and no others, have become the workload's. */
  ghost predicate Assigned(p: Owners, o: Owners, kind: int, g: int, ids: seq<int>) {
    && (forall x :: x in p.workload <==> x in o.workload || x in ids)
    && (forall x :: x in o.workload && x !in ids ==> p.workload[x] == o.workload[x])
    && (forall x :: x in p.group <==> x in o.group || x in ids)
    && (forall x :: x in o.group && x !in ids ==> p.group[x] == o.group[x])
    && (forall x :: x in ids ==> p.workload[x] == kind && p.group[x] == g)
  }

  lemma AssignedNext(p: Owners, o: Owners, kind: int, g: int, ids: seq<int>, ws: int)
    requires Assigned(p, o, kind, g, ids)
    ensures Assigned(Owners(p.workload[ws := kind], p.group[ws := g]), o, kind, g, ids + [ws])
  {
  }

  lemma {:induction false} AssignIs(o: Owners, kind: int, g: int, ids: seq<int>)
    requires Fresh(ids, o) && forall i, j :: 0 <= i < j < |ids| ==> ids[i] != ids[j]
    ensures Assign(o, kind, g, ids).Value? && Assigned(Assign(o, kind, g, ids).value, o, kind, g, ids)
  {
    if ids != [] {
      var n := |ids| - 1;
      AssignIs(o, kind, g, ids[..n]);
      AssignedNext(Assign(o, kind, g, ids[..n]).value, o, kind, g, ids[..n], ids[n]);
      assert ids == ids[..n] + [ids[n]];
    }
  }

  /** The owners after these groups: each of their workspaces belongs to the workload and to its group, and
      nothing else has changed hands. */
  ghost predicate Owned(p: Owners, o: Owners, kind: int, groups: seq<seq<int>>) {
    && (forall x :: x in p.workload ==> x in o.workload || InSome(groups, x))
    && (forall x :: x in o.workload ==> x in p.workload && p.workload[x] == o.workload[x])
    && (forall x :: x in o.group && !InSome(groups, x) ==> x in p.group && p.group[x] == o.group[x])
    && (forall g, x :: 0 <= g < |groups| && x in groups[g] ==>
          x in p.workload && x in p.group && p.workload[x] == kind && p.group[x] == g)
  }

  ghost predicate InSome(groups: seq<seq<int>>, x: int) {
    exists g :: 0 <= g < |groups| && x in groups[g]
  }

  lemma NextIsFresh(p: Owners, o: Owners, kind: int, groups: seq<seq<int>>, ids: seq<int>)
    requires Owned(p, o, kind, groups) && Fresh(ids, o) && AllDistinct(groups + [ids])
    ensures Fresh(ids, p) && forall i, j :: 0 <= i < j < |ids| ==> ids[i] != ids[j]
    ensures forall g, x :: 0 <= g < |groups| && x in groups[g] ==> x !in ids
  {
    var all := groups + [ids];
    assert all[|groups|] == ids && forall g :: 0 <= g < |groups| ==> all[g] == groups[g];
    forall g, x | 0 <= g < |groups| && x in groups[g] ensures x !in ids {
      var i :| 0 <= i < |groups[g]| && groups[g][i] == x;
      assert forall j :: 0 <= j < |ids| ==> all[g][i] != all[|groups|][j];
    }
  }

  lemma OwnedNext(p: Owners, o: Owners, kind: int, groups: seq<seq<int>>, ids: seq<int>)
    requires Owned(p, o, kind, groups) && Fresh(ids, p)
    requires forall i, j :: 0 <= i < j < |ids| ==> ids[i] != ids[j]
    requires forall g, x :: 0 <= g < |groups| && x in groups[g] ==> x !in ids
    ensures Assign(p, kind, |groups|, ids).Value?
    ensures Owned(Assign(p, kind, |groups|, ids).value, o, kind, groups + [ids])
  {
    AssignIs(p, kind, |groups|, ids);
    var q, all := Assign(p, kind, |groups|, ids).value, groups + [ids];
    assert forall g :: 0 <= g < |groups| ==> all[g] == groups[g];
    assert all[|groups|] == ids;
    forall x | InSome(groups, x) ensures InSome(all, x) {
      var g :| 0 <= g < |groups| && x in groups[g];
      assert x in all[g];
    }
    forall x | x in ids ensures InSome(all, x) { assert x in all[|groups|]; }
  }

  lemma {:induction false} ReadGroupsIs(o: Owners, kind: int, groups: seq<seq<int>>, texts: seq<string>)
    requires |texts| == |groups| && AllDistinct(groups)
    requires forall g :: 0 <= g < |groups| ==> Fresh(groups[g], o) && GroupIds(texts[g]) == Value(Ids(groups[g]))
    ensures ReadGroups(o, kind, texts).Value? && ReadGroups(o, kind, texts).value.1 == groups
    ensures Owned(ReadGroups(o, kind, texts).value.0, o, kind, groups)
  {
    if groups != [] {
      var n := |groups| - 1;
      assert groups == groups[..n] + [groups[n]];
      ReadGroupsIs(o, kind, groups[..n], texts[..n]);
      var p := ReadGroups(o, kind, texts[..n]).value.0;
      NextIsFresh(p, o, kind, groups[..n], groups[n]);
      OwnedNext(p, o, kind, groups[..n], groups[n]);
    }
  }

  lemma TrimLeftPadded(s: string)
    ensures TrimLeft(" " + s) == TrimLeft(s)
  {
    assert (" " + s)[1..] == s;
  }

  lemma TrimRightPadded(s: string)
    ensures TrimRight(s + " ") == TrimRight(s)
  {
    assert (s + " ")[..|s|] == s;
  }

  lemma TrimPadded(s: string)
    requires Stripped(s) && s != ""
    ensures Trim(" " + s + " ") == Value(s) && Trim(" " + s) == Value(s) && Trim(s + " ") == Value(s)
  {
    assert " " + s + " " == " " + (s + " ");
    TrimLeftPadded(s + " ");
    TrimLeftPadded(s);
    TrimRightPadded(s);
    assert (s + " ")[0] == s[0];
    assert TrimLeft(s + " ") == s + " " && TrimLeft(s) == s && TrimRight(s) == s;
  }

  /** The dispatchers, one per group. */
  function Singles(disp: seq<seq<int>>): seq<int>
    requires forall g :: 0 <= g < |disp| ==> |disp[g]| == 1
  {
    seq(|disp|, g requires 0 <= g < |disp| => disp[g][0])
  }

  lemma OneText(xs: seq<int>)
    requires |xs| == 1
    ensures IntText(xs) == Str(xs[0])
  {
    assert Texts(xs, Str) == [Str(xs[0])];
  }

  lemma OneDispatcher(xs: seq<int>)
    requires |xs| == 1 && InRange(xs)
    ensures '|' !in IntText(xs) && IntText(xs) != "" && WsId(IntText(xs)) == Value(xs[0])
  {
    OneText(xs);
    StrChars(xs[0]);
    WsIdOfStr(xs[0]);
  }

  lemma DispatchersRead(disp: seq<seq<int>>)
    requires disp != [] && forall g :: 0 <= g < |disp| ==> |disp[g]| == 1 && InRange(disp[g])
    ensures Each(Tokens(GroupText(disp), '|'), WsId) == Value(Singles(disp))
  {
    var t := Texts(disp, IntText);
    forall g | 0 <= g < |disp| ensures '|' !in t[g] && t[g] != "" && WsId(t[g]) == Value(disp[g][0]) {
      OneDispatcher(disp[g]);
    }
    TokensOfJoin(t, '|');
    EachIs(t, WsId, Singles(disp));
  }

  lemma GroupsRead(o: Owners, kind: int, groups: seq<seq<int>>)
    requires groups != [] && AllDistinct(groups)
    requires forall g :: 0 <= g < |groups| ==> groups[g] != [] && InRange(groups[g]) && Fresh(groups[g], o)
    ensures var r := ReadGroups(o, kind, Tokens(GroupText(groups), '|'));
            r.Value? && r.value.1 == groups && Owned(r.value.0, o, kind, groups)
  {
    var t := Texts(groups, IntText);
    forall g | 0 <= g < |groups| ensures '|' !in t[g] && t[g] != "" && GroupIds(t[g]) == Value(Ids(groups[g])) {
      IntTextChars(groups[g], '|');
      GroupIdsOfText(groups[g]);
      TextNotEmpty(groups[g]);
    }
    TokensOfJoin(t, '|');
    ReadGroupsIs(o, kind, groups, t);
  }

  lemma TextNotEmpty(xs: seq<int>)
    requires xs != []
    ensures IntText(xs) != ""
  {
    StrChars(xs[|xs| - 1]);
    JoinLast(Texts(xs, Str), ',');
  }

  lemma FirstPiecesTrim(id: int, e: Entry)
    requires Loaded(e) && e.phases != ""
    ensures Trim(Pieces(id, e)[0]) == Value("workload") && Trim(Pieces(id, e)[1]) == Value(Str(id))
    ensures Trim(Pieces(id, e)[2]) == Value(e.phases)
  {
    KeywordTrims();
    IdTrims(id);
    TrimPadded(e.phases);
  }

  lemma KeywordTrims()
    ensures Trim("workload ") == Value("workload")
  {
    assert "workload" + " " == "workload ";
    TrimPadded("workload");
  }

  lemma IdTrims(id: int)
    ensures Trim(" " + Str(id) + " ") == Value(Str(id))
  {
    StrStripped(id);
    StrChars(id);
    TrimPadded(Str(id));
  }

  lemma LastPiecesTrim(id: int, e: Entry)
    requires Loaded(e) && NoEmptyGroup(e)
    ensures Trim(Pieces(id, e)[3]) == Value(IntText(e.remote))
    ensures Trim(Pieces(id, e)[4]) == Value(GroupText(e.app)) && Trim(Pieces(id, e)[5]) == Value(GroupText(e.disp))
  {
    TextsStripped(e.remote, e.app);
    TextsStripped(e.remote, e.disp);
    TextNotEmpty(e.remote);
    GroupTextNotEmpty(e.app);
    GroupTextNotEmpty(e.disp);
    TrimPadded(IntText(e.remote));
    TrimPadded(GroupText(e.app));
    TrimPadded(GroupText(e.disp));
  }

  lemma {:induction false} JoinStarts(pieces: seq<string>, d: char)
    requires pieces != []
    ensures pieces[0] <= Join(pieces, d)
  {
    if |pieces| > 1 { JoinStarts(pieces[..|pieces| - 1], d); }
  }

  /** The datapath gets the six values that the tuner wrote. */
  lemma ReadValues(id: int, e: Entry)
    requires Loaded(e) && NoEmptyGroup(e) && e.phases != ""
    ensures Each(Tokens(WriteWorkload(id, e), ':'), Trim).Value?
    ensures WrittenAs(Each(Tokens(WriteWorkload(id, e), ':'), Trim).value, id, e) && !IsComment(WriteWorkload(id, e))
  {
    PiecesClean(id, e);
    JoinStarts(Pieces(id, e), ':');
    assert WriteWorkload(id, e)[0] == 'w';
    TokensOfJoin(Pieces(id, e), ':');
    FirstPiecesTrim(id, e);
    LastPiecesTrim(id, e);
    var v := ["workload", Str(id), e.phases, IntText(e.remote), GroupText(e.app), GroupText(e.disp)];
    EachIs(Pieces(id, e), Trim, v);
  }

  /** The maps know nothing of this workload yet. */
  predicate NewWorkload(m: Maps, id: int) {
    id !in m.phases && id !in m.app && id !in m.disp && id !in m.remote
  }

  /** The maps after an entry was read. */
  ghost predicate ReadAs(r: Maps, m: Maps, id: int, e: Entry)
    requires forall g :: 0 <= g < |e.disp| ==> |e.disp[g]| == 1
  {
    && r.app == m.app[id := e.app] && r.disp == m.disp[id := Singles(e.disp)]
    && r.remote == m.remote[id := e.remote] && r.phases == m.phases[id := Tokens(e.phases, ',')]
    && Owned(r.owners, m.owners, id, e.app)
  }

  lemma ConfigWorkloadIs(m: Maps, v: seq<string>, id: int, remote: seq<int>, groups: seq<seq<int>>, owners: Owners,
                         disp: seq<int>)
    requires |v| == 5 && Stoi(v[0]) == Value(id) && 0 <= id < WORKLOAD_LIMIT
    requires Each(Tokens(v[2], ','), WsId) == Value(remote) && ReadGroups(m.owners, id, Tokens(v[3], '|')) == Value((owners, groups))
    requires Each(Tokens(v[4], '|'), WsId) == Value(disp)
    ensures ConfigWorkload(m, v)
         == Value(Maps(Add(m.phases, id, Tokens(v[1], ',')), Add(m.app, id, groups), Add(m.disp, id, disp),
                       Add(m.remote, id, remote), owners))
  {
    SmallByte(id);
  }

  lemma SmallByte(n: int)
    requires 0 <= n < BYTE
    ensures n % BYTE == n
  {
  }

  lemma ValuesRead(m: Maps, id: int, e: Entry, v: seq<string>)
    requires Accepted(m.owners, id, e) && NewWorkload(m, id) && |v| == 5 && v[0] == Str(id) && v[1] == e.phases
    requires v[2] == IntText(e.remote) && v[3] == GroupText(e.app) && v[4] == GroupText(e.disp)
    ensures ConfigWorkload(m, v).Value? && ReadAs(ConfigWorkload(m, v).value, m, id, e)
  {
    StoiOfDec(id);
    IntTextTokens(e.remote);
    GroupsRead(m.owners, id, e.app);
    DispatchersRead(e.disp);
    var owners := ReadGroups(m.owners, id, Tokens(v[3], '|')).value.0;
    ConfigWorkloadIs(m, v, id, e.remote, e.app, owners, Singles(e.disp));
    assert Tokens(e.phases, ',') != [];
  }

  lemma ReadLineIs(m: Maps, line: string, v: seq<string>)
    requires Each(Tokens(line, ':'), Trim) == Value(v) && |v| == 6 && v[0] == "workload" && !IsComment(line)
    ensures ReadLine(m, line) == ConfigWorkload(m, v[1..])
  {
    EachIs(Tokens(line, ':'), Trim, v);
  }

  /** For an entry that the tuner's verifier accepts, the datapath reads the written line back as the same
      groups, dispatchers and remote dispatchers, and enters every worker under its workload and group. */
  lemma DatapathReadsTheSame(m: Maps, id: int, e: Entry)
    requires Accepted(m.owners, id, e) && NewWorkload(m, id)
    ensures ReadLine(m, WriteWorkload(id, e)).Value? && ReadAs(ReadLine(m, WriteWorkload(id, e)).value, m, id, e)
  {
    ReadValues(id, e);
    var v := Each(Tokens(WriteWorkload(id, e), ':'), Trim).value;
    ReadLineIs(m, WriteWorkload(id, e), v);
    ValuesRead(m, id, e, v[1..]);
  }

  // Whole files

  function NoMaps(): Maps { Maps(map[], map[], map[], map[], Owners(map[], map[])) }

  function ReadLines(lines: seq<string>): Parsed<Maps> {
    if lines == [] then Value(NoMaps()) else
      match ReadLines(lines[..|lines| - 1])
      case Throws => Throws
      case Value(m) => ReadLine(m, lines[|lines| - 1])
  }

  ghost predicate HasId(d: Dict, k: int) { exists i :: 0 <= i < |d| && d[i].0 == k }

  ghost predicate HasWorker(d: Dict, x: int) { exists i :: 0 <= i < |d| && InSome(d[i].1.app, x) }

  /** Each workload is acceptable by itself, and no worker serves two. */
  ghost predicate AcceptedFile(d: Dict) {
    && (forall i :: 0 <= i < |d| ==> Accepted(Owners(map[], map[]), d[i].0, d[i].1))
    && (forall i, j :: 0 <= i < j < |d| ==> d[i].0 != d[j].0)
    && (forall i, j, x :: 0 <= i < j < |d| && InSome(d[i].1.app, x) ==> !InSome(d[j].1.app, x))
  }

  /** The maps hold exactly the workloads of the dictionary, and the right owner of every worker. */
  ghost predicate Holds(m: Maps, d: Dict)
    requires AcceptedFile(d)
  {
    && (forall k :: k in m.app || k in m.disp || k in m.remote || k in m.phases ==> HasId(d, k))
    && (forall x :: x in m.owners.workload ==> HasWorker(d, x))
    && (forall i :: 0 <= i < |d| ==> HoldsEntry(m, d[i].0, d[i].1))
  }

  ghost predicate HoldsEntry(m: Maps, id: int, e: Entry)
    requires forall g :: 0 <= g < |e.disp| ==> |e.disp[g]| == 1
  {
    && id in m.app && m.app[id] == e.app && id in m.disp && m.disp[id] == Singles(e.disp)
    && id in m.remote && m.remote[id] == e.remote && id in m.phases && m.phases[id] == Tokens(e.phases, ',')
    && forall g, x :: 0 <= g < |e.app| && x in e.app[g] ==>
        x in m.owners.workload && x in m.owners.group && m.owners.workload[x] == id && m.owners.group[x] == g
  }

  lemma FileIsAcceptedBefore(d: Dict)
    requires AcceptedFile(d) && d != []
    ensures AcceptedFile(d[..|d| - 1])
  {
  }

  lemma NextIsAccepted(m: Maps, d: Dict)
    requires AcceptedFile(d) && d != [] && AcceptedFile(d[..|d| - 1]) && Holds(m, d[..|d| - 1])
    ensures var last := d[|d| - 1]; Accepted(m.owners, last.0, last.1) && NewWorkload(m, last.0)
  {
    var p, last := d[..|d| - 1], d[|d| - 1];
    forall g, i | 0 <= g < |last.1.app| && 0 <= i < |last.1.app[g]| ensures last.1.app[g][i] !in m.owners.workload {
      assert InSome(last.1.app, last.1.app[g][i]);
    }
    assert !HasId(p, last.0);
  }

  /** An earlier workload's entries do not change. */
  lemma EntryStays(r: Maps, m: Maps, id: int, e: Entry, id0: int, e0: Entry)
    requires Accepted(m.owners, id, e) && ReadAs(r, m, id, e) && id0 != id
    requires (forall g :: 0 <= g < |e0.disp| ==> |e0.disp[g]| == 1) && HoldsEntry(m, id0, e0)
    requires forall x :: InSome(e0.app, x) ==> !InSome(e.app, x)
    ensures HoldsEntry(r, id0, e0)
  {
    forall g, x | 0 <= g < |e0.app| && x in e0.app[g]
      ensures x in r.owners.workload && x in r.owners.group && r.owners.workload[x] == id0 && r.owners.group[x] == g
    {
      assert InSome(e0.app, x);
    }
  }

  lemma PrefixHas(d: Dict, k: int, x: int)
    requires d != []
    ensures HasId(d[..|d| - 1], k) || k == d[|d| - 1].0 ==> HasId(d, k)
    ensures HasWorker(d[..|d| - 1], x) || InSome(d[|d| - 1].1.app, x) ==> HasWorker(d, x)
  {
    var p, n := d[..|d| - 1], |d| - 1;
    if HasId(p, k) {
      var i :| 0 <= i < |p| && p[i].0 == k;
      assert d[i].0 == k;
    }
    if HasWorker(p, x) {
      var i :| 0 <= i < |p| && InSome(p[i].1.app, x);
      assert InSome(d[i].1.app, x);
    }
    if InSome(d[n].1.app, x) { assert HasWorker(d, x); }
  }

  lemma KeysHeld(r: Maps, m: Maps, d: Dict)
    requires AcceptedFile(d) && d != [] && AcceptedFile(d[..|d| - 1]) && Holds(m, d[..|d| - 1])
    requires ReadAs(r, m, d[|d| - 1].0, d[|d| - 1].1)
    ensures forall k :: k in r.app || k in r.disp || k in r.remote || k in r.phases ==> HasId(d, k)
    ensures forall x :: x in r.owners.workload ==> HasWorker(d, x)
  {
    forall k | k in r.app || k in r.disp || k in r.remote || k in r.phases ensures HasId(d, k) { PrefixHas(d, k, 0); }
    forall x | x in r.owners.workload ensures HasWorker(d, x) { PrefixHas(d, 0, x); }
  }

  lemma NextHolds(r: Maps, m: Maps, d: Dict)
    requires AcceptedFile(d) && d != [] && AcceptedFile(d[..|d| - 1]) && Holds(m, d[..|d| - 1])
    requires ReadAs(r, m, d[|d| - 1].0, d[|d| - 1].1)
    ensures Holds(r, d)
  {
    KeysHeld(r, m, d);
    forall i | 0 <= i < |d| ensures HoldsEntry(r, d[i].0, d[i].1) {
      if i < |d| - 1 { EarlierHolds(r, m, d, i); }
    }
  }

  lemma EarlierHolds(r: Maps, m: Maps, d: Dict, i: nat)
    requires AcceptedFile(d) && i < |d| - 1 && AcceptedFile(d[..|d| - 1]) && Holds(m, d[..|d| - 1])
    requires ReadAs(r, m, d[|d| - 1].0, d[|d| - 1].1)
    ensures HoldsEntry(r, d[i].0, d[i].1)
  {
    var p, n := d[..|d| - 1], |d| - 1;
    NextIsAccepted(m, d);
    assert HoldsEntry(m, p[i].0, p[i].1);
    EntryStays(r, m, d[n].0, d[n].1, d[i].0, d[i].1);
  }

  /** What the tuner writes for acceptable workloads, the datapath reads as the same groups, with every worker
      under its workload and its group. */
  lemma {:induction false} FileReadsTheSame(d: Dict)
    requires AcceptedFile(d)
    ensures ReadLines(WriteBack(d)).Value? && Holds(ReadLines(WriteBack(d)).value, d)
  {
    if d != [] {
      var p, last := d[..|d| - 1], d[|d| - 1];
      FileIsAcceptedBefore(d);
      FileReadsTheSame(p);
      var m := ReadLines(WriteBack(p)).value;
      NextIsAccepted(m, d);
      DatapathReadsTheSame(m, last.0, last.1);
      assert WriteBack(d)[..|WriteBack(d)| - 1] == WriteBack(p);
      NextHolds(ReadLine(m, WriteWorkload(last.0, last.1)).value, m, d);
    }
  }

  /** Ids in range, phases not blank, and every application workspace assigned once. */
  ghost predicate AssignedOnce(d: Dict) {
    && (forall i :: 0 <= i < |d| ==> Assignable(d[i].0, d[i].1))
    && (forall i, j, x :: 0 <= i < j < |d| && InSome(d[i].1.app, x) ==> !InSome(d[j].1.app, x))
  }

  predicate Assignable(id: int, e: Entry) {
    && 0 <= id < WORKLOAD_LIMIT && e.phases != "" && InRange(e.remote) && AllDistinct(e.app)
    && (forall g :: 0 <= g < |e.app| ==> InRange(e.app[g])) && (forall g :: 0 <= g < |e.disp| ==> InRange(e.disp[g]))
  }

  /** From the tuner's text to the datapath's maps: what was loaded from any lines without an empty group and
      passed the verifier, with ids in range and every worker assigned once, is written so that the datapath
      reads the same groups. */
  lemma TunedConfigIsReadBack(lines: seq<string>, appCoreNum: int, dispQueueNum: int)
    requires LoadLines(lines).Value?
    requires var d := LoadLines(lines).value;
             NoEmptyGroups(d) && Verified(d, appCoreNum, dispQueueNum) && AssignedOnce(d)
    ensures var d := LoadLines(lines).value;
            AcceptedFile(d) && ReadLines(WriteBack(d)).Value? && Holds(ReadLines(WriteBack(d)).value, d)
  {
    var d := LoadLines(lines).value;
    LoadedFileIsSound(lines);
    forall i | 0 <= i < |d| ensures Accepted(Owners(map[], map[]), d[i].0, d[i].1) {
      assert Assignable(d[i].0, d[i].1) && OneDispatcherEach(d[i].1) && Loaded(d[i].1) && NoEmptyGroup(d[i].1);
    }
    FileReadsTheSame(d);
  }

  /** Worker x is in group g of workload i, and its group's index names that group's dispatcher. */
  predicate DispatcherOf(m: Maps, d: Dict, x: int, i: nat, g: nat) {
    && i < |d| && g < |d[i].1.app| && x in d[i].1.app[g] && x in m.owners.workload && m.owners.workload[x] == d[i].0
    && x in m.owners.group && m.owners.group[x] == g
    && d[i].0 in m.disp && g < |m.disp[d[i].0]| && g < |d[i].1.disp| && d[i].1.disp[g] == [m.disp[d[i].0][g]]
  }

  lemma MemberFindsDispatcher(m: Maps, d: Dict, x: int, i: nat, g: nat)
    requires AcceptedFile(d) && i < |d| && HoldsEntry(m, d[i].0, d[i].1) && g < |d[i].1.app| && x in d[i].1.app[g]
    ensures DispatcherOf(m, d, x, i, g)
  {
    var e := d[i].1;
    assert Accepted(Owners(map[], map[]), d[i].0, e);
    assert m.disp[d[i].0] == Singles(e.disp);
    assert e.disp[g] == [Singles(e.disp)[g]];
  }

  lemma HolderFindsDispatcher(m: Maps, d: Dict, x: int)
    requires AcceptedFile(d) && Holds(m, d) && x in m.owners.workload
    ensures exists i, g :: DispatcherOf(m, d, x, i, g)
  {
    assert HasWorker(d, x);
    var i: nat :| i < |d| && InSome(d[i].1.app, x);
    var g: nat :| g < |d[i].1.app| && x in d[i].1.app[g];
    MemberFindsDispatcher(m, d, x, i, g);
  }

  /** In a tuned configuration that was written and read back, the look-up of `workspace.cc:54-56` is defined for every
      worker that the reader knows, and gives the dispatcher that the file gives the worker's group. */
  lemma GroupIndexIsValid(lines: seq<string>, appCoreNum: int, dispQueueNum: int, x: int)
    requires LoadLines(lines).Value?
    requires var d := LoadLines(lines).value;
             NoEmptyGroups(d) && Verified(d, appCoreNum, dispQueueNum) && AssignedOnce(d)
    requires var r := ReadLines(WriteBack(LoadLines(lines).value)); r.Value? && x in r.value.owners.workload
    ensures exists i, g ::
              DispatcherOf(ReadLines(WriteBack(LoadLines(lines).value)).value, LoadLines(lines).value, x, i, g)
  {
    TunedConfigIsReadBack(lines, appCoreNum, dispQueueNum);
    HolderFindsDispatcher(ReadLines(WriteBack(LoadLines(lines).value)).value, LoadLines(lines).value, x);
  }

  lemma {:induction false} AssignStillThrows(o: Owners, kind: int, g: int, ids: seq<int>, i: nat)
    requires i < |ids| && Assign(o, kind, g, ids[..i + 1]).Throws?
    ensures Assign(o, kind, g, ids).Throws?
    decreases |ids|
  {
    if i == |ids| - 1 {
      assert ids[..i + 1] == ids;
    } else {
      assert ids[..|ids| - 1][..i + 1] == ids[..i + 1];
      AssignStillThrows(o, kind, g, ids[..|ids| - 1], i);
    }
  }

  lemma {:induction false} GroupsStillThrow(o: Owners, kind: int, texts: seq<string>, i: nat)
    requires i < |texts| && ReadGroups(o, kind, texts[..i + 1]).Throws?
    ensures ReadGroups(o, kind, texts).Throws?
    decreases |texts|
  {
    if i == |texts| - 1 {
      assert texts[..i + 1] == texts;
    } else {
      assert texts[..|texts| - 1][..i + 1] == texts[..i + 1];
      GroupsStillThrow(o, kind, texts[..|texts| - 1], i);
    }
  }

  lemma AddTwice<T>(m: map<int, seq<T>>, k: int, some: seq<T>, all: seq<T>)
    requires |some| <= |all| && all[..|some|] == some
    ensures Add(Add(m, k, some), k, all[|some|..]) == Add(m, k, all)
  {
    var rest := all[|some|..];
    assert all == some + rest;
    if some == [] {
      assert rest == all;
    } else if rest == [] {
      assert some == all;
    } else if k in m {
      assert (m[k] + some) + rest == m[k] + all;
    }
  }

  lemma {:induction false} LinesStillThrow(lines: seq<string>, i: nat)
    requires i < |lines| && ReadLines(lines[..i + 1]).Throws?
    ensures ReadLines(lines).Throws?
    decreases |lines|
  {
    if i == |lines| - 1 {
      assert lines[..i + 1] == lines;
    } else {
      assert lines[..|lines| - 1][..i + 1] == lines[..i + 1];
      LinesStillThrow(lines[..|lines| - 1], i);
    }
  }

  class UserConfig {
    var phases: map<int, seq<string>>
    var app: map<int, seq<seq<int>>>
    var disp: map<int, seq<int>>
    var remote: map<int, seq<int>>
    var owners: Owners

    function State(): Maps
      reads this
    {
      Maps(phases, app, disp, remote, owners)
    }

    constructor ()
      ensures State() == NoMaps()
    {
      phases, app, disp, remote, owners := map[], map[], map[], map[], Owners(map[], map[]);
    }

    /** The ids of a list of texts, each checked; Throws when one is not a workspace id. */
    static method ParseIds(texts: seq<string>) returns (r: Parsed<seq<int>>)
      ensures r == Each(texts, WsId)
    {
      var ids := [];
      for i := 0 to |texts|
        invariant Each(texts[..i], WsId) == Value(ids)
      {
        var ws := WsId(texts[i]);
        if ws.Throws? {
          EachThrows(texts, WsId, i);
          return Throws;
        }
        EachNext(texts, WsId, i, ids, ws.value);
        ids := ids + [ws.value];
      }
      assert texts[..|texts|] == texts;
      r := Value(ids);
    }

    static method ParseGroup(info: string) returns (r: Parsed<GroupInfo>)
      ensures r == GroupIds(info)
    {
      if '-' in info {
        var p := Tokens(info, '-');
        if |p| != 2 { return Value(Malformed); }
        var start, end := WsId(p[0]), WsId(p[1]);
        if start.Throws? || end.Throws? { return Throws; }
        var ids := Config.AppendRange(start.value, end.value);
        r := Value(Ids(ids));
      } else {
        var p := Tokens(info, ',');
        if |p| == 0 { return Value(Malformed); }
        var ids := ParseIds(p);
        r := if ids.Throws? then Throws else Value(Ids(ids.value));
      }
    }

    method AssignGroup(kind: int, g: int, ids: seq<int>) returns (ok: bool)
      modifies this`owners
      ensures ok <==> Assign(old(owners), kind, g, ids).Value?
      ensures ok ==> Assign(old(owners), kind, g, ids) == Value(owners)
    {
      for i := 0 to |ids|
        invariant Assign(old(owners), kind, g, ids[..i]) == Value(owners)
      {
        assert ids[..i + 1][..i] == ids[..i];
        if ids[i] in owners.workload {
          AssignStillThrows(old(owners), kind, g, ids, i);
          return false;
        }
        owners := Owners(owners.workload[ids[i] := kind], owners.group[ids[i] := g]);
      }
      assert ids[..|ids|] == ids;
      ok := true;
    }

    method ReadOneGroup(kind: int, text: string, ghost groups: seq<seq<int>>, groupIdx: int)
      returns (ok: bool, ghost more: seq<seq<int>>, next: int)
      requires groupIdx == |groups|
      modifies this`owners, this`app
      ensures ok <==> NextGroup((old(owners), groups), kind, text).Value?
      ensures ok ==> NextGroup((old(owners), groups), kind, text) == Value((owners, more)) && next == |more|
      ensures ok ==> |more| >= |groups| && more[..|groups|] == groups && app == Add(old(app), kind, more[|groups|..])
    {
      more, next := groups, groupIdx;
      var info := ParseGroup(text);
      if info.Throws? { return false, more, next; }
      if info.value.Ids? {
        var owned := AssignGroup(kind, groupIdx, info.value.ids);
        if !owned { return false, more, next; }
        app := app[kind := if kind in app then app[kind] + [info.value.ids] else [info.value.ids]];
        more := groups + [info.value.ids];
        next := groupIdx + 1;
      }
      ok := true;
    }

    /** The fourth value: the application groups. */
    method ReadAppGroups(kind: int, texts: seq<string>) returns (ok: bool)
      modifies this`owners, this`app
      ensures ok <==> ReadGroups(old(owners), kind, texts).Value?
      ensures ok ==> owners == ReadGroups(old(owners), kind, texts).value.0
      ensures ok ==> app == Add(old(app), kind, ReadGroups(old(owners), kind, texts).value.1)
    {
      ghost var groups: seq<seq<int>> := [];
      var groupIdx := 0;
      for i := 0 to |texts|
        invariant ReadGroups(old(owners), kind, texts[..i]) == Value((owners, groups))
        invariant groupIdx == |groups| && app == Add(old(app), kind, groups)
      {
        assert texts[..i + 1][..i] == texts[..i];
        ghost var before := groups;
        var accepted;
        accepted, groups, groupIdx := ReadOneGroup(kind, texts[i], groups, groupIdx);
        if !accepted {
          GroupsStillThrow(old(owners), kind, texts, i);
          return false;
        }
        AddTwice(old(app), kind, before, groups);
      }
      assert texts[..|texts|] == texts;
      ok := true;
    }

    /** `config_workload`; false means that `stoi` threw or a check failed. */
    method ReadWorkload(values: seq<string>) returns (ok: bool)
      requires values != []
      modifies this
      ensures ok <==> ConfigWorkload(old(State()), values).Value?
      ensures ok ==> ConfigWorkload(old(State()), values) == Value(State())
    {
      var n := Stoi(values[0]);
      if n.Throws? || n.value % BYTE >= WORKLOAD_LIMIT { return false; }
      var kind := n.value % BYTE;
      if |values| > 1 { phases := Add(phases, kind, Tokens(values[1], ',')); }
      if |values| > 2 {
        var ids := ParseIds(Tokens(values[2], ','));
        if ids.Throws? { return false; }
        remote := Add(remote, kind, ids.value);
      }
      if |values| > 3 {
        var accepted := ReadAppGroups(kind, Tokens(values[3], '|'));
        if !accepted { return false; }
      }
      if |values| > 4 {
        var ids := ParseIds(Tokens(values[4], '|'));
        if ids.Throws? { return false; }
        disp := Add(disp, kind, ids.value);
      }
      ok := true;
    }

    static method TrimAll(values: seq<string>) returns (r: Parsed<seq<string>>)
      ensures r == Each(values, Trim)
    {
      var trimmed := [];
      for i := 0 to |values|
        invariant Each(values[..i], Trim) == Value(trimmed)
      {
        var t := Trim(values[i]);
        if t.Throws? {
          EachThrows(values, Trim, i);
          return Throws;
        }
        EachNext(values, Trim, i, trimmed, t.value);
        trimmed := trimmed + [t.value];
      }
      assert values[..|values|] == values;
      r := Value(trimmed);
    }

    method LoadLine(line: string) returns (ok: bool)
      modifies this
      ensures ok <==> ReadLine(old(State()), line).Value?
      ensures ok ==> ReadLine(old(State()), line) == Value(State())
    {
      if IsComment(line) { return true; }
      var values := Tokens(line, ':');
      if |values| < 2 { return true; }
      var infos := TrimAll(values);
      if infos.Throws? { return false; }
      EachIs(values, Trim, infos.value);
      ok := true;
      if infos.value[0] == "workload" {
        ok := ReadWorkload(infos.value[1..]);
      }
    }

    /** `load`: the lines of the file, one after the other. */
    method Load(lines: seq<string>) returns (ok: bool)
      requires State() == NoMaps()
      modifies this
      ensures ok <==> ReadLines(lines).Value?
      ensures ok ==> ReadLines(lines) == Value(State())
    {
      for i := 0 to |lines|
        invariant ReadLines(lines[..i]) == Value(State())
      {
        assert lines[..i + 1][..i] == lines[..i];
        var read := LoadLine(lines[i]);
        if !read {
          LinesStillThrow(lines, i);
          return false;
        }
      }
      assert lines[..|lines|] == lines;
      ok := true;
    }
  }
}
