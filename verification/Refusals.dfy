/** Which of the tuner's files the datapath refuses. */
module Refusals {
  // `config_workload` stops the program when a workspace is assigned a second time (`src/config.cc:60-61`,
  // `src/config.cc:79-80`). For files whose workloads are acceptable one by one, that is the only reason.

  import opened Text
  import opened PyText
  import opened ConfigFile
  import opened UserConfig

  predicate NoRepeats(ids: seq<int>) { forall i, j :: 0 <= i < j < |ids| ==> ids[i] != ids[j] }

  /** A group is refused exactly when one of its workspaces is taken, or stands in it twice. */
  lemma {:induction false} AssignIff(o: Owners, kind: int, g: int, ids: seq<int>)
    ensures Assign(o, kind, g, ids).Value? <==> Fresh(ids, o) && NoRepeats(ids)
  {
    if ids != [] {
      var n := |ids| - 1;
      var p := ids[..n];
      AssignIff(o, kind, g, p);
      assert ids == p + [ids[n]];
      if Fresh(p, o) && NoRepeats(p) {
        AssignIs(o, kind, g, p);
        LastIsNew(ids, o);
      } else {
        assert Fresh(ids, o) ==> Fresh(p, o);
        assert NoRepeats(ids) ==> NoRepeats(p);
      }
    }
  }

  lemma LastIsNew(ids: seq<int>, o: Owners)
    requires ids != []
    ensures var p, x := ids[..|ids| - 1], ids[|ids| - 1];
            Fresh(ids, o) && NoRepeats(ids) <==> Fresh(p, o) && NoRepeats(p) && x !in o.workload && x !in p
  {
    var n := |ids| - 1;
    var p := ids[..n];
    assert forall i :: 0 <= i < n ==> p[i] == ids[i];
    forall i | 0 <= i < n && NoRepeats(ids) ensures p[i] != ids[n] { assert ids[i] != ids[n]; }
  }

  /** All groups' workspaces are free, and none stands twice. */
  predicate AllFree(groups: seq<seq<int>>, o: Owners) {
    (forall g :: 0 <= g < |groups| ==> Fresh(groups[g], o)) && AllDistinct(groups)
  }

  lemma AllFreeNext(groups: seq<seq<int>>, ids: seq<int>, p: Owners, o: Owners, kind: int)
    requires AllFree(groups, o) && Owned(p, o, kind, groups)
    ensures AllFree(groups + [ids], o) <==> Fresh(ids, p) && NoRepeats(ids)
  {
    var all := groups + [ids];
    assert all[|groups|] == ids;
    if AllFree(all, o) {
      assert Fresh(all[|groups|], o);
      NextIsFresh(p, o, kind, groups, ids);
    }
    if Fresh(ids, p) && NoRepeats(ids) {
      FreshBefore(ids, p, o, kind, groups);
      StillDistinct(groups, ids, p, o, kind);
      assert forall g :: 0 <= g < |groups| ==> all[g] == groups[g];
    }
  }

  lemma FreshBefore(ids: seq<int>, p: Owners, o: Owners, kind: int, groups: seq<seq<int>>)
    requires Owned(p, o, kind, groups) && Fresh(ids, p)
    ensures Fresh(ids, o)
  {
    forall i | 0 <= i < |ids| ensures ids[i] !in o.workload { StaysOwned(p, o, kind, groups, ids[i]); }
  }

  lemma StaysOwned(p: Owners, o: Owners, kind: int, groups: seq<seq<int>>, x: int)
    requires Owned(p, o, kind, groups)
    ensures x in o.workload ==> x in p.workload
  {
    if x in o.workload { assert p.workload[x] == o.workload[x]; }
  }

  lemma StillDistinct(groups: seq<seq<int>>, ids: seq<int>, p: Owners, o: Owners, kind: int)
    requires AllDistinct(groups) && Owned(p, o, kind, groups) && Fresh(ids, p) && NoRepeats(ids)
    ensures AllDistinct(groups + [ids])
  {
    var all := groups + [ids];
    assert all[|groups|] == ids && forall g :: 0 <= g < |groups| ==> all[g] == groups[g];
    forall g, h, i, j | 0 <= g < h < |all| && 0 <= i < |all[g]| && 0 <= j < |all[h]| ensures all[g][i] != all[h][j] {
      if h == |groups| { assert all[g][i] in groups[g]; } else { assert groups[g][i] != groups[h][j]; }
    }
  }

  lemma FirstAreFree(groups: seq<seq<int>>, last: seq<int>, o: Owners)
    ensures AllFree(groups + [last], o) ==> AllFree(groups, o)
  {
    var all := groups + [last];
    assert forall g :: 0 <= g < |groups| ==> all[g] == groups[g];
  }

  lemma ReadGroupsNext(o: Owners, kind: int, texts: seq<string>, text: string)
    ensures var r := ReadGroups(o, kind, texts);
            ReadGroups(o, kind, texts + [text]) == if r.Throws? then Throws else NextGroup(r.value, kind, text)
  {
    assert (texts + [text])[..|texts|] == texts;
  }

  lemma NextGroupIff(r: (Owners, seq<seq<int>>), kind: int, text: string, ids: seq<int>)
    requires GroupIds(text) == Value(Ids(ids))
    ensures NextGroup(r, kind, text).Value? <==> Assign(r.0, kind, |r.1|, ids).Value?
  {
  }

  lemma LastApart<T>(x: seq<T>)
    requires x != []
    ensures x == x[..|x| - 1] + [x[|x| - 1]]
  {
  }

  /** A workload's groups are refused exactly when one of their workspaces is taken, or stands twice. */
  lemma {:induction false} ReadGroupsIff(o: Owners, kind: int, groups: seq<seq<int>>, texts: seq<string>)
    requires |texts| == |groups| && forall g :: 0 <= g < |groups| ==> GroupIds(texts[g]) == Value(Ids(groups[g]))
    ensures ReadGroups(o, kind, texts).Value? <==> AllFree(groups, o)
  {
    if groups != [] {
      var n := |groups| - 1;
      ReadGroupsIff(o, kind, groups[..n], texts[..n]);
      LastApart(groups);
      LastApart(texts);
      OneGroupMore(o, kind, groups[..n], texts[..n], groups[n], texts[n]);
    }
  }

  lemma OneGroupMore(o: Owners, kind: int, before: seq<seq<int>>, texts: seq<string>, last: seq<int>, text: string)
    requires |texts| == |before| && GroupIds(text) == Value(Ids(last))
    requires forall g :: 0 <= g < |before| ==> GroupIds(texts[g]) == Value(Ids(before[g]))
    requires ReadGroups(o, kind, texts).Value? <==> AllFree(before, o)
    ensures ReadGroups(o, kind, texts + [text]).Value? <==> AllFree(before + [last], o)
  {
    ReadGroupsNext(o, kind, texts, text);
    FirstAreFree(before, last, o);
    if AllFree(before, o) { LastGroupIff(o, kind, before, texts, last, text); }
  }

  lemma LastGroupIff(o: Owners, kind: int, before: seq<seq<int>>, texts: seq<string>, last: seq<int>, text: string)
    requires |texts| == |before| && AllFree(before, o) && GroupIds(text) == Value(Ids(last))
    requires forall g :: 0 <= g < |before| ==> GroupIds(texts[g]) == Value(Ids(before[g]))
    ensures var r := ReadGroups(o, kind, texts);
            r.Value? && (NextGroup(r.value, kind, text).Value? <==> AllFree(before + [last], o))
  {
    ReadGroupsIs(o, kind, before, texts);
    var r := ReadGroups(o, kind, texts).value;
    NextGroupIff(r, kind, text, last);
    AssignIff(r.0, kind, |r.1|, last);
    AllFreeNext(before, last, r.0, o, kind);
  }

  lemma MalformedGroup(r: (Owners, seq<seq<int>>), kind: int, text: string)
    requires '-' in text && |Tokens(text, '-')| != 2
    ensures NextGroup(r, kind, text) == Value(r)
  {
  }

  /** A malformed range, one that does not split in two, is skipped and takes no index. */
  lemma {:induction false} MalformedIsSkipped(o: Owners, kind: int, before: seq<string>, text: string, after: seq<string>)
    requires '-' in text && |Tokens(text, '-')| != 2
    ensures ReadGroups(o, kind, before + [text] + after) == ReadGroups(o, kind, before + after)
    decreases |after|
  {
    if after == [] {
      ReadGroupsNext(o, kind, before, text);
      if ReadGroups(o, kind, before).Value? { MalformedGroup(ReadGroups(o, kind, before).value, kind, text); }
      assert before + [text] + after == before + [text] && before + after == before;
    } else {
      var rest, last := after[..|after| - 1], after[|after| - 1];
      MalformedIsSkipped(o, kind, before, text, rest);
      ReadGroupsNext(o, kind, before + [text] + rest, last);
      ReadGroupsNext(o, kind, before + rest, last);
      assert before + [text] + after == (before + [text] + rest) + [last] && before + after == (before + rest) + [last];
    }
  }

  /** A range a-b names the workspaces a, a + 1, up to b. */
  lemma RangeIsRead(a: nat, b: nat)
    requires a < WS_LIMIT && b < WS_LIMIT
    ensures var r := GroupIds(Str(a) + "-" + Str(b));
            && r.Value? && r.value.Ids? && |r.value.ids| == (if b < a then 0 else b - a + 1)
            && forall i :: 0 <= i < |r.value.ids| ==> r.value.ids[i] == a + i
  {
    StrChars(a);
    StrChars(b);
    var p := [Str(a), Str(b)];
    assert Join(p[1..], '-') == Str(b);
    assert Join(p, '-') == Str(a) + "-" + Str(b);
    TokensOfJoin(p, '-');
    WsIdOfStr(a);
    WsIdOfStr(b);
    assert (Str(a) + "-" + Str(b))[|Str(a)|] == '-';
  }

  /** A printed id is cut to a byte before the range check. */
  lemma WsIdIff(n: nat)
    ensures WsId(Str(n)) == if n < INT_LIMIT && n % BYTE < WS_LIMIT then Value(n % BYTE) else Throws
  {
    StoiOfDec(n);
  }

  // Whole files

  /** A workload that is acceptable apart from what its workspaces are assigned to. */
  predicate WellFormed(id: int, e: Entry) {
    && Loaded(e) && NoEmptyGroup(e) && e.phases != "" && 0 <= id < WORKLOAD_LIMIT && OneDispatcherEach(e) && InRange(e.remote)
    && (forall g :: 0 <= g < |e.disp| ==> InRange(e.disp[g])) && (forall g :: 0 <= g < |e.app| ==> InRange(e.app[g]))
  }

  predicate WellFormedFile(d: Dict) {
    (forall i :: 0 <= i < |d| ==> WellFormed(d[i].0, d[i].1)) && forall i, j :: 0 <= i < j < |d| ==> d[i].0 != d[j].0
  }

  lemma GroupTexts(groups: seq<seq<int>>)
    requires groups != [] && forall g :: 0 <= g < |groups| ==> groups[g] != [] && InRange(groups[g])
    ensures var t := Tokens(GroupText(groups), '|');
            |t| == |groups| && forall g :: 0 <= g < |groups| ==> GroupIds(t[g]) == Value(Ids(groups[g]))
  {
    var t := Texts(groups, IntText);
    forall g | 0 <= g < |groups| ensures '|' !in t[g] && t[g] != "" && GroupIds(t[g]) == Value(Ids(groups[g])) {
      IntTextChars(groups[g], '|');
      GroupIdsOfText(groups[g]);
      TextNotEmpty(groups[g]);
    }
    TokensOfJoin(t, '|');
  }

  lemma RefusedGroups(m: Maps, v: seq<string>, id: int)
    requires |v| == 5 && Stoi(v[0]) == Value(id) && 0 <= id < WORKLOAD_LIMIT
    requires ReadGroups(m.owners, id, Tokens(v[3], '|')).Throws?
    ensures ConfigWorkload(m, v).Throws?
  {
    SmallByte(id);
  }

  /** The line of such a workload is refused exactly when one of its workspaces is taken, or stands in it twice. */
  lemma LineIff(m: Maps, id: int, e: Entry)
    requires WellFormed(id, e) && NewWorkload(m, id)
    ensures ReadLine(m, WriteWorkload(id, e)).Value? <==> AllFree(e.app, m.owners)
  {
    if AllFree(e.app, m.owners) {
      DatapathReadsTheSame(m, id, e);
    } else {
      ReadValues(id, e);
      var v := Each(Tokens(WriteWorkload(id, e), ':'), Trim).value;
      ReadLineIs(m, WriteWorkload(id, e), v);
      GroupTexts(e.app);
      ReadGroupsIff(m.owners, id, e.app, Tokens(v[4], '|'));
      StoiOfDec(id);
      RefusedGroups(m, v[1..], id);
    }
  }

  lemma AcceptedNext(d: Dict, m: Maps)
    requires WellFormedFile(d) && d != [] && AcceptedFile(d[..|d| - 1]) && Holds(m, d[..|d| - 1])
    ensures AcceptedFile(d) <==> AllFree(d[|d| - 1].1.app, m.owners)
  {
    var p, n := d[..|d| - 1], |d| - 1;
    assert forall i :: 0 <= i < n ==> p[i] == d[i];
    if AcceptedFile(d) {
      NextIsAccepted(m, d);
    }
    if AllFree(d[n].1.app, m.owners) {
      forall i, x | 0 <= i < n && InSome(d[i].1.app, x) ensures !InSome(d[n].1.app, x) {
        OwnedIsTaken(m, p, i, x);
        FreeIsNotTaken(d[n].1.app, m.owners, x);
      }
      assert Accepted(Owners(map[], map[]), d[n].0, d[n].1);
    }
  }

  lemma OwnedIsTaken(m: Maps, p: Dict, i: nat, x: int)
    requires AcceptedFile(p) && Holds(m, p) && i < |p| && InSome(p[i].1.app, x)
    ensures x in m.owners.workload
  {
    assert HoldsEntry(m, p[i].0, p[i].1);
  }

  lemma FreeIsNotTaken(groups: seq<seq<int>>, o: Owners, x: int)
    requires AllFree(groups, o) && x in o.workload
    ensures !InSome(groups, x)
  {
    forall g | 0 <= g < |groups| ensures x !in groups[g] {
      assert Fresh(groups[g], o);
    }
  }

  /** A file of acceptable workloads is read to the end exactly when no workspace is assigned twice. */
  lemma {:induction false} FileIsReadIff(d: Dict)
    requires WellFormedFile(d)
    ensures ReadLines(WriteBack(d)).Value? <==> AcceptedFile(d)
  {
    if d != [] {
      var p, last := d[..|d| - 1], d[|d| - 1];
      FileIsReadIff(p);
      assert WriteBack(d)[..|WriteBack(d)| - 1] == WriteBack(p);
      if AcceptedFile(p) {
        FileReadsTheSame(p);
        var m := ReadLines(WriteBack(p)).value;
        assert !HasId(p, last.0);
        LineIff(m, last.0, last.1);
        AcceptedNext(d, m);
      } else if AcceptedFile(d) {
        FileIsAcceptedBefore(d);
      }
    }
  }

  /** No workspace stands in two places of the application groups. */
  ghost predicate EachOnce(d: Dict) {
    && (forall i :: 0 <= i < |d| ==> AllDistinct(d[i].1.app))
    && forall i, j, x :: 0 <= i < j < |d| && InSome(d[i].1.app, x) ==> !InSome(d[j].1.app, x)
  }

  /** The same in terms of the file alone. */
  lemma DoubleAssignmentIsRefused(d: Dict)
    requires WellFormedFile(d)
    ensures ReadLines(WriteBack(d)).Throws? <==> !EachOnce(d)
  {
    FileIsReadIff(d);
    if EachOnce(d) {
      forall i | 0 <= i < |d| ensures Accepted(Owners(map[], map[]), d[i].0, d[i].1) { assert WellFormed(d[i].0, d[i].1); }
    }
    if AcceptedFile(d) {
      forall i | 0 <= i < |d| ensures AllDistinct(d[i].1.app) { assert Accepted(Owners(map[], map[]), d[i].0, d[i].1); }
    }
  }

  // Other lines

  /** A hash after nothing but spaces. */
  predicate StartsWithHash(line: string) {
    exists i :: 0 <= i < |line| && line[i] == '#' && forall j :: 0 <= j < i ==> line[j] == ' '
  }

  lemma {:induction false} CommentIff(line: string)
    ensures IsComment(line) <==> StartsWithHash(line)
  {
    if line != "" && line[0] == ' ' {
      CommentIff(line[1..]);
      if i :| 0 <= i < |line[1..]| && line[1..][i] == '#' && forall j :: 0 <= j < i ==> line[1..][j] == ' ' {
        assert line[i + 1] == '#' && forall j :: 1 <= j < i + 1 ==> line[j] == line[1..][j - 1];
      }
      if i :| 0 <= i < |line| && line[i] == '#' && forall j :: 0 <= j < i ==> line[j] == ' ' {
        assert line[1..][i - 1] == '#' && forall j :: 0 <= j < i - 1 ==> line[1..][j] == line[j + 1];
      }
    }
  }

  /** A comment, a line of one piece, or one whose key is not `workload` and none of whose pieces is blank. */
  predicate Elsewhere(line: string) {
    var p := Tokens(line, ':');
    StartsWithHash(line) || |p| < 2 || (Trim(p[0]) != Value("workload") && forall i :: 0 <= i < |p| ==> !Blank(p[i]))
  }

  predicate Blank(s: string) { forall i :: 0 <= i < |s| ==> s[i] == ' ' }

  lemma {:induction false} TrimIff(s: string)
    ensures Trim(s).Throws? <==> Blank(s)
  {
    BlankLeft(s);
    BlankRight(TrimLeft(s));
  }

  lemma {:induction false} BlankLeft(s: string)
    ensures TrimLeft(s) == "" <==> Blank(s)
    ensures Blank(TrimLeft(s)) <==> Blank(s)
  {
    if s != "" && s[0] == ' ' {
      BlankLeft(s[1..]);
      assert forall i :: 1 <= i < |s| ==> s[i] == s[1..][i - 1];
    }
  }

  lemma {:induction false} BlankRight(s: string)
    ensures TrimRight(s) == "" <==> Blank(s)
  {
    if s != "" && s[|s| - 1] == ' ' {
      BlankRight(s[..|s| - 1]);
      assert forall i :: 0 <= i < |s| - 1 ==> s[i] == s[..|s| - 1][i];
    }
  }

  /** Without a blank piece every piece is trimmed. */
  lemma {:induction false} TrimsAll(p: seq<string>)
    ensures Each(p, Trim).Value? <==> forall i :: 0 <= i < |p| ==> !Blank(p[i])
  {
    if p != [] {
      TrimsAll(p[..|p| - 1]);
      TrimIff(p[|p| - 1]);
    }
  }

  lemma ElsewhereIsSkipped(m: Maps, line: string)
    requires Elsewhere(line)
    ensures ReadLine(m, line) == Value(m)
  {
    CommentIff(line);
    var p := Tokens(line, ':');
    if !StartsWithHash(line) && |p| >= 2 {
      TrimsAll(p);
      EachIs(p, Trim, Each(p, Trim).value);
    }
  }

  lemma ReadLinesNext(lines: seq<string>, line: string)
    ensures ReadLines(lines + [line]) == if ReadLines(lines).Throws? then Throws else ReadLine(ReadLines(lines).value, line)
  {
    assert (lines + [line])[..|lines|] == lines;
  }

  /** Such lines have no effect on the maps, wherever they stand. */
  lemma {:induction false} ElsewhereAnywhere(before: seq<string>, line: string, after: seq<string>)
    requires Elsewhere(line)
    ensures ReadLines(before + [line] + after) == ReadLines(before + after)
    decreases |after|
  {
    if after == [] {
      ReadLinesNext(before, line);
      if ReadLines(before).Value? { ElsewhereIsSkipped(ReadLines(before).value, line); }
      assert before + [line] + after == before + [line] && before + after == before;
    } else {
      var rest, last := after[..|after| - 1], after[|after| - 1];
      ElsewhereAnywhere(before, line, rest);
      LastApart(after);
      ReadLinesNext(before + [line] + rest, last);
      ReadLinesNext(before + rest, last);
      assert before + [line] + after == before + [line] + rest + [last] && before + after == before + rest + [last];
    }
  }

  /** Any other line with a blank piece ends the program. */
  lemma BlankPieceIsRefused(m: Maps, line: string, i: nat)
    requires !StartsWithHash(line) && i < |Tokens(line, ':')| && |Tokens(line, ':')| >= 2 && Blank(Tokens(line, ':')[i])
    ensures ReadLine(m, line).Throws?
  {
    CommentIff(line);
    TrimsAll(Tokens(line, ':'));
  }
}
