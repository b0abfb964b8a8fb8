/** Queue-pair information and its text form (`src/dispatcher_impl/roce/qpinfo.hh`). */
module QpInfo {
  import opened MathUtils
  import opened Text

  const BYTE: nat := 0x100
  const HALF: nat := 0x1_0000
  const WORD: nat := 0x1_0000_0000
  const NAME_MAX: nat := 63 // MAX_HOSTNAME_LEN - 1, MAX_NIC_NAME_LEN - 1
  const NUL := '\0'

  /** The fields; a name is what stands before the terminating NUL of its array. */
  datatype Info = Info(qpNum: nat, lid: nat, gid: seq<nat>, gidTableIndex: nat, mtu: nat, mac: seq<nat>,
                       hostname: string, nicName: string, isInitialized: bool)

  predicate Bytes(s: seq<nat>) { forall i :: 0 <= i < |s| ==> s[i] < BYTE }

  predicate Name(s: string) { |s| <= NAME_MAX && NUL !in s }

  /** What the fields' types and the constructor guarantee. */
  predicate Sound(q: Info) {
    && q.qpNum < WORD && q.lid < HALF && |q.gid| == 16 && Bytes(q.gid) && q.gidTableIndex < BYTE && q.mtu < WORD
    && |q.mac| == 6 && Bytes(q.mac) && Name(q.hostname) && Name(q.nicName)
  }

  /** `strncpy` of a string's characters, with the last place of the array set to NUL. */
  function CopyName(s: string): (n: string)
    ensures Name(n) && (Name(s) ==> n == s) && n <= s && (n == s || |n| == NAME_MAX || s[|n|] == NUL)
  {
    var k := Before(s, NUL);
    if k <= NAME_MAX then s[..k] else s[..NAME_MAX]
  }

  function Decs(s: seq<nat>): (d: seq<string>)
    ensures |d| == |s| && forall i :: 0 <= i < |d| ==> d[i] == Dec(s[i])
  {
    seq(|s|, i requires 0 <= i < |s| => Dec(s[i]))
  }

  /** Each number followed by a comma. */
  function CommaList(s: seq<nat>): string { Closed(Decs(s), ',') }

  function Flag(b: bool): string { if b then "1" else "0" }

  function Field(key: string, value: string): string { key + ":" + value }

  /** The nine `key:value` fields, in the order written. */
  function Fields(q: Info): (f: seq<string>)
    ensures |f| == 9
  {
    [Field("qp_num", Dec(q.qpNum)), Field("lid", Dec(q.lid)), Field("gid", CommaList(q.gid)),
     Field("gid_table_index", Dec(q.gidTableIndex)), Field("mac", CommaList(q.mac)), Field("mtu", Dec(q.mtu)),
     Field("hostname", q.hostname), Field("nic_name", q.nicName), Field("is_initialized", Flag(q.isInitialized))]
  }

  /** Every field but the last is followed by a semicolon. */
  function Serialize(q: Info): string {
    Closed(Fields(q)[..8], ';') + Fields(q)[8]
  }

  function KeyOf(token: string): string {
    var t := Tokens(token, ':');
    if |t| > 0 then t[0] else ""
  }

  /** What stands between the first colon and the second; empty if there is no colon. */
  function ValueOf(token: string): (v: string)
    ensures ':' !in v
  {
    var t := Tokens(token, ':');
    if |t| > 1 then t[1] else ""
  }

  /** The new state, or the state in which an exception left the object. */
  datatype Outcome = Done(info: Info) | Thrown(info: Info)

  datatype Filled = Full(bytes: seq<nat>) | Broken(bytes: seq<nat>)

  /** The list loops: numbers go to consecutive places, until the array or the text ends. */
  function Fill(bytes: seq<nat>, tokens: seq<string>, i: nat): (f: Filled)
    ensures |f.bytes| == |bytes|
    decreases |tokens| - i
  {
    if i >= |bytes| || i >= |tokens| then Full(bytes) else
      match Stoi(tokens[i])
      case Throws => Broken(bytes)
      case Value(v) => Fill(bytes[i := v % BYTE], tokens, i + 1)
  }

  datatype Key = QpNum | Lid | Gid | GidTableIndex | Mac | Mtu | Hostname | NicName | IsInitialized | Unknown

  function KeyNamed(s: string): Key {
    if s == "qp_num" then QpNum else if s == "lid" then Lid else if s == "gid" then Gid
    else if s == "gid_table_index" then GidTableIndex else if s == "mac" then Mac else if s == "mtu" then Mtu
    else if s == "hostname" then Hostname else if s == "nic_name" then NicName
    else if s == "is_initialized" then IsInitialized else Unknown
  }

  /** A number goes to its field; the casts keep the low bits. */
  function AssignNumber(q: Info, key: Key, n: int): Info {
    match key
    case QpNum => q.(qpNum := n % WORD)
    case Lid => q.(lid := n % HALF)
    case GidTableIndex => q.(gidTableIndex := n % BYTE)
    case Mtu => q.(mtu := n % WORD)
    case IsInitialized => q.(isInitialized := n != 0)
    case _ => q
  }

  /** What a `key:value` token asks for. */
  datatype Action = SetNumber(key: Key, n: Parsed<int>) | SetGid(tokens: seq<string>) | SetMac(tokens: seq<string>)
                  | SetHostname(s: string) | SetNicName(s: string) | Ignore

  function ActionFor(key: Key, value: string): Action {
    match key
    case Gid => SetGid(Tokens(value, ','))
    case Mac => SetMac(Tokens(value, ','))
    case Hostname => SetHostname(CopyName(value))
    case NicName => SetNicName(CopyName(value))
    case Unknown => Ignore
    case _ => SetNumber(key, Stoi(value))
  }

  function ActionOf(token: string): Action {
    ActionFor(KeyNamed(KeyOf(token)), ValueOf(token))
  }

  function Assign(q: Info, action: Action): Outcome {
    match action
    case SetGid(tokens) =>
      var f := Fill(q.gid, tokens, 0);
      if f.Full? then Done(q.(gid := f.bytes)) else Thrown(q.(gid := f.bytes))
    case SetMac(tokens) =>
      var f := Fill(q.mac, tokens, 0);
      if f.Full? then Done(q.(mac := f.bytes)) else Thrown(q.(mac := f.bytes))
    case SetHostname(s) => Done(q.(hostname := s))
    case SetNicName(s) => Done(q.(nicName := s))
    case SetNumber(key, n) => if n.Throws? then Thrown(q) else Done(AssignNumber(q, key, n.value))
    case Ignore => Done(q)
  }

  /** The actions from the i-th on, one after the other. */
  function Absorb(q: Info, actions: seq<Action>, i: nat): Outcome
    decreases |actions| - i
  {
    if i >= |actions| then Done(q) else
      match Assign(q, actions[i])
      case Thrown(r) => Thrown(r)
      case Done(r) => Absorb(r, actions, i + 1)
  }

  function Actions(tokens: seq<string>): (a: seq<Action>)
    ensures |a| == |tokens|
  {
    if tokens == [] then [] else Actions(tokens[..|tokens| - 1]) + [ActionOf(tokens[|tokens| - 1])]
  }

  lemma {:induction false} ActionsAt(tokens: seq<string>, k: nat, token: string, action: Action)
    requires k < |tokens| && tokens[k] == token && ActionOf(token) == action
    ensures Actions(tokens)[k] == action
  {
    if k < |tokens| - 1 { ActionsAt(tokens[..|tokens| - 1], k, token, action); }
  }

  function Deserialize(q: Info, data: string): Outcome { Absorb(q, Actions(Tokens(data, ';')), 0) }

  // The round trip

  lemma SplitField(key: string, value: string)
    requires ':' !in key && ':' !in value && key != ""
    ensures KeyOf(Field(key, value)) == key && ValueOf(Field(key, value)) == value
  {
    assert key + ":" + value == key + [':'] + value;
    FirstToken(key, ':', value);
    if value != "" { OnlyToken(value, ':'); }
  }

  /** Whatever stands in the value, the key is the one written. */
  lemma KeyOfField(key: string, value: string)
    requires ':' !in key
    ensures KeyOf(Field(key, value)) == key
  {
    assert key + ":" + value == key + [':'] + value;
    FirstToken(key, ':', value);
  }

  lemma {:induction false} CommaListClean(s: seq<nat>, k: nat)
    requires k <= |s|
    ensures forall c :: c in Closed(Decs(s)[..k], ',') ==> IsDigit(c) || c == ','
  {
    if k > 0 {
      CommaListClean(s, k - 1);
      assert Decs(s)[..k][..k - 1] == Decs(s)[..k - 1];
      var last := Decs(s)[..k][k - 1];
      assert last == Dec(s[k - 1]);
    }
  }

  lemma ListTokens(s: seq<nat>)
    ensures Tokens(CommaList(s), ',') == Decs(s)
    ensures ':' !in CommaList(s) && ';' !in CommaList(s)
  {
    TokensOfClosed(Decs(s), ',', "");
    assert CommaList(s) + "" == CommaList(s);
    CommaListClean(s, |s|);
    assert Decs(s)[..|s|] == Decs(s);
  }

  lemma {:induction false} FillDecs(bytes: seq<nat>, s: seq<nat>, i: nat)
    requires |bytes| == |s| && Bytes(s) && i <= |s| && forall k :: 0 <= k < i ==> bytes[k] == s[k]
    ensures Fill(bytes, Decs(s), i) == Full(s)
    decreases |s| - i
  {
    if i == |s| {
      assert bytes == s;
    } else {
      OneNumber(bytes, s, i);
      var next := bytes[i := s[i]];
      assert forall k :: 0 <= k < i + 1 ==> next[k] == s[k];
      FillDecs(next, s, i + 1);
    }
  }

  lemma OneNumber(bytes: seq<nat>, s: seq<nat>, i: nat)
    requires |bytes| == |s| && Bytes(s) && i < |s|
    ensures Fill(bytes, Decs(s), i) == Fill(bytes[i := s[i]], Decs(s), i + 1)
  {
    StoiOfDec(s[i]);
    assert Decs(s)[i] == Dec(s[i]);
    FillOne(bytes, Decs(s), i, s[i]);
  }

  lemma FillOne(bytes: seq<nat>, tokens: seq<string>, i: nat, v: nat)
    requires i < |bytes| && i < |tokens| && Stoi(tokens[i]) == Value(v) && v < BYTE
    ensures Fill(bytes, tokens, i) == Fill(bytes[i := v], tokens, i + 1)
  {
    RemainderUnique(v, BYTE, 0, v);
  }

  // What any text does to an object

  /** Numbers fill the array from its start, cut to bytes; further numbers are dropped, and places without one stay. */
  lemma {:induction false} FillIs(bytes: seq<nat>, tokens: seq<string>, vals: seq<int>, i: nat)
    requires |vals| == |tokens| && forall k :: 0 <= k < |tokens| ==> Stoi(tokens[k]) == Value(vals[k])
    ensures var f := Fill(bytes, tokens, i);
            && f.Full?
            && forall k :: 0 <= k < |bytes| ==> f.bytes[k] == if i <= k < |tokens| then vals[k] % BYTE else bytes[k]
    decreases |tokens| - i
  {
    if i < |bytes| && i < |tokens| { FillIs(bytes[i := vals[i] % BYTE], tokens, vals, i + 1); }
  }

  const KEYS: seq<string> := ["qp_num", "lid", "gid", "gid_table_index", "mac", "mtu", "hostname", "nic_name", "is_initialized"]

  lemma UnknownAction(token: string)
    requires KeyOf(token) !in KEYS
    ensures ActionOf(token) == Ignore
  {
    var k := KeyOf(token);
    assert KEYS[0] != k && KEYS[1] != k && KEYS[2] != k && KEYS[3] != k && KEYS[4] != k && KEYS[5] != k && KEYS[6] != k
        && KEYS[7] != k && KEYS[8] != k;
  }

  lemma ActionsNext(tokens: seq<string>, token: string)
    ensures Actions(tokens + [token]) == Actions(tokens) + [ActionOf(token)]
  {
    assert (tokens + [token])[..|tokens|] == tokens;
  }

  lemma {:induction false} ActionsConcat(before: seq<string>, after: seq<string>)
    ensures Actions(before + after) == Actions(before) + Actions(after)
    decreases |after|
  {
    if after == [] {
      assert before + after == before;
    } else {
      var rest, last := after[..|after| - 1], after[|after| - 1];
      ActionsConcat(before, rest);
      ActionsNext(before + rest, last);
      OneFurther(before, rest, last, after);
      assert Actions(before) + (Actions(rest) + [ActionOf(last)]) == (Actions(before) + Actions(rest)) + [ActionOf(last)];
    }
  }

  lemma OneFurther<T>(x: seq<T>, y: seq<T>, z: T, all: seq<T>)
    requires all != [] && y == all[..|all| - 1] && z == all[|all| - 1]
    ensures x + all == (x + y) + [z]
  {
  }

  lemma {:induction false} AbsorbAfter(q: Info, x: seq<Action>, y: seq<Action>, i: nat)
    requires i >= |x|
    ensures Absorb(q, x + [Ignore] + y, i + 1) == Absorb(q, x + y, i)
    decreases |x| + |y| - i
  {
    if i < |x + y| {
      assert (x + [Ignore] + y)[i + 1] == (x + y)[i];
      if Assign(q, (x + y)[i]).Done? { AbsorbAfter(Assign(q, (x + y)[i]).info, x, y, i + 1); }
    }
  }

  lemma {:induction false} AbsorbWithout(q: Info, x: seq<Action>, y: seq<Action>, i: nat)
    requires i <= |x|
    ensures Absorb(q, x + [Ignore] + y, i) == Absorb(q, x + y, i)
    decreases |x| - i
  {
    if i == |x| {
      assert (x + [Ignore] + y)[i] == Ignore;
      AbsorbAfter(q, x, y, i);
    } else {
      assert (x + [Ignore] + y)[i] == (x + y)[i] == x[i];
      if Assign(q, x[i]).Done? { AbsorbWithout(Assign(q, x[i]).info, x, y, i + 1); }
    }
  }

  /** A token under any other key than the nine is ignored, wherever it stands. */
  lemma UnknownKeysAreIgnored(q: Info, data: string, less: string, before: seq<string>, token: string, after: seq<string>)
    requires Tokens(data, ';') == before + [token] + after && Tokens(less, ';') == before + after && KeyOf(token) !in KEYS
    ensures Deserialize(q, data) == Deserialize(q, less)
  {
    UnknownAction(token);
    ActionsNext(before, token);
    ActionsConcat(before + [token], after);
    ActionsConcat(before, after);
    AbsorbWithout(q, Actions(before), Actions(after), 0);
  }

  /** The casts take off whole multiples of the field's range, of negative numbers too; a flag is any number but 0. */
  lemma CastsKeepLowBits(q: Info, n: int)
    ensures AssignNumber(q, QpNum, n).qpNum == n - n / WORD * WORD && AssignNumber(q, QpNum, n).qpNum < WORD
    ensures AssignNumber(q, Mtu, n).mtu == n - n / WORD * WORD && AssignNumber(q, Mtu, n).mtu < WORD
    ensures AssignNumber(q, Lid, n).lid == n - n / HALF * HALF && AssignNumber(q, Lid, n).lid < HALF
    ensures AssignNumber(q, GidTableIndex, n).gidTableIndex == n - n / BYTE * BYTE && AssignNumber(q, GidTableIndex, n).gidTableIndex < BYTE
    ensures AssignNumber(q, IsInitialized, n).isInitialized <==> n != 0
  {
  }

  predicate Clean(s: string) { ';' !in s && ':' !in s }

  /** What the round trip needs: `std::stoi` must accept the two 32-bit numbers, and the names must not
      contain the two separators. */
  predicate Portable(q: Info) {
    q.qpNum < INT_LIMIT && q.mtu < INT_LIMIT && Clean(q.hostname) && Clean(q.nicName)
  }

  lemma DecClean(n: nat)
    ensures Clean(Dec(n))
  {
  }

  predicate IsNumberKey(k: Key) { k.QpNum? || k.Lid? || k.GidTableIndex? || k.Mtu? || k.IsInitialized? }

  lemma ReadField(key: string, k: Key, value: string)
    requires ':' !in key && ':' !in value && key != "" && KeyNamed(key) == k
    ensures ActionOf(Field(key, value)) == ActionFor(k, value)
  {
    SplitField(key, value);
  }

  lemma ReadNumber(key: string, k: Key, n: nat)
    requires ':' !in key && key != "" && KeyNamed(key) == k && IsNumberKey(k)
    ensures ActionOf(Field(key, Dec(n))) == SetNumber(k, if n < INT_LIMIT then Value(n) else Throws)
  {
    DecClean(n);
    StoiOfDec(n);
    ReadField(key, k, Dec(n));
  }

  lemma KeyNames()
    ensures KeyNamed("qp_num").QpNum? && KeyNamed("lid").Lid? && KeyNamed("gid").Gid?
    ensures KeyNamed("gid_table_index").GidTableIndex? && KeyNamed("mac").Mac? && KeyNamed("mtu").Mtu?
    ensures KeyNamed("hostname").Hostname? && KeyNamed("nic_name").NicName? && KeyNamed("is_initialized").IsInitialized?
  {
  }

  lemma ReadList(key: string, k: Key, s: seq<nat>)
    requires ':' !in key && key != "" && KeyNamed(key) == k && (k.Gid? || k.Mac?)
    ensures ActionOf(Field(key, CommaList(s))) == if k.Gid? then SetGid(Decs(s)) else SetMac(Decs(s))
  {
    ListTokens(s);
    ReadField(key, k, CommaList(s));
  }

  function Whole(n: nat): Parsed<int> { if n < INT_LIMIT then Value(n) else Throws }

  lemma NumberAt(key: string, k: Key, n: nat, tokens: seq<string>, i: nat)
    requires ':' !in key && key != "" && KeyNamed(key) == k && IsNumberKey(k)
    requires i < |tokens| && tokens[i] == Field(key, Dec(n))
    ensures Actions(tokens)[i] == SetNumber(k, Whole(n))
  {
    ReadNumber(key, k, n);
    ActionsAt(tokens, i, Field(key, Dec(n)), SetNumber(k, Whole(n)));
  }

  lemma ListAt(key: string, k: Key, s: seq<nat>, tokens: seq<string>, i: nat)
    requires ':' !in key && key != "" && KeyNamed(key) == k && (k.Gid? || k.Mac?)
    requires i < |tokens| && tokens[i] == Field(key, CommaList(s))
    ensures Actions(tokens)[i] == if k.Gid? then SetGid(Decs(s)) else SetMac(Decs(s))
  {
    ReadList(key, k, s);
    ActionsAt(tokens, i, Field(key, CommaList(s)), if k.Gid? then SetGid(Decs(s)) else SetMac(Decs(s)));
  }

  lemma NameAt(key: string, k: Key, s: string, tokens: seq<string>, i: nat)
    requires ':' !in key && key != "" && KeyNamed(key) == k && (k.Hostname? || k.NicName?) && Name(s) && ':' !in s
    requires i < |tokens| && tokens[i] == Field(key, s)
    ensures Actions(tokens)[i] == if k.Hostname? then SetHostname(s) else SetNicName(s)
  {
    ReadField(key, k, s);
    ActionsAt(tokens, i, Field(key, s), if k.Hostname? then SetHostname(s) else SetNicName(s));
  }

  lemma FlagAt(key: string, b: bool, tokens: seq<string>, i: nat)
    requires ':' !in key && key != "" && KeyNamed(key).IsInitialized?
    requires i < |tokens| && tokens[i] == Field(key, Flag(b))
    ensures Actions(tokens)[i] == SetNumber(IsInitialized, Value(if b then 1 else 0))
  {
    FlagIsDec(b);
    NumberAt(key, IsInitialized, if b then 1 else 0, tokens, i);
  }

  lemma FlagIsDec(b: bool)
    ensures Flag(b) == Dec(if b then 1 else 0)
  {
  }

  /** The casts do not change numbers in range. */
  lemma AssignInRange(r: Info, n: nat)
    ensures n < WORD ==> AssignNumber(r, QpNum, n) == r.(qpNum := n) && AssignNumber(r, Mtu, n) == r.(mtu := n)
    ensures n < HALF ==> AssignNumber(r, Lid, n) == r.(lid := n)
    ensures n < BYTE ==> AssignNumber(r, GidTableIndex, n) == r.(gidTableIndex := n)
  {
    if n < WORD { RemainderUnique(n, WORD, 0, n); }
    if n < HALF { RemainderUnique(n, HALF, 0, n); }
    if n < BYTE { RemainderUnique(n, BYTE, 0, n); }
  }

  /** An object after the first three and six fields. */
  function After3(r: Info, q: Info): Info {
    Info(q.qpNum, q.lid, q.gid, r.gidTableIndex, r.mtu, r.mac, r.hostname, r.nicName, r.isInitialized)
  }

  function After6(r: Info, q: Info): Info {
    Info(q.qpNum, q.lid, q.gid, q.gidTableIndex, q.mtu, q.mac, r.hostname, r.nicName, r.isInitialized)
  }

  lemma AbsorbOne(q: Info, r: Info, a: seq<Action>, i: nat)
    requires i < |a| && Assign(q, a[i]) == Done(r)
    ensures Absorb(q, a, i) == Absorb(r, a, i + 1)
  {
  }

  lemma AbsorbThree(r0: Info, r1: Info, r2: Info, r3: Info, a: seq<Action>, i: nat)
    requires i + 2 < |a| && Assign(r0, a[i]) == Done(r1) && Assign(r1, a[i + 1]) == Done(r2) && Assign(r2, a[i + 2]) == Done(r3)
    ensures Absorb(r0, a, i) == Absorb(r3, a, i + 3)
  {
    AbsorbOne(r0, r1, a, i);
    AbsorbOne(r1, r2, a, i + 1);
    AbsorbOne(r2, r3, a, i + 2);
  }

  lemma AbsorbFirst(r: Info, q: Info, a: seq<Action>)
    requires Sound(q) && |r.gid| == 16 && |a| >= 3 && a[0] == SetNumber(QpNum, Value(q.qpNum))
    requires a[1] == SetNumber(Lid, Value(q.lid)) && a[2] == SetGid(Decs(q.gid))
    ensures Absorb(r, a, 0) == Absorb(After3(r, q), a, 3)
  {
    AssignInRange(r, q.qpNum);
    var r1 := r.(qpNum := q.qpNum);
    AssignInRange(r1, q.lid);
    var r2 := r1.(lid := q.lid);
    FillDecs(r.gid, q.gid, 0);
    AbsorbThree(r, r1, r2, After3(r, q), a, 0);
  }

  lemma AbsorbSecond(r: Info, q: Info, a: seq<Action>)
    requires Sound(q) && |r.mac| == 6 && |a| >= 6 && a[3] == SetNumber(GidTableIndex, Value(q.gidTableIndex))
    requires a[4] == SetMac(Decs(q.mac)) && a[5] == SetNumber(Mtu, Value(q.mtu))
    ensures Absorb(After3(r, q), a, 3) == Absorb(After6(r, q), a, 6)
  {
    var r3 := After3(r, q);
    AssignInRange(r3, q.gidTableIndex);
    var r4 := r3.(gidTableIndex := q.gidTableIndex);
    var r5 := r4.(mac := q.mac);
    AssignInRange(r5, q.mtu);
    FillDecs(r.mac, q.mac, 0);
    AbsorbThree(r3, r4, r5, After6(r, q), a, 3);
  }

  lemma AbsorbThird(r: Info, q: Info, a: seq<Action>)
    requires |a| == 9 && a[6] == SetHostname(q.hostname) && a[7] == SetNicName(q.nicName)
    requires a[8] == SetNumber(IsInitialized, Value(if q.isInitialized then 1 else 0))
    ensures Absorb(After6(r, q), a, 6) == Done(q)
  {
    var r7 := After6(r, q).(hostname := q.hostname);
    AbsorbThree(After6(r, q), r7, r7.(nicName := q.nicName), q, a, 6);
  }

  lemma FieldClean(key: string, value: string)
    requires ';' !in key && ';' !in value
    ensures ';' !in Field(key, value)
  {
  }

  /** All fields but the two names never contain the field separator. */
  lemma FieldsClean(q: Info, k: nat)
    requires k < 9 && (k == 6 ==> ';' !in q.hostname) && (k == 7 ==> ';' !in q.nicName)
    ensures ';' !in Fields(q)[k]
  {
    DecClean(q.qpNum);
    DecClean(q.lid);
    DecClean(q.gidTableIndex);
    DecClean(q.mtu);
    ListTokens(q.gid);
    ListTokens(q.mac);
  }

  /** With clean names the tokens are the fields. */
  lemma CleanTokens(q: Info)
    requires Clean(q.hostname) && Clean(q.nicName)
    ensures Tokens(Serialize(q), ';') == Fields(q)
  {
    forall k | 0 <= k < 9 ensures ';' !in Fields(q)[k] { FieldsClean(q, k); }
    var f := Fields(q);
    assert f[8] != "";
    TokensOfClosed(f[..8], ';', f[8]);
    OnlyToken(f[8], ';');
    assert f[..8] + [f[8]] == f;
  }

  /** The first six tokens are the ones that q is written with. */
  predicate NumbersWritten(q: Info, tokens: seq<string>) {
    && |tokens| >= 6
    && tokens[0] == Field("qp_num", Dec(q.qpNum)) && tokens[1] == Field("lid", Dec(q.lid))
    && tokens[2] == Field("gid", CommaList(q.gid)) && tokens[3] == Field("gid_table_index", Dec(q.gidTableIndex))
    && tokens[4] == Field("mac", CommaList(q.mac)) && tokens[5] == Field("mtu", Dec(q.mtu))
  }

  predicate NamesWritten(q: Info, tokens: seq<string>) {
    && |tokens| == 9
    && tokens[6] == Field("hostname", q.hostname) && tokens[7] == Field("nic_name", q.nicName)
    && tokens[8] == Field("is_initialized", Flag(q.isInitialized))
  }

  lemma DeserializeFirst(r: Info, q: Info, tokens: seq<string>)
    requires Sound(q) && |r.gid| == 16 && NumbersWritten(q, tokens) && q.qpNum < INT_LIMIT
    ensures Absorb(r, Actions(tokens), 0) == Absorb(After3(r, q), Actions(tokens), 3)
  {
    KeyNames();
    NumberAt("qp_num", QpNum, q.qpNum, tokens, 0);
    NumberAt("lid", Lid, q.lid, tokens, 1);
    ListAt("gid", Gid, q.gid, tokens, 2);
    AbsorbFirst(r, q, Actions(tokens));
  }

  lemma DeserializeSecond(r: Info, q: Info, tokens: seq<string>)
    requires Sound(q) && |r.mac| == 6 && NumbersWritten(q, tokens) && q.mtu < INT_LIMIT
    ensures Absorb(After3(r, q), Actions(tokens), 3) == Absorb(After6(r, q), Actions(tokens), 6)
  {
    SecondActions(q, tokens);
    AbsorbSecond(r, q, Actions(tokens));
  }

  lemma DeserializeThird(r: Info, q: Info, tokens: seq<string>)
    requires Sound(q) && Clean(q.hostname) && Clean(q.nicName) && NamesWritten(q, tokens)
    ensures Absorb(After6(r, q), Actions(tokens), 6) == Done(q)
  {
    KeyNames();
    NameAt("hostname", Hostname, q.hostname, tokens, 6);
    NameAt("nic_name", NicName, q.nicName, tokens, 7);
    FlagAt("is_initialized", q.isInitialized, tokens, 8);
    AbsorbThird(r, q, Actions(tokens));
  }

  lemma FieldsAreWritten(q: Info)
    ensures NumbersWritten(q, Fields(q)) && NamesWritten(q, Fields(q))
  {
  }

  lemma TokensRestore(q: Info, r: Info, tokens: seq<string>)
    requires Sound(q) && Sound(r) && Portable(q) && NumbersWritten(q, tokens) && NamesWritten(q, tokens)
    ensures Absorb(r, Actions(tokens), 0) == Done(q)
  {
    DeserializeFirst(r, q, tokens);
    DeserializeSecond(r, q, tokens);
    DeserializeThird(r, q, tokens);
  }

  lemma PortableIsRestored(q: Info, r: Info)
    requires Sound(q) && Sound(r) && Portable(q)
    ensures Deserialize(r, Serialize(q)) == Done(q)
  {
    CleanTokens(q);
    FieldsAreWritten(q);
    TokensRestore(q, r, Fields(q));
  }

  // What does not survive

  /** The text after the first six fields. */
  function NamesText(q: Info): string {
    Field("hostname", q.hostname) + ";" + (Field("nic_name", q.nicName) + ";" + Field("is_initialized", Flag(q.isInitialized)))
  }

  function NumberFields(q: Info): seq<string> {
    [Field("qp_num", Dec(q.qpNum)), Field("lid", Dec(q.lid)), Field("gid", CommaList(q.gid)),
     Field("gid_table_index", Dec(q.gidTableIndex)), Field("mac", CommaList(q.mac)), Field("mtu", Dec(q.mtu))]
  }

  lemma SerializeInTwo(q: Info)
    ensures Serialize(q) == Closed(NumberFields(q), ';') + NamesText(q)
  {
    var six, h, n, i := NumberFields(q), Field("hostname", q.hostname), Field("nic_name", q.nicName), Field("is_initialized", Flag(q.isInitialized));
    assert Fields(q)[..8] == six + [h, n] && Fields(q)[8] == i;
    ClosedConcat(six, [h, n], ';');
    ClosedOfTwo(h, n, i);
  }

  lemma ClosedOfTwo(h: string, n: string, i: string)
    ensures Closed([h, n], ';') + i == h + ";" + (n + ";" + i)
  {
    assert [h, n][..1] == [h] && [h][..0] == [];
    assert Closed([h], ';') == h + ";";
    assert Closed([h, n], ';') == (h + ";") + n + ";";
  }

  lemma NumberFieldsClean(q: Info, k: nat)
    requires k < 6
    ensures ';' !in NumberFields(q)[k]
  {
    DecClean(q.qpNum);
    DecClean(q.lid);
    DecClean(q.gidTableIndex);
    DecClean(q.mtu);
    ListTokens(q.gid);
    ListTokens(q.mac);
  }

  /** Whatever the names are, the first six tokens are the fields written. */
  lemma TokensInTwo(q: Info)
    ensures Tokens(Serialize(q), ';') == NumberFields(q) + Tokens(NamesText(q), ';')
    ensures NumbersWritten(q, Tokens(Serialize(q), ';'))
  {
    SerializeInTwo(q);
    forall k | 0 <= k < 6 ensures ';' !in NumberFields(q)[k] { NumberFieldsClean(q, k); }
    TokensOfClosed(NumberFields(q), ';', NamesText(q));
  }

  predicate CleanAction(a: Action) {
    (a.SetHostname? || a.SetNicName? ==> Clean(a.s))
  }

  /** A name that was read contains no separator. */
  lemma ActionIsClean(token: string)
    requires ';' !in token
    ensures CleanAction(ActionOf(token))
  {
    TokensHaveOnly(token, ':', ';');
    var v := ValueOf(token);
    assert ';' !in v;
    assert CopyName(v) <= v;
  }

  lemma {:induction false} ActionsAreClean(tokens: seq<string>)
    requires forall i :: 0 <= i < |tokens| ==> ';' !in tokens[i]
    ensures forall i :: 0 <= i < |tokens| ==> CleanAction(Actions(tokens)[i])
  {
    if tokens != [] {
      ActionsAreClean(tokens[..|tokens| - 1]);
      ActionIsClean(tokens[|tokens| - 1]);
    }
  }

  lemma {:induction false} HostnameComesOutClean(q: Info, a: seq<Action>, i: nat, k: nat)
    requires forall j :: 0 <= j < |a| ==> CleanAction(a[j])
    requires Clean(q.hostname) || (i <= k < |a| && a[k].SetHostname?)
    ensures Absorb(q, a, i).Done? ==> Clean(Absorb(q, a, i).info.hostname)
    decreases |a| - i
  {
    if i < |a| && Assign(q, a[i]).Done? { HostnameComesOutClean(Assign(q, a[i]).info, a, i + 1, k); }
  }

  lemma {:induction false} NicNameComesOutClean(q: Info, a: seq<Action>, i: nat, k: nat)
    requires forall j :: 0 <= j < |a| ==> CleanAction(a[j])
    requires Clean(q.nicName) || (i <= k < |a| && a[k].SetNicName?)
    ensures Absorb(q, a, i).Done? ==> Clean(Absorb(q, a, i).info.nicName)
    decreases |a| - i
  {
    if i < |a| && Assign(q, a[i]).Done? { NicNameComesOutClean(Assign(q, a[i]).info, a, i + 1, k); }
  }

  /** The first token of `key:...` has that key, wherever the separator comes. */
  lemma FirstKey(key: string, x: string, rest: string)
    requires ':' !in key && ';' !in key && key != ""
    ensures Tokens(Field(key, x) + ";" + rest, ';') != []
    ensures KeyOf(Tokens(Field(key, x) + ";" + rest, ';')[0]) == key
  {
    var b := x + ";" + rest;
    assert Field(key, x) + ";" + rest == (key + ":") + b;
    FirstTokenStarts(key + ":", ';', b);
    assert (key + ":") + b[..Before(b, ';')] == Field(key, b[..Before(b, ';')]);
    KeyOfField(key, b[..Before(b, ';')]);
  }

  lemma KeyedAction(tokens: seq<string>, i: nat, token: string, key: Key)
    requires i < |tokens| && tokens[i] == token && KeyNamed(KeyOf(token)) == key
    ensures key.Hostname? ==> Actions(tokens)[i].SetHostname?
    ensures key.NicName? ==> Actions(tokens)[i].SetNicName?
  {
    ActionsAt(tokens, i, token, ActionOf(token));
  }

  lemma SecondPart(a: seq<string>, b: seq<string>, tokens: seq<string>, k: nat)
    requires tokens == a + b && k < |b|
    ensures |tokens| > |a| + k && tokens[|a| + k] == b[k]
  {
  }

  lemma HostnameIsSet(q: Info)
    ensures |Tokens(Serialize(q), ';')| > 6 && Actions(Tokens(Serialize(q), ';'))[6].SetHostname?
  {
    TokensInTwo(q);
    var tokens, names := Tokens(Serialize(q), ';'), Tokens(NamesText(q), ';');
    FirstKey("hostname", q.hostname, Field("nic_name", q.nicName) + ";" + Field("is_initialized", Flag(q.isInitialized)));
    SecondPart(NumberFields(q), names, tokens, 0);
    KeyedAction(tokens, 6, names[0], Hostname);
  }

  /** With a clean host name, the token after it is the one of the NIC name. */
  lemma SecondName(q: Info)
    requires Clean(q.hostname)
    ensures |Tokens(NamesText(q), ';')| > 1 && KeyOf(Tokens(NamesText(q), ';')[1]) == "nic_name"
  {
    var last := Field("is_initialized", Flag(q.isInitialized));
    FieldClean("hostname", q.hostname);
    FirstToken(Field("hostname", q.hostname), ';', Field("nic_name", q.nicName) + ";" + last);
    FirstKey("nic_name", q.nicName, last);
  }

  lemma NicNameIsSet(q: Info)
    requires Clean(q.hostname)
    ensures |Tokens(Serialize(q), ';')| > 7 && Actions(Tokens(Serialize(q), ';'))[7].SetNicName?
  {
    TokensInTwo(q);
    var tokens, names := Tokens(Serialize(q), ';'), Tokens(NamesText(q), ';');
    SecondName(q);
    SecondPart(NumberFields(q), names, tokens, 1);
    KeyedAction(tokens, 7, names[1], NicName);
  }

  lemma DirtyNamesDoNotReturn(q: Info, r: Info)
    requires Sound(q) && Sound(r) && !(Clean(q.hostname) && Clean(q.nicName))
    ensures Deserialize(r, Serialize(q)) != Done(q)
  {
    var tokens := Tokens(Serialize(q), ';');
    ActionsAreClean(tokens);
    HostnameIsSet(q);
    HostnameComesOutClean(r, Actions(tokens), 0, 6);
    if Clean(q.hostname) {
      NicNameIsSet(q);
      NicNameComesOutClean(r, Actions(tokens), 0, 7);
    }
  }

  lemma LargeMtuThrows(q: Info, r: Info, tokens: seq<string>)
    requires Sound(q) && Sound(r) && NumbersWritten(q, tokens) && q.qpNum < INT_LIMIT && q.mtu >= INT_LIMIT
    ensures Absorb(r, Actions(tokens), 0).Thrown?
  {
    DeserializeFirst(r, q, tokens);
    SecondActions(q, tokens);
    AbsorbToMtu(r, q, Actions(tokens));
  }

  lemma SecondActions(q: Info, tokens: seq<string>)
    requires Sound(q) && NumbersWritten(q, tokens)
    ensures Actions(tokens)[3] == SetNumber(GidTableIndex, Whole(q.gidTableIndex)) && Actions(tokens)[4] == SetMac(Decs(q.mac))
    ensures Actions(tokens)[5] == SetNumber(Mtu, Whole(q.mtu))
  {
    KeyNames();
    NumberAt("gid_table_index", GidTableIndex, q.gidTableIndex, tokens, 3);
    ListAt("mac", Mac, q.mac, tokens, 4);
    NumberAt("mtu", Mtu, q.mtu, tokens, 5);
  }

  lemma LargeNumbersThrow(q: Info, r: Info)
    requires Sound(q) && Sound(r) && (q.qpNum >= INT_LIMIT || q.mtu >= INT_LIMIT)
    ensures Deserialize(r, Serialize(q)).Thrown?
  {
    var tokens := Tokens(Serialize(q), ';');
    TokensInTwo(q);
    if q.qpNum < INT_LIMIT {
      LargeMtuThrows(q, r, tokens);
    } else {
      KeyNames();
      NumberAt("qp_num", QpNum, q.qpNum, tokens, 0);
    }
  }

  lemma AbsorbToMtu(r: Info, q: Info, a: seq<Action>)
    requires Sound(q) && |r.mac| == 6 && |a| >= 6 && a[3] == SetNumber(GidTableIndex, Value(q.gidTableIndex))
    requires a[4] == SetMac(Decs(q.mac)) && a[5] == SetNumber(Mtu, Throws)
    ensures Absorb(After3(r, q), a, 3).Thrown?
  {
    var r3 := After3(r, q);
    AssignInRange(r3, q.gidTableIndex);
    var r4 := r3.(gidTableIndex := q.gidTableIndex);
    FillDecs(r.mac, q.mac, 0);
    AbsorbOne(r3, r4, a, 3);
    AbsorbOne(r4, r4.(mac := q.mac), a, 4);
  }

  /** Reading back what was written restores every field, whatever the object held before, exactly when the
      queue-pair number and the MTU fit an int and the two names are free of the separators. */
  lemma RoundTripIff(q: Info, r: Info)
    requires Sound(q) && Sound(r)
    ensures Deserialize(r, Serialize(q)) == Done(q) <==> Portable(q)
  {
    if Portable(q) {
      PortableIsRestored(q, r);
    } else if q.qpNum >= INT_LIMIT || q.mtu >= INT_LIMIT {
      LargeNumbersThrow(q, r);
    } else {
      DirtyNamesDoNotReturn(q, r);
    }
  }
}
