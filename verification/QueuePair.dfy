/** The QPInfo object (`src/dispatcher_impl/roce/qpinfo.hh`): fields assigned in place, text built up piece by
    piece and taken apart token by token. */
module QueuePair {
  import opened Text
  import opened QpInfo

  /** The constructor's gid_ptr: null, or the address of 16 bytes. */
  datatype GidPtr = NoGid | GidAt(bytes: seq<nat>)

  function GidOf(p: GidPtr): seq<nat> {
    match p case NoGid => seq(16, _ => 0) case GidAt(bytes) => bytes
  }

  class QueuePair {
    var qpNum: nat
    var lid: nat
    const gid: array<nat>
    var gidTableIndex: nat
    var mtu: nat
    const mac: array<nat>
    var hostname: string
    var nicName: string
    var isInitialized: bool

    ghost predicate Valid()
      reads this
    {
      gid != mac
    }

    ghost function State(): Info
      reads this, gid, mac
    {
      Info(qpNum, lid, gid[..], gidTableIndex, mtu, mac[..], hostname, nicName, isInitialized)
    }

    constructor (qpNum: nat, lid: nat, gidPtr: GidPtr, mtu: nat, hostname: string, nicName: string)
      requires qpNum < WORD && lid < HALF && mtu < WORD
      requires gidPtr.GidAt? ==> |gidPtr.bytes| == 16 && Bytes(gidPtr.bytes)
      ensures Valid() && fresh(gid) && fresh(mac) && Sound(State())
      ensures State() == Info(qpNum, lid, GidOf(gidPtr), 0, mtu, seq(6, _ => 0), CopyName(hostname), CopyName(nicName), false)
    {
      this.qpNum, this.lid, this.mtu, gidTableIndex, isInitialized := qpNum, lid, mtu, 0, false;
      gid := new nat[16](i requires 0 <= i < 16 => if gidPtr.GidAt? then gidPtr.bytes[i] else 0);
      mac := new nat[6](_ => 0);
      this.hostname, this.nicName := CopyName(hostname), CopyName(nicName);
      new;
      assert gid[..] == GidOf(gidPtr) && mac[..] == seq(6, _ => 0);
    }

    static method ListText(a: array<nat>) returns (s: string)
      ensures s == CommaList(a[..])
    {
      s := "";
      assert Decs(a[..])[..0] == [];
      for i := 0 to a.Length
        invariant s == Closed(Decs(a[..])[..i], ',')
      {
        ClosedNext(Decs(a[..])[..i], Dec(a[i]), ',');
        assert Decs(a[..])[..i + 1] == Decs(a[..])[..i] + [Dec(a[i])];
        s := s + Dec(a[i]) + ",";
      }
      assert Decs(a[..])[..a.Length] == Decs(a[..]);
    }

    static method AddField(data: string, key: string, value: string, ghost fields: seq<string>)
      returns (r: string, ghost more: seq<string>)
      requires data == Closed(fields, ';')
      ensures more == fields + [Field(key, value)] && r == Closed(more, ';')
    {
      ClosedNext(fields, Field(key, value), ';');
      more := fields + [Field(key, value)];
      r := data + (key + ":" + value) + ";";
    }

    method NumbersText() returns (data: string)
      ensures data == Closed(NumberFields(State()), ';')
    {
      data := "";
      ghost var f: seq<string> := [];
      data, f := AddField(data, "qp_num", Dec(qpNum), f);
      data, f := AddField(data, "lid", Dec(lid), f);
      var gids := ListText(gid);
      data, f := AddField(data, "gid", gids, f);
      data, f := AddField(data, "gid_table_index", Dec(gidTableIndex), f);
      var macs := ListText(mac);
      data, f := AddField(data, "mac", macs, f);
      data, f := AddField(data, "mtu", Dec(mtu), f);
      assert f == NumberFields(State());
    }

    method Serialize() returns (data: string)
      ensures data == QpInfo.Serialize(State())
    {
      data := NumbersText();
      data := data + (("hostname" + ":" + hostname) + ";" + (("nic_name" + ":" + nicName) + ";"
                   + ("is_initialized" + ":" + Flag(isInitialized))));
      SerializeInTwo(State());
    }

    /** Numbers go to consecutive places until the array or the text ends; false if one throws. */
    static method FillBytes(a: array<nat>, tokens: seq<string>) returns (ok: bool)
      modifies a
      ensures (if ok then Full(a[..]) else Broken(a[..])) == Fill(old(a[..]), tokens, 0)
    {
      var i := 0;
      while i < |tokens| && i < a.Length
        invariant i <= |tokens| && i <= a.Length
        invariant Fill(a[..], tokens, i) == Fill(old(a[..]), tokens, 0)
      {
        var n := Stoi(tokens[i]);
        if n.Throws? { return false; }
        ghost var was := a[..];
        var byte: nat := n.value % BYTE;
        a[i] := byte;
        assert a[..] == was[i := byte];
        i := i + 1;
      }
      ok := true;
    }

    method AssignToken(action: Action) returns (ok: bool)
      requires Valid()
      modifies this, gid, mac
      ensures Valid() && (if ok then Done(State()) else Thrown(State())) == Assign(old(State()), action)
    {
      ok := true;
      match action
      case SetNumber(key, n) =>
        if n.Throws? { return false; }
        if key.QpNum? { qpNum := n.value % WORD; }
        else if key.Lid? { lid := n.value % HALF; }
        else if key.GidTableIndex? { gidTableIndex := n.value % BYTE; }
        else if key.Mtu? { mtu := n.value % WORD; }
        else if key.IsInitialized? { isInitialized := n.value != 0; }
      case SetGid(tokens) => ok := FillBytes(gid, tokens);
      case SetMac(tokens) => ok := FillBytes(mac, tokens);
      case SetHostname(s) => hostname := s;
      case SetNicName(s) => nicName := s;
      case Ignore =>
    }

    /** False means that `std::stoi` threw; the fields keep what was assigned before. */
    method Deserialize(data: string) returns (ok: bool)
      requires Valid()
      modifies this, gid, mac
      ensures Valid() && (if ok then Done(State()) else Thrown(State())) == QpInfo.Deserialize(old(State()), data)
    {
      var actions := Actions(Tokens(data, ';'));
      for i := 0 to |actions|
        invariant Valid() && Absorb(State(), actions, i) == Absorb(old(State()), actions, 0)
      {
        var accepted := AssignToken(actions[i]);
        if !accepted { return false; }
      }
      ok := true;
    }
  }
}
